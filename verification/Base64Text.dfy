/** The encoding as section 4 and section 5 of RFC 4648 tell it: three bytes are one number, and four letters. */
module Base64Text {
  import opened Base64Url

  const UPPER: string := "ABCDEFGHIJKLMNOPQRSTUVWXYZ"
  const LOWER: string := "abcdefghijklmnopqrstuvwxyz"
  const OTHERS: string := "0123456789-_"

  const ALPHABET: string := UPPER + LOWER + OTHERS

  function Letter(v: Sextet): char
  {
    LettersAre();
    ALPHABET[v]
  }

  lemma LettersAre()
    ensures |ALPHABET| == 64
  {
  }

  lemma LowLetters(v: Sextet)
    requires v < 26
    ensures ALPHABET[v] == 'A' + v as char
  {
    assert |UPPER| == 26 && ALPHABET[v] == UPPER[v];
  }

  lemma MiddleLetters(v: Sextet)
    requires 26 <= v < 52
    ensures ALPHABET[v] == 'a' + (v - 26) as char
  {
    assert |UPPER| == 26 && |LOWER| == 26 && ALPHABET[v] == LOWER[v - 26];
  }

  lemma HighLetters(v: Sextet)
    requires 52 <= v
    ensures ALPHABET[v] == if v < 62 then '0' + (v - 52) as char else if v == 62 then '-' else '_'
  {
    assert |UPPER| == 26 && |LOWER| == 26 && ALPHABET[v] == OTHERS[v - 52];
  }

  lemma LetterIs(v: Sextet)
    ensures ToUrl(Char(v)) == Letter(v)
  {
    if v < 26 { LowLetters(v); } else if v < 52 { MiddleLetters(v); } else { HighLetters(v); }
  }

  function Letters(vs: seq<Sextet>): string {
    seq(|vs|, i requires 0 <= i < |vs| => Letter(vs[i]))
  }

  lemma EncodeLetters(bytes: seq<Byte>)
    ensures Encode(bytes) == Letters(Sextets(bytes))
  {
    EncodeIs(bytes);
    hide Encode, Sextets, Letter;
    forall v: Sextet ensures ToUrl(Char(v)) == Letter(v) { LetterIs(v); }
    hide ToUrl, Char;
  }

  lemma Quotient(n: int, k: int, q: int, r: int)
    requires n == q * k + r && 0 <= r < k
    ensures n / k == q && n % k == r
  {
    var d := q - n / k;
    assert q * k - n / k * k == d * k;
    assert d >= 1 ==> d * k >= k;
    assert d <= -1 ==> d * k <= -k;
  }

  /** The four sextets of a number of 24 bits, from the top. */
  lemma SextetsOfNumber(a: Byte, b: Byte, c: Byte)
    ensures var n := a * 65536 + b * 256 + c;
            && n / 262144 == a / 4 && n / 4096 % 64 == Second(a, b) && n / 64 % 64 == Third(b, c) && n % 64 == c % 64
  {
    var n := a * 65536 + b * 256 + c;
    var (p, q, r, s) := (a / 4, Second(a, b), Third(b, c), c % 64);
    assert n == p * 262144 + q * 4096 + r * 64 + s;
    Quotient(n, 262144, p, q * 4096 + r * 64 + s);
    Quotient(n, 4096, p * 64 + q, r * 64 + s);
    Quotient(n, 64, p * 4096 + q * 64 + r, s);
    Quotient(p * 64 + q, 64, p, q);
    Quotient(p * 4096 + q * 64 + r, 64, p * 64 + q, r);
  }

  lemma LettersJoin(vs: seq<Sextet>, ws: seq<Sextet>)
    ensures Letters(vs + ws) == Letters(vs) + Letters(ws)
  {
    hide Letter;
  }

  lemma FirstSextets(a: Byte, b: Byte, c: Byte, rest: seq<Byte>)
    ensures Sextets([a, b, c] + rest) == [a / 4, Second(a, b), Third(b, c), c % 64] + Sextets(rest)
  {
    hide Second, Third;
    assert ([a, b, c] + rest)[3..] == rest;
  }

  /** Three bytes make one number of 24 bits, and its four sextets four letters, before the rest. */
  lemma ThreeBytes(a: Byte, b: Byte, c: Byte, rest: seq<Byte>)
    ensures var n := a * 65536 + b * 256 + c;
            Encode([a, b, c] + rest)
            == [Letter(n / 262144), Letter(n / 4096 % 64), Letter(n / 64 % 64), Letter(n % 64)] + Encode(rest)
  {
    SextetsOfNumber(a, b, c);
    FirstSextets(a, b, c, rest);
    EncodeLetters([a, b, c] + rest);
    EncodeLetters(rest);
    var four: seq<Sextet> := [a / 4, Second(a, b), Third(b, c), c % 64];
    LettersJoin(four, Sextets(rest));
    hide Encode, Letter, Sextets, Second, Third;
    assert Letters(four) == [Letter(four[0]), Letter(four[1]), Letter(four[2]), Letter(four[3])];
  }

  lemma LastSextets(a: Byte, b: Byte)
    ensures var n := a * 1024 + b * 4;
            n / 4096 == a / 4 && n / 64 % 64 == Second(a, b) && n % 64 == Third(b, 0)
  {
    var n := a * 1024 + b * 4;
    var (p, q, r) := (a / 4, Second(a, b), Third(b, 0));
    assert n == p * 4096 + q * 64 + r;
    Quotient(n, 4096, p, q * 64 + r);
    Quotient(n, 64, p * 64 + q, r);
    Quotient(p * 64 + q, 64, p, q);
  }

  /** One byte at the end makes two letters and two bytes make three, with zero bits after them; none make none. */
  lemma LastBytes(a: Byte, b: Byte)
    ensures Encode([]) == ""
    ensures Encode([a]) == [Letter(a / 4), Letter(a % 4 * 16)]
    ensures var n := a * 1024 + b * 4; Encode([a, b]) == [Letter(n / 4096), Letter(n / 64 % 64), Letter(n % 64)]
  {
    EncodeLetters([]);
    EncodeLetters([a]);
    EncodeLetters([a, b]);
    LastSextets(a, b);
    hide Encode, Letter;
  }
}
