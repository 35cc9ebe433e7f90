/** base64url text for bytes, as section 5 of RFC 4648 defines it, without padding. */
module Base64Url {
  import opened Common

  type Byte = b: int | 0 <= b < 256
  type Sextet = v: int | 0 <= v < 64

  // ---- three bytes and four sextets ----------------------------------------

  function Second(a: Byte, b: Byte): Sextet {
    a % 4 * 16 + b / 16
  }

  function Third(b: Byte, c: Byte): Sextet {
    b % 16 * 4 + c / 64
  }

  /** Four sextets for three bytes; one or two bytes at the end are followed by zero bits. */
  function Sextets(bytes: seq<Byte>): seq<Sextet> {
    if |bytes| == 0 then []
    else if |bytes| == 1 then [bytes[0] / 4, Second(bytes[0], 0)]
    else if |bytes| == 2 then [bytes[0] / 4, Second(bytes[0], bytes[1]), Third(bytes[1], 0)]
    else [bytes[0] / 4, Second(bytes[0], bytes[1]), Third(bytes[1], bytes[2]), bytes[2] % 64] + Sextets(bytes[3..])
  }

  function FirstByte(p: Sextet, q: Sextet): Byte {
    p * 4 + q / 16
  }

  function SecondByte(q: Sextet, r: Sextet): Byte {
    q % 16 * 16 + r / 4
  }

  function ThirdByte(r: Sextet, s: Sextet): Byte {
    r % 4 * 64 + s
  }

  /** Spare bits at the end are dropped. */
  function Bytes(s: seq<Sextet>): seq<Byte> {
    if |s| <= 1 then []
    else if |s| == 2 then [FirstByte(s[0], s[1])]
    else if |s| == 3 then [FirstByte(s[0], s[1]), SecondByte(s[1], s[2])]
    else [FirstByte(s[0], s[1]), SecondByte(s[1], s[2]), ThirdByte(s[2], s[3])] + Bytes(s[4..])
  }

  function PadCount(bytes: seq<Byte>): nat {
    (3 - |bytes| % 3) % 3
  }

  lemma {:induction false} SextetCount(bytes: seq<Byte>)
    ensures |Sextets(bytes)| == |bytes| / 3 * 4 + if |bytes| % 3 == 0 then 0 else |bytes| % 3 + 1
  {
    hide Second, Third;
    if |bytes| >= 3 {
      SextetCount(bytes[3..]);
      assert |bytes| / 3 == |bytes[3..]| / 3 + 1 && |bytes| % 3 == |bytes[3..]| % 3;
    }
  }

  lemma Lengths(bytes: seq<Byte>)
    ensures var n := |Sextets(bytes)|;
            && n % 4 != 1 && (n + PadCount(bytes)) % 4 == 0 && (4 - n % 4) % 4 == PadCount(bytes)
            && PadCount(bytes) <= 2 && (n == 0 ==> PadCount(bytes) == 0)
  {
    SextetCount(bytes);
    hide Sextets;
    FourTimes(|bytes| / 3, if |bytes| % 3 == 0 then 0 else |bytes| % 3 + 1);
  }

  lemma FourTimes(q: nat, r: nat)
    requires r < 4
    ensures (q * 4 + r) % 4 == r
  {
  }

  lemma GroupSurvives(a: Byte, b: Byte, c: Byte)
    ensures FirstByte(a / 4, Second(a, b)) == a
    ensures SecondByte(Second(a, b), Third(b, c)) == b
    ensures ThirdByte(Third(b, c), c % 64) == c
  {
  }

  lemma {:induction false} BytesOfSextets(bytes: seq<Byte>)
    ensures Bytes(Sextets(bytes)) == bytes
  {
    hide FirstByte, SecondByte, ThirdByte, Second, Third;
    if |bytes| == 1 {
      GroupSurvives(bytes[0], 0, 0);
    } else if |bytes| == 2 {
      GroupSurvives(bytes[0], bytes[1], 0);
    } else if |bytes| >= 3 {
      GroupSurvives(bytes[0], bytes[1], bytes[2]);
      BytesOfSextets(bytes[3..]);
      assert Sextets(bytes)[4..] == Sextets(bytes[3..]);
      assert bytes == [bytes[0], bytes[1], bytes[2]] + bytes[3..];
    }
  }

  // ---- the alphabets -------------------------------------------------------

  function Char(v: Sextet): char {
    if v < 26 then 'A' + v as char
    else if v < 52 then 'a' + (v - 26) as char
    else if v < 62 then '0' + (v - 52) as char
    else if v == 62 then '+' else '/'
  }

  function Value(c: char): Option<Sextet> {
    if 'A' <= c <= 'Z' then Some((c - 'A') as int)
    else if 'a' <= c <= 'z' then Some((c - 'a') as int + 26)
    else if '0' <= c <= '9' then Some((c - '0') as int + 52)
    else if c == '+' then Some(62)
    else if c == '/' then Some(63)
    else None
  }

  function ToUrl(c: char): char {
    if c == '+' then '-' else if c == '/' then '_' else c
  }

  function FromUrl(c: char): char {
    if c == '-' then '+' else if c == '_' then '/' else c
  }

  function MapChars(s: string, f: char -> char): (r: string)
    ensures |r| == |s| && forall i :: 0 <= i < |s| ==> r[i] == f(s[i])
  {
    seq(|s|, i requires 0 <= i < |s| => f(s[i]))
  }

  predicate UrlSafe(c: char) {
    'A' <= c <= 'Z' || 'a' <= c <= 'z' || '0' <= c <= '9' || c == '-' || c == '_'
  }

  lemma CharsAreApart(v: Sextet)
    ensures Value(Char(v)) == Some(v) && FromUrl(ToUrl(Char(v))) == Char(v) && UrlSafe(ToUrl(Char(v)))
    ensures Char(v) != '=' && !IsSpace(Char(v))
  {
  }

  lemma PadIsNoSpace()
    ensures !IsSpace('=') && Value('=').None?
  {
  }

  // ---- the standard coding: btoa and atob ----------------------------------

  function Text(s: seq<Sextet>): (r: string)
    ensures |r| == |s| && forall i :: 0 <= i < |s| ==> r[i] == Char(s[i])
  {
    seq(|s|, i requires 0 <= i < |s| => Char(s[i]))
  }

  function Pads(n: nat): (r: string)
    ensures |r| == n && forall i :: 0 <= i < n ==> r[i] == '='
  {
    seq(n, _ => '=')
  }

  function Btoa(bytes: seq<Byte>): string {
    Text(Sextets(bytes)) + Pads(PadCount(bytes))
  }

  predicate IsSpace(c: char) {
    c == ' ' || c == '\t' || c == '\n' || c == '\r' || c as int == 12
  }

  function DropSpaces(s: string): string {
    if s == "" then ""
    else if IsSpace(s[|s| - 1]) then DropSpaces(s[..|s| - 1])
    else DropSpaces(s[..|s| - 1]) + [s[|s| - 1]]
  }

  function Values(s: string): (r: Option<seq<Sextet>>)
    ensures r.Some? <==> forall i :: 0 <= i < |s| ==> Value(s[i]).Some?
    ensures r.Some? ==> |r.value| == |s| && forall i :: 0 <= i < |s| ==> Value(s[i]) == Some(r.value[i])
  {
    if s == "" then Some([])
    else
      var init := Values(s[..|s| - 1]);
      var last := Value(s[|s| - 1]);
      if init.Some? && last.Some? then Some(init.value + [last.value]) else None
  }

  /** One or two '=' are dropped, from a text of whole quadruples. */
  function Unpadded(s: string): string {
    if |s| % 4 != 0 || s == "" || s[|s| - 1] != '=' then s
    else if s[|s| - 2] != '=' then s[..|s| - 1]
    else s[..|s| - 2]
  }

  /** The browsers' forgiving decoder: nothing for text that is no base64. */
  function Atob(s: string): Option<seq<Byte>> {
    var core := Unpadded(DropSpaces(s));
    if |core| % 4 == 1 then None
    else
      match Values(core)
      case None => None
      case Some(values) => Some(Bytes(values))
  }

  // ---- base64url -----------------------------------------------------------

  function StripPads(s: string): string {
    if s != "" && s[|s| - 1] == '=' then StripPads(s[..|s| - 1]) else s
  }

  function Encode(bytes: seq<Byte>): string {
    StripPads(MapChars(Btoa(bytes), ToUrl))
  }

  function Repadded(s: string): string {
    MapChars(s, FromUrl) + Pads((4 - |s| % 4) % 4)
  }

  function Decode(s: string): Option<seq<Byte>> {
    Atob(Repadded(s))
  }

  lemma {:induction false} StripPadsOf(s: string, n: nat)
    requires s == "" || s[|s| - 1] != '='
    ensures StripPads(s + Pads(n)) == s
  {
    if n == 0 {
      assert s + Pads(0) == s;
    } else {
      assert (s + Pads(n))[..|s| + n - 1] == s + Pads(n - 1);
      StripPadsOf(s, n - 1);
    }
  }

  /** Encoded text is the sextets in the URL alphabet and nothing else. */
  lemma EncodeIs(bytes: seq<Byte>)
    ensures Encode(bytes) == MapChars(Text(Sextets(bytes)), ToUrl)
    ensures forall c <- Encode(bytes) :: UrlSafe(c)
  {
    hide Sextets, Char, UrlSafe, PadCount;
    var text := Text(Sextets(bytes));
    var n := PadCount(bytes);
    var safe := MapChars(text, ToUrl);
    assert MapChars(Btoa(bytes), ToUrl) == safe + Pads(n);
    forall i | 0 <= i < |safe| ensures UrlSafe(safe[i]) && safe[i] != '=' {
      CharsAreApart(Sextets(bytes)[i]);
    }
    StripPadsOf(safe, n);
  }

  /** The padding put back is the padding that was stripped. */
  lemma RepaddedIsBtoa(bytes: seq<Byte>)
    ensures Repadded(Encode(bytes)) == Btoa(bytes)
  {
    EncodeIs(bytes);
    Lengths(bytes);
    hide Sextets, Char, ToUrl, FromUrl, UrlSafe, Encode, PadCount;
    var text := Text(Sextets(bytes));
    forall i | 0 <= i < |text| ensures FromUrl(ToUrl(text[i])) == text[i] {
      CharsAreApart(Sextets(bytes)[i]);
    }
    assert MapChars(Encode(bytes), FromUrl) == text;
  }

  lemma {:induction false} NoSpaces(s: string)
    requires forall i :: 0 <= i < |s| ==> !IsSpace(s[i])
    ensures DropSpaces(s) == s
  {
    if s != "" {
      NoSpaces(s[..|s| - 1]);
      assert s == s[..|s| - 1] + [s[|s| - 1]];
    }
  }

  lemma ValuesOfText(v: seq<Sextet>)
    ensures Values(Text(v)) == Some(v)
  {
    forall i | 0 <= i < |v| ensures Value(Text(v)[i]) == Some(v[i]) {
      CharsAreApart(v[i]);
    }
    assert Values(Text(v)).value == v;
  }

  /** Of base64 text the padding is all that is dropped. */
  lemma UnpaddedBtoa(bytes: seq<Byte>)
    ensures Unpadded(DropSpaces(Btoa(bytes))) == Text(Sextets(bytes))
  {
    hide Sextets, Char, IsSpace, DropSpaces, PadCount;
    Lengths(bytes);
    var (v, s) := (Sextets(bytes), Btoa(bytes));
    forall i | 0 <= i < |v| ensures !IsSpace(Text(v)[i]) && Text(v)[i] != '=' {
      CharsAreApart(v[i]);
    }
    PadIsNoSpace();
    NoSpaces(s);
    assert |s| % 4 == 0;
    assert s[..|v|] == Text(v);
  }

  /** Decoding undoes encoding, for all byte strings. */
  lemma DecodeUndoesEncode(bytes: seq<Byte>)
    ensures Decode(Encode(bytes)) == Some(bytes)
  {
    Lengths(bytes);
    RepaddedIsBtoa(bytes);
    UnpaddedBtoa(bytes);
    ValuesOfText(Sextets(bytes));
    BytesOfSextets(bytes);
    hide Sextets, Bytes, Text, Values, Unpadded, DropSpaces, Btoa, Encode, Repadded;
  }

  /** So different byte strings have different texts. */
  lemma EncodeIsInjective(a: seq<Byte>, b: seq<Byte>)
    requires Encode(a) == Encode(b)
    ensures a == b
  {
    DecodeUndoesEncode(a);
    DecodeUndoesEncode(b);
  }

  // ---- the loops -----------------------------------------------------------

  /** Bytes as a string of characters 0 to 255, which is what btoa takes and atob gives. */
  function Binary(bytes: seq<Byte>): (r: string)
    ensures |r| == |bytes| && forall i :: 0 <= i < |bytes| ==> r[i] as int == bytes[i]
  {
    seq(|bytes|, i requires 0 <= i < |bytes| => bytes[i] as char)
  }

  function CharCodes(s: string): (r: seq<Byte>)
    requires forall i :: 0 <= i < |s| ==> s[i] as int < 256
    ensures |r| == |s| && forall i :: 0 <= i < |s| ==> r[i] == s[i] as int
  {
    seq(|s|, i requires 0 <= i < |s| => s[i] as int)
  }

  method Base64UrlEncode(data: array<Byte>) returns (text: string)
    ensures text == Encode(data[..])
    ensures forall c <- text :: UrlSafe(c)
  {
    var binary := "";
    for i := 0 to data.Length
      invariant |binary| == i && forall k :: 0 <= k < i ==> binary[k] as int == data[k]
    {
      binary := binary + [data[i] as char];
    }
    assert CharCodes(binary) == data[..];
    text := StripPads(MapChars(Btoa(CharCodes(binary)), ToUrl));
    EncodeIs(data[..]);
  }

  method Base64UrlDecode(input: string) returns (ok: bool, bytes: array<Byte>)
    ensures ok <==> Decode(input).Some?
    ensures ok ==> Decode(input) == Some(bytes[..])
    ensures fresh(bytes)
  {
    hide Atob, Repadded;
    var decoded := Atob(Repadded(input));
    ok := decoded.Some?;
    var binary := if ok then Binary(decoded.value) else "";
    bytes := new Byte[|binary|];
    for i := 0 to |binary|
      invariant forall k :: 0 <= k < i ==> bytes[k] == binary[k] as int
    {
      bytes[i] := binary[i] as int;
    }
    assert ok ==> bytes[..] == decoded.value;
  }
}
