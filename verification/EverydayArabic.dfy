/**
 * Amounts said with a two of twelve that is in no table, such as "اثنا": each group of
 * three digits that ends in twelve is heard two short.
 */
module EverydayArabic {
  import opened Common
  import opened Numerals
  import opened ArabicPhrases
  import opened SpokenArabic

  /** A word that is no amount word, alone or with "و" glued on. */
  ghost predicate Unheard(word: string) {
    Unread(word) && Unread(WithWaw(word))
  }

  /** The twos of an amount's twelves, by place: units, thousands, millions. */
  type Twos = nat -> string

  ghost predicate AllUnheard(twos: Twos) {
    forall place :: Unheard(twos(place))
  }

  function EverydayRest(r: nat, two: string): seq<string>
    requires r < 100
  {
    if r == 12 then [two, ARABIC.ten] else RestWords(ARABIC, r)
  }

  function EverydayGroup(n: nat, two: string, glued: bool): seq<string>
    requires n < 1000
  {
    HundredWords(ARABIC, n / 100, glued) + EverydayRest(n % 100, two)
  }

  function EverydayPart(n: nat, s: ScaleWords, two: string, glued: bool): seq<string>
    requires n < 1000
  {
    if n <= 2 then PartWords(ARABIC, n, s, glued)
    else EverydayGroup(n, two, glued) + [if n <= 10 then s.many else s.one]
  }

  /** How n is said every day: as by the tables, but for the two of each twelve. */
  function EverydayWords(n: nat, twos: Twos, glued: bool): seq<string>
    requires n < 1_000_000_000
  {
    EverydayPart(n / 1_000_000, ARABIC.million, twos(2), glued)
    + EverydayPart(n / 1000 % 1000, ARABIC.thousand, twos(1), glued) + EverydayGroup(n % 1000, twos(0), glued)
  }

  /** What is heard of a group of three digits. */
  function HeardGroup(n: nat): nat
    requires n < 1000
  {
    if n % 100 == 12 then n - 2 else n
  }

  /** What is heard of n. */
  function Heard(n: nat): nat
    requires n < 1_000_000_000
  {
    HeardGroup(n / 1_000_000) * 1_000_000 + HeardGroup(n / 1000 % 1000) * 1000 + HeardGroup(n % 1000)
  }

  // ---- words that are in no table ------------------------------------------

  lemma NoWord(word: string)
    requires !EndsLikeHundred(word) && Ones(word) == 0 && Tens(word) == 0 && HundredWord(word) == 0
    requires ThousandWord(word) == 0 && MillionWord(word) == 0
    ensures !IsAmountToken(word) && Lex(word).None?
  {
    NotGlued(word);
    hide GluedHundred, EndsLikeHundred, Ones, Tens, HundredWord, ThousandWord, MillionWord;
  }

  /** The four everyday twos of twelve, by gender and case. */
  predicate IsEverydayTwo(word: string) {
    word == "اثنا" || word == "اثني" || word == "اثنتا" || word == "اثنتي"
  }

  lemma TwoIsNoCount(word: string)
    requires IsEverydayTwo(word)
    ensures Ones(word) == 0
  {
  }

  lemma TwoIsNoOther(word: string)
    requires IsEverydayTwo(word)
    ensures Tens(word) == 0 && HundredWord(word) == 0 && ThousandWord(word) == 0 && MillionWord(word) == 0
  {
  }

  lemma TwoIsNoWord(word: string)
    requires IsEverydayTwo(word)
    ensures !IsAmountToken(word) && Lex(word).None?
  {
    assert !EndsLikeHundred(word);
    TwoIsNoCount(word);
    TwoIsNoOther(word);
    hide Lex, IsAmountToken, Ones, Tens, HundredWord, ThousandWord, MillionWord, EndsLikeHundred, IsEverydayTwo;
    NoWord(word);
  }

  lemma AndTwoIsNoWord(word: string)
    requires IsEverydayTwo(word)
    ensures !IsAmountToken(WithWaw(word)) && Lex(WithWaw(word)).None?
  {
    var token := WithWaw(word);
    assert token[1..] == word;
    assert |word| >= 4 && word[|word| - 1] in {'ا', 'ي'};
    assert !EndsLikeHundred(token) by { hide Lex, IsAmountToken; assert token[|token| - 1] == word[|word| - 1]; }
    assert Ones(token) == 0 by {
      hide Lex, IsAmountToken;
      assert "واحد"[1..] == "احد" && "واحدة"[1..] == "احدة";
      if Ones(token) > 0 { WawOnes(token); }
    }
    WawIsNoOtherWord(token);
    hide Lex, IsAmountToken, Ones, Tens, HundredWord, ThousandWord, MillionWord, EndsLikeHundred;
    NoWord(token);
  }

  /** None of the four is an amount word. */
  lemma EverydayTwosAreUnheard(word: string)
    requires IsEverydayTwo(word)
    ensures Unheard(word)
  {
    TwoIsNoWord(word);
    AndTwoIsNoWord(word);
    assert WithWaw(word)[1..] == word && word[0] != 'و';
    ReadIff(word);
    ReadIff(WithWaw(word));
    hide Lex, IsAmountToken, IsEverydayTwo, Unread;
  }

  lemma UnheardIsSteady(word: string)
    requires Unheard(word)
    ensures Lex(word).None? && Steady(word)
  {
    ReadIff(word);
    ReadIff(WithWaw(word));
    SomeMeansAmount(word);
    hide Lex, IsAmountToken, WithWaw, Unread;
  }

  // ---- what everyday words mean --------------------------------------------

  /** Words that mean these lexemes and are read the same with "و" glued on. */
  ghost predicate Means(words: seq<string>, ls: seq<Lexeme>) {
    Meaning(ARABIC.lex, words) == ls && forall w <- words :: Steady(w)
  }

  lemma {:induction false} MeaningJoin(a: seq<string>, b: seq<string>)
    ensures Meaning(ARABIC.lex, a + b) == Meaning(ARABIC.lex, a) + Meaning(ARABIC.lex, b)
  {
    hide Lex;
    if a == [] {
      assert a + b == b;
    } else {
      assert (a + b)[1..] == a[1..] + b;
      MeaningJoin(a[1..], b);
    }
  }

  lemma MeansJoin(a: seq<string>, la: seq<Lexeme>, b: seq<string>, lb: seq<Lexeme>)
    requires Means(a, la) && Means(b, lb)
    ensures Means(a + b, la + lb)
  {
    hide Lex, Steady;
    MeaningJoin(a, b);
  }

  lemma SpelledMeans(words: seq<string>, ls: seq<Lexeme>)
    requires Spells(ARABIC.lex, words, ls)
    ensures Means(words, ls)
  {
    hide Lex, Steady;
    SpelledWordsMean(words, ls);
  }

  /** Twelve, said so, means ten. */
  lemma TwelveMeansTen(two: string)
    requires Unheard(two)
    ensures Means([two, ARABIC.ten], [Add(10)])
  {
    hide Lex, Steady, Unheard;
    UnheardIsSteady(two);
    TenMeans();
    SpelledMeans([ARABIC.ten], [Add(10)]);
    assert [two, ARABIC.ten] == [two] + [ARABIC.ten] && [two][1..] == [];
    assert ARABIC.lex(two) == Lex(two) == None;
    assert Meaning(ARABIC.lex, [two]) == Opt(None) + Meaning(ARABIC.lex, []);
    assert Means([two], []);
    MeansJoin([two], [], [ARABIC.ten], [Add(10)]);
    assert [] + [Add(10)] == [Add(10)];
  }

  lemma TwelveAfterHundreds(h: nat, two: string, glued: bool)
    requires h < 10 && Unheard(two)
    ensures Means(HundredWords(ARABIC, h, glued) + [two, ARABIC.ten], SayGroup(GroupOf(h * 100 + 10, glued)))
  {
    hide Means, HundredWords, SayGroup, GroupOf, Unheard;
    HundredsMean(h, glued);
    TwelveMeansTen(two);
    MeansJoin(HundredWords(ARABIC, h, glued), SayHundredsOf(h, glued), [two, ARABIC.ten], [Add(10)]);
    GroupIsHundredsAndRest(h, glued);
  }

  lemma TwelveGroup(n: nat, two: string, glued: bool)
    requires n < 1000 && n % 100 == 12
    ensures n / 100 < 10 && HeardGroup(n) == n / 100 * 100 + 10
    ensures EverydayGroup(n, two, glued) == HundredWords(ARABIC, n / 100, glued) + [two, ARABIC.ten]
  {
    hide HundredWords;
  }

  lemma PlainGroup(n: nat, two: string, glued: bool)
    requires n < 1000 && n % 100 != 12
    ensures HeardGroup(n) == n && EverydayGroup(n, two, glued) == GroupWords(ARABIC, n, glued)
  {
    hide HundredWords, RestWords;
  }

  lemma GroupMeans(n: nat, two: string, glued: bool)
    requires n < 1000 && Unheard(two)
    ensures Means(EverydayGroup(n, two, glued), SayGroup(GroupOf(HeardGroup(n), glued)))
  {
    hide Means, Sane, EverydayGroup, HeardGroup, GroupWords, GroupOf, SayGroup, HundredWords, Unheard;
    if n % 100 == 12 {
      TwelveGroup(n, two, glued);
      TwelveAfterHundreds(n / 100, two, glued);
    } else {
      PlainGroup(n, two, glued);
      ArabicIsSane();
      GroupSpells(ARABIC, n, glued);
      SpelledMeans(GroupWords(ARABIC, n, glued), SayGroup(GroupOf(n, glued)));
    }
  }

  /** The lexemes of the hundreds alone. */
  function SayHundredsOf(h: nat, glued: bool): seq<Lexeme> {
    if h == 0 then [] else if h == 1 then [Hundred] else if h == 2 then [DualHundred]
    else if glued then [Add(h * 100)] else [Add(h), Hundred]
  }

  lemma HundredsMean(h: nat, glued: bool)
    requires h < 10
    ensures Means(HundredWords(ARABIC, h, glued), SayHundredsOf(h, glued))
  {
    hide Means, Lex;
    ArabicIsSane();
    SpelledMeans(HundredWords(ARABIC, h, glued), SayHundredsOf(h, glued));
  }

  lemma GroupIsHundredsAndRest(h: nat, glued: bool)
    requires h < 10
    ensures SayGroup(GroupOf(h * 100 + 10, glued)) == SayHundredsOf(h, glued) + [Add(10)]
  {
    assert (h * 100 + 10) / 100 == h && (h * 100 + 10) % 100 == 10;
    AddOneOrTwo(10, 0);
    AddOneOrTwo(h, 0);
    AddOneOrTwo(h * 100, 10);
    var g := GroupOf(h * 100 + 10, glued);
    hide AddAll, Total;
    if h > 2 && glued {
      assert g == Group(NoHundreds, [h * 100, 10]);
      assert SayGroup(g) == [] + [Add(h * 100), Add(10)];
    } else if h > 2 {
      assert g == Group(Times([h]), [10]);
      assert SayGroup(g) == [Add(h)] + [Hundred] + [Add(10)];
    } else {
      assert g.rest == [10];
    }
  }

  lemma PartMeans(n: nat, s: ScaleWords, scale: nat, two: string, glued: bool)
    requires n < 1000 && SaneScale(ARABIC.lex, s, scale) && Unheard(two)
    ensures Means(EverydayPart(n, s, two, glued), SayParts(PartOf(HeardGroup(n), scale, glued)))
  {
    hide Means, Lex, Unheard;
    var heard := HeardGroup(n);
    if n <= 2 {
      ArabicIsSane();
      PartSpells(ARABIC, n, s, scale, glued);
      SpelledMeans(PartWords(ARABIC, n, s, glued), SayParts(PartOf(n, scale, glued)));
    } else {
      GroupMeans(n, two, glued);
      var last := if n <= 10 then s.many else s.one;
      SpelledMeans([last], [Scale(scale)]);
      MeansJoin(EverydayGroup(n, two, glued), SayGroup(GroupOf(heard, glued)), [last], [Scale(scale)]);
      OnePart(Scaled(GroupOf(heard, glued), scale));
    }
  }

  lemma WordsMean(n: nat, twos: Twos, glued: bool)
    requires n < 1_000_000_000 && AllUnheard(twos)
    ensures Heard(n) < 1_000_000_000 && Means(EverydayWords(n, twos, glued), Say(PhraseOf(Heard(n), glued)))
  {
    hide Unheard;
    ArabicIsSane();
    var (m, t, r) := (n / 1_000_000, n / 1000 % 1000, n % 1000);
    PartMeans(m, ARABIC.million, 1_000_000, twos(2), glued);
    PartMeans(t, ARABIC.thousand, 1000, twos(1), glued);
    GroupMeans(r, twos(0), glued);
    HeardDigits(n);
    hide Means, Sane, EverydayPart, EverydayGroup, PartOf, GroupOf, Heard, HeardGroup, SayParts, SayGroup;
    var (millions, thousands) := (PartOf(HeardGroup(m), 1_000_000, glued), PartOf(HeardGroup(t), 1000, glued));
    PartsJoin(millions, thousands);
    var (ms, ts) := (EverydayPart(m, ARABIC.million, twos(2), glued),
                     EverydayPart(t, ARABIC.thousand, twos(1), glued));
    MeansJoin(ms, SayParts(millions), ts, SayParts(thousands));
    MeansJoin(ms + ts, SayParts(millions) + SayParts(thousands),
              EverydayGroup(r, twos(0), glued), SayGroup(GroupOf(HeardGroup(r), glued)));
  }

  lemma HeardDigits(n: nat)
    requires n < 1_000_000_000
    ensures Heard(n) < 1_000_000_000 && Heard(n) / 1_000_000 == HeardGroup(n / 1_000_000)
    ensures Heard(n) / 1000 % 1000 == HeardGroup(n / 1000 % 1000) && Heard(n) % 1000 == HeardGroup(n % 1000)
  {
    ThreeGroups(HeardGroup(n / 1_000_000), HeardGroup(n / 1000 % 1000), HeardGroup(n % 1000));
  }

  lemma ThreeGroups(m: nat, t: nat, r: nat)
    requires m < 1000 && t < 1000 && r < 1000
    ensures var n := m * 1_000_000 + t * 1000 + r; n / 1_000_000 == m && n / 1000 % 1000 == t && n % 1000 == r
  {
  }

  predicate HasTwelve(n: nat)
    requires n < 1_000_000_000
  {
    n / 1_000_000 % 100 == 12 || n / 1000 % 1000 % 100 == 12 || n % 1000 % 100 == 12
  }

  lemma HeardIff(n: nat)
    requires 0 < n < 1_000_000_000
    ensures Heard(n) > 0 && (Heard(n) == n <==> !HasTwelve(n))
  {
    Digits(n);
  }

  /**
   * For every amount said with any unheard twos of twelve: what is heard is two less in
   * each group of three digits that ends in twelve, so the amount itself is heard
   * exactly when no group does.
   */
  lemma EverydayIsHeardIff(n: nat, twos: Twos, glued: bool, tokens: seq<string>)
    requires 0 < n < 1_000_000_000 && AllUnheard(twos) && Interleaved(EverydayWords(n, twos, glued), tokens)
    ensures FromArabicWords(tokens) == Some(Heard(n))
    ensures FromArabicWords(tokens) == Some(n) <==> !HasTwelve(n)
  {
    ArabicIsSane();
    WordsMean(n, twos, glued);
    HeardIff(n);
    SpokenAsWritten(EverydayWords(n, twos, glued), tokens);
    WordsSpell(ARABIC, Heard(n), glued);
    ReadsBack(PhraseOf(Heard(n), glued));
    hide Interleaved, Sane, HasTwelve, Heard, EverydayWords, AllUnheard;
  }

  lemma TwelveIsSaid(two: string)
    ensures EverydayWords(12, _ => two, true) == [two, ARABIC.ten] && Heard(12) == 10
  {
    hide Lex, RestWords;
    assert EverydayPart(0, ARABIC.million, two, true) == [] && EverydayPart(0, ARABIC.thousand, two, true) == [];
    assert EverydayGroup(12, two, true) == [] + [two, ARABIC.ten];
    hide EverydayPart, EverydayGroup;
  }

  /** Twelve itself is heard as ten, with each of the four. */
  lemma TwelveReadsAsTen(two: string, tokens: seq<string>)
    requires IsEverydayTwo(two) && Interleaved([two, ARABIC.ten], tokens)
    ensures FromArabicWords(tokens) == Some(10)
  {
    EverydayTwosAreUnheard(two);
    TwelveIsSaid(two);
    hide Interleaved, EverydayWords, Heard, FromArabicWords, HasTwelve, IsEverydayTwo, Unheard;
    EverydayIsHeardIff(12, _ => two, true, tokens);
  }
}
