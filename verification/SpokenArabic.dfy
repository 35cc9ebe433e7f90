/** Arabic amount words: tables, glued forms, the token loop. Text is already folded (alef variants, tashkeel). */
module SpokenArabic {
  import opened Common
  import opened Numerals
  import opened ArabicPhrases
  import opened ArabicSpellings

  function Ones(token: string): nat {
    if token == "واحد" || token == "واحدة" || token == "احد" then 1
    else if token == "اثنين" || token == "اثنان" || token == "اثنتين" || token == "اتنين" then 2
    else if token == "ثلاثة" || token == "ثلاث" then 3
    else if token == "اربعة" || token == "اربع" then 4
    else if token == "خمسة" || token == "خمس" then 5
    else if token == "ستة" || token == "ست" then 6
    else if token == "سبعة" || token == "سبع" then 7
    else if token == "ثمانية" || token == "ثماني" || token == "ثمان" then 8
    else if token == "تسعة" || token == "تسع" then 9
    else if token == "عشرة" || token == "عشر" then 10
    else 0
  }

  function Tens(token: string): nat {
    if token == "عشرون" || token == "عشرين" then 20
    else if token == "ثلاثون" || token == "ثلاثين" then 30
    else if token == "اربعون" || token == "اربعين" then 40
    else if token == "خمسون" || token == "خمسين" then 50
    else if token == "ستون" || token == "ستين" then 60
    else if token == "سبعون" || token == "سبعين" then 70
    else if token == "ثمانون" || token == "ثمانين" then 80
    else if token == "تسعون" || token == "تسعين" then 90
    else 0
  }

  function HundredWord(token: string): nat {
    if token == "مئة" || token == "مائة" || token == "مائه" || token == "مئه" || token == "ميه"
      || token == "مية" then 100
    else if token == "مئتان" || token == "مائتان" || token == "مئتين" || token == "مائتين" || token == "ميتين" then 200
    else 0
  }

  function ThousandWord(token: string): nat {
    if token == "الف" || token == "الاف" then 1000 else if token == "الفان" || token == "الفين" then 2000 else 0
  }

  function MillionWord(token: string): nat {
    if token == "مليون" || token == "ملايين" then 1_000_000
    else if token == "مليونين" || token == "مليونان" then 2_000_000 else 0
  }

  /** The three-letter hundred spellings that may be glued onto a count; "مائة" is the fourth. */
  predicate IsShortHundred(suffix: string) {
    suffix == "مئة" || suffix == "ميه" || suffix == "مية" || suffix == "مئه"
  }

  /** The counts a hundred may be glued onto. */
  predicate IsGluedCount(count: string) {
    count == "اثنين" || count == "اثنان" || count == "اثنتين" || count == "اتنين" || count == "ثلاثة"
    || count == "ثلاث" || count == "اربعة" || count == "اربع" || count == "خمسة" || count == "خمس"
    || count == "ستة" || count == "ست" || count == "سبعة" || count == "سبع" || count == "ثمانية"
    || count == "ثماني" || count == "ثمان" || count == "تسعة" || count == "تسع"
  }

  /** A token's count when a hundred is glued on: the two suffix lengths cannot both fit. */
  function GluedCount(token: string): string {
    if |token| > 4 && token[|token| - 4..] == "مائة" then token[..|token| - 4]
    else if |token| > 3 && IsShortHundred(token[|token| - 3..]) then token[..|token| - 3]
    else ""
  }

  /** _glued_arabic_hundred: the value of a count with a hundred glued on, or 0. */
  function GluedHundred(token: string): nat {
    if IsGluedCount(GluedCount(token)) then Ones(GluedCount(token)) * 100 else 0
  }

  /** What a word means by itself: glued hundreds are tried first. */
  function Lex(token: string): Option<Lexeme> {
    if GluedHundred(token) > 0 then Some(Add(GluedHundred(token)))
    else if Ones(token) > 0 then Some(Add(Ones(token)))
    else if Tens(token) > 0 then Some(Add(Tens(token)))
    else if HundredWord(token) > 0 then Some(if HundredWord(token) == 200 then DualHundred else Hundred)
    else if ThousandWord(token) > 0 then Some(if ThousandWord(token) == 2000 then DualScale(1000) else Scale(1000))
    else if MillionWord(token) > 0
      then Some(if MillionWord(token) == 2_000_000 then DualScale(1_000_000) else Scale(1_000_000))
    else None
  }

  predicate IsAmountToken(token: string) {
    Ones(token) > 0 || Tens(token) > 0 || HundredWord(token) > 0 || ThousandWord(token) > 0 || MillionWord(token) > 0
    || GluedHundred(token) > 0
  }

  /** _unwrap_arabic_waw: a glued "and" is stripped only when that uncovers an amount word. */
  function UnwrapWaw(token: string): string {
    if IsAmountToken(token) then token
    else if |token| > 1 && token[0] == 'و' && IsAmountToken(token[1..]) then token[1..]
    else token
  }

  function WithWaw(token: string): string {
    "و" + token
  }

  /** What the parser makes of a raw token. */
  function Read(token: string): Option<Lexeme> {
    Lex(UnwrapWaw(token))
  }

  predicate StartsWithWaw(token: string) {
    token != "" && token[0] == 'و'
  }

  /** A glued hundred ends like one of the five hundred spellings. */
  predicate EndsLikeHundred(token: string) {
    |token| >= 4
    && token[|token| - 3] in {'م', 'ا'} && token[|token| - 2] in {'ئ', 'ي'} && token[|token| - 1] in {'ة', 'ه'}
  }

  lemma NotGlued(token: string)
    requires !EndsLikeHundred(token)
    ensures GluedHundred(token) == 0
  {
    assert GluedCount(token) == "" by {
      assert |token| > 4 ==> token[|token| - 4..][1..] == token[|token| - 3..];
    }
    hide GluedCount;
  }

  /** A word read as a count, provided nothing is glued onto it. */
  lemma CountReads(word: string)
    requires !EndsLikeHundred(word) && Ones(word) > 0
    ensures Lex(word) == Some(Add(Ones(word)))
  {
    NotGlued(word);
    hide Ones, GluedHundred, EndsLikeHundred;
  }

  lemma ValueOfAhad()
    ensures Lex("احد") == Some(Add(1)) && Lex("واحد") == Some(Add(1))
  {
    assert Ones("احد") == 1 && Ones("واحد") == 1 by { hide Lex; }
    assert !EndsLikeHundred("احد") && !EndsLikeHundred("واحد") by { hide Lex, Ones; }
    hide Lex, Ones, EndsLikeHundred;
    CountReads("احد");
    CountReads("واحد");
  }

  lemma AhadaIsNoWord()
    ensures !IsAmountToken("احدة")
  {
    assert !EndsLikeHundred("احدة") by { hide Ones, Tens, HundredWord, ThousandWord, MillionWord; }
    NotGlued("احدة");
    hide GluedHundred, EndsLikeHundred;
  }

  lemma WawIsNoOtherWord(token: string)
    requires StartsWithWaw(token)
    ensures Tens(token) == 0 && HundredWord(token) == 0 && ThousandWord(token) == 0 && MillionWord(token) == 0
  {
  }

  lemma WawIsNotGlued(token: string)
    requires StartsWithWaw(token)
    ensures GluedHundred(token) == 0
  {
    hide Ones;
    assert GluedCount(token) != "" ==> GluedCount(token)[0] == 'و' by { hide IsGluedCount; }
    hide GluedCount;
  }

  lemma WawOnes(token: string)
    requires StartsWithWaw(token) && Ones(token) > 0
    ensures token == "واحد" || token == "واحدة"
  {
  }

  /**
   * Gluing "و" onto an amount word never changes what is read, although "و" + "احد"
   * is itself a number word and is not unwrapped.
   */
  lemma WawChangesNothing(word: string)
    requires IsAmountToken(word)
    ensures Read(WithWaw(word)) == Lex(word) && Read(word) == Lex(word)
  {
    var token := WithWaw(word);
    assert token[1..] == word;
    WawIsNoOtherWord(token);
    WawIsNotGlued(token);
    if Ones(token) > 0 {
      WawOnes(token);
      assert token == "واحد" ==> word == "احد" by { assert token == "واحد" ==> token[1..] == "احد"; }
      assert token == "واحدة" ==> word == "احدة" by { assert token == "واحدة" ==> token[1..] == "احدة"; }
      ValueOfAhad();
      AhadaIsNoWord();
    }
  }

  // ---- the token loop ------------------------------------------------------

  function Opt(l: Option<Lexeme>): seq<Lexeme> {
    if l.Some? then [l.value] else []
  }

  /** What the tokens mean together: unlike in English, no word depends on the next. */
  function Meaning(read: Dictionary, tokens: seq<string>): seq<Lexeme>
    decreases |tokens|
  {
    if tokens == [] then [] else Opt(read(tokens[0])) + Meaning(read, tokens[1..])
  }

  const READ: Dictionary := token => Read(token)

  function FromArabicWords(tokens: seq<string>): Option<nat> {
    Finish(ApplyAll(START, Meaning(READ, tokens)))
  }

  /** One turn of the token loop after unwrapping, branch by branch. */
  method HandleWord(token: string, totalIn: nat, currentIn: nat, foundIn: bool)
    returns (total: nat, current: nat, found: bool)
    ensures Acc(total, current, found) == ApplyAll(Acc(totalIn, currentIn, foundIn), Opt(Lex(token)))
  {
    total, current, found := totalIn, currentIn, foundIn;
    var glued := GluedHundred(token);
    if glued > 0 {
      current := current + glued;
      found := true;
      return;
    }
    if Ones(token) > 0 {
      current := current + Ones(token);
      found := true;
    } else if Tens(token) > 0 {
      current := current + Tens(token);
      found := true;
    } else if HundredWord(token) > 0 {
      current := if HundredWord(token) == 200 then 200 else (if current == 0 then 1 else current) * 100;
      found := true;
    } else if ThousandWord(token) > 0 {
      total := if ThousandWord(token) == 2000 then total + 2000
        else total + (if current == 0 then 1 else current) * 1000;
      current := 0;
      found := true;
    } else if MillionWord(token) > 0 {
      total := if MillionWord(token) == 2_000_000 then total + 2_000_000
               else total + (if current == 0 then 1 else current) * 1_000_000;
      current := 0;
      found := true;
    }
  }

  method HandleRaw(raw: string, totalIn: nat, currentIn: nat, foundIn: bool)
    returns (total: nat, current: nat, found: bool)
    ensures Acc(total, current, found) == ApplyAll(Acc(totalIn, currentIn, foundIn), Opt(READ(raw)))
  {
    total, current, found := HandleWord(UnwrapWaw(raw), totalIn, currentIn, foundIn);
  }

  /** The loop over raw tokens computes the meaning. */
  method ParseArabicWords(tokens: seq<string>) returns (value: Option<nat>)
    ensures value == FromArabicWords(tokens)
  {
    hide Lex, UnwrapWaw;
    var total: nat, current: nat, found := 0, 0, false;
    for i := 0 to |tokens|
      invariant ApplyAll(START, Meaning(READ, tokens))
                == ApplyAll(Acc(total, current, found), Meaning(READ, tokens[i..]))
    {
      assert tokens[i..][1..] == tokens[i + 1..];
      ApplyAllConcat(Acc(total, current, found), Opt(READ(tokens[i])), Meaning(READ, tokens[i + 1..]));
      total, current, found := HandleRaw(tokens[i], total, current, found);
    }
    if !found {
      return None;
    }
    value := if total + current > 0 then Some(total + current) else None;
  }

  // ---- the round trip ------------------------------------------------------

  function UnitWord(n: nat): string {
    if n == 1 then "احد" else if n == 2 then "اثنين" else if n == 3 then "ثلاثة" else if n == 4 then "اربعة"
    else if n == 5 then "خمسة" else if n == 6 then "ستة" else if n == 7 then "سبعة" else if n == 8 then "ثمانية"
    else if n == 9 then "تسعة" else "عشرة"
  }

  function TensWord(n: nat): string {
    if n == 2 then "عشرين" else if n == 3 then "ثلاثين" else if n == 4 then "اربعين" else if n == 5 then "خمسين"
    else if n == 6 then "ستين" else if n == 7 then "سبعين" else if n == 8 then "ثمانين" else "تسعين"
  }

  function CountWord(n: nat): string {
    if n == 3 then "ثلاث" else if n == 4 then "اربع" else if n == 5 then "خمس" else if n == 6 then "ست"
    else if n == 7 then "سبع" else if n == 8 then "ثمان" else "تسع"
  }

  function GluedWord(n: nat): string {
    CountWord(n) + "مئة"
  }

  const ARABIC := Vocabulary(w => Lex(w), (n: nat) => UnitWord(n), "عشر", (n: nat) => TensWord(n),
                             "مئة", "مئتين", (n: nat) => GluedWord(n),
                             ScaleWords("الف", "الفين", "الاف"), ScaleWords("مليون", "مليونين", "ملايين"))

  // ---- the tables are the spellings ----------------------------------------

  lemma SmallCounts(w: string, n: nat)
    requires 1 <= n <= 5 && w in Counts(n)
    ensures Ones(w) == n && !EndsLikeHundred(w)
  {
  }

  lemma LargeCounts(w: string, n: nat)
    requires 6 <= n <= 10 && w in Counts(n)
    ensures Ones(w) == n && !EndsLikeHundred(w)
  {
  }

  lemma CountsAre(w: string)
    ensures Ones(w) <= 10 && forall n: nat :: n > 0 ==> (Ones(w) == n <==> w in Counts(n))
  {
    forall n: nat | n > 0 && w in Counts(n) ensures Ones(w) == n {
      if n <= 5 { SmallCounts(w, n); } else { LargeCounts(w, n); }
    }
    OnesAre(w);
    hide Ones, Counts;
  }

  lemma OnesAre(w: string)
    ensures Ones(w) <= 10 && (Ones(w) > 0 ==> w in Counts(Ones(w)))
  {
  }

  lemma TensAre(w: string, n: nat)
    requires n > 0
    ensures Tens(w) == n <==> w in TensWords(n)
  {
  }

  // ---- the tables are apart ------------------------------------------------

  /** How words for hundreds, thousands and millions begin. */
  predicate ScaleHead(w: string) {
    |w| >= 2 && (w[0] == 'م' || (w[0] == 'ا' && w[1] == 'ل'))
  }

  /** How tens end, and the twos that end alike do not begin. */
  predicate TensTail(w: string) {
    |w| >= 2 && w[|w| - 1] == 'ن' && w[|w| - 2] in {'و', 'ي'} && !(w[0] == 'ا' && w[1] in {'ث', 'ت'})
  }

  lemma CountShape(w: string)
    requires Ones(w) > 0
    ensures !ScaleHead(w) && !TensTail(w)
  {
  }

  lemma TensShape(w: string)
    requires Tens(w) > 0
    ensures !ScaleHead(w) && TensTail(w) && !EndsLikeHundred(w)
  {
  }

  lemma ScaleShape(w: string)
    requires HundredWord(w) > 0 || ThousandWord(w) > 0 || MillionWord(w) > 0
    ensures ScaleHead(w) && (HundredWord(w) != 100 ==> !EndsLikeHundred(w))
  {
  }

  lemma TensAreNotCounts(w: string, n: nat)
    requires w in TensWords(n)
    ensures Ones(w) == 0 && !EndsLikeHundred(w)
  {
    if n > 0 { TensAre(w, n); }
    hide Ones, Tens, TensWords, ScaleHead, TensTail, EndsLikeHundred;
    TensShape(w);
    if Ones(w) > 0 { CountShape(w); }
  }

  lemma ScaleWordsAreNotCounts(w: string)
    requires ScaleHead(w)
    ensures Ones(w) == 0 && Tens(w) == 0
  {
    hide Ones, Tens, ScaleHead, TensTail, EndsLikeHundred;
    if Ones(w) > 0 { CountShape(w); }
    if Tens(w) > 0 { TensShape(w); }
  }

  lemma HundredsAre(w: string)
    ensures HundredWord(w) == 100 <==> w in HUNDREDS
    ensures HundredWord(w) == 200 <==> w in TWO_HUNDREDS
    ensures HundredWord(w) in {0, 100, 200}
  {
  }

  lemma HundredsAreNotCounts(w: string)
    requires HundredWord(w) > 0
    ensures Ones(w) == 0 && Tens(w) == 0 && (HundredWord(w) == 200 ==> !EndsLikeHundred(w))
  {
    ScaleShape(w);
    hide Ones, Tens, HundredWord, ScaleHead, EndsLikeHundred;
    ScaleWordsAreNotCounts(w);
  }

  lemma ThousandsAre(w: string)
    ensures ThousandWord(w) == 1000 <==> w in THOUSANDS
    ensures ThousandWord(w) == 2000 <==> w in TWO_THOUSANDS
    ensures ThousandWord(w) in {0, 1000, 2000}
  {
  }

  /** Thousands begin as no hundred does. */
  lemma ThousandsAreNothingElse(w: string)
    requires ThousandWord(w) > 0
    ensures Ones(w) == 0 && Tens(w) == 0 && HundredWord(w) == 0 && !EndsLikeHundred(w)
  {
    ScaleShape(w);
    SecondLetters(w);
    hide Ones, Tens, HundredWord, ThousandWord, ScaleHead, EndsLikeHundred;
    ScaleWordsAreNotCounts(w);
  }

  lemma SecondLetters(w: string)
    ensures HundredWord(w) > 0 ==> |w| >= 2 && w[0] == 'م' && w[1] in {'ئ', 'ا', 'ي'}
    ensures ThousandWord(w) > 0 ==> |w| >= 2 && w[0] == 'ا' && !EndsLikeHundred(w)
    ensures MillionWord(w) > 0 ==> |w| >= 2 && w[0] == 'م' && w[1] == 'ل' && !EndsLikeHundred(w)
  {
  }

  lemma MillionsAre(w: string)
    ensures MillionWord(w) == 1_000_000 <==> w in MILLIONS
    ensures MillionWord(w) == 2_000_000 <==> w in TWO_MILLIONS
    ensures MillionWord(w) in {0, 1_000_000, 2_000_000}
  {
  }

  lemma MillionsAreNothingElse(w: string)
    requires MillionWord(w) > 0
    ensures Ones(w) == 0 && Tens(w) == 0 && HundredWord(w) == 0 && ThousandWord(w) == 0 && !EndsLikeHundred(w)
  {
    ScaleShape(w);
    SecondLetters(w);
    hide Ones, Tens, HundredWord, ThousandWord, MillionWord, ScaleHead, EndsLikeHundred;
    ScaleWordsAreNotCounts(w);
  }

  // ---- glued hundreds ------------------------------------------------------

  lemma GluedCounts(count: string)
    ensures IsGluedCount(count) <==> 2 <= Ones(count) <= 9
  {
    if IsGluedCount(count) { GluedAreCounts(count); }
    OnesAre(count);
    if 2 <= Ones(count) <= 9 { CountsAreGlued(count, Ones(count)); }
    hide IsGluedCount, Ones, Counts;
  }

  lemma GluedAreCounts(count: string)
    requires IsGluedCount(count)
    ensures 2 <= Ones(count) <= 9
  {
  }

  lemma CountsAreGlued(count: string, n: nat)
    requires 2 <= n <= 9 && count in Counts(n)
    ensures IsGluedCount(count)
  {
  }

  lemma GluedSplits(token: string)
    requires GluedCount(token) != ""
    ensures exists hundred :: hundred in GLUED_HUNDREDS && token == GluedCount(token) + hundred
  {
    var n := |token|;
    if n > 4 && token[n - 4..] == "مائة" {
      assert token == GluedCount(token) + "مائة";
    } else {
      assert token == GluedCount(token) + token[n - 3..] && token[n - 3..] in GLUED_HUNDREDS;
    }
  }

  lemma GluedJoins(count: string, hundred: string)
    requires count != "" && hundred in GLUED_HUNDREDS
    ensures GluedCount(count + hundred) == count
  {
    var token := count + hundred;
    if hundred == "مائة" {
      assert token[|token| - 4..] == hundred && token[..|token| - 4] == count;
    } else {
      assert |hundred| == 3 && hundred[0] == 'م';
      assert token[|token| - 3..] == hundred && token[..|token| - 3] == count;
      assert token[|token| - 4..][1..] == hundred && "مائة"[1..][0] == 'ا';
    }
  }

  lemma GluedAre(w: string, n: nat)
    requires n > 0
    ensures GluedHundred(w) == n <==> w in GluedWords(n)
  {
    hide Ones, IsGluedCount, Counts, GluedCount;
    var c := GluedCount(w);
    GluedCounts(c);
    CountsAre(c);
    if GluedHundred(w) == n {
      assert c != "" by { assert Ones("") == 0 by { EmptyIsNoCount(); } }
      GluedSplits(w);
    }
    if w in GluedWords(n) {
      var count, hundred :| count in Counts(n / 100) && hundred in GLUED_HUNDREDS && w == count + hundred;
      CountsAre(count);
      GluedCounts(count);
      EmptyIsNoCount();
      GluedJoins(count, hundred);
    }
  }

  lemma EmptyIsNoCount()
    ensures Ones("") == 0
  {
  }

  /** A bare hundred is not a count with a hundred glued on. */
  lemma HundredsAreNotGlued(w: string)
    requires w in HUNDREDS
    ensures GluedHundred(w) == 0
  {
    assert GluedCount(w) == "" by { hide IsGluedCount; }
    EmptyIsNoCount();
    hide GluedCount, Ones;
    assert !IsGluedCount("");
  }

  lemma GluedIsNothingElse(w: string)
    requires Ones(w) > 0 || Tens(w) > 0 || HundredWord(w) > 0 || ThousandWord(w) > 0 || MillionWord(w) > 0
    ensures GluedHundred(w) == 0
  {
    hide Ones, Tens, HundredWord, ThousandWord, MillionWord, GluedHundred, EndsLikeHundred, ScaleHead, TensTail, Counts;
    if Ones(w) > 0 {
      OnesAre(w);
      if Ones(w) <= 5 { SmallCounts(w, Ones(w)); } else { LargeCounts(w, Ones(w)); }
      NotGlued(w);
    } else if Tens(w) > 0 {
      TensShape(w);
      NotGlued(w);
    } else if HundredWord(w) > 0 {
      HundredsAre(w);
      HundredsAreNotCounts(w);
      if HundredWord(w) == 100 { HundredsAreNotGlued(w); } else { NotGlued(w); }
    } else if ThousandWord(w) > 0 {
      ThousandsAreNothingElse(w);
      NotGlued(w);
    } else {
      MillionsAreNothingElse(w);
      NotGlued(w);
    }
  }

  /** What a word means when nothing is glued onto it. */
  function PlainLex(token: string): Option<Lexeme> {
    if Ones(token) > 0 then Some(Add(Ones(token)))
    else if Tens(token) > 0 then Some(Add(Tens(token)))
    else if HundredWord(token) > 0 then Some(if HundredWord(token) == 200 then DualHundred else Hundred)
    else if ThousandWord(token) > 0 then Some(if ThousandWord(token) == 2000 then DualScale(1000) else Scale(1000))
    else if MillionWord(token) > 0
      then Some(if MillionWord(token) == 2_000_000 then DualScale(1_000_000) else Scale(1_000_000))
    else None
  }

  lemma LexIs(w: string)
    ensures Lex(w) == if GluedHundred(w) > 0 then Some(Add(GluedHundred(w))) else PlainLex(w)
  {
  }

  lemma NoZero()
    ensures Counts(0) == {} && TensWords(0) == {} && GluedWords(0) == {}
  {
  }

  /** The number words: a count, a tens word or a glued hundred, never two of them. */
  lemma AddIff(w: string, n: nat)
    ensures Lex(w) == Some(Add(n)) <==> w in Spellings(Add(n))
  {
    LexIs(w);
    NoZero();
    CountsAre(w);
    if n > 0 {
      TensAre(w, n);
      GluedAre(w, n);
    }
    if w in TensWords(n) { TensAreNotCounts(w, n); }
    if Ones(w) > 0 || Tens(w) > 0 { GluedIsNothingElse(w); }
    hide Ones, Tens, HundredWord, ThousandWord, MillionWord, GluedHundred, EndsLikeHundred, Lex;
    hide Counts, TensWords, GluedWords;
  }

  lemma HundredIff(w: string)
    ensures Lex(w) == Some(Hundred) <==> w in HUNDREDS
    ensures Lex(w) == Some(DualHundred) <==> w in TWO_HUNDREDS
  {
    HundredsAre(w);
    if HundredWord(w) > 0 {
      HundredsAreNotCounts(w);
      GluedIsNothingElse(w);
    }
    hide Ones, Tens, HundredWord, ThousandWord, MillionWord, GluedHundred, EndsLikeHundred;
  }

  lemma ThousandIff(w: string)
    ensures Lex(w) == Some(Scale(1000)) <==> w in THOUSANDS
    ensures Lex(w) == Some(DualScale(1000)) <==> w in TWO_THOUSANDS
  {
    ThousandsAre(w);
    if ThousandWord(w) > 0 {
      ThousandsAreNothingElse(w);
      GluedIsNothingElse(w);
    }
    hide Ones, Tens, HundredWord, ThousandWord, MillionWord, GluedHundred, EndsLikeHundred;
  }

  lemma MillionIff(w: string)
    ensures Lex(w) == Some(Scale(1_000_000)) <==> w in MILLIONS
    ensures Lex(w) == Some(DualScale(1_000_000)) <==> w in TWO_MILLIONS
  {
    MillionsAre(w);
    if MillionWord(w) > 0 {
      MillionsAreNothingElse(w);
      GluedIsNothingElse(w);
    }
    hide Ones, Tens, HundredWord, ThousandWord, MillionWord, GluedHundred, EndsLikeHundred;
  }

  lemma NoOtherScale(w: string)
    ensures Lex(w).Some? && Lex(w).value.Scale? ==> Lex(w).value.k in {1000, 1_000_000}
    ensures Lex(w).Some? && Lex(w).value.DualScale? ==> Lex(w).value.k in {1000, 1_000_000}
  {
    hide Ones, Tens, HundredWord, ThousandWord, MillionWord, GluedHundred;
  }

  /** A word is read with a meaning exactly when it is one of the spellings of that meaning. */
  lemma LexIff(w: string, l: Lexeme)
    ensures Lex(w) == Some(l) <==> w in Spellings(l)
  {
    hide Lex;
    NoOtherScale(w);
    match l
    case Add(n) => AddIff(w, n);
    case Hundred => HundredIff(w);
    case DualHundred => HundredIff(w);
    case Scale(_) => ThousandIff(w); MillionIff(w);
    case DualScale(_) => ThousandIff(w); MillionIff(w);
  }

  // ---- the vocabulary ------------------------------------------------------

  lemma WordsAreSpelled()
    ensures forall n: nat :: 1 <= n <= 10 ==> UnitWord(n) in Counts(n)
    ensures forall n: nat :: 2 <= n <= 9 ==> TensWord(n) in TensWords(n * 10)
    ensures forall n: nat :: 3 <= n <= 9 ==> CountWord(n) in Counts(n)
  {
  }

  lemma GluedWordIsSpelled(n: nat)
    requires 3 <= n <= 9
    ensures GluedWord(n) in GluedWords(n * 100)
  {
    WordsAreSpelled();
    hide CountWord, Counts;
    assert "مئة" in GLUED_HUNDREDS;
    assert n * 100 / 100 == n;
  }

  lemma TenMeans()
    ensures Lex("عشر") == Some(Add(10))
  {
    LexIff("عشر", Add(10));
    hide Lex;
  }

  lemma ScaleWordsMean()
    ensures Lex("مئة") == Some(Hundred) && Lex("مئتين") == Some(DualHundred)
    ensures SaneScale(w => Lex(w), ScaleWords("الف", "الفين", "الاف"), 1000)
    ensures SaneScale(w => Lex(w), ScaleWords("مليون", "مليونين", "ملايين"), 1_000_000)
  {
    hide Lex;
    LexIff("مئة", Hundred);
    LexIff("مئتين", DualHundred);
    LexIff("الف", Scale(1000));
    LexIff("الفين", DualScale(1000));
    LexIff("الاف", Scale(1000));
    LexIff("مليون", Scale(1_000_000));
    LexIff("مليونين", DualScale(1_000_000));
    LexIff("ملايين", Scale(1_000_000));
  }

  lemma ArabicIsSane()
    ensures Sane(ARABIC)
  {
    ScaleWordsMean();
    TenMeans();
    WordsAreSpelled();
    hide Lex, UnitWord, TensWord, GluedWord, Counts, TensWords, GluedWords;
    forall n: nat | 1 <= n <= 10 ensures ARABIC.lex(ARABIC.unit(n)) == Some(Add(n)) { LexIff(UnitWord(n), Add(n)); }
    forall n: nat | 2 <= n <= 9 ensures ARABIC.lex(ARABIC.tens(n)) == Some(Add(n * 10)) {
      LexIff(TensWord(n), Add(n * 10));
    }
    forall n: nat | 3 <= n <= 9 ensures ARABIC.lex(ARABIC.gluedHundred(n)) == Some(Add(n * 100)) {
      GluedWordIsSpelled(n);
      LexIff(GluedWord(n), Add(n * 100));
    }
  }

  /** How n is said, hundreds glued ("ثلاثمئة") or split ("ثلاثة مئة"). */
  function ArabicWords(n: nat, glued: bool): seq<string>
    requires n < 1_000_000_000
  {
    WordsOf(ARABIC, n, glued)
  }

  /** Two spellings of one word. */
  ghost predicate Alike(a: string, b: string) {
    a == b || exists l :: a in Spellings(l) && b in Spellings(l)
  }

  ghost predicate IsSpelled(word: string) {
    exists l :: word in Spellings(l)
  }

  /** A word that is no amount word, with "و" glued on or not. */
  ghost predicate Unread(token: string) {
    !IsSpelled(token) && !(StartsWithWaw(token) && IsSpelled(token[1..]))
  }

  /**
   * `tokens` is `words` in any of their spellings, with "و" glued onto any of them and
   * words that are no amount words put in anywhere.
   */
  ghost predicate Interleaved(words: seq<string>, tokens: seq<string>)
    decreases |tokens|
  {
    if tokens == [] then words == []
    else
      || (Unread(tokens[0]) && Interleaved(words, tokens[1..]))
      || (words != [] && Interleaved(words[1..], tokens[1..])
          && exists w :: Alike(w, words[0]) && (tokens[0] == w || tokens[0] == WithWaw(w)))
  }

  lemma SpelledIff(word: string)
    ensures Lex(word).Some? <==> IsSpelled(word)
    ensures IsAmountToken(word) <==> Lex(word).Some?
  {
    forall l ensures Lex(word) == Some(l) <==> word in Spellings(l) { LexIff(word, l); }
    hide Spellings;
    if Lex(word).Some? {
      assert word in Spellings(Lex(word).value);
    }
    SomeMeansAmount(word);
    hide Lex, IsAmountToken;
  }

  /** The parser makes something of exactly the amount words, with "و" glued on or not. */
  lemma ReadIff(token: string)
    ensures Read(token).None? <==> Unread(token)
  {
    SpelledIff(token);
    if token != "" {
      SpelledIff(token[1..]);
    }
    SpelledIff("");
    NothingIsNoWord();
    hide Lex, IsAmountToken, IsSpelled;
  }

  lemma NothingIsNoWord()
    ensures !IsAmountToken("")
  {
    hide IsGluedCount;
    EmptyIsNoCount();
    hide Ones;
  }

  lemma AlikeReads(a: string, b: string)
    ensures Alike(a, b) ==> a == b || (Lex(a).Some? && Lex(a) == Lex(b))
  {
    if l :| a in Spellings(l) && b in Spellings(l) {
      LexIff(a, l);
      LexIff(b, l);
    }
    hide Lex;
  }

  /** A word that is read the same alone and with "و" glued on. */
  predicate Steady(word: string) {
    Read(word) == Lex(word) && Read(WithWaw(word)) == Lex(word)
  }

  lemma SomeMeansAmount(word: string)
    ensures Lex(word).Some? <==> IsAmountToken(word)
  {
  }

  lemma AmountsAreSteady(word: string)
    requires Lex(word).Some?
    ensures Steady(word)
  {
    hide Lex, UnwrapWaw, IsAmountToken, WithWaw;
    SomeMeansAmount(word);
    WawChangesNothing(word);
  }

  /** Neither spelling, nor noise, nor a glued "and" changes what words mean. */
  lemma {:induction false} SpokenAsWritten(words: seq<string>, tokens: seq<string>)
    requires Interleaved(words, tokens) && forall w <- words :: Steady(w)
    ensures Meaning(READ, tokens) == Meaning(ARABIC.lex, words)
    decreases |tokens|
  {
    hide Lex, UnwrapWaw, IsAmountToken, WithWaw, Unread, Alike;
    if tokens != [] {
      ReadIff(tokens[0]);
      if Unread(tokens[0]) && Interleaved(words, tokens[1..]) {
        SpokenAsWritten(words, tokens[1..]);
      } else {
        var w :| Alike(w, words[0]) && (tokens[0] == w || tokens[0] == WithWaw(w));
        AlikeReads(w, words[0]);
        if w != words[0] {
          AmountsAreSteady(w);
        }
        assert Steady(w) && Lex(w) == Lex(words[0]);
        SpokenAsWritten(words[1..], tokens[1..]);
      }
    }
  }

  lemma {:induction false} SpelledWordsMean(words: seq<string>, ls: seq<Lexeme>)
    requires Spells(ARABIC.lex, words, ls)
    ensures Meaning(ARABIC.lex, words) == ls && forall w <- words :: Steady(w)
  {
    hide Lex, Steady;
    if words != [] {
      assert ARABIC.lex(words[0]) == Some(ls[0]) && Lex(words[0]) == Some(ls[0]);
      AmountsAreSteady(words[0]);
      SpelledWordsMean(words[1..], ls[1..]);
      assert ls == [ls[0]] + ls[1..] && words == [words[0]] + words[1..];
    }
  }

  /**
   * The Arabic round trip: the words of n, hundreds glued or split, in any spelling
   * of the tables, with "و" glued onto any word and unread words put in anywhere,
   * parse back to n.
   */
  lemma ArabicRoundTrip(n: nat, glued: bool, tokens: seq<string>)
    requires 0 < n < 1_000_000_000 && Interleaved(ArabicWords(n, glued), tokens)
    ensures FromArabicWords(tokens) == Some(n)
  {
    ArabicIsSane();
    WordsSpell(ARABIC, n, glued);
    SpelledWordsMean(ArabicWords(n, glued), Say(PhraseOf(n, glued)));
    SpokenAsWritten(ArabicWords(n, glued), tokens);
    ReadsBack(PhraseOf(n, glued));
  }

  // ---- a count before a dual -----------------------------------------------

  /** What a dual is worth by itself. */
  function DualWorth(dual: Lexeme): nat {
    match dual
    case DualHundred => 200
    case DualScale(k) => 2 * k
    case _ => 0
  }

  lemma SpelledReads(word: string, l: Lexeme)
    requires word in Spellings(l)
    ensures Read(word) == Some(l)
  {
    LexIff(word, l);
    AmountsAreSteady(word);
    hide Lex;
  }

  lemma TwoTokens(a: string, b: string, la: Lexeme, lb: Lexeme)
    requires Read(a) == Some(la) && Read(b) == Some(lb)
    ensures Meaning(READ, [a, b]) == [la, lb]
  {
    hide Read;
    assert [a, b][1..] == [b] && [b][1..] == [];
    assert READ(a) == Some(la) && READ(b) == Some(lb);
    assert Meaning(READ, [b]) == [lb] + Meaning(READ, []) == [lb];
  }

  lemma DualReplaces(n: nat, dual: Lexeme)
    requires DualWorth(dual) > 0
    ensures Finish(ApplyAll(START, [Add(n), dual])) == Some(DualWorth(dual))
  {
    assert [Add(n), dual][1..] == [dual] && [dual][1..] == [];
    var counted := Apply(START, Add(n));
    assert ApplyAll(START, [Add(n), dual]) == ApplyAll(counted, [dual]) == Apply(counted, dual);
  }

  /** A count said right before a dual is lost: only the dual is heard. */
  lemma CountBeforeDualIsLost(count: string, n: nat, word: string, dual: Lexeme)
    requires count in Spellings(Add(n)) && word in Spellings(dual) && DualWorth(dual) > 0
    ensures FromArabicWords([count, word]) == Some(DualWorth(dual))
  {
    SpelledReads(count, Add(n));
    SpelledReads(word, dual);
    TwoTokens(count, word, Add(n), dual);
    DualReplaces(n, dual);
    hide Read, Spellings, Meaning, ApplyAll, Finish, DualWorth;
  }
}
