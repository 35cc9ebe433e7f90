/** English amount words: the token loop with its one-word lookahead, and the round trip. */
module SpokenEnglish {
  import opened Common
  import opened Numerals
  import opened EnglishPhrases
  import opened EnglishSpellings

  function Ones(token: string): nat {
    if token == "one" then 1 else if token == "two" then 2 else if token == "three" then 3
    else if token == "four" then 4 else if token == "five" then 5 else if token == "six" then 6
    else if token == "seven" then 7 else if token == "eight" then 8 else if token == "nine" then 9
    else if token == "ten" then 10 else if token == "eleven" then 11 else if token == "twelve" then 12
    else if token == "thirteen" then 13 else if token == "fourteen" then 14 else if token == "fifteen" then 15
    else if token == "sixteen" then 16 else if token == "seventeen" then 17 else if token == "eighteen" then 18
    else if token == "nineteen" then 19 else 0
  }

  function Tens(token: string): nat {
    if token == "twenty" then 20 else if token == "thirty" then 30 else if token == "forty" then 40
    else if token == "fifty" then 50 else if token == "sixty" then 60 else if token == "seventy" then 70
    else if token == "eighty" then 80 else if token == "ninety" then 90 else 0
  }

  predicate IsHundred(token: string) { token == "hundred" || token == "hundreds" }

  predicate IsThousand(token: string) { token == "thousand" || token == "thousands" }

  predicate IsMillion(token: string) { token == "million" || token == "millions" }

  predicate IsScaleWord(token: string) { IsHundred(token) || IsThousand(token) || IsMillion(token) }

  predicate IsArticle(token: string) { token == "a" || token == "an" }

  /** What a word means by itself. */
  function Lex(token: string): Option<Lexeme> {
    if token == "and" || IsArticle(token) then None
    else if Ones(token) > 0 then Some(Add(Ones(token)))
    else if Tens(token) > 0 then Some(Add(Tens(token)))
    else if IsHundred(token) then Some(Hundred)
    else if IsThousand(token) then Some(Scale(1000))
    else if IsMillion(token) then Some(Scale(1_000_000))
    else None
  }

  /** What a word contributes, given the word after it: an article counts as one before a scale word. */
  function LexBefore(token: string, next: string): Option<Lexeme> {
    if IsArticle(token) then if IsScaleWord(next) then Some(Add(1)) else None else Lex(token)
  }

  function NextOf(tokens: seq<string>): string {
    if |tokens| > 1 then tokens[1] else ""
  }

  function Opt(l: Option<Lexeme>): seq<Lexeme> {
    if l.Some? then [l.value] else []
  }

  /** What the words mean together. */
  function Meaning(tokens: seq<string>): seq<Lexeme>
    decreases |tokens|
  {
    if tokens == [] then [] else Opt(LexBefore(tokens[0], NextOf(tokens))) + Meaning(tokens[1..])
  }

  function FromEnglishWords(tokens: seq<string>): Option<nat> {
    Finish(ApplyAll(START, Meaning(tokens)))
  }

  /** One turn of the token loop, branch by branch. */
  method HandleToken(token: string, next: string, totalIn: nat, currentIn: nat, foundIn: bool)
    returns (total: nat, current: nat, found: bool)
    ensures Acc(total, current, found) == ApplyAll(Acc(totalIn, currentIn, foundIn), Opt(LexBefore(token, next)))
  {
    total, current, found := totalIn, currentIn, foundIn;
    if token == "and" {
      return;
    }
    if IsArticle(token) {
      if IsScaleWord(next) {
        current := current + 1;
        found := true;
      }
      return;
    }
    if Ones(token) > 0 {
      current := current + Ones(token);
      found := true;
    } else if Tens(token) > 0 {
      current := current + Tens(token);
      found := true;
    } else if IsHundred(token) {
      current := (if current == 0 then 1 else current) * 100;
      found := true;
    } else if IsThousand(token) {
      total := total + (if current == 0 then 1 else current) * 1000;
      current := 0;
      found := true;
    } else if IsMillion(token) {
      total := total + (if current == 0 then 1 else current) * 1_000_000;
      current := 0;
      found := true;
    }
  }

  /** The index loop with its lookahead computes the meaning. */
  method ParseEnglishWords(tokens: seq<string>) returns (value: Option<nat>)
    ensures value == FromEnglishWords(tokens)
  {
    var total: nat, current: nat, found := 0, 0, false;
    var i := 0;
    while i < |tokens|
      invariant 0 <= i <= |tokens|
      invariant ApplyAll(START, Meaning(tokens)) == ApplyAll(Acc(total, current, found), Meaning(tokens[i..]))
    {
      var next := if i + 1 < |tokens| then tokens[i + 1] else "";
      assert tokens[i..][1..] == tokens[i + 1..] && NextOf(tokens[i..]) == next;
      ApplyAllConcat(Acc(total, current, found), Opt(LexBefore(tokens[i], next)), Meaning(tokens[i + 1..]));
      total, current, found := HandleToken(tokens[i], next, total, current, found);
      i := i + 1;
    }
    if !found {
      return None;
    }
    value := if total + current > 0 then Some(total + current) else None;
  }

  // ---- the tables are the spellings ----------------------------------------

  lemma OnesAre(w: string)
    ensures Ones(w) <= 19 && (Ones(w) > 0 ==> w in Counts(Ones(w)))
  {
  }

  lemma ShortCounts(w: string, n: nat)
    requires 1 <= n < 10 && w in Counts(n)
    ensures Ones(w) == n && !IsArticle(w) && w != "and"
  {
  }

  lemma LongCounts(w: string, n: nat)
    requires 10 <= n && w in Counts(n)
    ensures Ones(w) == n && !IsArticle(w) && w != "and"
  {
  }

  lemma CountsAre(w: string, n: nat)
    requires n > 0
    ensures w in Counts(n) <==> Ones(w) == n
    ensures w in Counts(n) ==> !IsArticle(w) && w != "and"
  {
    if w in Counts(n) {
      if n < 10 { ShortCounts(w, n); } else { LongCounts(w, n); }
    }
    OnesAre(w);
  }

  lemma TensAre(w: string, n: nat)
    requires n > 0
    ensures w in TensWords(n) <==> Tens(w) == n
    ensures w in TensWords(n) ==> Ones(w) == 0 && !IsArticle(w) && w != "and"
  {
  }

  /** Scale words and the counts and tens are told apart by their first letters and their length. */
  lemma ScaleShape(w: string)
    ensures w in SCALES ==> |w| >= 7 && (w[0] == 'h' || (w[0] == 't' && w[3] == 'u') || w[0] == 'm')
    ensures Ones(w) > 0 ==> |w| < 7 || (w[0] != 'h' && w[0] != 'm' && w[3] != 'u')
    ensures Tens(w) > 0 ==> |w| < 7 || w[0] == 's'
    ensures IsArticle(w) || w == "and" ==> |w| < 7
  {
  }

  lemma ScalesAre(w: string)
    ensures IsHundred(w) <==> w in HUNDREDS
    ensures IsThousand(w) <==> w in THOUSANDS
    ensures IsMillion(w) <==> w in MILLIONS
    ensures w in SCALES ==> Ones(w) == 0 && Tens(w) == 0 && !IsArticle(w) && w != "and"
    ensures !(IsHundred(w) && IsThousand(w)) && !(IsHundred(w) && IsMillion(w)) && !(IsThousand(w) && IsMillion(w))
  {
    ScaleShape(w);
    hide Ones, Tens, IsArticle;
  }

  lemma NoZero()
    ensures Counts(0) == {} && TensWords(0) == {}
  {
  }

  /** A word is read with a meaning exactly when it is one of the spellings of that meaning. */
  lemma LexIff(w: string, l: Lexeme)
    ensures Lex(w) == Some(l) <==> w in Spellings(l)
  {
    ScalesAre(w);
    NoZero();
    if l.Add? && l.k > 0 {
      CountsAre(w, l.k);
      TensAre(w, l.k);
    }
    hide Ones, Tens, IsHundred, IsThousand, IsMillion, Counts, TensWords, IsArticle;
  }

  // ---- noise ---------------------------------------------------------------

  ghost predicate IsSpelled(word: string) {
    exists l :: word in Spellings(l)
  }

  /**
   * A word that is passed over, given the word after it: no amount word, and no article
   * right before a scale word.
   */
  ghost predicate Unread(token: string, next: string) {
    !IsSpelled(token) && (token in ARTICLES ==> next !in SCALES)
  }

  ghost predicate Alike(a: string, b: string) {
    a == b || exists l :: a in Spellings(l) && b in Spellings(l)
  }

  /** The word stands for this one: a spelling of it, or an article for a "one" right before a scale word. */
  ghost predicate StandsFor(token: string, next: string, word: string) {
    Alike(token, word) || (word == "one" && token in ARTICLES && next in SCALES)
  }

  /**
   * `tokens` is `words`, singular or plural, with "a" or "an" for a "one" right before a
   * scale word, and with words that are no amount words put in anywhere.
   */
  ghost predicate Interleaved(words: seq<string>, tokens: seq<string>)
    decreases |tokens|
  {
    if tokens == [] then words == []
    else
      || (Unread(tokens[0], NextOf(tokens)) && Interleaved(words, tokens[1..]))
      || (words != [] && StandsFor(tokens[0], NextOf(tokens), words[0]) && Interleaved(words[1..], tokens[1..]))
  }

  ghost predicate NoArticles(words: seq<string>) {
    forall i :: 0 <= i < |words| ==> !IsArticle(words[i])
  }

  lemma SpelledIff(word: string)
    ensures Lex(word).Some? <==> IsSpelled(word)
    ensures IsSpelled(word) ==> !IsArticle(word)
  {
    forall l ensures Lex(word) == Some(l) <==> word in Spellings(l) { LexIff(word, l); }
    if Lex(word).Some? {
      assert word in Spellings(Lex(word).value);
    }
    hide Ones, Tens, Spellings;
  }

  lemma ArticlesAre(w: string)
    ensures IsArticle(w) <==> w in ARTICLES
    ensures IsScaleWord(w) <==> w in SCALES
  {
  }

  /** The parser passes over exactly the words that are no amount words in their place. */
  lemma UnreadIff(token: string, next: string)
    ensures Unread(token, next) <==> LexBefore(token, next).None?
  {
    SpelledIff(token);
    ArticlesAre(token);
    ArticlesAre(next);
    hide IsSpelled, IsArticle, IsScaleWord, Lex;
  }

  /** Whatever stands for a word is read as the word is. */
  lemma StandInReads(token: string, next: string, word: string)
    requires StandsFor(token, next, word) && !IsArticle(word)
    ensures LexBefore(token, next) == Lex(word)
  {
    ArticlesAre(token);
    ArticlesAre(next);
    if Alike(token, word) && token != word {
      var l :| token in Spellings(l) && word in Spellings(l);
      LexIff(token, l);
      LexIff(word, l);
      SpelledIff(token);
    }
    OneIs();
    hide Lex, IsArticle, IsScaleWord, Spellings;
  }

  lemma OneIs()
    ensures Lex("one") == Some(Add(1))
  {
    LexIff("one", Add(1));
    hide Lex;
  }

  lemma {:induction false} NoiseMeansNothing(words: seq<string>, tokens: seq<string>)
    requires Interleaved(words, tokens) && NoArticles(words)
    ensures Meaning(tokens) == Meaning(words)
    decreases |tokens|
  {
    hide Lex, LexBefore, Unread, StandsFor, IsArticle;
    if tokens != [] {
      UnreadIff(tokens[0], NextOf(tokens));
      if Unread(tokens[0], NextOf(tokens)) && Interleaved(words, tokens[1..]) {
        NoiseMeansNothing(words, tokens[1..]);
      } else {
        StandInReads(tokens[0], NextOf(tokens), words[0]);
        PlainWord(words[0], NextOf(words));
        NoiseMeansNothing(words[1..], tokens[1..]);
      }
    }
  }

  lemma PlainWord(word: string, next: string)
    requires !IsArticle(word)
    ensures LexBefore(word, next) == Lex(word)
  {
  }

  // ---- the words of n ------------------------------------------------------

  function UnitWord(n: nat): string {
    if n == 1 then "one" else if n == 2 then "two" else if n == 3 then "three" else if n == 4 then "four"
    else if n == 5 then "five" else if n == 6 then "six" else if n == 7 then "seven" else if n == 8 then "eight"
    else if n == 9 then "nine" else if n == 10 then "ten" else if n == 11 then "eleven" else if n == 12 then "twelve"
    else if n == 13 then "thirteen" else if n == 14 then "fourteen" else if n == 15 then "fifteen"
    else if n == 16 then "sixteen" else if n == 17 then "seventeen" else if n == 18 then "eighteen" else "nineteen"
  }

  function TensWord(n: nat): string {
    if n == 2 then "twenty" else if n == 3 then "thirty" else if n == 4 then "forty" else if n == 5 then "fifty"
    else if n == 6 then "sixty" else if n == 7 then "seventy" else if n == 8 then "eighty" else "ninety"
  }

  lemma WordsAreSpelled()
    ensures forall n: nat :: 1 <= n < 20 ==> UnitWord(n) in Counts(n)
    ensures forall n: nat :: 2 <= n <= 9 ==> TensWord(n) in TensWords(n * 10)
  {
  }

  const ENGLISH := Vocabulary(w => Lex(w), (n: nat) => UnitWord(n), (n: nat) => TensWord(n), "hundred", "thousand",
                              "million")

  lemma EnglishIsSane()
    ensures Sane(ENGLISH)
  {
    hide Lex, UnitWord, TensWord, Counts, TensWords;
    WordsAreSpelled();
    LexIff("hundred", Hundred);
    LexIff("thousand", Scale(1000));
    LexIff("million", Scale(1_000_000));
    forall n: nat | 1 <= n < 20 ensures ENGLISH.lex(ENGLISH.unit(n)) == Some(Add(n)) { LexIff(UnitWord(n), Add(n)); }
    forall n: nat | 2 <= n <= 9 ensures ENGLISH.lex(ENGLISH.tens(n)) == Some(Add(n * 10)) {
      LexIff(TensWord(n), Add(n * 10));
    }
  }

  /** How n is said: "three hundred twenty one million four thousand nine". */
  function EnglishWords(n: nat): seq<string>
    requires n < 1_000_000_000
  {
    WordsOf(ENGLISH, n)
  }

  lemma {:induction false} SpelledWordsMean(words: seq<string>, ls: seq<Lexeme>)
    requires Spells(ENGLISH.lex, words, ls)
    ensures Meaning(words) == ls && NoArticles(words)
    decreases |words|
  {
    if words != [] {
      assert ENGLISH.lex(words[0]) == Some(ls[0]);
      SpelledWordsMean(words[1..], ls[1..]);
      assert ls == [ls[0]] + ls[1..];
      assert forall i :: 0 < i < |words| ==> words[i] == words[1..][i - 1];
    }
  }

  /**
   * The English round trip: the words of n, scale words singular or plural, with "a" or
   * "an" for "one" before them, and with "and" and other words put in anywhere, parse back
   * to n.
   */
  lemma EnglishRoundTrip(n: nat, tokens: seq<string>)
    requires 0 < n < 1_000_000_000 && Interleaved(EnglishWords(n), tokens)
    ensures FromEnglishWords(tokens) == Some(n)
  {
    EnglishIsSane();
    WordsSpell(ENGLISH, n);
    SpelledWordsMean(EnglishWords(n), Say(PhraseOf(n)));
    NoiseMeansNothing(EnglishWords(n), tokens);
    ReadsBack(PhraseOf(n));
  }
}
