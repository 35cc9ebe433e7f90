/** Choosing among the readings of a goal text, and snapping a model's amount to what was said. */
module SpokenMajor {
  import opened Common
  import E = SpokenEnglish
  import A = SpokenArabic

  /**
   * What the recognisers find in one text. The three digit recognisers are given
   * by their results; the word parsers by the tokens they scan.
   */
  datatype Readings = Readings(mixedScale: Option<nat>, english: seq<string>, arabic: seq<string>,
                               anchored: Option<nat>, lastInteger: Option<nat>)

  function FirstOf(a: Option<nat>, b: Option<nat>): Option<nat> {
    if a.Some? && a.value > 0 then a else b
  }

  function ParseSpokenMajor(r: Readings): Option<nat> {
    FirstOf(r.mixedScale,
      FirstOf(E.FromEnglishWords(r.english),
        FirstOf(A.FromArabicWords(r.arabic),
          FirstOf(r.anchored, r.lastInteger))))
  }

  /** An amount said in English words is what is heard, whatever digits also follow. */
  lemma EnglishAmountIsHeard(r: Readings, n: nat)
    requires 0 < n < 1_000_000_000 && r.mixedScale.None? && E.Interleaved(E.EnglishWords(n), r.english)
    ensures ParseSpokenMajor(r) == Some(n)
  {
    E.EnglishRoundTrip(n, r.english);
  }

  /** An amount said in Arabic words is what is heard, among English words that mean nothing. */
  lemma ArabicAmountIsHeard(r: Readings, n: nat, glued: bool)
    requires 0 < n < 1_000_000_000 && r.mixedScale.None? && A.Interleaved(A.ArabicWords(n, glued), r.arabic)
    requires E.Interleaved([], r.english)
    ensures ParseSpokenMajor(r) == Some(n)
  {
    A.ArabicRoundTrip(n, glued, r.arabic);
    E.NoiseMeansNothing([], r.english);
  }

  /** The recognisers in the order in which they are asked. */
  function InOrder(r: Readings): seq<Option<nat>> {
    [r.mixedScale, E.FromEnglishWords(r.english), A.FromArabicWords(r.arabic), r.anchored, r.lastInteger]
  }

  predicate Hears(reading: Option<nat>) {
    reading.Some? && reading.value > 0
  }

  /** What is heard is the first amount that a recogniser finds, in their order; without one, nothing. */
  lemma FirstHeard(r: Readings, k: nat)
    requires k < 5 && (forall i :: 0 <= i < k ==> !Hears(InOrder(r)[i]))
    ensures Hears(InOrder(r)[k]) ==> ParseSpokenMajor(r) == InOrder(r)[k]
    ensures k == 4 && !Hears(InOrder(r)[4]) ==> !Hears(ParseSpokenMajor(r))
  {
    hide E.FromEnglishWords, A.FromArabicWords;
    assert k > 0 ==> !Hears(InOrder(r)[0]);
    assert k > 1 ==> !Hears(InOrder(r)[1]);
    assert k > 2 ==> !Hears(InOrder(r)[2]);
    assert k > 3 ==> !Hears(InOrder(r)[3]);
  }

  /** Currencies without minor units. */
  const ZERO_DECIMAL_CURRENCIES: set<string> := {"YER"}

  /** How many minor units go to a major one; codes are upper-cased. */
  function MinorUnitFactor(currencyCode: string): nat {
    if currencyCode in ZERO_DECIMAL_CURRENCIES then 1 else 100
  }

  /** The amount in minor units that goes with what was said, given the currency's factor. */
  function CorrectScale(spoken: Option<nat>, factor: nat, amountMinor: int): int {
    if spoken.None? || spoken.value == 0 then amountMinor
    else
      var expected := spoken.value * factor;
      if amountMinor == expected || amountMinor == expected * 10 || amountMinor == expected * 100 then expected
      else if factor > 1 && amountMinor == spoken.value then expected
      else amountMinor
  }

  /** Snapping is stable: it answers the amount given or the spoken one, and a second pass changes nothing. */
  lemma SnapIsStable(spoken: Option<nat>, factor: nat, amountMinor: int)
    requires factor == 1 || factor == 100
    ensures var snapped := CorrectScale(spoken, factor, amountMinor);
            && CorrectScale(spoken, factor, snapped) == snapped
            && (snapped != amountMinor ==> spoken.Some? && snapped == spoken.value * factor)
            && (spoken.Some? && spoken.value > 0 && amountMinor == spoken.value * factor ==> snapped == amountMinor)
  {
  }

  /**
   * What is snapped: the amount itself, ten and a hundred times it, and where there are minor
   * units the amount said in major ones, all become the amount said; every other is left alone.
   */
  lemma SnapIs(said: nat, amountMinor: int)
    requires said > 0
    ensures CorrectScale(Some(said), 100, amountMinor) ==
            if amountMinor in {said, said * 100, said * 1000, said * 10_000} then said * 100 else amountMinor
    ensures CorrectScale(Some(said), 1, amountMinor) ==
            if amountMinor in {said, said * 10, said * 100} then said else amountMinor
    ensures CorrectScale(None, 1, amountMinor) == CorrectScale(None, 100, amountMinor) == amountMinor
    ensures CorrectScale(Some(0), 1, amountMinor) == CorrectScale(Some(0), 100, amountMinor) == amountMinor
  {
  }

  /** From the words to the amount: what is said in English, and what the proposal then holds. */
  lemma SaidIsSnapped(r: Readings, n: nat, currencyCode: string, amountMinor: int)
    requires 0 < n < 1_000_000_000 && r.mixedScale.None? && E.Interleaved(E.EnglishWords(n), r.english)
    ensures CorrectScale(ParseSpokenMajor(r), MinorUnitFactor(currencyCode), amountMinor) ==
            if currencyCode == "YER" then if amountMinor in {n, n * 10, n * 100} then n else amountMinor
            else if amountMinor in {n, n * 100, n * 1000, n * 10_000} then n * 100 else amountMinor
  {
    EnglishAmountIsHeard(r, n);
    SnapIs(n, amountMinor);
    hide ParseSpokenMajor, CorrectScale, E.Interleaved;
  }
}
