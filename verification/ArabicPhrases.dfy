/** How Arabic puts a number into words: duals, glued or split hundreds, units before tens. */
module ArabicPhrases {
  import opened Common
  import opened Numerals

  /** A scale has a singular, a dual and a plural. */
  datatype ScaleWords = ScaleWords(one: string, two: string, many: string)

  datatype Vocabulary = Vocabulary(lex: Dictionary, unit: nat -> string, ten: string, tens: nat -> string,
                                   hundred: string, twoHundred: string, gluedHundred: nat -> string,
                                   thousand: ScaleWords, million: ScaleWords)

  ghost predicate SaneScale(lex: Dictionary, s: ScaleWords, k: nat) {
    lex(s.one) == Some(Scale(k)) && lex(s.two) == Some(DualScale(k)) && lex(s.many) == Some(Scale(k))
  }

  ghost predicate Sane(v: Vocabulary) {
    && (forall n: nat :: 1 <= n <= 10 ==> v.lex(v.unit(n)) == Some(Add(n)))
    && (forall n: nat :: 2 <= n <= 9 ==> v.lex(v.tens(n)) == Some(Add(n * 10)))
    && (forall n: nat :: 3 <= n <= 9 ==> v.lex(v.gluedHundred(n)) == Some(Add(n * 100)))
    && v.lex(v.ten) == Some(Add(10)) && v.lex(v.hundred) == Some(Hundred) && v.lex(v.twoHundred) == Some(DualHundred)
    && SaneScale(v.lex, v.thousand, 1000) && SaneScale(v.lex, v.million, 1_000_000)
  }

  function RestOf(r: nat): seq<nat>
    requires r < 100
  {
    if r == 0 then []
    else if r <= 10 || r % 10 == 0 then [r]
    else if r < 20 then [r - 10, 10] else [r % 10, r - r % 10]
  }

  function RestWords(v: Vocabulary, r: nat): seq<string>
    requires r < 100
  {
    if r == 0 then []
    else if r <= 10 then [v.unit(r)]
    else if r % 10 == 0 then [v.tens(r / 10)]
    else if r < 20 then [v.unit(r - 10), v.ten] else [v.unit(r % 10), v.tens(r / 10)]
  }

  /** With `glued`, three to nine hundreds are one word that adds; otherwise a count and the hundred word. */
  function GroupOf(n: nat, glued: bool): Group
    requires n < 1000
  {
    var (h, rest) := (n / 100, RestOf(n % 100));
    if h == 0 then Group(NoHundreds, rest)
    else if h == 1 then Group(BareHundred, rest)
    else if h == 2 then Group(TwoHundred, rest)
    else if glued then Group(NoHundreds, [h * 100] + rest) else Group(Times([h]), rest)
  }

  function HundredWords(v: Vocabulary, h: nat, glued: bool): seq<string> {
    if h == 0 then []
    else if h == 1 then [v.hundred]
    else if h == 2 then [v.twoHundred]
    else if glued then [v.gluedHundred(h)] else [v.unit(h), v.hundred]
  }

  function GroupWords(v: Vocabulary, n: nat, glued: bool): seq<string>
    requires n < 1000
  {
    HundredWords(v, n / 100, glued) + RestWords(v, n % 100)
  }

  function PartOf(n: nat, scale: nat, glued: bool): seq<Part>
    requires n < 1000
  {
    if n == 0 then [] else if n == 1 then [BareScale(scale)] else if n == 2 then [TwoScales(scale)]
    else [Scaled(GroupOf(n, glued), scale)]
  }

  function PartWords(v: Vocabulary, n: nat, s: ScaleWords, glued: bool): seq<string>
    requires n < 1000
  {
    if n == 0 then [] else if n == 1 then [s.one] else if n == 2 then [s.two]
    else GroupWords(v, n, glued) + [if n <= 10 then s.many else s.one]
  }

  function PhraseOf(n: nat, glued: bool): Phrase
    requires n < 1_000_000_000
  {
    Phrase(PartOf(n / 1_000_000, 1_000_000, glued) + PartOf(n / 1000 % 1000, 1000, glued), GroupOf(n % 1000, glued))
  }

  function WordsOf(v: Vocabulary, n: nat, glued: bool): seq<string>
    requires n < 1_000_000_000
  {
    PartWords(v, n / 1_000_000, v.million, glued) + PartWords(v, n / 1000 % 1000, v.thousand, glued)
    + GroupWords(v, n % 1000, glued)
  }

  lemma RestSpells(v: Vocabulary, r: nat)
    requires Sane(v) && r < 100
    ensures Spells(v.lex, RestWords(v, r), AddAll(RestOf(r))) && Total(RestOf(r)) == r
  {
    AddOneOrTwo(r, 0);
    if 10 < r < 20 {
      AddOneOrTwo(r - 10, 10);
    } else {
      AddOneOrTwo(r % 10, r - r % 10);
    }
  }

  lemma HundredsSpell(v: Vocabulary, h: nat, glued: bool, rest: seq<nat>, restWords: seq<string>)
    requires Sane(v) && h < 10 && Spells(v.lex, restWords, AddAll(rest))
    ensures var g := if h == 0 then Group(NoHundreds, rest) else if h == 1 then Group(BareHundred, rest)
                     else if h == 2 then Group(TwoHundred, rest)
                     else if glued then Group(NoHundreds, [h * 100] + rest) else Group(Times([h]), rest);
            Spells(v.lex, HundredWords(v, h, glued) + restWords, SayGroup(g))
            && GroupValue(g) == h * 100 + Total(rest) && Sound(g.hundreds)
  {
    if h == 1 {
      SpellsJoin(v.lex, [v.hundred], [Hundred], restWords, AddAll(rest));
    } else if h == 2 {
      SpellsJoin(v.lex, [v.twoHundred], [DualHundred], restWords, AddAll(rest));
    } else if h > 2 && glued {
      assert ([h * 100] + rest)[1..] == rest;
      SpellsJoin(v.lex, [v.gluedHundred(h)], [Add(h * 100)], restWords, AddAll(rest));
    } else if h > 2 {
      AddOneOrTwo(h, 0);
      assert Spells(v.lex, [v.unit(h), v.hundred], [Add(h)] + [Hundred]);
      SpellsJoin(v.lex, [v.unit(h), v.hundred], [Add(h)] + [Hundred], restWords, AddAll(rest));
    }
  }

  lemma GroupSpells(v: Vocabulary, n: nat, glued: bool)
    requires Sane(v) && n < 1000
    ensures Spells(v.lex, GroupWords(v, n, glued), SayGroup(GroupOf(n, glued)))
    ensures GroupValue(GroupOf(n, glued)) == n && Sound(GroupOf(n, glued).hundreds)
  {
    RestSpells(v, n % 100);
    HundredsSpell(v, n / 100, glued, RestOf(n % 100), RestWords(v, n % 100));
  }

  lemma PartSpells(v: Vocabulary, n: nat, s: ScaleWords, scale: nat, glued: bool)
    requires Sane(v) && n < 1000 && SaneScale(v.lex, s, scale)
    ensures Spells(v.lex, PartWords(v, n, s, glued), SayParts(PartOf(n, scale, glued)))
    ensures PartsValue(PartOf(n, scale, glued)) == n * scale
    ensures WellFormed(Phrase(PartOf(n, scale, glued), Group(NoHundreds, [])))
  {
    if n == 1 {
      OnePart(BareScale(scale));
    } else if n == 2 {
      OnePart(TwoScales(scale));
    } else if n > 2 {
      GroupSpells(v, n, glued);
      SpellsJoin(v.lex, GroupWords(v, n, glued), SayGroup(GroupOf(n, glued)), [if n <= 10 then s.many else s.one],
                 [Scale(scale)]);
      OnePart(Scaled(GroupOf(n, glued), scale));
    }
  }

  lemma Digits(n: nat)
    requires n < 1_000_000_000
    ensures n == n / 1_000_000 * 1_000_000 + n / 1000 % 1000 * 1000 + n % 1000
  {
  }

  lemma PartsSpell(v: Vocabulary, m: nat, t: nat, glued: bool)
    requires Sane(v) && m < 1000 && t < 1000
    ensures var ps := PartOf(m, 1_000_000, glued) + PartOf(t, 1000, glued);
            && Spells(v.lex, PartWords(v, m, v.million, glued) + PartWords(v, t, v.thousand, glued), SayParts(ps))
            && PartsValue(ps) == m * 1_000_000 + t * 1000 && WellFormed(Phrase(ps, Group(NoHundreds, [])))
  {
    PartSpells(v, m, v.million, 1_000_000, glued);
    PartSpells(v, t, v.thousand, 1000, glued);
    PartsJoin(PartOf(m, 1_000_000, glued), PartOf(t, 1000, glued));
    SpellsJoin(v.lex, PartWords(v, m, v.million, glued), SayParts(PartOf(m, 1_000_000, glued)),
               PartWords(v, t, v.thousand, glued), SayParts(PartOf(t, 1000, glued)));
  }

  /** The words of n spell a phrase worth n, with glued or with split hundreds. */
  lemma WordsSpell(v: Vocabulary, n: nat, glued: bool)
    requires Sane(v) && n < 1_000_000_000
    ensures Spells(v.lex, WordsOf(v, n, glued), Say(PhraseOf(n, glued)))
    ensures Value(PhraseOf(n, glued)) == n && WellFormed(PhraseOf(n, glued))
  {
    var (m, t, r) := (n / 1_000_000, n / 1000 % 1000, n % 1000);
    PartsSpell(v, m, t, glued);
    GroupSpells(v, r, glued);
    SpellsJoin(v.lex, PartWords(v, m, v.million, glued) + PartWords(v, t, v.thousand, glued),
               SayParts(PhraseOf(n, glued).parts), GroupWords(v, r, glued), SayGroup(GroupOf(r, glued)));
    Digits(n);
  }
}
