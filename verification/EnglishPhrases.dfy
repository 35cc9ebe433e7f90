/** How English puts a number into words, for any vocabulary that means what it should. */
module EnglishPhrases {
  import opened Common
  import opened Numerals

  datatype Vocabulary = Vocabulary(lex: Dictionary, unit: nat -> string, tens: nat -> string,
                                   hundred: string, thousand: string, million: string)

  ghost predicate Sane(v: Vocabulary) {
    && (forall n: nat :: 1 <= n < 20 ==> v.lex(v.unit(n)) == Some(Add(n)))
    && (forall n: nat :: 2 <= n <= 9 ==> v.lex(v.tens(n)) == Some(Add(n * 10)))
    && v.lex(v.hundred) == Some(Hundred) && v.lex(v.thousand) == Some(Scale(1000))
      && v.lex(v.million) == Some(Scale(1_000_000))
  }

  function RestOf(r: nat): seq<nat>
    requires r < 100
  {
    if r == 0 then [] else if r < 20 || r % 10 == 0 then [r] else [r - r % 10, r % 10]
  }

  function GroupOf(n: nat): Group
    requires n < 1000
  {
    Group(if n >= 100 then Times([n / 100]) else NoHundreds, RestOf(n % 100))
  }

  function PartOf(n: nat, scale: nat): seq<Part>
    requires n < 1000
  {
    if n > 0 then [Scaled(GroupOf(n), scale)] else []
  }

  function PhraseOf(n: nat): Phrase
    requires n < 1_000_000_000
  {
    Phrase(PartOf(n / 1_000_000, 1_000_000) + PartOf(n / 1000 % 1000, 1000), GroupOf(n % 1000))
  }

  function RestWords(v: Vocabulary, r: nat): seq<string>
    requires r < 100
  {
    if r == 0 then []
    else if r < 20 then [v.unit(r)]
    else if r % 10 == 0 then [v.tens(r / 10)] else [v.tens(r / 10), v.unit(r % 10)]
  }

  function GroupWords(v: Vocabulary, n: nat): seq<string>
    requires n < 1000
  {
    (if n >= 100 then [v.unit(n / 100), v.hundred] else []) + RestWords(v, n % 100)
  }

  function PartWords(v: Vocabulary, n: nat, scaleWord: string): seq<string>
    requires n < 1000
  {
    if n > 0 then GroupWords(v, n) + [scaleWord] else []
  }

  function WordsOf(v: Vocabulary, n: nat): seq<string>
    requires n < 1_000_000_000
  {
    PartWords(v, n / 1_000_000, v.million) + PartWords(v, n / 1000 % 1000, v.thousand) + GroupWords(v, n % 1000)
  }

  lemma RestSpells(v: Vocabulary, r: nat)
    requires Sane(v) && r < 100
    ensures Spells(v.lex, RestWords(v, r), AddAll(RestOf(r))) && Total(RestOf(r)) == r
  {
    AddOneOrTwo(r, 0);
    AddOneOrTwo(r - r % 10, r % 10);
  }

  lemma GroupSpells(v: Vocabulary, n: nat)
    requires Sane(v) && n < 1000
    ensures Spells(v.lex, GroupWords(v, n), SayGroup(GroupOf(n))) && GroupValue(GroupOf(n)) == n
            && Sound(GroupOf(n).hundreds)
  {
    RestSpells(v, n % 100);
    if n >= 100 {
      AddOneOrTwo(n / 100, 0);
      assert Spells(v.lex, [v.unit(n / 100), v.hundred], [Add(n / 100)] + [Hundred]);
      SpellsJoin(v.lex, [v.unit(n / 100), v.hundred], [Add(n / 100)] + [Hundred], RestWords(v, n % 100),
                 AddAll(RestOf(n % 100)));
    }
  }

  /** A group and its scale word, or nothing for a zero group. */
  lemma PartSpells(v: Vocabulary, n: nat, word: string, scale: nat)
    requires Sane(v) && n < 1000 && v.lex(word) == Some(Scale(scale))
    ensures Spells(v.lex, PartWords(v, n, word), SayParts(PartOf(n, scale)))
            && PartsValue(PartOf(n, scale)) == n * scale
    ensures WellFormed(Phrase(PartOf(n, scale), Group(NoHundreds, [])))
  {
    if n > 0 {
      GroupSpells(v, n);
      SpellsJoin(v.lex, GroupWords(v, n), SayGroup(GroupOf(n)), [word], [Scale(scale)]);
      OnePart(Scaled(GroupOf(n), scale));
    }
  }

  lemma Digits(n: nat)
    requires n < 1_000_000_000
    ensures n == n / 1_000_000 * 1_000_000 + n / 1000 % 1000 * 1000 + n % 1000
  {
  }

  lemma PartsSpell(v: Vocabulary, m: nat, t: nat)
    requires Sane(v) && m < 1000 && t < 1000
    ensures Spells(v.lex, PartWords(v, m, v.million) + PartWords(v, t, v.thousand),
                   SayParts(PartOf(m, 1_000_000) + PartOf(t, 1000)))
    ensures PartsValue(PartOf(m, 1_000_000) + PartOf(t, 1000)) == m * 1_000_000 + t * 1000
    ensures WellFormed(Phrase(PartOf(m, 1_000_000) + PartOf(t, 1000), Group(NoHundreds, [])))
  {
    PartSpells(v, m, v.million, 1_000_000);
    PartSpells(v, t, v.thousand, 1000);
    PartsJoin(PartOf(m, 1_000_000), PartOf(t, 1000));
    SpellsJoin(v.lex, PartWords(v, m, v.million), SayParts(PartOf(m, 1_000_000)), PartWords(v, t, v.thousand),
               SayParts(PartOf(t, 1000)));
  }

  /** The words of n spell a phrase worth n. */
  lemma WordsSpell(v: Vocabulary, n: nat)
    requires Sane(v) && n < 1_000_000_000
    ensures Spells(v.lex, WordsOf(v, n), Say(PhraseOf(n))) && Value(PhraseOf(n)) == n && WellFormed(PhraseOf(n))
  {
    var (m, t, r) := (n / 1_000_000, n / 1000 % 1000, n % 1000);
    PartsSpell(v, m, t);
    GroupSpells(v, r);
    SpellsJoin(v.lex, PartWords(v, m, v.million) + PartWords(v, t, v.thousand), SayParts(PhraseOf(n).parts),
               GroupWords(v, r), SayGroup(GroupOf(r)));
    Digits(n);
  }
}
