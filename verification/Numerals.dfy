/**
 * The accumulator both spoken-amount parsers run, and the phrases it reads back.
 * A lexeme is what a recognised word does to the accumulator.
 */
module Numerals {
  import opened Common

  datatype Lexeme =
    | Add(k: nat)
    | Hundred
    | DualHundred
    | Scale(k: nat)
    | DualScale(k: nat)

  datatype Acc = Acc(total: nat, current: nat, found: bool)

  const START := Acc(0, 0, false)

  function OneIfZero(n: nat): nat {
    if n == 0 then 1 else n
  }

  function Apply(a: Acc, l: Lexeme): Acc {
    match l
    case Add(k) => Acc(a.total, a.current + k, true)
    case Hundred => Acc(a.total, OneIfZero(a.current) * 100, true)
    case DualHundred => Acc(a.total, 200, true)
    case Scale(k) => Acc(a.total + OneIfZero(a.current) * k, 0, true)
    case DualScale(k) => Acc(a.total + 2 * k, 0, true)
  }

  function ApplyAll(a: Acc, ls: seq<Lexeme>): Acc
    decreases |ls|
  {
    if ls == [] then a else ApplyAll(Apply(a, ls[0]), ls[1..])
  }

  /** The value handed back: nothing when no word was recognised, or nothing but zeros. */
  function Finish(a: Acc): Option<nat> {
    if a.found && a.total + a.current > 0 then Some(a.total + a.current) else None
  }

  lemma {:induction false} ApplyAllConcat(a: Acc, ls: seq<Lexeme>, ms: seq<Lexeme>)
    ensures ApplyAll(a, ls + ms) == ApplyAll(ApplyAll(a, ls), ms)
    decreases |ls|
  {
    if ls == [] {
      assert ls + ms == ms;
    } else {
      assert (ls + ms)[1..] == ls[1..] + ms;
      ApplyAllConcat(Apply(a, ls[0]), ls[1..], ms);
    }
  }

  // ---- phrases -------------------------------------------------------------

  datatype Hundreds =
    | NoHundreds
    | BareHundred
    | TwoHundred
    | Times(count: seq<nat>)

  /** Up to three digits said together: a hundreds part, then words that just add up. */
  datatype Group = Group(hundreds: Hundreds, rest: seq<nat>)

  datatype Part =
    | Scaled(group: Group, scale: nat)
    | BareScale(scale: nat)
    | TwoScales(scale: nat)

  datatype Phrase = Phrase(parts: seq<Part>, last: Group)

  function Total(ks: seq<nat>): nat {
    if ks == [] then 0 else ks[0] + Total(ks[1..])
  }

  function HundredsValue(h: Hundreds): nat {
    match h
    case NoHundreds => 0
    case BareHundred => 100
    case TwoHundred => 200
    case Times(count) => Total(count) * 100
  }

  function GroupValue(g: Group): nat {
    HundredsValue(g.hundreds) + Total(g.rest)
  }

  function PartValue(p: Part): nat {
    match p
    case Scaled(g, k) => GroupValue(g) * k
    case BareScale(k) => k
    case TwoScales(k) => 2 * k
  }

  function PartsValue(ps: seq<Part>): nat {
    if ps == [] then 0 else PartValue(ps[0]) + PartsValue(ps[1..])
  }

  function Value(p: Phrase): nat {
    PartsValue(p.parts) + GroupValue(p.last)
  }

  function AddAll(ks: seq<nat>): seq<Lexeme> {
    if ks == [] then [] else [Add(ks[0])] + AddAll(ks[1..])
  }

  function SayHundreds(h: Hundreds): seq<Lexeme> {
    match h
    case NoHundreds => []
    case BareHundred => [Hundred]
    case TwoHundred => [DualHundred]
    case Times(count) => AddAll(count) + [Hundred]
  }

  function SayGroup(g: Group): seq<Lexeme> {
    SayHundreds(g.hundreds) + AddAll(g.rest)
  }

  function SayPart(p: Part): seq<Lexeme> {
    match p
    case Scaled(g, k) => SayGroup(g) + [Scale(k)]
    case BareScale(k) => [Scale(k)]
    case TwoScales(k) => [DualScale(k)]
  }

  function SayParts(ps: seq<Part>): seq<Lexeme> {
    if ps == [] then [] else SayPart(ps[0]) + SayParts(ps[1..])
  }

  function Say(p: Phrase): seq<Lexeme> {
    SayParts(p.parts) + SayGroup(p.last)
  }

  /** No counted part is zero: a scale word after nothing would mean one of it. */
  predicate Sound(h: Hundreds) {
    h.Times? ==> Total(h.count) > 0
  }

  ghost predicate WellFormed(p: Phrase) {
    && Sound(p.last.hundreds)
    && forall i :: 0 <= i < |p.parts| && p.parts[i].Scaled? ==>
         Sound(p.parts[i].group.hundreds) && GroupValue(p.parts[i].group) > 0
  }

  lemma {:induction false} AddsUp(a: Acc, ks: seq<nat>)
    ensures ApplyAll(a, AddAll(ks)) == Acc(a.total, a.current + Total(ks), a.found || ks != [])
    decreases |ks|
  {
    if ks != [] {
      assert AddAll(ks)[1..] == AddAll(ks[1..]);
      AddsUp(Apply(a, Add(ks[0])), ks[1..]);
    }
  }

  /** From a cleared current, a group leaves exactly its value there. */
  lemma GroupReadsBack(a: Acc, g: Group)
    requires a.current == 0 && Sound(g.hundreds)
    ensures ApplyAll(a, SayGroup(g)) == Acc(a.total, GroupValue(g), a.found || SayGroup(g) != [])
  {
    ApplyAllConcat(a, SayHundreds(g.hundreds), AddAll(g.rest));
    var mid := ApplyAll(a, SayHundreds(g.hundreds));
    if g.hundreds.Times? {
      ApplyAllConcat(a, AddAll(g.hundreds.count), [Hundred]);
      AddsUp(a, g.hundreds.count);
    }
    assert mid == Acc(a.total, HundredsValue(g.hundreds), a.found || SayHundreds(g.hundreds) != []);
    AddsUp(mid, g.rest);
    assert AddAll(g.rest) == [] <==> g.rest == [];
  }

  lemma {:induction false} PartsReadBack(a: Acc, ps: seq<Part>)
    requires a.current == 0 && WellFormed(Phrase(ps, Group(NoHundreds, [])))
    ensures ApplyAll(a, SayParts(ps)) == Acc(a.total + PartsValue(ps), 0, a.found || ps != [])
    decreases |ps|
  {
    if ps != [] {
      ApplyAllConcat(a, SayPart(ps[0]), SayParts(ps[1..]));
      if ps[0].Scaled? {
        GroupReadsBack(a, ps[0].group);
        ApplyAllConcat(a, SayGroup(ps[0].group), [Scale(ps[0].scale)]);
      }
      assert ApplyAll(a, SayPart(ps[0])) == Acc(a.total + PartValue(ps[0]), 0, true);
      PartsReadBack(Acc(a.total + PartValue(ps[0]), 0, true), ps[1..]);
    }
  }

  lemma SilentIsZero(g: Group)
    ensures SayGroup(g) == [] ==> GroupValue(g) == 0
  {
    assert AddAll(g.rest) == [] <==> g.rest == [];
  }

  /** The accumulator reads every well-formed phrase back to its value. */
  lemma ReadsBack(p: Phrase)
    requires WellFormed(p) && Value(p) > 0
    ensures Finish(ApplyAll(START, Say(p))) == Some(Value(p))
  {
    ApplyAllConcat(START, SayParts(p.parts), SayGroup(p.last));
    PartsReadBack(START, p.parts);
    GroupReadsBack(ApplyAll(START, SayParts(p.parts)), p.last);
    SilentIsZero(p.last);
  }

  lemma {:induction false} PartsJoin(a: seq<Part>, b: seq<Part>)
    ensures SayParts(a + b) == SayParts(a) + SayParts(b) && PartsValue(a + b) == PartsValue(a) + PartsValue(b)
  {
    if a == [] {
      assert a + b == b;
    } else {
      assert (a + b)[1..] == a[1..] + b;
      PartsJoin(a[1..], b);
    }
  }

  lemma OnePart(p: Part)
    ensures SayParts([p]) == SayPart(p) && PartsValue([p]) == PartValue(p)
  {
    assert SayParts([p]) == SayPart(p) + [];
  }

  lemma AddOneOrTwo(x: nat, y: nat)
    ensures AddAll([x]) == [Add(x)] && Total([x]) == x
    ensures AddAll([x, y]) == [Add(x), Add(y)] && Total([x, y]) == x + y
  {
    assert [y][1..] == [] && [x][1..] == [] && [x, y][1..] == [y];
    assert AddAll([y]) == [Add(y)] && Total([y]) == y;
  }

  /** What each word of a language means by itself. */
  type Dictionary = string -> Option<Lexeme>

  ghost predicate Spells(lex: Dictionary, words: seq<string>, ls: seq<Lexeme>) {
    |words| == |ls| && forall i :: 0 <= i < |words| ==> lex(words[i]) == Some(ls[i])
  }

  lemma SpellsJoin(lex: Dictionary, a: seq<string>, la: seq<Lexeme>, b: seq<string>, lb: seq<Lexeme>)
    requires Spells(lex, a, la) && Spells(lex, b, lb)
    ensures Spells(lex, a + b, la + lb)
  {
  }
}
