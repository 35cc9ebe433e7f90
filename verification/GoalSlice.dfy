/** Cutting a spoken goal into one slice per contact. Texts and names are already folded. */
module GoalSlice {
  import opened Common

  predicate StartsAt(text: string, name: string, p: nat) {
    p + |name| <= |text| && text[p..p + |name|] == name
  }

  /** A longer sibling that begins with the name stands at the same place. */
  predicate Shadowed(text: string, name: string, siblings: seq<string>, p: nat) {
    exists i :: 0 <= i < |siblings| && |siblings[i]| > |name| && name <= siblings[i] && StartsAt(text, siblings[i], p)
  }

  predicate Hit(text: string, name: string, siblings: seq<string>, p: nat) {
    StartsAt(text, name, p) && !Shadowed(text, name, siblings, p)
  }

  /** str.find: the first place at or after `from`, or -1. */
  function FindFrom(text: string, name: string, from: nat): (pos: int)
    ensures -1 <= pos
    ensures pos >= 0 ==> from <= pos && StartsAt(text, name, pos)
    ensures forall q :: from <= q && (pos < 0 || q < pos) ==> !StartsAt(text, name, q)
    decreases |text| - from
  {
    if from + |name| > |text| then -1
    else if StartsAt(text, name, from) then from
    else FindFrom(text, name, from + 1)
  }

  method IsShadowed(text: string, name: string, siblings: seq<string>, p: nat) returns (shadowed: bool)
    ensures shadowed == Shadowed(text, name, siblings, p)
  {
    shadowed := false;
    for i := 0 to |siblings|
      invariant !shadowed && forall j :: 0 <= j < i ==>
                  !(|siblings[j]| > |name| && name <= siblings[j] && StartsAt(text, siblings[j], p))
    {
      if |siblings[i]| > |name| && name <= siblings[i] && StartsAt(text, siblings[i], p) {
        return true;
      }
    }
  }

  /** The first place where the name stands and is not shadowed, or -1. */
  ghost predicate IsFirstHit(text: string, name: string, siblings: seq<string>, pos: int) {
    if pos < 0 then pos == -1 && forall q: nat :: !Hit(text, name, siblings, q)
    else Hit(text, name, siblings, pos) && forall q: nat :: q < pos ==> !Hit(text, name, siblings, q)
  }

  /** The search loop ends, and finds exactly the first unshadowed occurrence. */
  method FindHintIndex(text: string, name: string, siblings: seq<string>) returns (pos: int)
    ensures name == "" ==> pos == -1
    ensures name != "" ==> IsFirstHit(text, name, siblings, pos)
  {
    if name == "" {
      return -1;
    }
    var start := 0;
    while true
      invariant 0 <= start
      invariant forall q: nat :: q < start ==> !Hit(text, name, siblings, q)
      decreases |text| + 1 - start
    {
      pos := FindFrom(text, name, start);
      if pos < 0 {
        return -1;
      }
      var shadowed := IsShadowed(text, name, siblings, pos);
      if !shadowed {
        return;
      }
      start := pos + 1;
    }
  }

  lemma FirstHitUnique(text: string, name: string, siblings: seq<string>, p: int, q: int)
    requires IsFirstHit(text, name, siblings, p) && IsFirstHit(text, name, siblings, q)
    ensures p == q
  {
  }

  /** The listed names that compete with `hint`. */
  function Siblings(hint: string, names: seq<string>): (siblings: seq<string>)
    ensures forall s :: s in siblings <==> s in names && s != "" && s != hint
  {
    if names == [] then []
    else (if names[0] != "" && names[0] != hint then [names[0]] else []) + Siblings(hint, names[1..])
  }

  /** The length of text before the first place where any sibling is hit. */
  ghost predicate IsReach(text: string, siblings: seq<string>, reach: nat) {
    && reach <= |text|
    && (forall i, p: nat :: 0 <= i < |siblings| && Hit(text, siblings[i], siblings, p) ==> reach <= p)
    && (reach < |text| ==> exists i :: 0 <= i < |siblings| && IsFirstHit(text, siblings[i], siblings, reach))
  }

  /** Where a slice ends: at the first sibling after the name, or at the end of the goal. */
  ghost predicate IsSlice(goal: string, hint: string, names: seq<string>, start: nat, end: nat) {
    && start + |hint| <= end <= |goal|
    && IsFirstHit(goal, hint, Siblings(hint, names), start)
    && IsReach(goal[start + |hint|..], Siblings(hint, names), end - (start + |hint|))
  }

  method FindReach(suffix: string, siblings: seq<string>) returns (reach: nat)
    requires forall i :: 0 <= i < |siblings| ==> siblings[i] != ""
    ensures IsReach(suffix, siblings, reach)
  {
    reach := |suffix|;
    for i := 0 to |siblings|
      invariant reach <= |suffix|
      invariant forall j, p: nat :: 0 <= j < i && Hit(suffix, siblings[j], siblings, p) ==> reach <= p
      invariant reach < |suffix| ==> exists j :: 0 <= j < i && IsFirstHit(suffix, siblings[j], siblings, reach)
    {
      var pos := FindHintIndex(suffix, siblings[i], siblings);
      if pos >= 0 && pos < reach {
        reach := pos;
      }
    }
  }

  /** A first hit is a place in the text, or -1, and there is only one. */
  lemma OneFirstHit(text: string, name: string, siblings: seq<string>, pos: int)
    requires IsFirstHit(text, name, siblings, pos)
    ensures pos >= 0 ==> pos + |name| <= |text|
    ensures forall q: int :: IsFirstHit(text, name, siblings, q) <==> q == pos
  {
    forall q: int | IsFirstHit(text, name, siblings, q) ensures q == pos {
      FirstHitUnique(text, name, siblings, pos, q);
    }
  }

  lemma ReachUnique(text: string, siblings: seq<string>, a: nat, b: nat)
    requires IsReach(text, siblings, a) && IsReach(text, siblings, b)
    ensures a == b
  {
    hide Hit;
  }

  /** So a contact has one slice at most in a goal. */
  lemma SliceUnique(goal: string, hint: string, names: seq<string>, s0: nat, e0: nat, s1: nat, e1: nat)
    requires IsSlice(goal, hint, names, s0, e0) && IsSlice(goal, hint, names, s1, e1)
    ensures s0 == s1 && e0 == e1
  {
    FirstHitUnique(goal, hint, Siblings(hint, names), s0, s1);
    hide IsFirstHit, IsReach;
    ReachUnique(goal[s0 + |hint|..], Siblings(hint, names), e0 - (s0 + |hint|), e1 - (s0 + |hint|));
  }

  /** The slice of a hint, or nothing when the hint is blank or not said. */
  method GoalSliceForHint(goal: string, hint: string, names: seq<string>) returns (slice: Option<(nat, nat)>)
    ensures slice.None? <==> hint == "" || IsFirstHit(goal, hint, Siblings(hint, names), -1)
    ensures slice.Some? ==> IsSlice(goal, hint, names, slice.value.0, slice.value.1)
  {
    hide IsFirstHit, IsReach, Siblings;
    if hint == "" {
      return None;
    }
    var siblings := Siblings(hint, names);
    var start := FindHintIndex(goal, hint, siblings);
    OneFirstHit(goal, hint, siblings, start);
    if start < 0 {
      return None;
    }
    var after: nat := start + |hint|;
    assert forall i :: 0 <= i < |siblings| ==> siblings[i] in siblings;
    var reach := FindReach(goal[after..], siblings);
    slice := Some((start, after + reach));
  }

  // ---- two contacts in one goal --------------------------------------------

  /** Both names are listed, different, and found at these places. */
  ghost predicate Said(goal: string, names: seq<string>, a: string, b: string, pa: nat, pb: nat) {
    && a in names && b in names && a != b && a != "" && b != ""
    && IsFirstHit(goal, a, Siblings(a, names), pa) && IsFirstHit(goal, b, Siblings(b, names), pb)
  }

  lemma LongerShadows(goal: string, names: seq<string>, a: string, b: string, p: nat)
    requires a in names && b in names && a != "" && |a| < |b| && StartsAt(goal, a, p) && StartsAt(goal, b, p)
    ensures !Hit(goal, a, Siblings(a, names), p)
  {
    var siblings := Siblings(a, names);
    var i :| 0 <= i < |siblings| && siblings[i] == b;
    assert a == b[..|a|] by { assert goal[p..p + |b|][..|a|] == goal[p..p + |a|]; }
  }

  /** Two different listed names never start at the same place. */
  lemma DifferentPlaces(goal: string, names: seq<string>, a: string, b: string, pa: nat, pb: nat)
    requires Said(goal, names, a, b, pa, pb)
    ensures pa != pb
  {
    if pa == pb {
      if |a| < |b| {
        LongerShadows(goal, names, a, b, pa);
      } else if |b| < |a| {
        LongerShadows(goal, names, b, a, pa);
      }
    }
  }

  lemma StartsInSuffix(goal: string, name: string, after: nat, p: nat)
    requires after <= p && after <= |goal|
    ensures StartsAt(goal[after..], name, p - after) <==> StartsAt(goal, name, p)
  {
    if p + |name| <= |goal| {
      assert goal[after..][p - after..p - after + |name|] == goal[p..p + |name|];
    }
  }

  /** An earlier name's slice stops before a later name, if the later one starts after it. */
  lemma EarlierStops(goal: string, names: seq<string>, a: string, b: string, pa: nat, pb: nat, ea: nat)
    requires Said(goal, names, a, b, pa, pb) && pa + |a| <= pb
    requires IsSlice(goal, a, names, pa, ea)
    ensures ea <= pb
  {
    var siblings := Siblings(a, names);
    var after := pa + |a|;
    var i :| 0 <= i < |siblings| && siblings[i] == b;
    StartsInSuffix(goal, b, after, pb);
    if Shadowed(goal[after..], b, siblings, pb - after) {
      var j :| 0 <= j < |siblings| && |siblings[j]| > |b| && b <= siblings[j]
          && StartsAt(goal[after..], siblings[j], pb - after);
      StartsInSuffix(goal, siblings[j], after, pb);
      assert siblings[j] in siblings;
      LongerShadows(goal, names, b, siblings[j], pb);
    }
    assert Hit(goal[after..], siblings[i], siblings, pb - after);
  }

  predicate Disjoint(s0: nat, e0: nat, s1: nat, e1: nat) {
    e0 <= s1 || e1 <= s0
  }

  /** Two contacts' slices are disjoint exactly when their names do not overlap in the goal. */
  lemma SlicesDisjointIff(goal: string, names: seq<string>, a: string, b: string, pa: nat, ea: nat, pb: nat, eb: nat)
    requires Said(goal, names, a, b, pa, pb)
    requires IsSlice(goal, a, names, pa, ea) && IsSlice(goal, b, names, pb, eb)
    ensures Disjoint(pa, ea, pb, eb) <==> Disjoint(pa, pa + |a|, pb, pb + |b|)
  {
    if pa + |a| <= pb {
      EarlierStops(goal, names, a, b, pa, pb, ea);
    } else if pb + |b| <= pa {
      EarlierStops(goal, names, b, a, pb, pa, eb);
    }
  }
}
