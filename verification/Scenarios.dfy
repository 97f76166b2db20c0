/**
 The exact joint outcome distribution (app/portfolio.py, enumerate_scenarios).

 Each correlation group has one latent uniform u; a member wins iff u < prob. Groups are
 independent. The whole law is: every candidate of a set W wins together with mass equal to the
 product, over groups, of the smallest clamped probability among W's members of the group.
 */
module Scenarios {
  import opened Ordering
  import opened Options
  import opened RealSums

  datatype Candidate = Candidate(prob: real, price: real, group: string, cap: real)

  datatype Scenario = Scenario(probability: real, profits: seq<real>)

  /** Probability mass and the set of winning candidate indices. */
  type Atom = (real, set<nat>)

  const MAX_SCENARIOS: nat := 100_000

  function PayoffIfWin(price: real): real {
    if 0.0 < price < 1.0 then 1.0 / price - 1.0 else -1.0
  }

  function Clamp(p: real): real { if p < 0.0 then 0.0 else if p > 1.0 then 1.0 else p }

  // ---- grouping --------------------------------------------------------------------------

  /** Distinct group names in order of first appearance. */
  function FirstSeen(cs: seq<Candidate>): seq<string> {
    if cs == [] then []
    else
      var seen, g := FirstSeen(cs[..|cs| - 1]), cs[|cs| - 1].group;
      if g in seen then seen else seen + [g]
  }

  function Names(cs: seq<Candidate>): seq<string> { Sort(FirstSeen(cs), StringLe) }

  /** Indices below k that belong to the group, in order. */
  function Members(cs: seq<Candidate>, g: string, k: nat): (m: seq<nat>)
    requires k <= |cs|
    ensures forall i | i in m :: i < k && cs[i].group == g
    ensures forall i | 0 <= i < k && cs[i].group == g :: i in m
  {
    if k == 0 then []
    else Members(cs, g, k - 1) + (if cs[k - 1].group == g then [k - 1] else [])
  }

  // ---- one group -------------------------------------------------------------------------

  ghost predicate StrictlyIncreasing(s: seq<real>) {
    forall i, j | 0 <= i < j < |s| :: s[i] < s[j]
  }

  /** Adds a value to a strictly increasing sequence, once. */
  function AddCut(v: real, s: seq<real>): (r: seq<real>)
    requires StrictlyIncreasing(s)
    ensures StrictlyIncreasing(r)
    ensures forall x :: x in r <==> x == v || x in s
    ensures s == [] || v < s[0] ==> r == [v] + s
    ensures s != [] && v >= s[0] ==> |r| > 0 && r[0] == s[0]
  {
    if s == [] || v < s[0] then [v] + s
    else if v == s[0] then s
    else
      assert s == [s[0]] + s[1..];
      [s[0]] + AddCut(v, s[1..])
  }

  /** The sorted boundaries of u: zero, one, and every member's clamped threshold. */
  function Cuts(cs: seq<Candidate>, members: seq<nat>): (r: seq<real>)
    requires forall i | i in members :: i < |cs|
    ensures StrictlyIncreasing(r)
    ensures forall x :: x in r <==> x == 0.0 || x == 1.0 || exists i | i in members :: x == Clamp(cs[i].prob)
  {
    if members == [] then
      assert forall x :: x in [0.0, 1.0] <==> x == 0.0 || x == 1.0;
      [0.0, 1.0]
    else
      assert members == [members[0]] + members[1..];
      assert members[0] in members && forall i | i in members[1..] :: i in members;
      AddCut(Clamp(cs[members[0]].prob), Cuts(cs, members[1..]))
  }

  lemma CutEnds(cs: seq<Candidate>, members: seq<nat>)
    requires forall i | i in members :: i < |cs|
    ensures var r := Cuts(cs, members); |r| >= 2 && r[0] == 0.0 && r[|r| - 1] == 1.0
  {
    hide Cuts;
    var r := Cuts(cs, members);
    assert 0.0 in r && 1.0 in r;
    var zero :| 0 <= zero < |r| && r[zero] == 0.0;
    var one :| 0 <= one < |r| && r[one] == 1.0;
    assert r[0] in r && r[|r| - 1] in r;
    assert 0.0 <= r[0] && r[|r| - 1] <= 1.0;
  }

  function Winners(cs: seq<Candidate>, members: seq<nat>, hi: real): set<nat>
    requires forall i | i in members :: i < |cs|
  {
    set i | i in members && cs[i].prob >= hi
  }

  /** Atoms of the first k intervals between consecutive cuts. */
  function AtomsUpTo(cs: seq<Candidate>, members: seq<nat>, cuts: seq<real>, k: nat): (r: seq<Atom>)
    requires k < |cuts| && forall i | i in members :: i < |cs|
    ensures |r| == k
  {
    if k == 0 then []
    else AtomsUpTo(cs, members, cuts, k - 1) + [(cuts[k] - cuts[k - 1], Winners(cs, members, cuts[k]))]
  }

  function GroupAtoms(cs: seq<Candidate>, g: string): (r: seq<Atom>)
    ensures |r| >= 1
  {
    var members := Members(cs, g, |cs|);
    CutEnds(cs, members);
    AtomsUpTo(cs, members, Cuts(cs, members), |Cuts(cs, members)| - 1)
  }

  // ---- the product over groups -----------------------------------------------------------

  function Joined(c: Atom, a: Atom): Atom { (Times(c.0, a.0), c.1 + a.1) }

  function Row(c: Atom, atoms: seq<Atom>): (r: seq<Atom>)
    ensures |r| == |atoms|
  {
    seq(|atoms|, j requires 0 <= j < |atoms| => Joined(c, atoms[j]))
  }

  /** Every combination, left factor outermost. */
  function Product(combos: seq<Atom>, atoms: seq<Atom>): seq<Atom> {
    if combos == [] then []
    else Product(combos[..|combos| - 1], atoms) + Row(combos[|combos| - 1], atoms)
  }

  function Combos(cs: seq<Candidate>, names: seq<string>): seq<Atom> {
    if names == [] then [(1.0, {})]
    else Product(Combos(cs, names[..|names| - 1]), GroupAtoms(cs, names[|names| - 1]))
  }

  function AtomProduct(cs: seq<Candidate>, names: seq<string>): (n: nat)
    ensures n >= 1
  {
    if names == [] then 1
    else
      var before, here := AtomProduct(cs, names[..|names| - 1]), |GroupAtoms(cs, names[|names| - 1])|;
      FactorGrows(before, here);
      before * here
  }

  function Returns(cs: seq<Candidate>, winners: set<nat>): (r: seq<real>)
    ensures |r| == |cs|
  {
    seq(|cs|, i requires 0 <= i < |cs| => if i in winners then PayoffIfWin(cs[i].price) else -1.0)
  }

  function ToScenarios(cs: seq<Candidate>, combos: seq<Atom>): (r: seq<Scenario>)
    ensures |r| == |combos|
  {
    seq(|combos|, k requires 0 <= k < |combos| => Scenario(combos[k].0, Returns(cs, combos[k].1)))
  }

  function ScenariosOf(cs: seq<Candidate>): seq<Scenario> {
    ToScenarios(cs, Combos(cs, Names(cs)))
  }

  // ---- the loops -------------------------------------------------------------------------

  method CollectAtoms(cs: seq<Candidate>, members: seq<nat>, ghost g: string) returns (atoms: seq<Atom>)
    requires members == Members(cs, g, |cs|)
    ensures atoms == GroupAtoms(cs, g)
  {
    var cuts := Cuts(cs, members);
    CutEnds(cs, members);
    atoms := [];
    for k := 1 to |cuts|
      invariant atoms == AtomsUpTo(cs, members, cuts, k - 1)
    {
      var mass := cuts[k] - cuts[k - 1];
      if mass <= 0.0 { continue; }
      atoms := atoms + [(mass, Winners(cs, members, cuts[k]))];
    }
    if atoms == [] { atoms := [(1.0, {})]; }
  }

  method CrossProduct(combos: seq<Atom>, atoms: seq<Atom>) returns (r: seq<Atom>)
    ensures r == Product(combos, atoms)
  {
    r := [];
    for k := 0 to |combos|
      invariant r == Product(combos[..k], atoms)
    {
      assert combos[..k + 1][..k] == combos[..k];
      r := r + Row(combos[k], atoms);
    }
    assert combos[..|combos|] == combos;
  }

  lemma {:induction false} NotSeen(cs: seq<Candidate>, g: string, i: nat)
    requires i <= |cs| && g !in FirstSeen(cs[..i])
    ensures Members(cs, g, i) == []
  {
    if i > 0 {
      assert cs[..i][..i - 1] == cs[..i - 1];
      NotSeen(cs, g, i - 1);
    }
  }

  /** The dictionary of group members, with its insertion order. */
  method GroupMembers(cs: seq<Candidate>) returns (members: map<string, seq<nat>>, seen: seq<string>)
    ensures seen == FirstSeen(cs)
    ensures forall g | g in seen :: g in members && members[g] == Members(cs, g, |cs|)
  {
    members, seen := map[], [];
    for i := 0 to |cs|
      invariant seen == FirstSeen(cs[..i])
      invariant members.Keys == set g | g in seen
      invariant forall g | g in members :: members[g] == Members(cs, g, i)
    {
      assert cs[..i + 1][..i] == cs[..i];
      var g := cs[i].group;
      if g !in members { NotSeen(cs, g, i); }
      if g in members {
        members := members[g := members[g] + [i]];
      } else {
        members := members[g := [i]];
        seen := seen + [g];
      }
    }
    assert cs[..|cs|] == cs;
  }

  /** None exactly when the number of scenarios would exceed the cap. */
  method EnumerateScenarios(cs: seq<Candidate>) returns (r: Option<seq<Scenario>>)
    ensures r.None? <==> AtomProduct(cs, Names(cs)) > MAX_SCENARIOS
    ensures r.Some? ==> r.value == ScenariosOf(cs)
  {
    hide FirstSeen, Members, GroupAtoms, Product, Sort;
    var members, seen := GroupMembers(cs);
    var names := Sort(seen, StringLe);
    var groupAtoms: seq<seq<Atom>> := [];
    var total := 1;
    for k := 0 to |names|
      invariant |groupAtoms| == k && forall j | 0 <= j < k :: groupAtoms[j] == GroupAtoms(cs, names[j])
      invariant total == AtomProduct(cs, names[..k]) <= MAX_SCENARIOS
    {
      SortMembers(seen, StringLe, names[k]);
      var atoms := CollectAtoms(cs, members[names[k]], names[k]);
      groupAtoms := groupAtoms + [atoms];
      assert names[..k + 1][..k] == names[..k];
      total := total * |atoms|;
      if total > MAX_SCENARIOS {
        AtomProductGrows(cs, names, k + 1);
        return None;
      }
    }
    assert names[..|names|] == names;
    var combos: seq<Atom> := [(1.0, {})];
    for k := 0 to |groupAtoms|
      invariant combos == Combos(cs, names[..k])
    {
      assert names[..k + 1][..k] == names[..k];
      combos := CrossProduct(combos, groupAtoms[k]);
    }
    r := Some(ToScenarios(cs, combos));
  }

  lemma {:induction false} AtomProductGrows(cs: seq<Candidate>, names: seq<string>, k: nat)
    requires k <= |names|
    ensures AtomProduct(cs, names[..k]) <= AtomProduct(cs, names)
    decreases |names|
  {
    hide GroupAtoms;
    if k < |names| {
      var n := |names| - 1;
      AtomProductGrows(cs, names[..n], k);
      assert names[..n][..k] == names[..k];
      FactorGrows(AtomProduct(cs, names[..n]), |GroupAtoms(cs, names[n])|);
    } else {
      assert names[..k] == names;
    }
  }

  lemma FactorGrows(a: nat, b: nat)
    requires b >= 1
    ensures a * b >= a
  {
    assert a * b == a * (b - 1) + a;
  }
}
