/**
 What the enumerated scenarios mean: every set of candidates wins together with the mass the
 correlation model gives it, group by group and over their product.
 */
module ScenarioLaw {
  import opened Ordering
  import opened RealSums
  import opened Scenarios

  // ---- the law of one group --------------------------------------------------------------

  /** Mass of the atoms in which every member of W wins. */
  function Mass(atoms: seq<Atom>, W: set<nat>): real {
    if atoms == [] then 0.0
    else
      var a := atoms[|atoms| - 1];
      Mass(atoms[..|atoms| - 1], W) + Won(a, W)
  }

  /** Smallest clamped probability among the group's members of W below k; 1 when there is none. */
  function GroupMin(cs: seq<Candidate>, W: set<nat>, g: string, k: nat): (m: real)
    requires k <= |cs|
    ensures 0.0 <= m <= 1.0
    ensures forall i | 0 <= i < k && i in W && cs[i].group == g :: m <= Clamp(cs[i].prob)
    ensures m == 1.0 || exists i | 0 <= i < k && i in W && cs[i].group == g :: m == Clamp(cs[i].prob)
  {
    if k == 0 then 1.0
    else
      var rest := GroupMin(cs, W, g, k - 1);
      if k - 1 in W && cs[k - 1].group == g then Min(rest, Clamp(cs[k - 1].prob)) else rest
  }

  /** The members of W whose group is among the names. */
  ghost function Within(cs: seq<Candidate>, W: set<nat>, names: seq<string>): set<nat> {
    set i | i in W && i < |cs| && cs[i].group in names
  }

  lemma WinsBelow(cs: seq<Candidate>, W: set<nat>, g: string, hi: real)
    requires 0.0 < hi <= 1.0
    ensures Within(cs, W, [g]) <= Winners(cs, Members(cs, g, |cs|), hi)
       <==> hi <= GroupMin(cs, W, g, |cs|)
  {
    var m, V := GroupMin(cs, W, g, |cs|), Within(cs, W, [g]);
    if hi <= m {
      forall i | i in V ensures i in Winners(cs, Members(cs, g, |cs|), hi) {
        assert m <= Clamp(cs[i].prob);
      }
    } else {
      var i :| 0 <= i < |cs| && i in W && cs[i].group == g && m == Clamp(cs[i].prob);
      assert i in V && i !in Winners(cs, Members(cs, g, |cs|), hi);
    }
  }

  /** Widths of the intervals below m telescope, because m is itself a cut. */
  lemma {:induction false} TelescopedMass(cs: seq<Candidate>, W: set<nat>, g: string,
                                          cuts: seq<real>, k: nat, at: nat)
    requires k < |cuts| && at < |cuts| && StrictlyIncreasing(cuts)
    requires cuts[0] == 0.0 && cuts[|cuts| - 1] == 1.0
    requires cuts[at] == GroupMin(cs, W, g, |cs|)
    ensures Mass(AtomsUpTo(cs, Members(cs, g, |cs|), cuts, k), Within(cs, W, [g]))
         == if k <= at then cuts[k] else cuts[at]
  {
    hide GroupMin, Members, Winners, Within;
    if k > 0 {
      TelescopedMass(cs, W, g, cuts, k - 1, at);
      WinsBelow(cs, W, g, cuts[k]);
    }
  }

  lemma GroupLaw(cs: seq<Candidate>, W: set<nat>, g: string)
    ensures Mass(GroupAtoms(cs, g), Within(cs, W, [g])) == GroupMin(cs, W, g, |cs|)
  {
    hide Mass, Within, GroupMin, Members, Cuts, AtomsUpTo;
    var cuts, m := Cuts(cs, Members(cs, g, |cs|)), GroupMin(cs, W, g, |cs|);
    CutEnds(cs, Members(cs, g, |cs|));
    assert m in cuts;
    var at :| 0 <= at < |cuts| && cuts[at] == m;
    TelescopedMass(cs, W, g, cuts, |cuts| - 1, at);
  }

  // ---- the law of the product ------------------------------------------------------------

  ghost predicate Owned(cs: seq<Candidate>, winners: set<nat>, names: seq<string>) {
    forall i | i in winners :: i < |cs| && cs[i].group in names
  }

  /** All winners of all atoms belong to the named groups. */
  ghost predicate Confined(cs: seq<Candidate>, atoms: seq<Atom>, names: seq<string>) {
    forall k | 0 <= k < |atoms| :: Owned(cs, atoms[k].1, names)
  }

  ghost predicate Positive(atoms: seq<Atom>) { forall k | 0 <= k < |atoms| :: atoms[k].0 > 0.0 }

  /** c's mass if every member of W wins in it. */
  function Won(c: Atom, W: set<nat>): real { if W <= c.1 then c.0 else 0.0 }

  lemma {:induction false} RowMass(c: Atom, atoms: seq<Atom>, A: set<nat>, B: set<nat>)
    requires c.1 !! B && forall k | 0 <= k < |atoms| :: atoms[k].1 !! A
    ensures Mass(Row(c, atoms), A + B) == Times(Won(c, A), Mass(atoms, B))
  {
    hide Times;
    TimesFacts(Won(c, A), 0.0, 0.0);
    TimesFacts(0.0, Won(c, A), 0.0);
    if atoms != [] {
      var n := |atoms| - 1;
      RowMass(c, atoms[..n], A, B);
      assert Row(c, atoms)[..n] == Row(c, atoms[..n]);
      assert A + B <= c.1 + atoms[n].1 <==> A <= c.1 && B <= atoms[n].1;
      JoinedMass(c, atoms[n], A, B);
      TimesSum(Won(c, A), Mass(atoms[..n], B), Won(atoms[n], B));
    }
  }

  lemma JoinedMass(c: Atom, a: Atom, A: set<nat>, B: set<nat>)
    requires c.1 !! B && a.1 !! A
    ensures Won(Joined(c, a), A + B) == Times(Won(c, A), Won(a, B))
  {
    assert A + B <= c.1 + a.1 <==> A <= c.1 && B <= a.1;
  }

  lemma TimesSum(k: real, a: real, b: real)
    ensures Times(k, a + b) == Times(k, a) + Times(k, b)
    ensures Times(a + b, k) == Times(a, k) + Times(b, k)
  {
  }

  lemma {:induction false} MassConcat(a: seq<Atom>, b: seq<Atom>, W: set<nat>)
    ensures Mass(a + b, W) == Mass(a, W) + Mass(b, W)
  {
    if b == [] {
      assert a + b == a;
    } else {
      assert (a + b)[..|a + b| - 1] == a + b[..|b| - 1];
      MassConcat(a, b[..|b| - 1], W);
    }
  }

  lemma {:induction false} ProductMass(combos: seq<Atom>, atoms: seq<Atom>, A: set<nat>, B: set<nat>)
    requires forall k | 0 <= k < |combos| :: combos[k].1 !! B
    requires forall k | 0 <= k < |atoms| :: atoms[k].1 !! A
    ensures Mass(Product(combos, atoms), A + B) == Times(Mass(combos, A), Mass(atoms, B))
  {
    hide Row, Times, Won;
    if combos == [] {
      TimesFacts(Mass(atoms, B), 0.0, 0.0);
    } else {
      var n := |combos| - 1;
      ProductMass(combos[..n], atoms, A, B);
      RowMass(combos[n], atoms, A, B);
      MassConcat(Product(combos[..n], atoms), Row(combos[n], atoms), A + B);
      TimesSum(Mass(atoms, B), Mass(combos[..n], A), Won(combos[n], A));
    }
  }

  lemma RowConfined(cs: seq<Candidate>, c: Atom, atoms: seq<Atom>, names: seq<string>, g: string)
    requires c.0 > 0.0 && Owned(cs, c.1, names)
    requires Confined(cs, atoms, [g]) && Positive(atoms)
    ensures Confined(cs, Row(c, atoms), names + [g]) && Positive(Row(c, atoms))
  {
    hide Times;
    var row := Row(c, atoms);
    forall j | 0 <= j < |row| ensures row[j].0 > 0.0 && Owned(cs, row[j].1, names + [g]) {
      TimesMeaning(c.0, atoms[j].0);
      ProductPositive(c.0, atoms[j].0, row[j].0);
      assert Owned(cs, atoms[j].1, [g]);
    }
  }

  lemma {:induction false} ProductConfined(cs: seq<Candidate>, combos: seq<Atom>, atoms: seq<Atom>,
                                           names: seq<string>, g: string)
    requires Confined(cs, combos, names) && Confined(cs, atoms, [g])
    requires Positive(combos) && Positive(atoms)
    ensures Confined(cs, Product(combos, atoms), names + [g]) && Positive(Product(combos, atoms))
  {
    hide Row;
    if combos != [] {
      var n := |combos| - 1;
      ProductConfined(cs, combos[..n], atoms, names, g);
      RowConfined(cs, combos[n], atoms, names, g);
    }
  }

  lemma {:induction false} AtomsConfined(cs: seq<Candidate>, g: string, k: nat)
    requires k < |Cuts(cs, Members(cs, g, |cs|))|
    ensures var members := Members(cs, g, |cs|);
      var atoms := AtomsUpTo(cs, members, Cuts(cs, members), k);
      Confined(cs, atoms, [g]) && Positive(atoms)
  {
    hide Members, Cuts;
    if k > 0 { AtomsConfined(cs, g, k - 1); }
  }

  lemma GroupConfined(cs: seq<Candidate>, g: string)
    ensures Confined(cs, GroupAtoms(cs, g), [g]) && Positive(GroupAtoms(cs, g))
  {
    CutEnds(cs, Members(cs, g, |cs|));
    AtomsConfined(cs, g, |Cuts(cs, Members(cs, g, |cs|))| - 1);
  }

  /** Product over the groups of the smallest probability W asks of each. */
  function JointLaw(cs: seq<Candidate>, names: seq<string>, W: set<nat>): real {
    if names == [] then 1.0
    else Times(JointLaw(cs, names[..|names| - 1], W), GroupMin(cs, W, names[|names| - 1], |cs|))
  }

  lemma CombosStep(cs: seq<Candidate>, names: seq<string>)
    requires names != []
    ensures Combos(cs, names) == Product(Combos(cs, names[..|names| - 1]), GroupAtoms(cs, names[|names| - 1]))
  {
  }

  lemma NoGroups(cs: seq<Candidate>)
    ensures Confined(cs, Combos(cs, []), []) && Positive(Combos(cs, []))
  {
  }

  lemma {:induction false} CombosConfined(cs: seq<Candidate>, names: seq<string>)
    ensures Confined(cs, Combos(cs, names), names) && Positive(Combos(cs, names))
  {
    hide GroupAtoms, Combos, Product, Confined, Positive;
    if names == [] {
      NoGroups(cs);
    } else {
      var n := |names| - 1;
      CombosStep(cs, names);
      CombosConfined(cs, names[..n]);
      GroupConfined(cs, names[n]);
      ProductConfined(cs, Combos(cs, names[..n]), GroupAtoms(cs, names[n]), names[..n], names[n]);
      assert names == names[..n] + [names[n]];
    }
  }

  lemma WithinSplit(cs: seq<Candidate>, W: set<nat>, init: seq<string>, g: string)
    ensures Within(cs, W, init + [g]) == Within(cs, W, init) + Within(cs, W, [g])
  {
  }

  lemma CombosEmpty(cs: seq<Candidate>, W: set<nat>)
    ensures Mass(Combos(cs, []), Within(cs, W, [])) == 1.0
  {
    var one: seq<Atom> := [(1.0, {})];
    assert one[..0] == [];
  }

  lemma {:induction false} CombosLaw(cs: seq<Candidate>, names: seq<string>, W: set<nat>)
    requires Distinct(names)
    ensures Mass(Combos(cs, names), Within(cs, W, names)) == JointLaw(cs, names, W)
  {
    hide Mass, GroupMin, GroupAtoms, Times, Product;
    if names == [] {
      CombosEmpty(cs, W);
    } else {
      var n := |names| - 1;
      var init, g := names[..n], names[n];
      assert names == init + [g] && g !in init;
      CombosLaw(cs, init, W);
      GroupLaw(cs, W, g);
      CombosConfined(cs, init);
      GroupConfined(cs, g);
      WithinSplit(cs, W, init, g);
      ProductMass(Combos(cs, init), GroupAtoms(cs, g), Within(cs, W, init), Within(cs, W, [g]));
    }
  }

  // ---- the returned scenarios ------------------------------------------------------------

  /** Mass of the scenarios in which no member of W takes the total loss of -1. */
  function WinMass(scenarios: seq<Scenario>, W: set<nat>): real
    requires forall k, i | 0 <= k < |scenarios| && i in W :: i < |scenarios[k].profits|
  {
    if scenarios == [] then 0.0
    else
      var s := scenarios[|scenarios| - 1];
      WinMass(scenarios[..|scenarios| - 1], W)
      + (if forall i | i in W :: s.profits[i] != -1.0 then s.probability else 0.0)
  }

  lemma PayoffPositive(price: real)
    requires 0.0 < price < 1.0
    ensures PayoffIfWin(price) > 0.0
  {
    var q := 1.0 / price;
    Quotient(1.0, price, q);
    if q <= 1.0 {
      MulMono(1.0, q, price);
      assert false;
    }
  }

  lemma {:induction false} ScenarioMass(cs: seq<Candidate>, combos: seq<Atom>, W: set<nat>)
    requires forall i | i in W :: i < |cs| && 0.0 < cs[i].price < 1.0
    ensures WinMass(ToScenarios(cs, combos), W) == Mass(combos, W)
  {
    if combos != [] {
      var n := |combos| - 1;
      ScenarioMass(cs, combos[..n], W);
      assert ToScenarios(cs, combos)[..n] == ToScenarios(cs, combos[..n]);
      forall i | i in W ensures Returns(cs, combos[n].1)[i] != -1.0 <==> i in combos[n].1 {
        PayoffPositive(cs[i].price);
      }
    }
  }

  lemma {:induction false} FirstSeenGroups(cs: seq<Candidate>)
    ensures Distinct(FirstSeen(cs))
    ensures forall i | 0 <= i < |cs| :: cs[i].group in FirstSeen(cs)
  {
    if cs != [] {
      var n := |cs| - 1;
      var seen := FirstSeen(cs[..n]);
      FirstSeenGroups(cs[..n]);
      forall i | 0 <= i < |cs| ensures cs[i].group in FirstSeen(cs) {
        if i < n { assert cs[..n][i].group in seen; }
      }
    }
  }

  lemma NamesDistinct(cs: seq<Candidate>)
    ensures Distinct(Names(cs)) && forall i | 0 <= i < |cs| :: cs[i].group in Names(cs)
  {
    FirstSeenGroups(cs);
    SortDistinct(FirstSeen(cs), StringLe);
    forall i | 0 <= i < |cs| ensures cs[i].group in Names(cs) {
      SortMembers(FirstSeen(cs), StringLe, cs[i].group);
    }
  }

  /** Every candidate of W has a price at which winning pays. */
  predicate Priced(cs: seq<Candidate>, W: set<nat>)
    requires forall i | i in W :: i < |cs|
  {
    forall i | i in W :: 0.0 < cs[i].price < 1.0
  }

  /** A candidate at any other price takes the total loss in every scenario. */
  lemma {:induction false} UnpricedLoses(cs: seq<Candidate>, combos: seq<Atom>, W: set<nat>)
    requires (forall i | i in W :: i < |cs|) && !Priced(cs, W)
    ensures WinMass(ToScenarios(cs, combos), W) == 0.0
  {
    if combos != [] {
      var n := |combos| - 1;
      UnpricedLoses(cs, combos[..n], W);
      assert ToScenarios(cs, combos)[..n] == ToScenarios(cs, combos[..n]);
      var i :| i in W && !(0.0 < cs[i].price < 1.0);
      assert Returns(cs, combos[n].1)[i] == -1.0;
    }
  }

  /** Main result: the scenarios are the whole joint law, for every set of candidates at once. */
  lemma JointLawHolds(cs: seq<Candidate>, W: set<nat>)
    requires forall i | i in W :: i < |cs|
    ensures forall s | s in ScenariosOf(cs) :: s.probability > 0.0 && |s.profits| == |cs|
    ensures WinMass(ScenariosOf(cs), W) == if Priced(cs, W) then JointLaw(cs, Names(cs), W) else 0.0
  {
    hide JointLaw, Mass, WinMass, Combos;
    NamesDistinct(cs);
    CombosConfined(cs, Names(cs));
    if Priced(cs, W) {
      CombosLaw(cs, Names(cs), W);
      assert Within(cs, W, Names(cs)) == W;
      ScenarioMass(cs, Combos(cs, Names(cs)), W);
    } else {
      UnpricedLoses(cs, Combos(cs, Names(cs)), W);
    }
  }

  // ---- consequences: total mass, marginals, pairs ----------------------------------------

  lemma {:induction false} UntouchedGroup(cs: seq<Candidate>, W: set<nat>, g: string, k: nat)
    requires k <= |cs| && forall i | i in W && i < |cs| :: cs[i].group != g
    ensures GroupMin(cs, W, g, k) == 1.0
  {
    if k > 0 { UntouchedGroup(cs, W, g, k - 1); }
  }

  /** The factor a group contributes, when it is present at all. */
  function Share(cs: seq<Candidate>, names: seq<string>, W: set<nat>, g: string): real {
    if g in names then GroupMin(cs, W, g, |cs|) else 1.0
  }

  /** When W lives in at most two groups, only their minima remain in the product. */
  lemma {:induction false} TwoGroups(cs: seq<Candidate>, names: seq<string>, W: set<nat>, g: string, h: string)
    requires Distinct(names) && g != h
    requires forall i | i in W && i < |cs| :: cs[i].group == g || cs[i].group == h
    ensures JointLaw(cs, names, W) == Times(Share(cs, names, W, g), Share(cs, names, W, h))
  {
    hide GroupMin, Times;
    if names == [] {
      TimesFacts(1.0, 1.0, 1.0);
    } else {
      var n := |names| - 1;
      var last := GroupMin(cs, W, names[n], |cs|);
      var a, b := Share(cs, names[..n], W, g), Share(cs, names[..n], W, h);
      TwoGroups(cs, names[..n], W, g, h);
      assert names == names[..n] + [names[n]] && names[n] !in names[..n];
      TimesFacts(a, last, 0.0);
      TimesFacts(b, last, 0.0);
      TimesFacts(Times(a, b), last, 0.0);
      if names[n] != g && names[n] != h { UntouchedGroup(cs, W, names[n], |cs|); }
    }
  }

  lemma TotalMass(cs: seq<Candidate>)
    ensures WinMass(ScenariosOf(cs), {}) == 1.0
  {
    hide GroupMin, ScenariosOf, JointLaw;
    JointLawHolds(cs, {});
    NamesDistinct(cs);
    TwoGroups(cs, Names(cs), {}, "", "-");
    UntouchedGroup(cs, {}, "", |cs|);
    UntouchedGroup(cs, {}, "-", |cs|);
  }

  /** Two candidates win together with the smaller mass if comonotonic, else the product, when winning pays. */
  lemma PairLaw(cs: seq<Candidate>, i: nat, j: nat)
    requires i < |cs| && j < |cs|
    ensures WinMass(ScenariosOf(cs), {i, j})
         == if !(0.0 < cs[i].price < 1.0 && 0.0 < cs[j].price < 1.0) then 0.0
            else if cs[i].group == cs[j].group then Min(Clamp(cs[i].prob), Clamp(cs[j].prob))
            else Clamp(cs[i].prob) * Clamp(cs[j].prob)
  {
    hide GroupMin, ScenariosOf, Names, Clamp, JointLaw, WinMass, Times;
    TimesFacts(Min(Clamp(cs[i].prob), Clamp(cs[j].prob)), 1.0, 1.0);
    TimesMeaning(Clamp(cs[i].prob), Clamp(cs[j].prob));
    var g := cs[i].group;
    var h := if cs[j].group == g then g + "-" else cs[j].group;
    JointLawHolds(cs, {i, j});
    NamesDistinct(cs);
    TwoGroups(cs, Names(cs), {i, j}, g, h);
    ClampRange(cs[i].prob);
    ClampRange(cs[j].prob);
  }

  lemma ClampRange(p: real)
    ensures 0.0 <= Clamp(p) <= 1.0
  {
  }

  lemma Marginal(cs: seq<Candidate>, i: nat)
    requires i < |cs|
    ensures WinMass(ScenariosOf(cs), {i}) == if 0.0 < cs[i].price < 1.0 then Clamp(cs[i].prob) else 0.0
  {
    PairLaw(cs, i, i);
    assert {i, i} == {i};
  }

  // ---- what a scenario pays --------------------------------------------------------------

  /** A dollar at the price buys 1/price shares, each of which pays one dollar on a win. */
  lemma PayoffBuysShares(price: real)
    requires 0.0 < price < 1.0
    ensures (1.0 + PayoffIfWin(price)) * price == 1.0
  {
    Quotient(1.0, price, 1.0 / price);
  }

  /** In every scenario a candidate loses its stake, or gets a dollar for each share the stake bought. */
  lemma ScenarioPays(cs: seq<Candidate>, s: Scenario, i: nat)
    requires s in ScenariosOf(cs) && i < |cs|
    ensures |s.profits| == |cs|
    ensures s.profits[i] == -1.0 || (0.0 < cs[i].price < 1.0 && (1.0 + s.profits[i]) * cs[i].price == 1.0)
  {
    hide Combos, Names, PayoffIfWin;
    var k :| 0 <= k < |ScenariosOf(cs)| && ScenariosOf(cs)[k] == s;
    var winners := Combos(cs, Names(cs))[k].1;
    assert s.profits == Returns(cs, winners);
    if 0.0 < cs[i].price < 1.0 { PayoffBuysShares(cs[i].price); } else { UnpricedPayoff(cs[i].price); }
  }

  lemma UnpricedPayoff(price: real)
    requires !(0.0 < price < 1.0)
    ensures PayoffIfWin(price) == -1.0
  {
  }

  /** Expected profit of a dollar on candidate i. */
  function MeanProfit(scenarios: seq<Scenario>, i: nat): real
    requires forall k | 0 <= k < |scenarios| :: i < |scenarios[k].profits|
  {
    if scenarios == [] then 0.0
    else
      var s := scenarios[|scenarios| - 1];
      MeanProfit(scenarios[..|scenarios| - 1], i) + Times(s.probability, s.profits[i])
  }

  lemma {:induction false} MeanSplits(scenarios: seq<Scenario>, i: nat, price: real)
    requires price > 0.0
    requires forall k | 0 <= k < |scenarios| :: i < |scenarios[k].profits|
               && (scenarios[k].profits[i] == -1.0 || (1.0 + scenarios[k].profits[i]) * price == 1.0)
    ensures Times(MeanProfit(scenarios, i) + WinMass(scenarios, {}), price) == WinMass(scenarios, {i})
  {
    hide Times;
    if scenarios == [] {
      TimesFacts(price, 0.0, 0.0);
    } else {
      var n := |scenarios| - 1;
      var s := scenarios[n];
      MeanSplits(scenarios[..n], i, price);
      PaidShare(s.probability, s.profits[i], price);
      TimesFacts(MeanProfit(scenarios[..n], i) + WinMass(scenarios[..n], {}),
                 Times(s.probability, s.profits[i]) + s.probability, price);
    }
  }

  lemma PaidShare(mass: real, profit: real, price: real)
    requires price > 0.0 && (profit == -1.0 || (1.0 + profit) * price == 1.0)
    ensures Times(Times(mass, profit) + mass, price) == if profit == -1.0 then 0.0 else mass
  {
    assert (mass * profit + mass) * price == mass * ((1.0 + profit) * price);
  }

  /** The expected profit of a dollar, in shares: what the model's probability adds to the price. */
  lemma ExpectedProfit(cs: seq<Candidate>, i: nat)
    requires i < |cs| && 0.0 < cs[i].price < 1.0
    ensures forall s | s in ScenariosOf(cs) :: i < |s.profits|
    ensures Times(MeanProfit(ScenariosOf(cs), i), cs[i].price) == Clamp(cs[i].prob) - cs[i].price
  {
    hide ScenariosOf, Clamp, WinMass, Times, MeanProfit;
    var scenarios, price := ScenariosOf(cs), cs[i].price;
    forall k | 0 <= k < |scenarios|
      ensures i < |scenarios[k].profits|
              && (scenarios[k].profits[i] == -1.0 || (1.0 + scenarios[k].profits[i]) * price == 1.0)
    {
      assert scenarios[k] in scenarios;
      ScenarioPays(cs, scenarios[k], i);
    }
    MeanSplits(scenarios, i, price);
    Marginal(cs, i);
    TotalMass(cs);
    TimesFacts(MeanProfit(scenarios, i), 1.0, price);
    TimesFacts(price, 1.0, 0.0);
  }
}
