/**
 Input order and the decisions of `EventMapping.ResolveEventMappings` (app/identity.py): listing targets
 and candidates in other places changes no decision, as long as no two candidates share an identifier.
 When two do, the one listed first is taken for the best, and that can decide the reason given.
 */
module MappingOrder {
  import opened EventMapping
  import opened Linkage
  import opened MappingLaws
  import opened Options
  import opened Ordering

  /** The second input lists the same targets, candidates and scored pairs in other places. */
  ghost predicate Rearranged(targets: seq<string>, candidates: seq<string>, edges: Edges,
                             targets2: seq<string>, candidates2: seq<string>, edges2: Edges,
                             s: nat -> nat, c: nat -> nat) {
    && Injective(s) && Injective(c)
    && (forall i | 0 <= i < |targets| :: s(i) < |targets2| && targets2[s(i)] == targets[i])
    && (forall i | 0 <= i < |candidates| :: c(i) < |candidates2| && candidates2[c(i)] == candidates[i])
    && (forall p | p in edges :: (s(p.0), c(p.1)) in edges2 && edges2[(s(p.0), c(p.1))] == edges[p])
    && (forall q | q in edges2 :: exists p | p in edges :: q == (s(p.0), c(p.1)))
  }

  function Moved(d: Decision, c: nat -> nat): Decision {
    d.(candidate := if d.candidate.Some? then Some(c(d.candidate.value)) else None)
  }

  lemma RearrangedEligible(edges: Edges, edges2: Edges, w: Weights, s: nat -> nat, c: nat -> nat)
    requires Injective(s) && Injective(c)
    requires forall p | p in edges :: (s(p.0), c(p.1)) in edges2 && edges2[(s(p.0), c(p.1))] == edges[p]
    requires forall q | q in edges2 :: exists p | p in edges :: q == (s(p.0), c(p.1))
    ensures EligibleSet(edges2, w) == RelabelAll(EligibleSet(edges, w), s, c)
  {
    hide Eligible;
    var a, b := EligibleSet(edges, w), EligibleSet(edges2, w);
    forall e | e in b ensures e in RelabelAll(a, s, c) {
      var q :| q in edges2 && Eligible(edges2[q], w) && e == Edge(edges2[q].weight, q.0, q.1);
      var p :| p in edges && q == (s(p.0), c(p.1));
      var before := Edge(edges[p].weight, p.0, p.1);
      assert before in a && e == Relabel(before, s, c);
    }
    forall e | e in RelabelAll(a, s, c) ensures e in b {
      var before :| before in a && e == Relabel(before, s, c);
      var p := (before.target, before.candidate);
      assert p in edges && (s(p.0), c(p.1)) in edges2;
    }
  }

  lemma RearrangedLinks(targets: seq<string>, candidates: seq<string>, edges: Edges, w: Weights,
                        targets2: seq<string>, candidates2: seq<string>, edges2: Edges, s: nat -> nat, c: nat -> nat)
    requires w.ambiguityMargin > 0.0
    requires InRange(edges, |targets|, |candidates|) && InRange(edges2, |targets2|, |candidates2|)
    requires Rearranged(targets, candidates, edges, targets2, candidates2, edges2, s, c)
    ensures LinksOf(edges2, w, targets2, candidates2) == RelabelAll(LinksOf(edges, w, targets, candidates), s, c)
  {
    RearrangedEligible(edges, edges2, w, s, c);
    hide Ordered, EligibleSet, Settled, Greedy, RelabelAll, Arranges, OnePerPair;
    OrderedArranges(edges, w, targets, candidates);
    OrderedArranges(edges2, w, targets2, candidates2);
    OrderFree(Ordered(edges, w, targets, candidates), Ordered(edges2, w, targets2, candidates2),
              EligibleSet(edges, w), w.ambiguityMargin, s, c);
  }

  /** b is the heaviest candidate of t, by least identifier among equals, the first listed with it. */
  ghost predicate Best(edges: Edges, candidates: seq<string>, t: nat, b: nat, k: nat)
    requires k <= |candidates|
  {
    b < k && (t, b) in edges && forall x | 0 <= x < k && (t, x) in edges ::
      edges[(t, x)].weight < edges[(t, b)].weight
      || (edges[(t, x)].weight == edges[(t, b)].weight && StringLe(candidates[b], candidates[x])
          && (x < b ==> candidates[x] != candidates[b]))
  }

  lemma {:induction false} BestFound(edges: Edges, candidates: seq<string>, t: nat, k: nat)
    requires k <= |candidates|
    ensures var r := BestCandidate(edges, candidates, t, k);
      && (r.Some? ==> Best(edges, candidates, t, r.value, k))
      && (r.None? ==> forall x | 0 <= x < k :: (t, x) !in edges)
  {
    if k > 0 {
      BestFound(edges, candidates, t, k - 1);
      var r, before := BestCandidate(edges, candidates, t, k), BestCandidate(edges, candidates, t, k - 1);
      StringTotal(candidates[k - 1], candidates[k - 1]);
      if r.Some? && before.Some? {
        StringTotal(candidates[k - 1], candidates[before.value]);
        forall x | 0 <= x < k && (t, x) in edges
          ensures edges[(t, x)].weight < edges[(t, r.value)].weight
                  || (edges[(t, x)].weight == edges[(t, r.value)].weight
                      && StringLe(candidates[r.value], candidates[x])
                      && (x < r.value ==> candidates[x] != candidates[r.value]))
        {
          if StringLe(candidates[k - 1], candidates[before.value])
             && StringLe(candidates[before.value], candidates[x]) {
            StringTransitive(candidates[k - 1], candidates[before.value], candidates[x]);
          }
        }
      }
    }
  }

  /** Wherever the candidates are listed, the best one has the same weight and the same identifier. */
  lemma RearrangedBest(targets: seq<string>, candidates: seq<string>, edges: Edges,
                       targets2: seq<string>, candidates2: seq<string>, edges2: Edges, s: nat -> nat, c: nat -> nat,
                       t: nat) returns (x: nat)
    requires InRange(edges, |targets|, |candidates|) && InRange(edges2, |targets2|, |candidates2|)
    requires Rearranged(targets, candidates, edges, targets2, candidates2, edges2, s, c) && t < |targets|
    ensures var b := BestCandidate(edges, candidates, t, |candidates|);
      var b2 := BestCandidate(edges2, candidates2, s(t), |candidates2|);
      && (b.None? <==> b2.None?)
      && (b.Some? ==> x < |candidates| && (t, x) in edges && b2 == Some(c(x))
                      && edges[(t, x)].weight == edges[(t, b.value)].weight && candidates[x] == candidates[b.value])
  {
    hide StringLe, BestCandidate;
    BestFound(edges, candidates, t, |candidates|);
    BestFound(edges2, candidates2, s(t), |candidates2|);
    var b, b2 := BestCandidate(edges, candidates, t, |candidates|),
                 BestCandidate(edges2, candidates2, s(t), |candidates2|);
    x := 0;
    if b.Some? { assert (s(t), c(b.value)) in edges2; }
    if b2.Some? {
      var p :| p in edges && (s(t), b2.value) == (s(p.0), c(p.1));
      x := p.1;
      assert p.0 == t && b.Some?;
      StringTotal(candidates[b.value], candidates[x]);
      assert candidates[x] == candidates2[b2.value] && candidates[b.value] == candidates2[c(b.value)];
    }
  }

  /** An unlinked target gets the same decision about the same candidate. */
  lemma RearrangedUnlinked(targets: seq<string>, candidates: seq<string>, edges: Edges, w: Weights,
                           targets2: seq<string>, candidates2: seq<string>, edges2: Edges,
                           s: nat -> nat, c: nat -> nat, links: set<Edge>, t: nat)
    requires InRange(edges, |targets|, |candidates|) && InRange(edges2, |targets2|, |candidates2|)
    requires Rearranged(targets, candidates, edges, targets2, candidates2, edges2, s, c)
    requires Distinct(candidates) && t < |targets|
    ensures Unlinked(edges2, w, candidates2, set l | l in RelabelAll(links, s, c) :: l.candidate, s(t))
         == Moved(Unlinked(edges, w, candidates, set l | l in links :: l.candidate, t), c)
  {
    hide BestCandidate;
    var x := RearrangedBest(targets, candidates, edges, targets2, candidates2, edges2, s, c, t);
    var best := BestCandidate(edges, candidates, t, |candidates|);
    if best.Some? {
      RelabelTaken(links, s, c, best.value);
      assert edges2[(s(t), c(best.value))] == edges[(t, best.value)];
    }
    hide Rearranged, InRange, RelabelAll, Distinct;
  }

  lemma RelabelTaken(links: set<Edge>, s: nat -> nat, c: nat -> nat, x: nat)
    requires Injective(c)
    ensures c(x) in (set l | l in RelabelAll(links, s, c) :: l.candidate) <==> x in set l | l in links :: l.candidate
  {
    if x in set l | l in links :: l.candidate {
      var l :| l in links && l.candidate == x;
      assert Relabel(l, s, c) in RelabelAll(links, s, c) && Relabel(l, s, c).candidate == c(x);
    }
  }

  /** A linked target gets the same link. */
  lemma RearrangedLinked(targets: seq<string>, candidates: seq<string>, edges: Edges, w: Weights,
                         targets2: seq<string>, candidates2: seq<string>, edges2: Edges,
                         s: nat -> nat, c: nat -> nat, d: seq<Decision>, d2: seq<Decision>, t: nat, l: Edge)
    requires w.ambiguityMargin > 0.0 && t < |targets|
    requires InRange(edges, |targets|, |candidates|) && InRange(edges2, |targets2|, |candidates2|)
    requires Rearranged(targets, candidates, edges, targets2, candidates2, edges2, s, c)
    requires Decisions(d, targets, candidates, edges, w) && Decisions(d2, targets2, candidates2, edges2, w)
    requires l in LinksOf(edges, w, targets, candidates) && l.target == t
    ensures s(t) < |targets2| && d2[s(t)] == Moved(d[t], c)
  {
    hide LinksOf, Unlinked;
    var links, links2 := LinksOf(edges, w, targets, candidates), LinksOf(edges2, w, targets2, candidates2);
    RearrangedLinks(targets, candidates, edges, w, targets2, candidates2, edges2, s, c);
    LinksSettled(targets, candidates, edges, w);
    LinkDecides(d[t], links, edges, w, candidates, t, l);
    MovedMatching(links, s, c);
    assert Relabel(l, s, c) in links2;
    LinkDecides(d2[s(t)], links2, edges2, w, candidates2, s(t), Relabel(l, s, c));
  }

  /**
   With distinct identifiers input order does not matter for the whole result: listing targets and
   candidates in other places gives each target the same decision about the same candidate.
   */
  lemma DecisionsOrderFree(targets: seq<string>, candidates: seq<string>, edges: Edges, w: Weights,
                           targets2: seq<string>, candidates2: seq<string>, edges2: Edges,
                           s: nat -> nat, c: nat -> nat, d: seq<Decision>, d2: seq<Decision>, t: nat)
    requires w.ambiguityMargin > 0.0 && Distinct(candidates) && t < |targets|
    requires InRange(edges, |targets|, |candidates|) && InRange(edges2, |targets2|, |candidates2|)
    requires Rearranged(targets, candidates, edges, targets2, candidates2, edges2, s, c)
    requires Decisions(d, targets, candidates, edges, w) && Decisions(d2, targets2, candidates2, edges2, w)
    ensures s(t) < |targets2| && d2[s(t)] == Moved(d[t], c)
  {
    hide LinksOf, Unlinked;
    var links, links2 := LinksOf(edges, w, targets, candidates), LinksOf(edges2, w, targets2, candidates2);
    if l :| l in links && l.target == t {
      RearrangedLinked(targets, candidates, edges, w, targets2, candidates2, edges2, s, c, d, d2, t, l);
    } else {
      RearrangedLinks(targets, candidates, edges, w, targets2, candidates2, edges2, s, c);
      RearrangedUnlinked(targets, candidates, edges, w, targets2, candidates2, edges2, s, c, links, t);
      forall l | l in links2 ensures l.target != s(t) {
        var before :| before in links && l == Relabel(before, s, c);
      }
    }
  }

  lemma LinkDecides(d: Decision, links: set<Edge>, edges: Edges, w: Weights, candidates: seq<string>, t: nat, l: Edge)
    requires DecidedBy(d, links, edges, w, candidates, t) && Matching(links) && l in links && l.target == t
    ensures d == Decision(Mapped, Some(l.candidate), Some(l.weight), Linked)
  {
    var a := Edge(d.weight.value, t, d.candidate.value);
    assert Touches(a, l);
  }

  lemma MovedMatching(links: set<Edge>, s: nat -> nat, c: nat -> nat)
    requires Injective(s) && Injective(c) && Matching(links)
    ensures Matching(RelabelAll(links, s, c))
  {
  }

  // ---- when input order can matter -------------------------------------------------------

  /** The same verdict, weight and reason about the same provider object. */
  predicate SameDecision(d: Decision, candidates: seq<string>, d2: Decision, candidates2: seq<string>) {
    && d.status == d2.status && d.reason == d2.reason && d.weight == d2.weight
    && (d.candidate.Some? <==> d2.candidate.Some?)
    && (d.candidate.Some? ==> IdOf(candidates, d.candidate.value) == IdOf(candidates2, d2.candidate.value))
  }

  /** The two calls decide the same for every target of the first. */
  ghost predicate Agree(targets: seq<string>, candidates: seq<string>, edges: Edges, w: Weights,
                        targets2: seq<string>, candidates2: seq<string>, edges2: Edges, s: nat -> nat) {
    forall d, d2, t | Decisions(d, targets, candidates, edges, w) && Decisions(d2, targets2, candidates2, edges2, w)
                      && 0 <= t < |targets| && s(t) < |targets2| ::
      SameDecision(d[t], candidates, d2[s(t)], candidates2)
  }

  /** No scores and no rearrangement make these targets and candidates depend on input order. */
  ghost predicate AlwaysOrderFree(targets: seq<string>, candidates: seq<string>, w: Weights) {
    forall edges, targets2, candidates2, edges2, s: nat -> nat, c: nat -> nat |
      InRange(edges, |targets|, |candidates|) && InRange(edges2, |targets2|, |candidates2|)
      && Rearranged(targets, candidates, edges, targets2, candidates2, edges2, s, c) ::
      Agree(targets, candidates, edges, w, targets2, candidates2, edges2, s)
  }

  lemma CandidateListed(targets: seq<string>, candidates: seq<string>, edges: Edges, w: Weights, d: seq<Decision>,
                        t: nat)
    requires w.ambiguityMargin > 0.0 && t < |targets| && InRange(edges, |targets|, |candidates|)
    requires Decisions(d, targets, candidates, edges, w)
    ensures d[t].candidate.Some? ==> d[t].candidate.value < |candidates|
  {
    hide LinksOf, EligibleSet, Settled, OnePerPair, Matching, BestCandidate;
    var links := LinksOf(edges, w, targets, candidates);
    LinksSettled(targets, candidates, edges, w);
    if l :| l in links && l.target == t {
      LinkDecides(d[t], links, edges, w, candidates, t, l);
      LinkEligible(links, edges, w, l);
    }
  }

  lemma MovedSame(targets: seq<string>, candidates: seq<string>, edges: Edges, targets2: seq<string>,
                  candidates2: seq<string>, edges2: Edges, s: nat -> nat, c: nat -> nat, d: Decision)
    requires Rearranged(targets, candidates, edges, targets2, candidates2, edges2, s, c)
    requires d.candidate.Some? ==> d.candidate.value < |candidates|
    ensures SameDecision(d, candidates, Moved(d, c), candidates2)
  {
  }

  lemma ListsMatch(d: seq<Decision>, targets: seq<string>, candidates: seq<string>, edges: Edges, w: Weights)
    requires Decisions(d, targets, candidates, edges, w)
    ensures |d| == |targets|
  {
  }

  lemma DistinctAgree(targets: seq<string>, candidates: seq<string>, edges: Edges, w: Weights,
                      targets2: seq<string>, candidates2: seq<string>, edges2: Edges, s: nat -> nat, c: nat -> nat)
    requires w.ambiguityMargin > 0.0 && Distinct(candidates)
    requires InRange(edges, |targets|, |candidates|) && InRange(edges2, |targets2|, |candidates2|)
    requires Rearranged(targets, candidates, edges, targets2, candidates2, edges2, s, c)
    ensures Agree(targets, candidates, edges, w, targets2, candidates2, edges2, s)
  {
    forall d, d2, t | Decisions(d, targets, candidates, edges, w) && Decisions(d2, targets2, candidates2, edges2, w)
                      && 0 <= t < |targets| && s(t) < |targets2|
      ensures SameDecision(d[t], candidates, d2[s(t)], candidates2)
    {
      hide Decisions, Rearranged, InRange, Distinct, SameDecision;
      ListsMatch(d, targets, candidates, edges, w);
      ListsMatch(d2, targets2, candidates2, edges2, w);
      DecisionsOrderFree(targets, candidates, edges, w, targets2, candidates2, edges2, s, c, d, d2, t);
      CandidateListed(targets, candidates, edges, w, d, t);
      MovedSame(targets, candidates, edges, targets2, candidates2, edges2, s, c, d[t]);
    }
  }

  // ---- one target with two candidates ----------------------------------------------------

  /** One target, two candidates, and no weight between the thresholds. */
  predicate Narrow(targets: seq<string>, candidates: seq<string>, w: Weights) {
    |targets| == 1 && |candidates| == 2 && w.linkThreshold <= w.nonlinkThreshold
  }

  /** A target that is linked to neither has both eligible, or neither, when they weigh the same. */
  lemma NarrowEvidence(targets: seq<string>, candidates: seq<string>, edges: Edges, w: Weights, a: nat, b: nat)
    requires w.ambiguityMargin > 0.0 && Narrow(targets, candidates, w) && InRange(edges, 1, 2)
    requires a != b && (0, a) in edges && (0, b) in edges && edges[(0, a)].weight == edges[(0, b)].weight
    requires edges[(0, a)].weight > w.nonlinkThreshold && LinksOf(edges, w, targets, candidates) == {}
    ensures edges[(0, a)].startEvidence ==> edges[(0, b)].startEvidence
  {
    if edges[(0, a)].startEvidence && !edges[(0, b)].startEvidence {
      var e := Edge(edges[(0, a)].weight, 0, a);
      assert Eligible(edges[(0, a)], w) && !Eligible(edges[(0, b)], w);
      assert forall p | p in edges :: p == (0, a) || p == (0, b);
      assert EligibleSet(edges, w) == {e};
      OneEligible(targets, candidates, edges, w, e);
    }
  }

  /** The only eligible pair is linked. */
  lemma OneEligible(targets: seq<string>, candidates: seq<string>, edges: Edges, w: Weights, e: Edge)
    requires w.ambiguityMargin > 0.0 && InRange(edges, |targets|, |candidates|) && EligibleSet(edges, w) == {e}
    ensures LinksOf(edges, w, targets, candidates) == {e}
  {
    assert Heavier({e}, e.weight) == {} && Takeable(e, {e}, {}, w.ambiguityMargin);
    LinksAre(targets, candidates, edges, w, {e}, {e});
  }

  lemma NarrowUnlinked(targets: seq<string>, candidates: seq<string>, edges: Edges, w: Weights,
                       targets2: seq<string>, candidates2: seq<string>, edges2: Edges, s: nat -> nat, c: nat -> nat)
    requires w.ambiguityMargin > 0.0 && Narrow(targets, candidates, w)
    requires InRange(edges, |targets|, |candidates|) && InRange(edges2, |targets2|, |candidates2|)
    requires Rearranged(targets, candidates, edges, targets2, candidates2, edges2, s, c)
    requires LinksOf(edges, w, targets, candidates) == {}
    ensures SameDecision(Unlinked(edges, w, candidates, {}, 0), candidates,
                         Unlinked(edges2, w, candidates2, {}, s(0)), candidates2)
  {
    hide LinksOf, BestCandidate, Distinct;
    var x := RearrangedBest(targets, candidates, edges, targets2, candidates2, edges2, s, c, 0);
    var best := BestCandidate(edges, candidates, 0, |candidates|);
    if best.Some? {
      var b := best.value;
      assert edges2[(s(0), c(x))] == edges[(0, x)];
      if x != b && edges[(0, b)].weight > w.nonlinkThreshold {
        NarrowEvidence(targets, candidates, edges, w, b, x);
        NarrowEvidence(targets, candidates, edges, w, x, b);
      }
    }
  }

  lemma NarrowAgree(targets: seq<string>, candidates: seq<string>, edges: Edges, w: Weights,
                    targets2: seq<string>, candidates2: seq<string>, edges2: Edges, s: nat -> nat, c: nat -> nat)
    requires w.ambiguityMargin > 0.0 && Narrow(targets, candidates, w)
    requires InRange(edges, |targets|, |candidates|) && InRange(edges2, |targets2|, |candidates2|)
    requires Rearranged(targets, candidates, edges, targets2, candidates2, edges2, s, c)
    ensures Agree(targets, candidates, edges, w, targets2, candidates2, edges2, s)
  {
    var links, links2 := LinksOf(edges, w, targets, candidates), LinksOf(edges2, w, targets2, candidates2);
    forall d, d2, t | Decisions(d, targets, candidates, edges, w) && Decisions(d2, targets2, candidates2, edges2, w)
                      && 0 <= t < |targets| && s(t) < |targets2|
      ensures SameDecision(d[t], candidates, d2[s(t)], candidates2)
    {
      hide LinksOf, Decisions, Rearranged, SameDecision, InRange, Narrow;
      ListsMatch(d, targets, candidates, edges, w);
      ListsMatch(d2, targets2, candidates2, edges2, w);
      if l :| l in links && l.target == t {
        RearrangedLinked(targets, candidates, edges, w, targets2, candidates2, edges2, s, c, d, d2, t, l);
        CandidateListed(targets, candidates, edges, w, d, t);
        MovedSame(targets, candidates, edges, targets2, candidates2, edges2, s, c, d[t]);
      } else {
        OneTarget(targets, candidates, w);
        NothingLinked(targets, candidates, edges, w);
        RearrangedLinks(targets, candidates, edges, w, targets2, candidates2, edges2, s, c);
        NarrowUnlinked(targets, candidates, edges, w, targets2, candidates2, edges2, s, c);
        assert links2 == {};
        NoLinkDecides(d, targets, candidates, edges, w, t);
        NoLinkDecides(d2, targets2, candidates2, edges2, w, s(t));
      }
    }
  }

  lemma OneTarget(targets: seq<string>, candidates: seq<string>, w: Weights)
    requires Narrow(targets, candidates, w)
    ensures |targets| == 1
  {
  }

  lemma NoLinkDecides(d: seq<Decision>, targets: seq<string>, candidates: seq<string>, edges: Edges, w: Weights, t: nat)
    requires Decisions(d, targets, candidates, edges, w) && LinksOf(edges, w, targets, candidates) == {}
    requires t < |targets|
    ensures |d| == |targets| && d[t] == Unlinked(edges, w, candidates, {}, t)
  {
    hide LinksOf, Unlinked;
    var links: set<Edge> := {};
    assert (set l | l in links :: l.candidate) == {};
  }

  lemma NothingLinked(targets: seq<string>, candidates: seq<string>, edges: Edges, w: Weights)
    requires w.ambiguityMargin > 0.0 && |targets| == 1 && InRange(edges, |targets|, |candidates|)
    requires forall l | l in LinksOf(edges, w, targets, candidates) :: l.target != 0
    ensures LinksOf(edges, w, targets, candidates) == {}
  {
    hide LinksOf, EligibleSet, Settled, OnePerPair, Matching;
    var links := LinksOf(edges, w, targets, candidates);
    LinksSettled(targets, candidates, edges, w);
    forall l | l in links ensures false {
      LinkEligible(links, edges, w, l);
    }
  }

  // ---- two candidates with one identifier ------------------------------------------------

  function Same(x: nat): nat { x }

  function Swap(i: nat, j: nat, x: nat): nat { if x == i then j else if x == j then i else x }

  function Swapping(i: nat, j: nat): nat -> nat { x => Swap(i, j, x) }

  /** The same scores with candidates i and j listed in each other's place. */
  function SwapColumns(edges: Edges, i: nat, j: nat): Edges {
    map q | q in (set p | p in edges :: (p.0, Swap(i, j, p.1))) :: Unswapped(edges, i, j, q)
  }

  function Unswapped(edges: Edges, i: nat, j: nat, q: (nat, nat)): Scored
    requires q in set p | p in edges :: (p.0, Swap(i, j, p.1))
  {
    SwapTwice(edges, i, j, q);
    edges[(q.0, Swap(i, j, q.1))]
  }

  lemma SwapTwice(edges: Edges, i: nat, j: nat, q: (nat, nat))
    requires q in set p | p in edges :: (p.0, Swap(i, j, p.1))
    ensures (q.0, Swap(i, j, q.1)) in edges
  {
    var p :| p in edges && q == (p.0, Swap(i, j, p.1));
    assert p == (q.0, Swap(i, j, q.1));
  }

  /** Pair p of the first input is found in column Swap of the second, and nothing else is. */
  lemma SwapColumnsAt(edges: Edges, i: nat, j: nat, p: (nat, nat))
    ensures var q := (p.0, Swap(i, j, p.1));
      (q in SwapColumns(edges, i, j) <==> p in edges)
      && (p in edges ==> SwapColumns(edges, i, j)[q] == edges[p])
  {
    var q := (p.0, Swap(i, j, p.1));
    assert (q.0, Swap(i, j, q.1)) == p;
    if q in SwapColumns(edges, i, j) { SwapTwice(edges, i, j, q); }
    if p in edges { assert q in set p | p in edges :: (p.0, Swap(i, j, p.1)); }
  }

  lemma SwapInjective(i: nat, j: nat)
    ensures Injective(Same) && Injective(Swapping(i, j))
  {
  }

  lemma SwapColumnsMeaning(edges: Edges, i: nat, j: nat)
    ensures var r, c := SwapColumns(edges, i, j), Swapping(i, j);
      && (forall p | p in edges :: (Same(p.0), c(p.1)) in r && r[(Same(p.0), c(p.1))] == edges[p])
      && (forall q | q in r :: exists p | p in edges :: q == (Same(p.0), c(p.1)))
  {
    hide SwapColumns;
    var r, c := SwapColumns(edges, i, j), Swapping(i, j);
    forall p | p in edges ensures (Same(p.0), c(p.1)) in r && r[(Same(p.0), c(p.1))] == edges[p] {
      SwapColumnsAt(edges, i, j, p);
    }
    forall q | q in r ensures exists p | p in edges :: q == (Same(p.0), c(p.1)) {
      var p := (q.0, Swap(i, j, q.1));
      SwapColumnsAt(edges, i, j, p);
      assert p in edges && q == (Same(p.0), c(p.1));
    }
  }

  lemma SwapKeepsIds(ids: seq<string>, i: nat, j: nat)
    requires i < |ids| && j < |ids| && ids[i] == ids[j]
    ensures forall x | 0 <= x < |ids| :: Swapping(i, j)(x) < |ids| && ids[Swapping(i, j)(x)] == ids[x]
  {
  }

  lemma SwapInRange(edges: Edges, i: nat, j: nat, targets: nat, candidates: nat)
    requires i < candidates && j < candidates && InRange(edges, targets, candidates)
    ensures InRange(SwapColumns(edges, i, j), targets, candidates)
  {
    hide SwapColumns;
    forall q | q in SwapColumns(edges, i, j) ensures q.0 < targets && q.1 < candidates {
      SwapColumnsAt(edges, i, j, (q.0, Swap(i, j, q.1)));
    }
  }

  /** In the swapped input the two candidates keep the weight, and i has the evidence. */
  lemma SwapUndecided(edges: Edges, i: nat, j: nat, weight: real)
    requires i != j && (0, i) in edges && edges[(0, i)] == Scored(weight, false)
    requires (0, j) in edges && edges[(0, j)] == Scored(weight, true)
    requires forall p | p in edges && p.0 == 0 && p.1 != i && p.1 != j :: edges[p].weight < weight
    ensures var r := SwapColumns(edges, i, j);
      && (0, i) in r && r[(0, i)] == Scored(weight, true) && (0, j) in r && r[(0, j)] == Scored(weight, false)
      && forall q | q in r && q.0 == 0 && q.1 != i && q.1 != j :: r[q].weight < weight
  {
    hide SwapColumns;
    var r := SwapColumns(edges, i, j);
    SwapColumnsAt(edges, i, j, (0, i));
    SwapColumnsAt(edges, i, j, (0, j));
    forall q | q in r && q.0 == 0 && q.1 != i && q.1 != j ensures r[q].weight < weight {
      SwapColumnsAt(edges, i, j, q);
    }
  }

  lemma SwapRearranges(targets: seq<string>, candidates: seq<string>, edges: Edges, i: nat, j: nat)
    requires i < |candidates| && j < |candidates| && candidates[i] == candidates[j]
    requires InRange(edges, |targets|, |candidates|)
    ensures InRange(SwapColumns(edges, i, j), |targets|, |candidates|)
    ensures Rearranged(targets, candidates, edges, targets, candidates, SwapColumns(edges, i, j),
                       Same, Swapping(i, j))
  {
    hide InRange, Injective, SwapColumns, Swapping, Swap;
    SwapInjective(i, j);
    SwapInRange(edges, i, j, |targets|, |candidates|);
    SwapColumnsMeaning(edges, i, j);
    SwapKeepsIds(candidates, i, j);
  }

  /** What a call returns that links nothing. */
  function AllUnlinked(targets: seq<string>, candidates: seq<string>, edges: Edges, w: Weights): (d: seq<Decision>)
    ensures |d| == |targets| && forall t | 0 <= t < |d| :: d[t] == Unlinked(edges, w, candidates, {}, t)
  {
    seq(|targets|, t requires 0 <= t < |targets| => Unlinked(edges, w, candidates, {}, t))
  }

  lemma AllUnlinkedDecides(targets: seq<string>, candidates: seq<string>, edges: Edges, w: Weights)
    requires LinksOf(edges, w, targets, candidates) == {}
    ensures Decisions(AllUnlinked(targets, candidates, edges, w), targets, candidates, edges, w)
  {
    hide LinksOf, Unlinked;
    var links: set<Edge> := {};
    assert (set l | l in links :: l.candidate) == {};
  }

  /** Nothing is linked; i and j are the heaviest candidates of target 0, and only j has start evidence. */
  ghost predicate Undecided(targets: seq<string>, candidates: seq<string>, edges: Edges, w: Weights,
                            i: nat, j: nat, weight: real) {
    && targets != [] && i < |candidates| && j < |candidates| && i != j && candidates[i] == candidates[j]
    && InRange(edges, |targets|, |candidates|)
    && (0, i) in edges && edges[(0, i)] == Scored(weight, false)
    && (0, j) in edges && edges[(0, j)] == Scored(weight, true)
    && (forall p | p in edges && p.0 == 0 && p.1 != i && p.1 != j :: edges[p].weight < weight)
    && weight > w.nonlinkThreshold && LinksOf(edges, w, targets, candidates) == {}
  }

  /** The candidate listed first is taken for the best. */
  lemma FirstListed(targets: seq<string>, candidates: seq<string>, edges: Edges, w: Weights,
                    i: nat, j: nat, weight: real)
    requires i < |candidates| && j < |candidates| && i < j && candidates[i] == candidates[j]
    requires (0, i) in edges && (0, j) in edges && edges[(0, i)].weight == edges[(0, j)].weight == weight
    requires InRange(edges, |targets|, |candidates|)
    requires forall p | p in edges && p.0 == 0 && p.1 != i && p.1 != j :: edges[p].weight < weight
    ensures BestCandidate(edges, candidates, 0, |candidates|) == Some(i)
  {
    hide BestCandidate, StringLe;
    BestFound(edges, candidates, 0, |candidates|);
  }

  /** Listing i first or j first gives target 0 different reasons. */
  lemma SwapDecides(targets: seq<string>, candidates: seq<string>, edges: Edges, w: Weights,
                    i: nat, j: nat, weight: real)
    requires w.ambiguityMargin > 0.0 && i < j && Undecided(targets, candidates, edges, w, i, j, weight)
    ensures var d, d2 := AllUnlinked(targets, candidates, edges, w),
                         AllUnlinked(targets, candidates, SwapColumns(edges, i, j), w);
      && Decisions(d, targets, candidates, edges, w)
      && Decisions(d2, targets, candidates, SwapColumns(edges, i, j), w)
      && d[0] == Decision(Ambiguous, Some(i), Some(weight), NoStartEvidence)
      && d2[0] == Decision(Ambiguous, Some(i), Some(weight), PossibleBand)
  {
    hide LinksOf, BestCandidate, Rearranged, Swapping, SwapColumns, DecidedBy, Decisions, InRange;
    var swapped := SwapColumns(edges, i, j);
    SwapRearranges(targets, candidates, edges, i, j);
    RearrangedLinks(targets, candidates, edges, w, targets, candidates, swapped, Same, Swapping(i, j));
    assert LinksOf(swapped, w, targets, candidates) == {};
    SwapUndecided(edges, i, j, weight);
    AllUnlinkedDecides(targets, candidates, edges, w);
    AllUnlinkedDecides(targets, candidates, swapped, w);
    FirstListed(targets, candidates, edges, w, i, j, weight);
    FirstListed(targets, candidates, swapped, w, i, j, weight);
  }

  lemma Disagree(targets: seq<string>, candidates: seq<string>, edges: Edges, w: Weights,
                 targets2: seq<string>, candidates2: seq<string>, edges2: Edges, s: nat -> nat,
                 d: seq<Decision>, d2: seq<Decision>, t: nat)
    requires Decisions(d, targets, candidates, edges, w) && Decisions(d2, targets2, candidates2, edges2, w)
    requires |d| == |targets| && |d2| == |targets2| && t < |targets| && s(t) < |targets2|
    requires d[t].reason != d2[s(t)].reason
    ensures !Agree(targets, candidates, edges, w, targets2, candidates2, edges2, s)
  {
    hide Decisions;
    assert !SameDecision(d[t], candidates, d2[s(t)], candidates2);
  }

  lemma UndecidedDepends(targets: seq<string>, candidates: seq<string>, edges: Edges, w: Weights,
                         i: nat, j: nat, weight: real)
    requires w.ambiguityMargin > 0.0 && i < j && Undecided(targets, candidates, edges, w, i, j, weight)
    ensures !AlwaysOrderFree(targets, candidates, w)
  {
    hide Decisions, Rearranged, InRange, LinksOf, Unlinked, Agree, SwapColumns;
    var swapped := SwapColumns(edges, i, j);
    assert targets != [] && InRange(edges, |targets|, |candidates|);
    SwapRearranges(targets, candidates, edges, i, j);
    SwapDecides(targets, candidates, edges, w, i, j, weight);
    var d, d2 := AllUnlinked(targets, candidates, edges, w), AllUnlinked(targets, candidates, swapped, w);
    Disagree(targets, candidates, edges, w, targets, candidates, swapped, Same, d, d2, 0);
  }

  /** A weight between the thresholds links nothing. */
  lemma BandUndecided(targets: seq<string>, candidates: seq<string>, w: Weights, i: nat, j: nat)
    requires w.ambiguityMargin > 0.0 && w.nonlinkThreshold < w.linkThreshold && targets != []
    requires i < j < |candidates| && candidates[i] == candidates[j]
    ensures !AlwaysOrderFree(targets, candidates, w)
  {
    var weight := (w.nonlinkThreshold + w.linkThreshold) / 2.0;
    var edges: Edges := map[(0, i) := Scored(weight, false), (0, j) := Scored(weight, true)];
    assert EligibleSet(edges, w) == {};
    LinksAre(targets, candidates, edges, w, {}, {});
    UndecidedDepends(targets, candidates, edges, w, i, j, weight);
  }

  /** Two eligible pairs within the margin of each other block each other. */
  lemma BothBlocked(e: Edge, f: Edge, margin: real)
    requires Touches(e, f) && !SamePair(e, f) && f.weight <= e.weight && e.weight - f.weight < margin
    ensures Settled({}, {e, f}, margin)
  {
    var all := {e, f};
    assert Heavier({}, e.weight) == {} && Heavier({}, f.weight) == {};
    assert Rival(e, f, {}, margin) && Rival(f, e, {}, margin);
  }

  /** So does a pair of target 0 and candidate j with any other that competes with it. */
  lemma RivalUndecided(targets: seq<string>, candidates: seq<string>, edges: Edges, w: Weights,
                       i: nat, j: nat, q: (nat, nat), weight: real, near: real)
    requires w.ambiguityMargin > 0.0 && targets != [] && i < |candidates| && j < |candidates| && i != j
    requires candidates[i] == candidates[j] && weight > w.nonlinkThreshold
    requires q.0 < |targets| && q.1 < |candidates| && q != (0, i) && q != (0, j) && (q.0 == 0 || q.1 == j)
    requires w.linkThreshold <= near <= weight < near + w.ambiguityMargin && (q.0 == 0 ==> near < weight)
    requires edges == map[(0, i) := Scored(weight, false), (0, j) := Scored(weight, true), q := Scored(near, true)]
    ensures Undecided(targets, candidates, edges, w, i, j, weight)
  {
    hide LinksOf, Settled;
    var e, f := Edge(weight, 0, j), Edge(near, q.0, q.1);
    assert Eligible(edges[(0, j)], w) && Eligible(edges[q], w);
    assert EligibleSet(edges, w) == {e, f};
    BothBlocked(e, f, w.ambiguityMargin);
    LinksAre(targets, candidates, edges, w, {}, {e, f});
  }

  /** A pair other than those two that competes with target 0 and candidate j. */
  lemma Competitor(targets: seq<string>, candidates: seq<string>, i: nat, j: nat) returns (q: (nat, nat))
    requires i < j < |candidates| && targets != [] && (|targets| >= 2 || |candidates| >= 3)
    ensures q.0 < |targets| && q.1 < |candidates| && q != (0, i) && q != (0, j) && (q.0 == 0 || q.1 == j)
  {
    if |targets| >= 2 { return (1, j); }
    q := (0, if i > 0 then 0 else if j > 1 then 1 else 2);
  }

  /**
   The promise that input order does not matter, for given targets and candidates: it holds for all scores
   exactly when no two candidates share an identifier, apart from calls too small to tell them apart.
   */
  lemma OrderFreeExactly(targets: seq<string>, candidates: seq<string>, w: Weights)
    requires w.ambiguityMargin > 0.0
    ensures AlwaysOrderFree(targets, candidates, w)
       <==> Distinct(candidates) || targets == [] || Narrow(targets, candidates, w)
  {
    hide Agree, Rearranged, InRange, Undecided;
    if Distinct(candidates) || targets == [] || Narrow(targets, candidates, w) {
      forall edges, targets2, candidates2, edges2, s: nat -> nat, c: nat -> nat |
        InRange(edges, |targets|, |candidates|) && InRange(edges2, |targets2|, |candidates2|)
        && Rearranged(targets, candidates, edges, targets2, candidates2, edges2, s, c)
        ensures Agree(targets, candidates, edges, w, targets2, candidates2, edges2, s)
      {
        if Distinct(candidates) {
          DistinctAgree(targets, candidates, edges, w, targets2, candidates2, edges2, s, c);
        } else if targets == [] {
          NoTargetsAgree(targets, candidates, edges, w, targets2, candidates2, edges2, s);
        } else {
          NarrowAgree(targets, candidates, edges, w, targets2, candidates2, edges2, s, c);
        }
      }
    } else {
      var i, j :| 0 <= i < j < |candidates| && candidates[i] == candidates[j];
      DuplicateDepends(targets, candidates, w, i, j);
    }
  }

  lemma NoTargetsAgree(targets: seq<string>, candidates: seq<string>, edges: Edges, w: Weights,
                       targets2: seq<string>, candidates2: seq<string>, edges2: Edges, s: nat -> nat)
    requires targets == []
    ensures Agree(targets, candidates, edges, w, targets2, candidates2, edges2, s)
  {
  }

  lemma DuplicateDepends(targets: seq<string>, candidates: seq<string>, w: Weights, i: nat, j: nat)
    requires w.ambiguityMargin > 0.0 && targets != [] && !Narrow(targets, candidates, w)
    requires i < j < |candidates| && candidates[i] == candidates[j]
    ensures !AlwaysOrderFree(targets, candidates, w)
  {
    hide AlwaysOrderFree, Undecided;
    if w.nonlinkThreshold < w.linkThreshold {
      BandUndecided(targets, candidates, w, i, j);
    } else {
      var q := Competitor(targets, candidates, i, j);
      var near := w.nonlinkThreshold + w.ambiguityMargin;
      var weight := near + w.ambiguityMargin / 2.0;
      var edges: Edges :=
        map[(0, i) := Scored(weight, false), (0, j) := Scored(weight, true), q := Scored(near, true)];
      RivalUndecided(targets, candidates, edges, w, i, j, q, weight, near);
      UndecidedDepends(targets, candidates, edges, w, i, j, weight);
    }
  }

  /**
   Under the default weights: a provider lists one object twice, once under its exact names and league
   without a start time and once under similar names with one and no league, and a second target, of
   another league, competes for the latter.
   */
  lemma DuplicateIdsMatter(t: Event, u: Event, a: Event, b: Event)
    requires t.sport == u.sport == a.sport == b.sport && t.league == b.league == ""
    requires a.league != "" && u.league != "" && a.league != u.league
    requires a.id == b.id && a.startsAt.None? && b.startsAt.Some? && t.startsAt == u.startsAt == b.startsAt
    ensures DefaultScore(t, a, true) == Some(Scored(6.0, false))
    ensures DefaultScore(t, b, false) == DefaultScore(u, b, false) == Some(Scored(6.0, true))
    ensures forall exact :: DefaultScore(u, a, exact).None?
    ensures var targets, candidates, w := [t.id, u.id], [a.id, b.id], DEFAULT_WEIGHTS;
      var edges: Edges := map[(0, 0) := Scored(6.0, false), (0, 1) := Scored(6.0, true), (1, 1) := Scored(6.0, true)];
      var swapped := SwapColumns(edges, 0, 1);
      && Rearranged(targets, candidates, edges, targets, candidates, swapped, Same, Swapping(0, 1))
      && exists d: seq<Decision>, d2: seq<Decision> ::
           Decisions(d, targets, candidates, edges, w) && Decisions(d2, targets, candidates, swapped, w)
           && d[0].reason.NoStartEvidence? && d2[0].reason.PossibleBand?
  {
    hide Decisions, Rearranged, Undecided, InRange, SwapColumns, DefaultScore;
    DuplicateScores(t, u, a, b);
    var targets, candidates, w := [t.id, u.id], [a.id, b.id], DEFAULT_WEIGHTS;
    var edges: Edges := map[(0, 0) := Scored(6.0, false), (0, 1) := Scored(6.0, true), (1, 1) := Scored(6.0, true)];
    RivalUndecided(targets, candidates, edges, w, 0, 1, (1, 1), 6.0, 6.0);
    UndecidedInRange(targets, candidates, edges, w, 0, 1, 6.0);
    SwapRearranges(targets, candidates, edges, 0, 1);
    SwapDecides(targets, candidates, edges, w, 0, 1, 6.0);
    assert AllUnlinked(targets, candidates, edges, w)[0].reason.NoStartEvidence?;
  }

  lemma UndecidedInRange(targets: seq<string>, candidates: seq<string>, edges: Edges, w: Weights,
                         i: nat, j: nat, weight: real)
    requires Undecided(targets, candidates, edges, w, i, j, weight)
    ensures InRange(edges, |targets|, |candidates|)
  {
  }

  lemma DuplicateScores(t: Event, u: Event, a: Event, b: Event)
    requires t.sport == u.sport == a.sport == b.sport && t.league == b.league == ""
    requires a.league != "" && u.league != "" && a.league != u.league
    requires a.startsAt.None? && b.startsAt.Some? && t.startsAt == u.startsAt == b.startsAt
    ensures DefaultScore(t, a, true) == Some(Scored(6.0, false))
    ensures DefaultScore(t, b, false) == DefaultScore(u, b, false) == Some(Scored(6.0, true))
    ensures forall exact :: DefaultScore(u, a, exact).None?
  {
  }
}
