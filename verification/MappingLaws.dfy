/**
 What the decisions of `EventMapping.ResolveEventMappings` promise (app/identity.py): one-to-one links,
 when the reason given to a losing target is true, and an assignment the default weights do not maximise.
 */
module MappingLaws {
  import opened EventMapping
  import opened Linkage
  import opened Options

  /** The decisions of one call. */
  ghost predicate Decisions(decisions: seq<Decision>, targets: seq<string>, candidates: seq<string>, edges: Edges,
                            w: Weights) {
    |decisions| == |targets| && forall t | 0 <= t < |targets| ::
      DecidedBy(decisions[t], LinksOf(edges, w, targets, candidates), edges, w, candidates, t)
  }

  lemma LinksSettled(targets: seq<string>, candidates: seq<string>, edges: Edges, w: Weights)
    requires InRange(edges, |targets|, |candidates|) && w.ambiguityMargin > 0.0
    ensures OnePerPair(EligibleSet(edges, w))
    ensures Settled(LinksOf(edges, w, targets, candidates), EligibleSet(edges, w), w.ambiguityMargin)
    ensures Matching(LinksOf(edges, w, targets, candidates))
  {
    hide Ordered, EligibleSet, Settled, Matching;
    OrderedArranges(edges, w, targets, candidates);
    GreedySettles(Ordered(edges, w, targets, candidates), EligibleSet(edges, w), w.ambiguityMargin);
    SettledMatches(LinksOf(edges, w, targets, candidates), EligibleSet(edges, w), w.ambiguityMargin);
  }

  lemma LinkEligible(links: set<Edge>, edges: Edges, w: Weights, l: Edge)
    requires Settled(links, EligibleSet(edges, w), w.ambiguityMargin) && l in links
    ensures (l.target, l.candidate) in edges && Eligible(edges[(l.target, l.candidate)], w)
    ensures l.weight == edges[(l.target, l.candidate)].weight
  {
    SettledInside(links, EligibleSet(edges, w), w.ambiguityMargin);
    hide Settled;
    assert l in EligibleSet(edges, w);
  }

  /** A mapped decision is one of the links. */
  lemma MappedIsLink(d: Decision, links: set<Edge>, edges: Edges, w: Weights, candidates: seq<string>, t: nat)
    requires DecidedBy(d, links, edges, w, candidates, t) && d.status.Mapped?
    ensures d.candidate.Some? && d.weight.Some? && Edge(d.weight.value, t, d.candidate.value) in links
  {
  }

  /** What callers rely on: mapped targets get distinct, corroborated, dominant candidates. */
  lemma MappedOneToOne(targets: seq<string>, candidates: seq<string>, edges: Edges, w: Weights,
                       decisions: seq<Decision>, t: nat, u: nat)
    requires InRange(edges, |targets|, |candidates|) && w.ambiguityMargin > 0.0
    requires Decisions(decisions, targets, candidates, edges, w) && t < |targets| && u < |targets| && t != u
    requires decisions[t].status.Mapped?
    ensures decisions[t].candidate.Some? && (t, decisions[t].candidate.value) in edges
    ensures Eligible(edges[(t, decisions[t].candidate.value)], w)
    ensures decisions[u].status.Mapped? ==> decisions[u].candidate != decisions[t].candidate
  {
    hide DecidedBy, LinksOf, EligibleSet, Settled, Eligible, OnePerPair;
    var links := LinksOf(edges, w, targets, candidates);
    LinksSettled(targets, candidates, edges, w);
    MappedIsLink(decisions[t], links, edges, w, candidates, t);
    var a := Edge(decisions[t].weight.value, t, decisions[t].candidate.value);
    LinkEligible(links, edges, w, a);
    if decisions[u].status.Mapped? {
      MappedIsLink(decisions[u], links, edges, w, candidates, u);
      var b := Edge(decisions[u].weight.value, u, decisions[u].candidate.value);
      assert !Touches(a, b);
    }
  }

  // ---- the reason given to a target whose best candidate is taken -----------------------

  /**
   An unlinked target whose best candidate is taken was outweighed by that link,
   provided its own pair had start evidence, or at least weighed less than the link threshold.
   */
  lemma TakenMeansHeavier(edges: Edges, w: Weights, links: set<Edge>, t: nat, c: nat, l: Edge)
    requires Settled(links, EligibleSet(edges, w), w.ambiguityMargin) && w.ambiguityMargin > 0.0
    requires (t, c) in edges && l in links && l.candidate == c
    requires forall k | k in links :: k.target != t
    requires edges[(t, c)].startEvidence || edges[(t, c)].weight < w.linkThreshold
    ensures l.weight > edges[(t, c)].weight
  {
    var all := EligibleSet(edges, w);
    SettledInside(links, all, w.ambiguityMargin);
    if Eligible(edges[(t, c)], w) {
      var e := Edge(edges[(t, c)].weight, t, c);
      assert OnePerPair(all);
      SettledMatches(links, all, w.ambiguityMargin);
      assert e in all && e !in links;
      forall k | k in links && Touches(e, k) ensures k.weight <= l.weight {
        assert k == l || !Touches(k, l);
      }
      StableWithMargin(links, all, w.ambiguityMargin, e, l);
    }
  }

  /** One call blames a heavier link of candidate c for leaving target t unlinked. */
  ghost predicate BlamesHeavier(targets: seq<string>, candidates: seq<string>, edges: Edges, w: Weights,
                                t: nat, c: nat) {
    && InRange(edges, |targets|, |candidates|) && t < |targets|
    && exists d :: DecidedBy(d, LinksOf(edges, w, targets, candidates), edges, w, candidates, t)
                   && d.reason.TakenByHeavier? && d.candidate == Some(c)
  }

  /** The reason is true of a pair scored s in every call that gives it. */
  ghost predicate AlwaysHeavier(s: Scored, w: Weights) {
    forall targets, candidates, edges, t, c |
      BlamesHeavier(targets, candidates, edges, w, t, c) && (t, c) in edges && edges[(t, c)] == s ::
      forall l | l in LinksOf(edges, w, targets, candidates) && l.candidate == c :: l.weight > s.weight
  }

  /**
   The reason "linked to a higher-weight target" is always true of a losing pair exactly when the pair had
   start evidence or is below the link threshold, or so light that the reason is never given.
   */
  lemma TakenReasonExactly(s: Scored, w: Weights)
    requires w.ambiguityMargin > 0.0
    ensures AlwaysHeavier(s, w)
       <==> s.startEvidence || s.weight < w.linkThreshold || s.weight <= w.nonlinkThreshold
  {
    if s.startEvidence || s.weight < w.linkThreshold || s.weight <= w.nonlinkThreshold {
      forall targets, candidates, edges, t, c |
        BlamesHeavier(targets, candidates, edges, w, t, c) && (t, c) in edges && edges[(t, c)] == s
        ensures forall l | l in LinksOf(edges, w, targets, candidates) && l.candidate == c :: l.weight > s.weight
      {
        BlameHolds(targets, candidates, edges, w, t, c, s);
      }
    } else {
      LighterLink(s, w);
    }
  }

  lemma BlameHolds(targets: seq<string>, candidates: seq<string>, edges: Edges, w: Weights, t: nat, c: nat, s: Scored)
    requires w.ambiguityMargin > 0.0 && BlamesHeavier(targets, candidates, edges, w, t, c)
    requires (t, c) in edges && edges[(t, c)] == s
    requires s.startEvidence || s.weight < w.linkThreshold || s.weight <= w.nonlinkThreshold
    ensures forall l | l in LinksOf(edges, w, targets, candidates) && l.candidate == c :: l.weight > s.weight
  {
    hide LinksOf, Settled, OnePerPair, Matching, BestCandidate, EligibleSet;
    var links := LinksOf(edges, w, targets, candidates);
    LinksSettled(targets, candidates, edges, w);
    assert s.weight > w.nonlinkThreshold && forall k | k in links :: k.target != t;
    forall l | l in links && l.candidate == c ensures l.weight > s.weight {
      TakenMeansHeavier(edges, w, links, t, c, l);
    }
  }

  /** A second target at the link threshold takes the candidate from a pair without start evidence. */
  lemma LighterLink(s: Scored, w: Weights)
    requires w.ambiguityMargin > 0.0
    requires !s.startEvidence && s.weight >= w.linkThreshold && s.weight > w.nonlinkThreshold
    ensures !AlwaysHeavier(s, w)
  {
    var targets, candidates := ["a", "b"], ["p"];
    var edges: Edges := map[(0, 0) := s, (1, 0) := Scored(w.linkThreshold, true)];
    var links := LinksOf(edges, w, targets, candidates);
    OnlyLink(edges, w, targets, candidates, s);
    assert BestCandidate(edges, candidates, 0, 1) == Some(0);
    var d := Unlinked(edges, w, candidates, set l | l in links :: l.candidate, 0);
    var l := Edge(w.linkThreshold, 1, 0);
    assert l in links && l.candidate == 0;
    assert d.reason.TakenByHeavier?;
    assert DecidedBy(d, links, edges, w, candidates, 0);
    assert BlamesHeavier(targets, candidates, edges, w, 0, 0);
  }

  lemma OnlyLink(edges: Edges, w: Weights, targets: seq<string>, candidates: seq<string>, s: Scored)
    requires w.ambiguityMargin > 0.0 && |targets| == 2 && |candidates| == 1 && !s.startEvidence
    requires edges == map[(0, 0) := s, (1, 0) := Scored(w.linkThreshold, true)]
    ensures LinksOf(edges, w, targets, candidates) == {Edge(w.linkThreshold, 1, 0)}
  {
    var e := Edge(w.linkThreshold, 1, 0);
    assert (1, 0) in edges && Eligible(edges[(1, 0)], w);
    assert EligibleSet(edges, w) == {e};
    assert Heavier({e}, e.weight) == {};
    assert Takeable(e, {e}, {}, w.ambiguityMargin);
    LinksAre(targets, candidates, edges, w, {e}, {e});
  }

  // ---- what the default weights can be given ---------------------------------------------

  /** Four hours, the default tolerance of start times. */
  const TOLERANCE: real := 14400.0

  /** Two events of one competition, both names matching exactly or both only strongly. */
  function DefaultScore(t: Event, c: Event, exact: bool): Option<Scored> {
    ScoreEdge(t, c, Some(if exact then (101, 101) else (90, 90)), None, TOLERANCE, DEFAULT_WEIGHTS)
  }

  /** A target without a start time loses the candidate to one that agrees on the start and weighs less. */
  lemma TakenByLighter(c: Event, t: Event, u: Event)
    requires c.startsAt.Some? && t.startsAt.None? && u.startsAt.Some? && t.sport == u.sport == c.sport
    requires t.league == u.league == c.league != ""
    requires 300.0 < Gap(c.startsAt.value, u.startsAt.value) <= TOLERANCE
    ensures DefaultScore(t, c, true) == Some(Scored(6.5, false)) && DefaultScore(u, c, false) == Some(Scored(4.5, true))
    ensures var edges: Edges := map[(0, 0) := Scored(6.5, false), (1, 0) := Scored(4.5, true)];
      && LinksOf(edges, DEFAULT_WEIGHTS, ["a", "b"], ["p"]) == {Edge(4.5, 1, 0)}
      && BlamesHeavier(["a", "b"], ["p"], edges, DEFAULT_WEIGHTS, 0, 0)
  {
    hide LinksOf, ScoreEdge, BlamesHeavier;
    LighterScores(c, t, u);
    LighterBlames();
  }

  lemma LighterScores(c: Event, t: Event, u: Event)
    requires c.startsAt.Some? && t.startsAt.None? && u.startsAt.Some? && t.sport == u.sport == c.sport
    requires t.league == u.league == c.league != ""
    requires 300.0 < Gap(c.startsAt.value, u.startsAt.value) <= TOLERANCE
    ensures DefaultScore(t, c, true) == Some(Scored(6.5, false)) && DefaultScore(u, c, false) == Some(Scored(4.5, true))
  {
  }

  lemma LighterBlames()
    ensures var edges: Edges := map[(0, 0) := Scored(6.5, false), (1, 0) := Scored(4.5, true)];
      && LinksOf(edges, DEFAULT_WEIGHTS, ["a", "b"], ["p"]) == {Edge(4.5, 1, 0)}
      && BlamesHeavier(["a", "b"], ["p"], edges, DEFAULT_WEIGHTS, 0, 0)
  {
    var edges: Edges := map[(0, 0) := Scored(6.5, false), (1, 0) := Scored(4.5, true)];
    var targets, candidates, w := ["a", "b"], ["p"], DEFAULT_WEIGHTS;
    var e := Edge(4.5, 1, 0);
    assert (1, 0) in edges && Eligible(edges[(1, 0)], w);
    assert EligibleSet(edges, w) == {e};
    assert Heavier({e}, 4.5) == {} && Takeable(e, {e}, {}, w.ambiguityMargin);
    LinksAre(targets, candidates, edges, w, {e}, {e});
    var links := LinksOf(edges, w, targets, candidates);
    assert BestCandidate(edges, candidates, 0, 1) == Some(0);
    var d := Unlinked(edges, w, candidates, set l | l in links :: l.candidate, 0);
    assert e in links && e.candidate == 0;
    assert DecidedBy(d, links, edges, w, candidates, 0) && d.reason.TakenByHeavier?;
  }

  /**
   Under the default weights: one target agrees with one candidate to the minute and with another within
   hours, and a second target agrees with the first candidate within hours but is far from the other. All
   names match exactly. Linking the exact pair, 9.5, keeps out two that weigh 7.5 each.
   */
  lemma DefaultNotMaximum(t: Event, u: Event, c: Event, b: Event)
    requires t.sport == u.sport == c.sport == b.sport && t.league == u.league == c.league == b.league != ""
    requires t.startsAt.Some? && u.startsAt.Some? && c.startsAt.Some? && b.startsAt.Some?
    requires c.startsAt == t.startsAt
    requires 300.0 < Gap(b.startsAt.value, t.startsAt.value) <= TOLERANCE
    requires 300.0 < Gap(c.startsAt.value, u.startsAt.value) <= TOLERANCE < Gap(b.startsAt.value, u.startsAt.value)
    ensures DefaultScore(t, c, true) == Some(Scored(9.5, true)) && DefaultScore(u, b, true) == Some(Scored(-3.5, false))
    ensures DefaultScore(t, b, true) == DefaultScore(u, c, true) == Some(Scored(7.5, true))
    ensures var edges: Edges := CrossEdges();
      var links := LinksOf(edges, DEFAULT_WEIGHTS, ["a", "b"], ["p", "q"]);
      && links == {Edge(9.5, 0, 0)} && !Maximum(links, EligibleSet(edges, DEFAULT_WEIGHTS))
  {
    hide LinksOf, ScoreEdge, Maximum, EligibleSet;
    CrossScores(t, u, c, b);
    CrossLinks();
  }

  lemma CrossScores(t: Event, u: Event, c: Event, b: Event)
    requires t.sport == u.sport == c.sport == b.sport && t.league == u.league == c.league == b.league != ""
    requires t.startsAt.Some? && u.startsAt.Some? && c.startsAt.Some? && b.startsAt.Some?
    requires c.startsAt == t.startsAt
    requires 300.0 < Gap(b.startsAt.value, t.startsAt.value) <= TOLERANCE
    requires 300.0 < Gap(c.startsAt.value, u.startsAt.value) <= TOLERANCE < Gap(b.startsAt.value, u.startsAt.value)
    ensures DefaultScore(t, c, true) == Some(Scored(9.5, true)) && DefaultScore(u, b, true) == Some(Scored(-3.5, false))
    ensures DefaultScore(t, b, true) == DefaultScore(u, c, true) == Some(Scored(7.5, true))
  {
  }

  /** Two targets and two candidates: the exact pair, the two that compete with it, and one far apart in time. */
  function CrossEdges(): Edges {
    map[(0, 0) := Scored(9.5, true), (0, 1) := Scored(7.5, true), (1, 0) := Scored(7.5, true),
        (1, 1) := Scored(-3.5, false)]
  }

  lemma CrossLinks()
    ensures var edges: Edges := CrossEdges();
      var links := LinksOf(edges, DEFAULT_WEIGHTS, ["a", "b"], ["p", "q"]);
      && links == {Edge(9.5, 0, 0)} && !Maximum(links, EligibleSet(edges, DEFAULT_WEIGHTS))
  {
    var edges := CrossEdges();
    var e, f, g := Edge(9.5, 0, 0), Edge(7.5, 0, 1), Edge(7.5, 1, 0);
    DefaultEligible(edges, e, f, g);
    CrossLoses(e, f, g);
    hide LinksOf, EligibleSet, Settled, Maximum;
    LinksAre(["a", "b"], ["p", "q"], edges, DEFAULT_WEIGHTS, {e}, {e, f, g});
  }

  lemma CrossLoses(e: Edge, f: Edge, g: Edge)
    requires e == Edge(9.5, 0, 0) && f == Edge(7.5, 0, 1) && g == Edge(7.5, 1, 0)
    ensures Settled({e}, {e, f, g}, DEFAULT_WEIGHTS.ambiguityMargin) && !Maximum({e}, {e, f, g})
  {
    hide Settled, Maximum, ClearWinners, OnePerPair;
    MiddleEdgeLoses(e, f, g, DEFAULT_WEIGHTS.ambiguityMargin);
  }

  /** A settled set of the eligible edges is what the call links. */
  lemma LinksAre(targets: seq<string>, candidates: seq<string>, edges: Edges, w: Weights, links: set<Edge>,
                 all: set<Edge>)
    requires InRange(edges, |targets|, |candidates|) && w.ambiguityMargin > 0.0
    requires EligibleSet(edges, w) == all && Settled(links, all, w.ambiguityMargin)
    ensures LinksOf(edges, w, targets, candidates) == links
  {
    hide LinksOf, EligibleSet, Settled, OnePerPair, Matching, InRange;
    LinksSettled(targets, candidates, edges, w);
    SettledUnique(LinksOf(edges, w, targets, candidates), links, all, w.ambiguityMargin);
  }

  lemma DefaultEligible(edges: Edges, e: Edge, f: Edge, g: Edge)
    requires edges == CrossEdges()
    requires e == Edge(9.5, 0, 0) && f == Edge(7.5, 0, 1) && g == Edge(7.5, 1, 0)
    ensures EligibleSet(edges, DEFAULT_WEIGHTS) == {e, f, g}
  {
    assert (0, 0) in edges && Eligible(edges[(0, 0)], DEFAULT_WEIGHTS);
    assert (0, 1) in edges && Eligible(edges[(0, 1)], DEFAULT_WEIGHTS);
    assert (1, 0) in edges && Eligible(edges[(1, 0)], DEFAULT_WEIGHTS);
  }
}
