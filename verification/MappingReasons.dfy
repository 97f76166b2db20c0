/**
 What a pair weighs and why a target is left without a link (app/identity.py), in the numbers of the
 events and of their pairs alone.
 */
module MappingReasons {
  import opened EventMapping
  import opened Linkage
  import opened MappingLaws
  import opened Options
  import opened Ordering

  // ---- the weight of a pair --------------------------------------------------------------

  /** p is the orientation with the larger total; the direct one when both total the same. */
  ghost predicate Stronger(p: (int, int), direct: TeamScores, reversed: TeamScores) {
    || (direct == Some(p) && (reversed.None? || reversed.value.0 + reversed.value.1 <= p.0 + p.1))
    || (reversed == Some(p) && (direct.None? || direct.value.0 + direct.value.1 < p.0 + p.1))
  }

  ghost predicate Within(a: Option<real>, b: Option<real>, seconds: real) {
    a.Some? && b.Some? && -seconds <= a.value - b.value <= seconds
  }

  /** At least one of the two names no competition, or both name the same. */
  ghost predicate SameCompetition(t: Event, c: Event) { t.league == "" || c.league == "" || t.league == c.league }

  /**
   A pair is scored exactly when sport and competition agree and both names match in some orientation. It
   weighs the sum of three comparisons, and only starts that are known and close corroborate it.
   */
  lemma PairScored(t: Event, c: Event, direct: TeamScores, reversed: TeamScores, tolerance: real, w: Weights,
                   p: (int, int))
    requires tolerance >= 300.0 && Stronger(p, direct, reversed)
    ensures var s := ScoreEdge(t, c, direct, reversed, tolerance, w);
      && (s.Some? <==> t.sport == c.sport && SameCompetition(t, c))
      && (s.Some? ==>
            && (s.value.startEvidence <==> Within(t.startsAt, c.startsAt, tolerance))
            && s.value.weight - (if p.0 > 100 && p.1 > 100 then w.participantsExact else w.participantsStrong)
               - (if t.league == c.league && t.league != "" then w.leagueAgree else 0.0)
               == (if t.startsAt.None? || c.startsAt.None? then 0.0
                   else if Within(t.startsAt, c.startsAt, 300.0) then w.timeExact
                   else if Within(t.startsAt, c.startsAt, tolerance) then w.timeClose
                   else w.timeFar))
  {
  }

  // ---- the heaviest pair of a target -----------------------------------------------------

  /** Candidate b is target t's heaviest: least identifier among equal weights, first listed among equal ids. */
  ghost predicate Heaviest(edges: Edges, candidates: seq<string>, t: nat, b: nat) {
    && b < |candidates| && (t, b) in edges
    && forall c | 0 <= c < |candidates| && c != b && (t, c) in edges :: Ahead(edges, candidates, t, b, c)
  }

  ghost predicate Ahead(edges: Edges, candidates: seq<string>, t: nat, b: nat, c: nat)
    requires b < |candidates| && c < |candidates| && (t, b) in edges && (t, c) in edges
  {
    || edges[(t, b)].weight > edges[(t, c)].weight
    || (edges[(t, b)].weight == edges[(t, c)].weight && candidates[b] != candidates[c]
        && StringLe(candidates[b], candidates[c]))
    || (edges[(t, b)].weight == edges[(t, c)].weight && candidates[b] == candidates[c] && b < c)
  }

  lemma AheadChain(edges: Edges, candidates: seq<string>, t: nat, n: nat, b: nat, c: nat)
    requires n < |candidates| && b < |candidates| && c < |candidates|
    requires (t, n) in edges && (t, b) in edges && (t, c) in edges
    requires Ahead(edges, candidates, t, b, c) && c < n
    requires edges[(t, n)].weight > edges[(t, b)].weight
          || (edges[(t, n)].weight == edges[(t, b)].weight && candidates[n] != candidates[b]
              && StringLe(candidates[n], candidates[b]))
    ensures Ahead(edges, candidates, t, n, c)
  {
    if edges[(t, n)].weight == edges[(t, c)].weight {
      StringTotal(candidates[n], candidates[b]);
      if candidates[b] != candidates[c] { StringTransitive(candidates[n], candidates[b], candidates[c]); }
    }
  }

  lemma {:induction false} BestAmong(edges: Edges, candidates: seq<string>, t: nat, k: nat)
    requires k <= |candidates|
    ensures var best := BestCandidate(edges, candidates, t, k);
      best.Some? ==> forall c | 0 <= c < k && c != best.value && (t, c) in edges ::
                       Ahead(edges, candidates, t, best.value, c)
  {
    if k > 0 {
      BestAmong(edges, candidates, t, k - 1);
      var before, now := BestCandidate(edges, candidates, t, k - 1), BestCandidate(edges, candidates, t, k);
      if now.Some? {
        var n := now.value;
        forall c | 0 <= c < k && c != n && (t, c) in edges ensures Ahead(edges, candidates, t, n, c) {
          if c == k - 1 {
            StringTotal(candidates[n], candidates[c]);
          } else if n == k - 1 && before.Some? {
            StringTotal(candidates[n], candidates[before.value]);
            if c != before.value { AheadChain(edges, candidates, t, n, before.value, c); }
          }
        }
      }
    }
  }

  // ---- why a target is left without a link -----------------------------------------------

  /** The call leaves target t without a link. */
  ghost predicate LeftOver(targets: seq<string>, candidates: seq<string>, edges: Edges, w: Weights, t: nat) {
    forall l | l in LinksOf(edges, w, targets, candidates) :: l.target != t
  }

  ghost predicate TakenCandidate(targets: seq<string>, candidates: seq<string>, edges: Edges, w: Weights, b: nat) {
    exists l :: l in LinksOf(edges, w, targets, candidates) && l.candidate == b
  }

  /**
   Every decision of a call. A linked target is mapped. Any other is quarantined without a pair; with one
   the decision names its heaviest pair b and gives the first reason that applies to that pair.
   */
  lemma DecisionReasons(targets: seq<string>, candidates: seq<string>, edges: Edges, w: Weights,
                        decisions: seq<Decision>, t: nat)
    requires Decisions(decisions, targets, candidates, edges, w) && t < |targets|
    ensures decisions[t].status.Mapped? <==> !LeftOver(targets, candidates, edges, w, t)
    ensures LeftOver(targets, candidates, edges, w, t) && (forall c | 0 <= c < |candidates| :: (t, c) !in edges)
      ==> decisions[t] == Decision(Quarantined, None, None, NoCandidate)
    ensures forall b: nat | LeftOver(targets, candidates, edges, w, t) && Heaviest(edges, candidates, t, b) ::
      var d, s := decisions[t], edges[(t, b)];
      && d.candidate == Some(b) && d.weight == Some(s.weight)
      && (d.status.Quarantined? <==> s.weight <= w.nonlinkThreshold)
      && (d.status.Ambiguous? <==> s.weight > w.nonlinkThreshold)
      && (d.reason.BelowNonlink? <==> s.weight <= w.nonlinkThreshold)
      && (d.reason.TakenByHeavier? <==>
            s.weight > w.nonlinkThreshold && TakenCandidate(targets, candidates, edges, w, b))
      && (d.reason.NoStartEvidence? <==>
            s.weight > w.nonlinkThreshold && !TakenCandidate(targets, candidates, edges, w, b) && !s.startEvidence)
      && (d.reason.PossibleBand? <==>
            s.weight > w.nonlinkThreshold && !TakenCandidate(targets, candidates, edges, w, b) && s.startEvidence)
    ensures LeftOver(targets, candidates, edges, w, t) && (exists c :: 0 <= c < |candidates| && (t, c) in edges)
      ==> exists b: nat :: Heaviest(edges, candidates, t, b)
  {
    hide LinksOf, BestCandidate, EligibleSet;
    BestAmong(edges, candidates, t, |candidates|);
    var best := BestCandidate(edges, candidates, t, |candidates|);
    if best.Some? { assert Heaviest(edges, candidates, t, best.value); }
    forall b: nat | Heaviest(edges, candidates, t, b) ensures best == Some(b) {
      if best.value != b {
        assert Ahead(edges, candidates, t, best.value, b) && Ahead(edges, candidates, t, b, best.value);
        StringTotal(candidates[b], candidates[best.value]);
      }
    }
  }

  // ---- under the default weights ---------------------------------------------------------

  /** The starts of a pair are both known and further apart than the tolerance. */
  ghost predicate FarApart(t: Event, c: Event, tolerance: real) {
    t.startsAt.Some? && c.startsAt.Some? && !Within(t.startsAt, c.startsAt, tolerance)
  }

  /** Every pair of target t is the scored pair of the two events, under the default weights. */
  ghost predicate ScoredPairs(edges: Edges, t: nat, target: Event, events: seq<Event>, tolerance: real) {
    forall c | 0 <= c < |events| && (t, c) in edges :: exists direct, reversed ::
      ScoreEdge(target, events[c], direct, reversed, tolerance, DEFAULT_WEIGHTS) == Some(edges[(t, c)])
  }

  /**
   Under the default weights a target without a link is quarantined exactly when every event its names
   match is known to start at another time.
   */
  lemma QuarantinedExactly(targets: seq<string>, candidates: seq<string>, edges: Edges, decisions: seq<Decision>,
                           t: nat, target: Event, events: seq<Event>, tolerance: real)
    requires Decisions(decisions, targets, candidates, edges, DEFAULT_WEIGHTS) && t < |targets|
    requires tolerance >= 300.0 && |events| == |candidates| && ScoredPairs(edges, t, target, events, tolerance)
    requires LeftOver(targets, candidates, edges, DEFAULT_WEIGHTS, t)
    ensures decisions[t].status.Quarantined?
       <==> forall c | 0 <= c < |events| && (t, c) in edges :: FarApart(target, events[c], tolerance)
  {
    hide LinksOf, BestCandidate, EligibleSet, ScoreEdge, Decisions, LeftOver;
    DecisionReasons(targets, candidates, edges, DEFAULT_WEIGHTS, decisions, t);
    forall c | 0 <= c < |events| && (t, c) in edges
      ensures edges[(t, c)].weight <= 0.0 <==> FarApart(target, events[c], tolerance)
    {
      var direct, reversed :|
        ScoreEdge(target, events[c], direct, reversed, tolerance, DEFAULT_WEIGHTS) == Some(edges[(t, c)]);
      FarPair(target, events[c], direct, reversed, tolerance);
    }
    if b: nat :| Heaviest(edges, candidates, t, b) {
      assert edges[(t, b)].weight <= 0.0 <==> FarApart(target, events[b], tolerance);
      assert forall c | 0 <= c < |events| && (t, c) in edges && c != b :: Ahead(edges, candidates, t, b, c);
    }
  }

  lemma FarPair(t: Event, c: Event, direct: TeamScores, reversed: TeamScores, tolerance: real)
    requires tolerance >= 300.0
    ensures var s := ScoreEdge(t, c, direct, reversed, tolerance, DEFAULT_WEIGHTS);
      s.Some? ==> (s.value.weight <= 0.0 <==> FarApart(t, c, tolerance))
  {
    var best := BestScores(direct, reversed);
    if best.Some? { PairScored(t, c, direct, reversed, tolerance, DEFAULT_WEIGHTS, best.value); }
  }
}
