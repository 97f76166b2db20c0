/**
 Scoring, linking and deciding (app/identity.py, _score_edge and resolve_event_mappings). Team
 scores, normalised names and start times are inputs; the loop of `ResolveEventMappings` is proved
 against `Linkage.Greedy`, so every result of that module holds of what it returns.
 */
module EventMapping {
  import opened Linkage
  import opened Options
  import opened Ordering

  datatype Weights = Weights(participantsExact: real, participantsStrong: real, leagueAgree: real,
                             timeExact: real, timeClose: real, timeFar: real,
                             linkThreshold: real, nonlinkThreshold: real, ambiguityMargin: real)

  const DEFAULT_WEIGHTS: Weights := Weights(6.0, 3.0, 0.5, 3.0, 1.0, -10.0, 3.0, 0.0, 0.75)

  const EXACT_MATCH_SCORE: int := 101

  datatype Event = Event(id: string, sport: string, league: string, startsAt: Option<real>)

  /** Team match scores of (home, away) in one orientation, when both sides match. */
  type TeamScores = Option<(int, int)>

  datatype Scored = Scored(weight: real, startEvidence: bool)

  // ---- the weight of one pair ------------------------------------------------------------

  /** The better orientation's scores; direct on a tie. */
  function BestScores(direct: TeamScores, reversed: TeamScores): TeamScores {
    if direct.None? then reversed
    else if reversed.None? then direct
    else if reversed.value.0 + reversed.value.1 > direct.value.0 + direct.value.1 then reversed
    else direct
  }

  function ParticipantWeight(scores: (int, int), w: Weights): real {
    if scores.0 >= EXACT_MATCH_SCORE && scores.1 >= EXACT_MATCH_SCORE then w.participantsExact
    else w.participantsStrong
  }

  function Gap(a: real, b: real): real { if a >= b then a - b else b - a }

  /** Weight of the start comparison and whether it corroborates the pair. */
  function TimeEvidence(target: Option<real>, candidate: Option<real>, tolerance: real, w: Weights): (real, bool) {
    if target.None? || candidate.None? then (0.0, false)
    else
      var delta := Gap(candidate.value, target.value);
      if delta <= 300.0 then (w.timeExact, true)
      else if delta <= tolerance then (w.timeClose, true)
      else (w.timeFar, false)
  }

  predicate Comparable(t: Event, c: Event) {
    c.sport == t.sport && !(t.league != "" && c.league != "" && c.league != t.league)
  }

  function ScoreEdge(t: Event, c: Event, direct: TeamScores, reversed: TeamScores,
                     tolerance: real, w: Weights): Option<Scored> {
    var best := BestScores(direct, reversed);
    if !Comparable(t, c) || best.None? then None
    else
      var league := if t.league != "" && c.league == t.league then w.leagueAgree else 0.0;
      var (time, evidence) := TimeEvidence(t.startsAt, c.startsAt, tolerance, w);
      Some(Scored(ParticipantWeight(best.value, w) + league + time, evidence))
  }

  predicate Eligible(s: Scored, w: Weights) { s.weight >= w.linkThreshold && s.startEvidence }

  /**
   Under the declared weights the link threshold never decides: a comparable pair is eligible
   exactly when both starts are known and agree, and a far start falls to the non-link band.
   */
  lemma StartDecides(t: Event, c: Event, direct: TeamScores, reversed: TeamScores, tolerance: real)
    ensures var s := ScoreEdge(t, c, direct, reversed, tolerance, DEFAULT_WEIGHTS);
      && (s.Some? <==> Comparable(t, c) && (direct.Some? || reversed.Some?))
      && (s.Some? ==>
            (Eligible(s.value, DEFAULT_WEIGHTS) <==>
               t.startsAt.Some? && c.startsAt.Some?
               && (Gap(c.startsAt.value, t.startsAt.value) <= 300.0
                   || Gap(c.startsAt.value, t.startsAt.value) <= tolerance)))
      && (s.Some? && t.startsAt.Some? && c.startsAt.Some? && !s.value.startEvidence ==>
            s.value.weight <= DEFAULT_WEIGHTS.nonlinkThreshold)
  {
  }

  // ---- the list of eligible edges --------------------------------------------------------

  type Edges = map<(nat, nat), Scored>

  predicate InRange(edges: Edges, targets: nat, candidates: nat) {
    forall p | p in edges :: p.0 < targets && p.1 < candidates
  }

  ghost function EligibleSet(edges: Edges, w: Weights): set<Edge> {
    set p | p in edges && Eligible(edges[p], w) :: Edge(edges[p].weight, p.0, p.1)
  }

  predicate EligibleLe(targets: seq<string>, candidates: seq<string>, a: Edge, b: Edge)
  {
    var (ta, tb) := (IdOf(targets, a.target), IdOf(targets, b.target));
    var (ca, cb) := (IdOf(candidates, a.candidate), IdOf(candidates, b.candidate));
    a.weight > b.weight
    || (a.weight == b.weight && ta != tb && StringLe(ta, tb))
    || (a.weight == b.weight && ta == tb && StringLe(ca, cb))
  }

  function IdOf(ids: seq<string>, i: nat): string { if i < |ids| then ids[i] else "" }

  /** Eligible pairs in dictionary order, for the first k of the target-major pairs. */
  function Listed(edges: Edges, w: Weights, width: nat, k: nat): seq<Edge>
    requires width > 0
  {
    if k == 0 then []
    else
      var p := ((k - 1) / width, (k - 1) % width);
      Listed(edges, w, width, k - 1)
      + (if p in edges && Eligible(edges[p], w) then [Edge(edges[p].weight, p.0, p.1)] else [])
  }

  lemma {:induction false} ListedMembers(edges: Edges, w: Weights, width: nat, k: nat)
    requires width > 0
    ensures forall e :: e in Listed(edges, w, width, k) <==>
              e in EligibleSet(edges, w) && e.candidate < width && e.target * width + e.candidate < k
    ensures forall i, j | 0 <= i < j < |Listed(edges, w, width, k)| ::
              Listed(edges, w, width, k)[i] != Listed(edges, w, width, k)[j]
  {
    if k > 0 {
      ListedMembers(edges, w, width, k - 1);
      var p := ((k - 1) / width, (k - 1) % width);
      forall e: Edge | e.candidate < width
        ensures e.target * width + e.candidate == k - 1 <==> e.target == p.0 && e.candidate == p.1
      {
        Position(e.target, e.candidate, width, k - 1);
      }
    }
  }

  lemma Position(t: nat, c: nat, width: nat, k: nat)
    requires c < width
    ensures t * width + c == k <==> t == k / width && c == k % width
  {
    var q, r := k / width, k % width;
    assert k == q * width + r;
    if t < q {
      Spread(t, q, width);
    } else if q < t {
      Spread(q, t, width);
    }
  }

  lemma Spread(a: nat, b: nat, width: nat)
    requires a < b
    ensures a * width + width <= b * width
  {
    if a + 1 == b {
      assert b * width == a * width + width;
    } else {
      Spread(a, b - 1, width);
      assert b * width == (b - 1) * width + width;
    }
  }

  lemma EligibleOrder(targets: seq<string>, candidates: seq<string>)
    ensures TotalPreorder((a: Edge, b: Edge) => EligibleLe(targets, candidates, a, b))
  {
    forall a: Edge, b: Edge
      ensures EligibleLe(targets, candidates, a, b) || EligibleLe(targets, candidates, b, a)
    {
      StringTotal(IdOf(targets, a.target), IdOf(targets, b.target));
      StringTotal(IdOf(candidates, a.candidate), IdOf(candidates, b.candidate));
    }
    forall a: Edge, b: Edge, c: Edge
      | EligibleLe(targets, candidates, a, b) && EligibleLe(targets, candidates, b, c)
      ensures EligibleLe(targets, candidates, a, c)
    {
      EligibleTransitive(targets, candidates, a, b, c);
    }
  }

  lemma EligibleTransitive(targets: seq<string>, candidates: seq<string>, a: Edge, b: Edge, c: Edge)
    requires EligibleLe(targets, candidates, a, b) && EligibleLe(targets, candidates, b, c)
    ensures EligibleLe(targets, candidates, a, c)
  {
    var (ta, tb, tc) := (IdOf(targets, a.target), IdOf(targets, b.target), IdOf(targets, c.target));
    var (ca, cb, cc) := (IdOf(candidates, a.candidate), IdOf(candidates, b.candidate), IdOf(candidates, c.candidate));
    StringTotal(ta, tb);
    StringTotal(tb, tc);
    if StringLe(ta, tb) && StringLe(tb, tc) { StringTransitive(ta, tb, tc); }
    if StringLe(ca, cb) && StringLe(cb, cc) { StringTransitive(ca, cb, cc); }
  }

  function Ordered(edges: Edges, w: Weights, targets: seq<string>, candidates: seq<string>): seq<Edge> {
    if candidates == [] then []
    else Sort(Listed(edges, w, |candidates|, |targets| * |candidates|),
              (a: Edge, b: Edge) => EligibleLe(targets, candidates, a, b))
  }

  lemma OrderedArranges(edges: Edges, w: Weights, targets: seq<string>, candidates: seq<string>)
    requires InRange(edges, |targets|, |candidates|)
    ensures Arranges(Ordered(edges, w, targets, candidates), EligibleSet(edges, w))
    ensures OnePerPair(EligibleSet(edges, w))
  {
    var order, all := Ordered(edges, w, targets, candidates), EligibleSet(edges, w);
    if candidates == [] {
      assert all == {};
    } else {
      var width, le := |candidates|, (a: Edge, b: Edge) => EligibleLe(targets, candidates, a, b);
      var listed := Listed(edges, w, width, |targets| * width);
      ListedMembers(edges, w, width, |targets| * width);
      EligibleOrder(targets, candidates);
      SortSorts(listed, le);
      SortKeeps(listed, le);
      forall e ensures e in order <==> e in all {
        SortMembers(listed, le, e);
        if e in all { Spread(e.target, |targets|, width); }
      }
      SortDistinct(listed, le);
      forall i, j | 0 <= i < j < |order| ensures order[i].weight >= order[j].weight {
        assert le(order[i], order[j]);
      }
    }
  }

  /** Of equal weights the lesser target identifier is first, and the lesser candidate's of one target. */
  ghost predicate TiesById(targets: seq<string>, candidates: seq<string>, a: Edge, b: Edge) {
    a.weight == b.weight ==>
      && StringLe(IdOf(targets, a.target), IdOf(targets, b.target))
      && (IdOf(targets, a.target) == IdOf(targets, b.target) ==>
            StringLe(IdOf(candidates, a.candidate), IdOf(candidates, b.candidate)))
  }

  lemma OrderedBreaksTies(edges: Edges, w: Weights, targets: seq<string>, candidates: seq<string>, i: nat, j: nat)
    requires i < j < |Ordered(edges, w, targets, candidates)|
    ensures var order := Ordered(edges, w, targets, candidates);
      TiesById(targets, candidates, order[i], order[j])
  {
    var le := (a: Edge, b: Edge) => EligibleLe(targets, candidates, a, b);
    var listed := Listed(edges, w, |candidates|, |targets| * |candidates|);
    hide Listed, IdOf, StringLe;
    EligibleOrder(targets, candidates);
    SortSorts(listed, le);
    assert le(Sort(listed, le)[i], Sort(listed, le)[j]);
    StringTotal(IdOf(targets, Sort(listed, le)[i].target), IdOf(targets, Sort(listed, le)[j].target));
  }

  // ---- the linking loop ------------------------------------------------------------------

  /** The loop with its two sets of taken endpoints. */
  method LinkEdges(order: seq<Edge>, margin: real, ghost edges: set<Edge>)
    returns (links: set<Edge>, takenTargets: set<nat>, takenCandidates: set<nat>)
    requires forall e :: e in order <==> e in edges
    ensures links == Greedy(order, edges, margin)
    ensures takenTargets == set l | l in links :: l.target
    ensures takenCandidates == set l | l in links :: l.candidate
  {
    links, takenTargets, takenCandidates := {}, {}, {};
    for i := 0 to |order|
      invariant links == Greedy(order[..i], edges, margin)
      invariant takenTargets == set l | l in links :: l.target
      invariant takenCandidates == set l | l in links :: l.candidate
    {
      var e := order[i];
      assert order[..i + 1][..i] == order[..i];
      assert forall f: Edge :: Free(f, links) <==> f.target !in takenTargets && f.candidate !in takenCandidates;
      if e.target in takenTargets || e.candidate in takenCandidates { continue; }
      var rival := exists f | f in order ::
        && (f.target == e.target || f.candidate == e.candidate)
        && !(f.target == e.target && f.candidate == e.candidate)
        && f.target !in takenTargets && f.candidate !in takenCandidates
        && e.weight - f.weight < margin;
      assert rival <==> exists f | f in edges :: Rival(e, f, links, margin);
      if rival { continue; }
      takenTargets := takenTargets + {e.target};
      takenCandidates := takenCandidates + {e.candidate};
      links := links + {e};
    }
    assert order[..|order|] == order;
  }

  // ---- decisions -------------------------------------------------------------------------

  datatype Status = Mapped | Ambiguous | Quarantined

  datatype Reason = Linked | NoCandidate | BelowNonlink | TakenByHeavier | NoStartEvidence | PossibleBand

  /** candidate is the provider object the decision is about; weight is None for minus infinity. */
  datatype Decision = Decision(status: Status, candidate: Option<nat>, weight: Option<real>, reason: Reason)

  /** Best candidate of a target below k: heaviest, then least identifier, then first listed. */
  function BestCandidate(edges: Edges, candidates: seq<string>, t: nat, k: nat): (r: Option<nat>)
    requires k <= |candidates|
    ensures r.Some? ==> r.value < k && (t, r.value) in edges
    ensures r.None? ==> forall c | 0 <= c < k :: (t, c) !in edges
    ensures r.Some? ==> forall c | 0 <= c < k && (t, c) in edges :: edges[(t, c)].weight <= edges[(t, r.value)].weight
  {
    if k == 0 then None
    else
      var best, c := BestCandidate(edges, candidates, t, k - 1), k - 1;
      if (t, c) !in edges then best
      else if best.None? then Some(c)
      else
        var b := best.value;
        if edges[(t, c)].weight > edges[(t, b)].weight
           || (edges[(t, c)].weight == edges[(t, b)].weight
               && candidates[c] != candidates[b] && StringLe(candidates[c], candidates[b]))
        then Some(c) else best
  }

  /** The decision for a target the loop left unlinked. */
  function Unlinked(edges: Edges, w: Weights, candidates: seq<string>, taken: set<nat>, t: nat): Decision {
    var best := BestCandidate(edges, candidates, t, |candidates|);
    if best.None? then Decision(Quarantined, None, None, NoCandidate)
    else
      var s := edges[(t, best.value)];
      if s.weight <= w.nonlinkThreshold then Decision(Quarantined, best, Some(s.weight), BelowNonlink)
      else if best.value in taken then Decision(Ambiguous, best, Some(s.weight), TakenByHeavier)
      else if !s.startEvidence then Decision(Ambiguous, best, Some(s.weight), NoStartEvidence)
      else Decision(Ambiguous, best, Some(s.weight), PossibleBand)
  }

  /** The final set of links, as an order-free description fixes it. */
  ghost function LinksOf(edges: Edges, w: Weights, targets: seq<string>, candidates: seq<string>): set<Edge> {
    Greedy(Ordered(edges, w, targets, candidates), EligibleSet(edges, w), w.ambiguityMargin)
  }

  ghost predicate DecidedBy(d: Decision, links: set<Edge>, edges: Edges, w: Weights, candidates: seq<string>, t: nat) {
    if exists l :: l in links && l.target == t
    then d.status.Mapped? && d.reason.Linked? && d.candidate.Some? && d.weight.Some?
         && Edge(d.weight.value, t, d.candidate.value) in links
    else d == Unlinked(edges, w, candidates, set l | l in links :: l.candidate, t)
  }

  method ResolveEventMappings(targets: seq<string>, candidates: seq<string>, edges: Edges, w: Weights)
    returns (decisions: seq<Decision>)
    requires InRange(edges, |targets|, |candidates|)
    ensures |decisions| == |targets|
    ensures forall t | 0 <= t < |targets| ::
      DecidedBy(decisions[t], LinksOf(edges, w, targets, candidates), edges, w, candidates, t)
  {
    var order := Ordered(edges, w, targets, candidates);
    OrderedArranges(edges, w, targets, candidates);
    var links, takenTargets, takenCandidates := LinkEdges(order, w.ambiguityMargin, EligibleSet(edges, w));
    decisions := [];
    for t := 0 to |targets|
      invariant |decisions| == t
      invariant forall u | 0 <= u < t :: DecidedBy(decisions[u], links, edges, w, candidates, u)
    {
      var d;
      if t in takenTargets {
        var l :| l in links && l.target == t;
        d := Decision(Mapped, Some(l.candidate), Some(l.weight), Linked);
      } else {
        d := Unlinked(edges, w, candidates, takenCandidates, t);
      }
      decisions := decisions + [d];
    }
  }
}
