/**
 The order-book replica (app/orderbook.py): snapshots and deltas from a venue over a channel that may
 drop, repeat and reorder them. A synchronized replica is shown to hold exactly the venue's book of
 the version its hash names.
 */
module OrderBook {
  import opened Options

  type Side = map<real, real>

  /** A price level as received; None where the number does not parse. */
  datatype Level = Level(price: Option<real>, size: Option<real>)

  datatype Snapshot = Snapshot(asset: Option<string>, bids: seq<Level>, asks: seq<Level>,
                               hash: Option<string>, timestamp: Option<int>)

  datatype Target = Bids | Asks | Unknown

  datatype Delta = Delta(side: Target, price: Option<real>, size: Option<real>, timestamp: Option<int>,
                         previous: Option<string>, hash: Option<string>)

  datatype Outcome = Accepted | TokenMismatch | InvalidLevel | Gap | InvalidChange

  datatype Replica = Replica(token: string, bids: Side, asks: Side, hash: Option<string>,
                             timestamp: Option<int>, synchronized: bool)

  // ---- snapshot levels -------------------------------------------------------------------

  predicate ValidLevel(l: Level) {
    l.price.Some? && l.size.Some? && 0.0 < l.price.value < 1.0 && l.size.value >= 0.0
  }

  /** The levels read so far, or None after an invalid one. */
  function LevelsOf(raw: seq<Level>): Option<Side> {
    if raw == [] then Some(map[])
    else
      var before, l := LevelsOf(raw[..|raw| - 1]), raw[|raw| - 1];
      if before.None? || !ValidLevel(l) then None
      else if l.size.value > 0.0 then Some(before.value[l.price.value := l.size.value])
      else before
  }

  /** Level i is the last one of a positive size at its price. */
  predicate LastAt(raw: seq<Level>, i: nat, price: real)
    requires i < |raw|
  {
    && ValidLevel(raw[i]) && raw[i].price.value == price && raw[i].size.value > 0.0
    && forall j | i < j < |raw| :: !(ValidLevel(raw[j]) && raw[j].price.value == price && raw[j].size.value > 0.0)
  }

  /** A snapshot side parses exactly when every level is valid, and each price gets its last positive size. */
  lemma {:induction false} LevelsMeaning(raw: seq<Level>)
    ensures LevelsOf(raw).Some? <==> forall i | 0 <= i < |raw| :: ValidLevel(raw[i])
    ensures LevelsOf(raw).Some? ==> forall p | p in LevelsOf(raw).value ::
                exists i | 0 <= i < |raw| :: LastAt(raw, i, p) && LevelsOf(raw).value[p] == raw[i].size.value
    ensures LevelsOf(raw).Some? ==> forall i, p | 0 <= i < |raw| && LastAt(raw, i, p) :: p in LevelsOf(raw).value
  {
    if raw != [] {
      var n := |raw| - 1;
      var before := raw[..n];
      LevelsMeaning(before);
      if LevelsOf(raw).Some? {
        var side := LevelsOf(raw).value;
        forall p | p in side
          ensures exists i | 0 <= i < |raw| :: LastAt(raw, i, p) && side[p] == raw[i].size.value
        {
          if raw[n].size.value > 0.0 && raw[n].price.value == p {
            assert LastAt(raw, n, p);
          } else {
            var i :| 0 <= i < n && LastAt(before, i, p) && LevelsOf(before).value[p] == before[i].size.value;
            assert LastAt(raw, i, p);
          }
        }
        forall i, p | 0 <= i < |raw| && LastAt(raw, i, p) ensures p in side {
          if i < n { assert LastAt(before, i, p); }
        }
      }
    }
  }

  // ---- the two operations on values ------------------------------------------------------

  function Fresh(token: string): Replica { Replica(token, map[], map[], None, None, false) }

  /** apply_snapshot: the bids are replaced before the asks are read. */
  function AfterSnapshot(r: Replica, s: Snapshot): (Replica, Outcome) {
    if s.asset.Some? && s.asset.value != r.token then (r, TokenMismatch)
    else if LevelsOf(s.bids).None? then (r, InvalidLevel)
    else if LevelsOf(s.asks).None? then (r.(bids := LevelsOf(s.bids).value), InvalidLevel)
    else
      (Replica(r.token, LevelsOf(s.bids).value, LevelsOf(s.asks).value, s.hash, s.timestamp,
               s.hash.Some? && s.timestamp.Some?), Accepted)
  }

  function Removed(side: Side, price: real): Side { map p | p in side && p != price :: side[p] }

  function Leveled(side: Side, price: real, size: real): Side {
    if size == 0.0 then Removed(side, price) else side[price := size]
  }

  predicate Stale(r: Replica, d: Delta) {
    d.timestamp.None? || (r.timestamp.Some? && d.timestamp.value < r.timestamp.value)
  }

  function AfterChange(r: Replica, d: Delta): (Replica, Outcome) {
    if !r.synchronized then (r, Gap)
    else if Stale(r, d) || (d.previous.Some? && d.previous != r.hash) then (r.(synchronized := false), Gap)
    else if d.side.Unknown? || d.price.None? || d.size.None? || d.size.value < 0.0 then (r, InvalidChange)
    else
      var moved := if d.side.Bids? then r.(bids := Leveled(r.bids, d.price.value, d.size.value))
                   else r.(asks := Leveled(r.asks, d.price.value, d.size.value));
      (moved.(timestamp := d.timestamp, hash := if d.hash.Some? then d.hash else r.hash), Accepted)
  }

  // ---- the class -------------------------------------------------------------------------

  class OrderBookState {
    const token: string
    var bids: Side
    var asks: Side
    var bookHash: Option<string>
    var timestamp: Option<int>
    var synchronized: bool

    ghost function State(): Replica
      reads this
    {
      Replica(token, bids, asks, bookHash, timestamp, synchronized)
    }

    constructor (id: string)
      ensures State() == Fresh(id)
    {
      token, bids, asks := id, map[], map[];
      bookHash, timestamp, synchronized := None, None, false;
    }

    static method Levels(raw: seq<Level>) returns (levels: Option<Side>)
      ensures levels == LevelsOf(raw)
    {
      var read: Side := map[];
      for i := 0 to |raw|
        invariant LevelsOf(raw[..i]) == Some(read)
      {
        assert raw[..i + 1][..i] == raw[..i];
        if !ValidLevel(raw[i]) {
          assert LevelsOf(raw[..i + 1]).None?;
          InvalidStays(raw, i + 1);
          return None;
        }
        if raw[i].size.value > 0.0 { read := read[raw[i].price.value := raw[i].size.value]; }
      }
      assert raw[..|raw|] == raw;
      levels := Some(read);
    }

    method ApplySnapshot(s: Snapshot) returns (outcome: Outcome)
      modifies this
      ensures (State(), outcome) == AfterSnapshot(old(State()), s)
    {
      if s.asset.Some? && s.asset.value != token { return TokenMismatch; }
      var read := Levels(s.bids);
      if read.None? { return InvalidLevel; }
      bids := read.value;
      read := Levels(s.asks);
      if read.None? { return InvalidLevel; }
      asks := read.value;
      bookHash := s.hash;
      timestamp := s.timestamp;
      synchronized := bookHash.Some? && timestamp.Some?;
      outcome := Accepted;
    }

    method ApplyChange(d: Delta) returns (outcome: Outcome)
      modifies this
      ensures (State(), outcome) == AfterChange(old(State()), d)
    {
      if !synchronized { return Gap; }
      if d.timestamp.None? || (timestamp.Some? && d.timestamp.value < timestamp.value) {
        synchronized := false;
        return Gap;
      }
      if d.previous.Some? && d.previous != bookHash {
        synchronized := false;
        return Gap;
      }
      if d.side.Unknown? || d.price.None? || d.size.None? || d.size.value < 0.0 { return InvalidChange; }
      if d.side.Bids? {
        bids := Leveled(bids, d.price.value, d.size.value);
      } else {
        asks := Leveled(asks, d.price.value, d.size.value);
      }
      timestamp := d.timestamp;
      if d.hash.Some? { bookHash := d.hash; }
      outcome := Accepted;
    }
  }

  lemma {:induction false} InvalidStays(raw: seq<Level>, i: nat)
    requires i <= |raw| && LevelsOf(raw[..i]).None?
    ensures LevelsOf(raw).None?
    decreases |raw| - i
  {
    if i < |raw| {
      assert raw[..i + 1][..i] == raw[..i];
      InvalidStays(raw, i + 1);
    } else {
      assert raw[..i] == raw;
    }
  }

  // ---- snapshots in their own numbers ----------------------------------------------------

  /** A level that names a price strictly inside (0, 1) and a size that is not negative. */
  ghost predicate Quotes(l: Level, price: real, size: real) {
    l == Level(Some(price), Some(size)) && price > 0.0 && price < 1.0 && !(size < 0.0)
  }

  ghost predicate Quoting(l: Level) { exists price, size :: Quotes(l, price, size) }

  ghost predicate AllQuote(raw: seq<Level>) { forall i | 0 <= i < |raw| :: Quoting(raw[i]) }

  /** The last size above zero that raw names at this price. */
  ghost predicate LastSize(raw: seq<Level>, price: real, size: real) {
    && size > 0.0
    && exists i | 0 <= i < |raw| ::
      Quotes(raw[i], price, size) && forall j | i < j < |raw| && raw[j].price == Some(price) :: raw[j].size == Some(0.0)
  }

  lemma QuotesExactly(l: Level)
    ensures ValidLevel(l) <==> Quoting(l)
  {
    if ValidLevel(l) { assert Quotes(l, l.price.value, l.size.value); }
  }

  lemma LevelsInNumbers(raw: seq<Level>)
    ensures LevelsOf(raw).Some? <==> AllQuote(raw)
    ensures LevelsOf(raw).Some? ==> forall price, size ::
      price in LevelsOf(raw).value && LevelsOf(raw).value[price] == size <==> LastSize(raw, price, size)
  {
    hide LevelsOf, ValidLevel, Quoting, LastSize;
    LevelsMeaning(raw);
    forall i | 0 <= i < |raw| ensures ValidLevel(raw[i]) <==> Quoting(raw[i]) { QuotesExactly(raw[i]); }
    if LevelsOf(raw).Some? {
      forall price, size
        ensures price in LevelsOf(raw).value && LevelsOf(raw).value[price] == size <==> LastSize(raw, price, size)
      {
        SizeInNumbers(raw, price, size);
      }
    }
  }

  lemma SizeInNumbers(raw: seq<Level>, price: real, size: real)
    requires LevelsOf(raw).Some?
    ensures price in LevelsOf(raw).value && LevelsOf(raw).value[price] == size <==> LastSize(raw, price, size)
  {
    hide LevelsOf, LastAt, LastSize, ValidLevel;
    LevelsMeaning(raw);
    if price in LevelsOf(raw).value {
      var i := KeptAt(raw, price);
      LastAtSize(raw, i, price);
    }
    if LastSize(raw, price, size) {
      var i := SizeLastAt(raw, price, size);
      var k := KeptAt(raw, price);
      OneLast(raw, i, k, price);
    }
  }

  /** The level from which a price of the side has its size. */
  lemma KeptAt(raw: seq<Level>, price: real) returns (i: nat)
    requires LevelsOf(raw).Some? && price in LevelsOf(raw).value
    ensures i < |raw| && LastAt(raw, i, price) && raw[i].size == Some(LevelsOf(raw).value[price])
  {
    hide LevelsOf;
    LevelsMeaning(raw);
    i :| i < |raw| && LastAt(raw, i, price) && LevelsOf(raw).value[price] == raw[i].size.value;
  }

  lemma LastAtSize(raw: seq<Level>, i: nat, price: real)
    requires i < |raw| && LastAt(raw, i, price) && forall j | 0 <= j < |raw| :: ValidLevel(raw[j])
    ensures raw[i].size.Some? && LastSize(raw, price, raw[i].size.value)
  {
    assert Quotes(raw[i], price, raw[i].size.value);
  }

  lemma SizeLastAt(raw: seq<Level>, price: real, size: real) returns (i: nat)
    requires LastSize(raw, price, size) && forall j | 0 <= j < |raw| :: ValidLevel(raw[j])
    ensures i < |raw| && LastAt(raw, i, price) && raw[i].size == Some(size)
  {
    i :| i < |raw| && Quotes(raw[i], price, size)
      && forall j | i < j < |raw| && raw[j].price == Some(price) :: raw[j].size == Some(0.0);
  }

  lemma OneLast(raw: seq<Level>, i: nat, k: nat, price: real)
    requires i < |raw| && k < |raw| && LastAt(raw, i, price) && LastAt(raw, k, price)
    ensures i == k
  {
  }

  /**
   A snapshot is accepted exactly when it names this token or none and every level quotes. The replica then
   holds the last size above zero of each price, and is in step exactly when hash and timestamp are named.
   */
  lemma SnapshotInNumbers(r: Replica, s: Snapshot)
    ensures var (after, outcome) := AfterSnapshot(r, s);
      && (outcome.Accepted? <==>
            (s.asset.None? || s.asset == Some(r.token)) && AllQuote(s.bids) && AllQuote(s.asks))
      && (outcome.Accepted? ==>
            && after.token == r.token && after.hash == s.hash && after.timestamp == s.timestamp
            && (after.synchronized <==> s.hash != None && s.timestamp != None)
            && (forall p, z :: p in after.bids && after.bids[p] == z <==> LastSize(s.bids, p, z))
            && (forall p, z :: p in after.asks && after.asks[p] == z <==> LastSize(s.asks, p, z)))
  {
    hide LevelsOf, LastSize, AllQuote;
    LevelsInNumbers(s.bids);
    LevelsInNumbers(s.asks);
  }

  // ---- any stream of messages ------------------------------------------------------------

  /** One message's changes of this book in turn, up to the first that is refused. */
  function AfterChanges(r: Replica, ds: seq<Delta>): Replica
    decreases |ds|
  {
    if ds == [] then r
    else
      var (next, outcome) := AfterChange(r, ds[0]);
      if outcome.Accepted? then AfterChanges(next, ds[1..]) else next
  }

  /** Doubt: a top-of-book event that disagrees with the replica takes it out of step. */
  datatype Message = Snap(s: Snapshot) | Step(ds: seq<Delta>) | Doubt

  function Received(r: Replica, m: Message): Replica {
    match m
    case Snap(s) => AfterSnapshot(r, s).0
    case Step(ds) => AfterChanges(r, ds)
    case Doubt => r.(synchronized := false)
  }

  function Run(r: Replica, ms: seq<Message>): Replica
    decreases |ms|
  {
    if ms == [] then r else Run(Received(r, ms[0]), ms[1..])
  }

  ghost predicate Positive(side: Side) { forall p | p in side :: side[p] > 0.0 }

  lemma {:induction false} LevelsPositive(raw: seq<Level>)
    ensures LevelsOf(raw).Some? ==> Positive(LevelsOf(raw).value)
  {
    if raw != [] { LevelsPositive(raw[..|raw| - 1]); }
  }

  lemma {:induction false} ChangesPositive(r: Replica, ds: seq<Delta>)
    requires Positive(r.bids) && Positive(r.asks)
    ensures Positive(AfterChanges(r, ds).bids) && Positive(AfterChanges(r, ds).asks)
    decreases |ds|
  {
    if ds != [] { ChangesPositive(AfterChange(r, ds[0]).0, ds[1..]); }
  }

  /** No message, however malformed, leaves a level of zero or negative size. */
  lemma {:induction false} SizesStayPositive(r: Replica, ms: seq<Message>)
    requires Positive(r.bids) && Positive(r.asks)
    ensures Positive(Run(r, ms).bids) && Positive(Run(r, ms).asks)
    decreases |ms|
  {
    if ms != [] {
      if ms[0].Snap? {
        LevelsPositive(ms[0].s.bids);
        LevelsPositive(ms[0].s.asks);
      } else if ms[0].Step? {
        ChangesPositive(r, ms[0].ds);
      }
      SizesStayPositive(Received(r, ms[0]), ms[1..]);
    }
  }

  predicate NoSnapshot(ms: seq<Message>) { forall i | 0 <= i < |ms| :: !ms[i].Snap? }

  predicate Later(a: Option<int>, b: Option<int>) { a.Some? ==> b.Some? && a.value <= b.value }

  lemma {:induction false} ChangesAdvance(r: Replica, ds: seq<Delta>)
    ensures Later(r.timestamp, AfterChanges(r, ds).timestamp)
    decreases |ds|
  {
    if ds != [] { ChangesAdvance(AfterChange(r, ds[0]).0, ds[1..]); }
  }

  /** Between snapshots the timestamp never goes back. */
  lemma {:induction false} TimestampsAdvance(r: Replica, ms: seq<Message>)
    requires NoSnapshot(ms)
    ensures Later(r.timestamp, Run(r, ms).timestamp)
    decreases |ms|
  {
    if ms != [] {
      if ms[0].Step? { ChangesAdvance(r, ms[0].ds); }
      TimestampsAdvance(Received(r, ms[0]), ms[1..]);
    }
  }

  /** Once out of step, the replica does not move at all until the next snapshot. */
  lemma {:induction false} GapFreezes(r: Replica, ms: seq<Message>)
    requires !r.synchronized && NoSnapshot(ms)
    ensures Run(r, ms) == r
    decreases |ms|
  {
    if ms != [] { GapFreezes(Received(r, ms[0]), ms[1..]); }
  }

  // ---- the venue -------------------------------------------------------------------------

  datatype Book = Book(bids: Side, asks: Side)

  datatype Change = Change(onBids: bool, price: real, size: real)

  /** The venue's first book, the changes it made since, and the hash it gave each version. */
  datatype Venue = Venue(token: string, first: Book, changes: seq<Change>, hashes: seq<string>)

  ghost predicate Publishes(v: Venue) {
    && |v.hashes| == |v.changes| + 1
    && (forall i, j | 0 <= i < j < |v.hashes| :: v.hashes[i] != v.hashes[j])
    && (forall i | 0 <= i < |v.changes| :: v.changes[i].size >= 0.0)
  }

  function Changed(b: Book, c: Change): Book {
    if c.onBids then b.(bids := Leveled(b.bids, c.price, c.size)) else b.(asks := Leveled(b.asks, c.price, c.size))
  }

  function Version(v: Venue, k: nat): Book
    requires k <= |v.changes|
  {
    if k == 0 then v.first else Changed(Version(v, k - 1), v.changes[k - 1])
  }

  /** A snapshot of version k: any listing of its levels, with its hash. */
  predicate SnapshotOf(v: Venue, k: nat, s: Snapshot)
    requires |v.hashes| == |v.changes| + 1 && k <= |v.changes|
  {
    && (s.asset.Some? ==> s.asset.value == v.token) && s.hash == Some(v.hashes[k])
    && LevelsOf(s.bids) == Some(Version(v, k).bids) && LevelsOf(s.asks) == Some(Version(v, k).asks)
  }

  predicate Carries(c: Change, d: Delta) {
    d.side == (if c.onBids then Bids else Asks) && d.price == Some(c.price) && d.size == Some(c.size)
  }

  /**
   A message with the changes from version k on: `named` if it names the version it starts from, `hashed` if
   it names the one it leads to. Its changes share the message's timestamp and hashes.
   */
  predicate MessageOf(v: Venue, k: nat, ds: seq<Delta>, named: bool, hashed: bool)
    requires |v.hashes| == |v.changes| + 1
  {
    && ds != [] && k + |ds| <= |v.changes|
    && forall i | 0 <= i < |ds| ::
         && Carries(v.changes[k + i], ds[i]) && ds[i].timestamp == ds[0].timestamp
         && ds[i].previous == (if named then Some(v.hashes[k]) else None)
         && ds[i].hash == (if hashed then Some(v.hashes[k + |ds|]) else None)
  }

  /** A message the channel may deliver, in any order and any number of times. */
  ghost predicate Genuine(v: Venue, m: Message)
    requires Publishes(v)
  {
    match m
    case Snap(s) => exists k | 0 <= k <= |v.changes| :: SnapshotOf(v, k, s)
    case Step(ds) => exists k | 0 <= k < |v.changes| :: MessageOf(v, k, ds, true, true)
    case Doubt => true
  }

  /** Some version carries the replica's hash, and its book is the replica's. */
  ghost predicate Named(v: Venue, r: Replica)
    requires Publishes(v)
  {
    && r.hash.Some? && r.hash.value in v.hashes
    && forall k | 0 <= k <= |v.changes| && v.hashes[k] == r.hash.value :: Book(r.bids, r.asks) == Version(v, k)
  }

  ghost predicate Faithful(v: Venue, r: Replica)
    requires Publishes(v)
  {
    r.token == v.token && (r.synchronized ==> Named(v, r))
  }

  /** A change of a genuine message is only ever refused by a gap. */
  lemma CarriedAccepted(v: Venue, r: Replica, k: nat, d: Delta)
    requires Publishes(v) && k < |v.changes| && Carries(v.changes[k], d)
    ensures var (next, outcome) := AfterChange(r, d);
      if r.synchronized && !Stale(r, d) && (d.previous.Some? ==> d.previous == r.hash)
      then outcome.Accepted? && next.synchronized && next.token == r.token && next.timestamp == d.timestamp
           && next.hash == (if d.hash.Some? then d.hash else r.hash)
           && Book(next.bids, next.asks) == Changed(Book(r.bids, r.asks), v.changes[k])
      else outcome.Gap? && next == r.(synchronized := false)
  {
  }

  /** A message that names both its versions and holds several changes always ends out of step. */
  lemma ManyChangesGap(v: Venue, r: Replica, k: nat, ds: seq<Delta>)
    requires Publishes(v) && MessageOf(v, k, ds, true, true) && |ds| >= 2
    ensures !AfterChanges(r, ds).synchronized && AfterChanges(r, ds).token == r.token
  {
    hide AfterChange, Carries, Stale;
    var (next, outcome) := AfterChange(r, ds[0]);
    CarriedAccepted(v, r, k, ds[0]);
    if outcome.Accepted? {
      CarriedAccepted(v, next, k + 1, ds[1]);
      assert v.hashes[k] != v.hashes[k + |ds|];
      assert AfterChanges(next, ds[1..]) == AfterChange(next, ds[1]).0;
    }
  }

  lemma NamedStep(v: Venue, r: Replica, k: nat, ds: seq<Delta>)
    requires Publishes(v) && Faithful(v, r) && MessageOf(v, k, ds, true, true) && |ds| == 1
    ensures Faithful(v, AfterChanges(r, ds))
  {
    hide AfterChange, Carries, Stale;
    var (next, outcome) := AfterChange(r, ds[0]);
    CarriedAccepted(v, r, k, ds[0]);
    assert outcome.Accepted? ==> AfterChanges(next, ds[1..]) == next;
    if outcome.Accepted? {
      assert v.hashes[k] == r.hash.value && Book(r.bids, r.asks) == Version(v, k);
      assert Book(next.bids, next.asks) == Version(v, k + 1);
    }
  }

  lemma ReceivedFaithful(v: Venue, r: Replica, m: Message)
    requires Publishes(v) && Faithful(v, r) && Genuine(v, m)
    ensures Faithful(v, Received(r, m))
  {
    hide LevelsOf;
    match m
    case Snap(s) =>
      var k :| 0 <= k <= |v.changes| && SnapshotOf(v, k, s);
    case Step(ds) =>
      var k :| 0 <= k < |v.changes| && MessageOf(v, k, ds, true, true);
      if |ds| == 1 { NamedStep(v, r, k, ds); } else { ManyChangesGap(v, r, k, ds); }
    case Doubt =>
  }

  /**
   Over any channel, after any messages, a synchronized replica equals the venue's book of the version
   its hash names.
   */
  lemma {:induction false} RunFaithful(v: Venue, r: Replica, ms: seq<Message>)
    requires Publishes(v) && Faithful(v, r) && forall i | 0 <= i < |ms| :: Genuine(v, ms[i])
    ensures Faithful(v, Run(r, ms))
    decreases |ms|
  {
    hide Received, Faithful, Genuine;
    if ms != [] {
      assert Genuine(v, ms[0]);
      ReceivedFaithful(v, r, ms[0]);
      RunFaithful(v, Received(r, ms[0]), ms[1..]);
    }
  }

  lemma ReplicaMatchesVenue(v: Venue, ms: seq<Message>)
    requires Publishes(v) && forall i | 0 <= i < |ms| :: Genuine(v, ms[i])
    ensures Run(Fresh(v.token), ms).synchronized ==> Named(v, Run(Fresh(v.token), ms))
  {
    hide Run, Named;
    RunFaithful(v, Fresh(v.token), ms);
  }

  // ---- messages that leave a hash out ----------------------------------------------------

  /** The size at a price, if there is one. */
  function At(b: Book, bids: bool, price: real): Option<real> {
    var side := if bids then b.bids else b.asks;
    if price in side then Some(side[price]) else None
  }

  /** The book after n of the venue's changes from the k-th on. */
  function Advanced(b: Book, v: Venue, k: nat, n: nat): Book
    requires k + n <= |v.changes|
  {
    if n == 0 then b else Changed(Advanced(b, v, k, n - 1), v.changes[k + n - 1])
  }

  predicate Touched(v: Venue, k: nat, n: nat, bids: bool, price: real)
    requires k + n <= |v.changes|
  {
    exists i | k <= i < k + n :: v.changes[i].onBids == bids && v.changes[i].price == price
  }

  /** Two books agree on every level that n changes from the k-th on leave alone. */
  ghost predicate AgreeElsewhere(a: Book, b: Book, v: Venue, k: nat, n: nat)
    requires k + n <= |v.changes|
  {
    forall bids, price :: !Touched(v, k, n, bids, price) ==> At(a, bids, price) == At(b, bids, price)
  }

  lemma ChangedAt(b: Book, c: Change, bids: bool, price: real)
    ensures At(Changed(b, c), bids, price)
         == if c.onBids == bids && c.price == price then (if c.size == 0.0 then None else Some(c.size))
            else At(b, bids, price)
  {
  }

  /** What a touched level holds afterwards does not depend on the book; the others stay. */
  lemma {:induction false} AdvancedAt(a: Book, b: Book, v: Venue, k: nat, n: nat, bids: bool, price: real)
    requires k + n <= |v.changes|
    ensures if Touched(v, k, n, bids, price)
            then At(Advanced(a, v, k, n), bids, price) == At(Advanced(b, v, k, n), bids, price)
            else At(Advanced(a, v, k, n), bids, price) == At(a, bids, price)
  {
    hide At, Changed;
    if n > 0 {
      AdvancedAt(a, b, v, k, n - 1, bids, price);
      ChangedAt(Advanced(a, v, k, n - 1), v.changes[k + n - 1], bids, price);
      ChangedAt(Advanced(b, v, k, n - 1), v.changes[k + n - 1], bids, price);
    }
  }

  lemma SameBook(a: Book, b: Book)
    requires forall bids, price :: At(a, bids, price) == At(b, bids, price)
    ensures a == b
  {
    forall p ensures (p in a.bids <==> p in b.bids) && (p in a.bids ==> a.bids[p] == b.bids[p]) {
      assert At(a, true, p) == At(b, true, p);
    }
    forall p ensures (p in a.asks <==> p in b.asks) && (p in a.asks ==> a.asks[p] == b.asks[p]) {
      assert At(a, false, p) == At(b, false, p);
    }
    assert a.bids == b.bids && a.asks == b.asks;
  }

  /** The same changes lead two books to the same one exactly when they agreed on the levels left alone. */
  lemma AdvancedSame(a: Book, b: Book, v: Venue, k: nat, n: nat)
    requires k + n <= |v.changes|
    ensures Advanced(a, v, k, n) == Advanced(b, v, k, n) <==> AgreeElsewhere(a, b, v, k, n)
  {
    hide At, Advanced, Touched;
    forall bids, price
      ensures if Touched(v, k, n, bids, price)
              then At(Advanced(a, v, k, n), bids, price) == At(Advanced(b, v, k, n), bids, price)
              else At(Advanced(a, v, k, n), bids, price) == At(a, bids, price)
                   && At(Advanced(b, v, k, n), bids, price) == At(b, bids, price)
    {
      AdvancedAt(a, b, v, k, n, bids, price);
      AdvancedAt(b, a, v, k, n, bids, price);
    }
    if AgreeElsewhere(a, b, v, k, n) { SameBook(Advanced(a, v, k, n), Advanced(b, v, k, n)); }
  }

  lemma {:induction false} VersionAdvanced(v: Venue, k: nat, n: nat)
    requires k + n <= |v.changes|
    ensures Advanced(Version(v, k), v, k, n) == Version(v, k + n)
  {
    if n > 0 { VersionAdvanced(v, k, n - 1); }
  }

  lemma {:induction false} AdvancedFirst(b: Book, v: Venue, k: nat, n: nat)
    requires 0 < n && k + n <= |v.changes|
    ensures Advanced(b, v, k, n) == Advanced(Changed(b, v.changes[k]), v, k + 1, n - 1)
  {
    if n > 1 { AdvancedFirst(b, v, k, n - 1); }
  }

  /** Changes k to k + |ds| with one timestamp, none of which is refused for its hash. */
  predicate Unchecked(v: Venue, k: nat, ds: seq<Delta>, at: Option<int>, previous: Option<string>, hash: Option<string>)
    requires k + |ds| <= |v.changes|
  {
    && (previous.Some? ==> hash.None?)
    && forall i | 0 <= i < |ds| :: Carries(v.changes[k + i], ds[i]) && ds[i].timestamp == at
                                   && ds[i].previous == previous && ds[i].hash == hash
  }

  /** Such changes are all accepted by a replica in step that is not ahead of them. */
  lemma {:induction false} UncheckedAccepted(v: Venue, r: Replica, k: nat, ds: seq<Delta>, at: int,
                                             previous: Option<string>, hash: Option<string>)
    requires Publishes(v) && k + |ds| <= |v.changes| && Unchecked(v, k, ds, Some(at), previous, hash)
    requires r.synchronized && (r.timestamp.Some? ==> r.timestamp.value <= at)
    requires previous.Some? ==> previous == r.hash
    ensures var after := AfterChanges(r, ds);
      && after.synchronized && after.token == r.token
      && after.timestamp == (if ds == [] then r.timestamp else Some(at))
      && after.hash == (if hash.Some? && ds != [] then hash else r.hash)
      && Book(after.bids, after.asks) == Advanced(Book(r.bids, r.asks), v, k, |ds|)
    decreases |ds|
  {
    hide AfterChange, Carries, Changed;
    if ds != [] {
      CarriedAccepted(v, r, k, ds[0]);
      var next := AfterChange(r, ds[0]).0;
      UncheckedAccepted(v, next, k + 1, ds[1..], at, previous, hash);
      AdvancedFirst(Book(r.bids, r.asks), v, k, |ds|);
    }
  }

  /** A message that a replica in step refuses at once, for its timestamp or the version it names. */
  predicate Refused(r: Replica, ds: seq<Delta>)
    requires ds != []
  {
    Stale(r, ds[0]) || (ds[0].previous.Some? && ds[0].previous != r.hash)
  }

  lemma RefusedOut(v: Venue, r: Replica, k: nat, ds: seq<Delta>)
    requires Publishes(v) && ds != [] && k < |v.changes| && Carries(v.changes[k], ds[0])
    requires !r.synchronized || Refused(r, ds)
    ensures AfterChanges(r, ds) == r.(synchronized := false)
  {
  }

  lemma NamedAt(v: Venue, r: Replica, k: nat)
    requires Publishes(v) && r.token == v.token && r.synchronized && k <= |v.changes| && r.hash == Some(v.hashes[k])
    ensures Faithful(v, r) <==> Book(r.bids, r.asks) == Version(v, k)
  {
    hide Version;
    assert v.hashes[k] in v.hashes;
  }

  lemma UnnamedApplied(v: Venue, r: Replica, k: nat, ds: seq<Delta>)
    requires Publishes(v) && MessageOf(v, k, ds, false, true) && r.synchronized && !Stale(r, ds[0])
    ensures var after := AfterChanges(r, ds);
      && after.synchronized && after.token == r.token && after.hash == Some(v.hashes[k + |ds|])
      && Book(after.bids, after.asks) == Advanced(Book(r.bids, r.asks), v, k, |ds|)
  {
    hide Carries, Advanced, AfterChanges;
    UncheckedAccepted(v, r, k, ds, ds[0].timestamp.value, None, Some(v.hashes[k + |ds|]));
  }

  /**
   A message that names the version it leads to but not the one it starts from is applied unchecked. The
   replica stays faithful exactly when it agreed with that version on every level the message leaves alone.
   */
  lemma UnnamedExactly(v: Venue, r: Replica, k: nat, ds: seq<Delta>)
    requires Publishes(v) && Faithful(v, r) && MessageOf(v, k, ds, false, true)
    ensures AfterChanges(r, ds).synchronized <==> r.synchronized && !Stale(r, ds[0])
    ensures Faithful(v, AfterChanges(r, ds))
       <==> !r.synchronized || Stale(r, ds[0])
            || AgreeElsewhere(Book(r.bids, r.asks), Version(v, k), v, k, |ds|)
  {
    hide AfterChanges, AgreeElsewhere, Advanced, Version, Stale, Carries;
    var n := |ds|;
    if !r.synchronized || Stale(r, ds[0]) {
      RefusedOut(v, r, k, ds);
    } else {
      UnnamedApplied(v, r, k, ds);
      VersionAdvanced(v, k, n);
      AdvancedSame(Book(r.bids, r.asks), Version(v, k), v, k, n);
      hide Faithful, Publishes;
      NamedAt(v, AfterChanges(r, ds), k + n);
    }
  }

  /** A message that names no version it leads to leaves the old hash: faithful exactly when nothing changed. */
  lemma UnhashedExactly(v: Venue, r: Replica, k: nat, ds: seq<Delta>, named: bool)
    requires Publishes(v) && Faithful(v, r) && MessageOf(v, k, ds, named, false)
    ensures AfterChanges(r, ds).synchronized <==> r.synchronized && !Refused(r, ds)
    ensures Faithful(v, AfterChanges(r, ds))
       <==> !r.synchronized || Refused(r, ds)
            || Advanced(Book(r.bids, r.asks), v, k, |ds|) == Book(r.bids, r.asks)
  {
    hide AfterChange, Carries, Changed, Advanced;
    if !r.synchronized || Refused(r, ds) {
      RefusedOut(v, r, k, ds);
    } else {
      UncheckedAccepted(v, r, k, ds, ds[0].timestamp.value, ds[0].previous, None);
      var now :| 0 <= now < |v.hashes| && v.hashes[now] == r.hash.value;
      assert Book(r.bids, r.asks) == Version(v, now);
    }
  }

  /** One lost message, then one without the version it starts from: a valid hash over a book that never was. */
  lemma UnnamedLies()
    ensures exists v, r, ds | Publishes(v) && Faithful(v, r) && r.synchronized && MessageOf(v, 1, ds, false, true) ::
              AfterChanges(r, ds).synchronized && !Faithful(v, AfterChanges(r, ds))
  {
    var v := Venue("t", Book(map[], map[]), [Change(true, 0.4, 1.0), Change(false, 0.6, 1.0)], ["a", "b", "c"]);
    var r := Replica("t", map[], map[], Some("a"), Some(0), true);
    var ds := [Delta(Asks, Some(0.6), Some(1.0), Some(1), None, Some("c"))];
    assert Version(v, 0) == Book(map[], map[]) && Version(v, 1) == Book(map[0.4 := 1.0], map[]);
    assert Faithful(v, r) && MessageOf(v, 1, ds, false, true);
    UnnamedExactly(v, r, 1, ds);
    assert At(Version(v, 1), true, 0.4) == Some(1.0) && At(Book(r.bids, r.asks), true, 0.4) == None;
    assert !Touched(v, 1, 1, true, 0.4);
  }

  // ---- a channel that loses nothing ------------------------------------------------------

  /** Messages from version k on as the venue sent them: with several changes none names where it starts. */
  ghost predicate InOrder(v: Venue, k: nat, at: int, ms: seq<Message>)
    requires Publishes(v)
    decreases |ms|
  {
    ms != [] ==>
      && ms[0].Step?
      && var ds := ms[0].ds;
         && (MessageOf(v, k, ds, false, true) || (MessageOf(v, k, ds, true, true) && |ds| == 1))
         && ds[0].timestamp.Some? && ds[0].timestamp.value >= at
         && InOrder(v, k + |ds|, ds[0].timestamp.value, ms[1..])
  }

  function ChangeCount(ms: seq<Message>): nat {
    if ms == [] then 0 else (if ms[0].Step? then |ms[0].ds| else 0) + ChangeCount(ms[1..])
  }

  lemma MessageFollows(v: Venue, r: Replica, k: nat, ds: seq<Delta>)
    requires Publishes(v) && r.synchronized && r.timestamp.Some?
    requires MessageOf(v, k, ds, false, true) || (MessageOf(v, k, ds, true, true) && |ds| == 1)
    requires r.hash == Some(v.hashes[k]) && Book(r.bids, r.asks) == Version(v, k)
    requires ds[0].timestamp.Some? && ds[0].timestamp.value >= r.timestamp.value
    ensures var after := AfterChanges(r, ds);
      && after.synchronized && after.timestamp == ds[0].timestamp && after.hash == Some(v.hashes[k + |ds|])
      && Book(after.bids, after.asks) == Version(v, k + |ds|)
  {
    hide AfterChange, Carries, Changed, Advanced;
    if |ds| == 1 {
      CarriedAccepted(v, r, k, ds[0]);
      var next := AfterChange(r, ds[0]).0;
      assert AfterChanges(next, ds[1..]) == next;
    } else {
      UncheckedAccepted(v, r, k, ds, ds[0].timestamp.value, None, Some(v.hashes[k + |ds|]));
      VersionAdvanced(v, k, |ds|);
    }
  }

  /** Such a channel keeps the replica in step, version by version. */
  lemma {:induction false} InOrderFollows(v: Venue, r: Replica, k: nat, ms: seq<Message>)
    requires Publishes(v) && k <= |v.changes| && r.synchronized && r.timestamp.Some?
    requires r.hash == Some(v.hashes[k]) && Book(r.bids, r.asks) == Version(v, k)
    requires InOrder(v, k, r.timestamp.value, ms)
    ensures var after, last := Run(r, ms), k + ChangeCount(ms);
            last <= |v.changes| && after.synchronized && after.hash == Some(v.hashes[last])
            && Book(after.bids, after.asks) == Version(v, last)
    decreases |ms|
  {
    hide MessageOf, AfterChanges, Version;
    if ms != [] {
      MessageShape(v, k, ms[0].ds);
      MessageFollows(v, r, k, ms[0].ds);
      InOrderFollows(v, Received(r, ms[0]), k + |ms[0].ds|, ms[1..]);
    }
  }

  lemma MessageShape(v: Venue, k: nat, ds: seq<Delta>)
    requires Publishes(v) && (MessageOf(v, k, ds, false, true) || MessageOf(v, k, ds, true, true))
    ensures ds != [] && k + |ds| <= |v.changes|
  {
  }

  // ---- a snapshot that fails half way ----------------------------------------------------

  /**
   The bids of a snapshot are in place before its asks are read, and a failure there leaves the replica
   synchronized. It stays faithful exactly when it was out of step or the new bids are the old ones.
   */
  lemma FailedSnapshotExactly(v: Venue, r: Replica, s: Snapshot)
    requires Publishes(v) && Faithful(v, r) && (s.asset.Some? ==> s.asset.value == r.token)
    requires LevelsOf(s.bids).Some? && LevelsOf(s.asks).None?
    ensures AfterSnapshot(r, s).1 == InvalidLevel
    ensures Faithful(v, AfterSnapshot(r, s).0) <==> !r.synchronized || LevelsOf(s.bids).value == r.bids
  {
    hide LevelsOf;
    if r.synchronized {
      var k :| 0 <= k < |v.hashes| && v.hashes[k] == r.hash.value;
      assert Book(r.bids, r.asks) == Version(v, k);
    }
  }

  /** One bad ask in a repeated snapshot of a one-level book empties the bids under a valid hash. */
  lemma FailedSnapshotLies()
    ensures exists v, r, s | Publishes(v) && Faithful(v, r) ::
              && AfterSnapshot(r, s).1 == InvalidLevel
              && AfterSnapshot(r, s).0.synchronized && !Faithful(v, AfterSnapshot(r, s).0)
  {
    var book := Book(map[0.4 := 1.0], map[]);
    var v := Venue("t", book, [], ["h"]);
    var r := Replica("t", book.bids, book.asks, Some("h"), Some(0), true);
    var bad := Level(Some(2.0), Some(1.0));
    var s := Snapshot(None, [], [bad], Some("h"), Some(1));
    assert Version(v, 0) == book && Faithful(v, r);
    assert [bad][..0] == [] && LevelsOf(s.asks).None?;
    assert 0.4 in r.bids && LevelsOf(s.bids) == Some(map[]);
    FailedSnapshotExactly(v, r, s);
  }
}
