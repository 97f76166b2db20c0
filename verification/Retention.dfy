/**
 Retention of decision marks (app/ledger.py, _prune_decision_marks): an age bound and then an exact row
 cap on a four-part key, so that rows which share a timestamp cannot exceed the cap.
 */
module Retention {
  import opened Ordering

  /** decisionHash, market and outcome are the table's primary key. */
  datatype Row = Row(asOf: real, decisionHash: string, market: string, outcome: string)

  predicate Less(a: string, b: string) { StringLe(a, b) && a != b }

  /** The WHERE clause of the deletion: the row comes strictly before the cutoff row. */
  predicate Before(r: Row, cutoff: Row) {
    || r.asOf < cutoff.asOf
    || (r.asOf == cutoff.asOf && Less(r.decisionHash, cutoff.decisionHash))
    || (r.asOf == cutoff.asOf && r.decisionHash == cutoff.decisionHash && Less(r.market, cutoff.market))
    || (r.asOf == cutoff.asOf && r.decisionHash == cutoff.decisionHash && r.market == cutoff.market
        && Less(r.outcome, cutoff.outcome))
  }

  /** The ORDER BY clause, newest first. */
  function Newest(): (Row, Row) -> bool { (a, b) => !Before(a, b) }

  /** The primary key holds. */
  ghost predicate Keyed(rows: seq<Row>) {
    forall i, j | 0 <= i < j < |rows| ::
      !(rows[i].decisionHash == rows[j].decisionHash && rows[i].market == rows[j].market
        && rows[i].outcome == rows[j].outcome)
  }

  lemma StringsCompare(a: string, b: string)
    ensures Less(a, b) || a == b || Less(b, a)
    ensures !(Less(a, b) && Less(b, a)) && !Less(a, a)
  {
    StringTotal(a, b);
  }

  lemma LessTransitive(a: string, b: string, c: string)
    requires (Less(a, b) || a == b) && (Less(b, c) || b == c)
    ensures Less(a, c) || a == c
    ensures a == c ==> a == b
  {
    StringTotal(a, b);
    StringTotal(b, c);
    StringTotal(a, c);
    StringTransitive(a, b, c);
  }

  lemma Compare(a: Row, b: Row)
    ensures Before(a, b) || a == b || Before(b, a)
    ensures !(Before(a, b) && Before(b, a)) && !Before(a, a)
  {
    StringsCompare(a.decisionHash, b.decisionHash);
    StringsCompare(a.market, b.market);
    StringsCompare(a.outcome, b.outcome);
    StringsCompare(a.decisionHash, a.decisionHash);
    StringsCompare(a.market, a.market);
    StringsCompare(a.outcome, a.outcome);
  }

  lemma NotBeforeTransitive(a: Row, b: Row, c: Row)
    requires !Before(a, b) && !Before(b, c)
    ensures !Before(a, c)
  {
    hide Less;
    Compare(a, b);
    Compare(b, c);
    if a != b && b != c && Before(a, c) {
      if a.decisionHash == b.decisionHash == c.decisionHash && a.market == b.market == c.market {
        LessTransitive(c.outcome, b.outcome, a.outcome);
      }
      if a.decisionHash == b.decisionHash == c.decisionHash { LessTransitive(c.market, b.market, a.market); }
      LessTransitiveIf(c.decisionHash, b.decisionHash, a.decisionHash);
      StringsCompare(a.decisionHash, c.decisionHash);
      StringsCompare(a.market, c.market);
      StringsCompare(a.outcome, c.outcome);
      assert false;
    }
  }

  lemma LessTransitiveIf(a: string, b: string, c: string)
    ensures (Less(a, b) || a == b) && (Less(b, c) || b == c) ==> (Less(a, c) || a == c) && (a == c ==> a == b)
  {
    if (Less(a, b) || a == b) && (Less(b, c) || b == c) { LessTransitive(a, b, c); }
  }

  lemma NewestOrders()
    ensures TotalPreorder(Newest()) && Antisymmetric(Newest())
  {
    forall a, b ensures (Newest()(a, b) || Newest()(b, a)) && (Newest()(a, b) && Newest()(b, a) ==> a == b) {
      Compare(a, b);
    }
    forall a, b, c | Newest()(a, b) && Newest()(b, c) ensures Newest()(a, c) { NotBeforeTransitive(a, b, c); }
  }

  // ---- the table -------------------------------------------------------------------------

  function Kept(rows: seq<Row>, keep: Row -> bool): seq<Row> {
    if rows == [] then []
    else Kept(rows[..|rows| - 1], keep) + if keep(rows[|rows| - 1]) then [rows[|rows| - 1]] else []
  }

  function Recent(limit: real): Row -> bool { (r: Row) => !(r.asOf < limit) }

  function From(cutoff: Row): Row -> bool { (r: Row) => !Before(r, cutoff) }

  function Aged(rows: seq<Row>, limit: real): seq<Row> { Kept(rows, Recent(limit)) }

  function Capped(rows: seq<Row>, cap: int): seq<Row> {
    if cap <= 0 || |rows| < cap then rows
    else
      SortKeeps(rows, Newest());
      var cutoff := Sort(rows, Newest())[cap - 1];
      Kept(rows, From(cutoff))
  }

  function Pruned(rows: seq<Row>, limit: real, cap: int): seq<Row> { Capped(Aged(rows, limit), cap) }

  class Ledger {
    var marks: seq<Row>
    var inputs: map<string, real>
    const retentionSeconds: real
    const maxDecisionRows: int

    constructor (seconds: real, cap: int)
      ensures marks == [] && inputs == map[] && retentionSeconds == seconds && maxDecisionRows == cap
    {
      marks, inputs, retentionSeconds, maxDecisionRows := [], map[], seconds, cap;
    }

    /** DELETE FROM decision_marks: keeps the rows the condition spares, in place. */
    method Delete(keep: Row -> bool)
      modifies this`marks
      ensures marks == Kept(old(marks), keep)
    {
      var rest: seq<Row> := [];
      for i := 0 to |marks|
        invariant marks == old(marks) && rest == Kept(marks[..i], keep)
      {
        assert marks[..i + 1][..i] == marks[..i];
        if keep(marks[i]) { rest := rest + [marks[i]]; }
      }
      assert marks[..|marks|] == marks;
      marks := rest;
    }

    method PruneDecisionMarks(now: real)
      modifies this
      ensures marks == Pruned(old(marks), now - retentionSeconds, maxDecisionRows)
      ensures inputs == map h | h in old(inputs) && !(old(inputs)[h] < now - retentionSeconds) :: old(inputs)[h]
    {
      hide Before, Sort, Kept;
      var limit := now - retentionSeconds;
      Delete(Recent(limit));
      inputs := map h | h in inputs && !(inputs[h] < limit) :: inputs[h];
      if maxDecisionRows > 0 {
        var newest := Sort(marks, Newest());
        SortKeeps(marks, Newest());
        if maxDecisionRows <= |newest| {
          var cutoff := newest[maxDecisionRows - 1];
          Delete(From(cutoff));
        }
      }
    }
  }

  // ---- what the cap keeps ----------------------------------------------------------------

  lemma {:induction false} KeptMembers(rows: seq<Row>, keep: Row -> bool, r: Row)
    ensures r in Kept(rows, keep) <==> r in rows && keep(r)
    ensures multiset(Kept(rows, keep))[r] == if keep(r) then multiset(rows)[r] else 0
  {
    if rows != [] {
      KeptMembers(rows[..|rows| - 1], keep, r);
      assert rows == rows[..|rows| - 1] + [rows[|rows| - 1]];
    }
  }

  lemma KeyedDistinct(rows: seq<Row>)
    requires Keyed(rows)
    ensures Distinct(rows)
  {
  }

  /** Rows are distinct, so each one stands once in the sorted table. */
  lemma SortedDistinct(rows: seq<Row>)
    requires Keyed(rows)
    ensures |Sort(rows, Newest())| == |rows|
    ensures forall i, j | 0 <= i < j < |rows| :: Before(Sort(rows, Newest())[j], Sort(rows, Newest())[i])
  {
    KeyedDistinct(rows);
    hide Before, Sort, Keyed;
    var sorted := Sort(rows, Newest());
    NewestOrders();
    SortKeeps(rows, Newest());
    SortSorts(rows, Newest());
    SortDistinct(rows, Newest());
    forall i, j | 0 <= i < j < |rows| ensures Before(sorted[j], sorted[i]) {
      assert Newest()(sorted[i], sorted[j]);
      Compare(sorted[i], sorted[j]);
    }
  }

  /**
   The cap keeps exactly the N newest rows, whatever timestamps tie: what remains is, as a multiset,
   the first N rows of the sorted table.
   */
  lemma CapKeepsNewest(rows: seq<Row>, cap: int)
    requires Keyed(rows) && cap > 0
    ensures var n := if |rows| < cap then |rows| else cap;
            && |Sort(rows, Newest())| == |rows|
            && multiset(Capped(rows, cap)) == multiset(Sort(rows, Newest())[..n])
            && |Capped(rows, cap)| == n
  {
    hide Before, Sort;
    var sorted := Sort(rows, Newest());
    SortKeeps(rows, Newest());
    if |rows| < cap {
      assert sorted[..|rows|] == sorted;
    } else {
      SortedDistinct(rows);
      var top, kept := sorted[..cap], Capped(rows, cap);
      forall r ensures multiset(kept)[r] == multiset(top)[r] {
        CapCounts(rows, cap, r);
      }
      assert multiset(kept) == multiset(top);
    }
    assert |multiset(Capped(rows, cap))| == |Capped(rows, cap)|;
  }

  lemma CapCounts(rows: seq<Row>, cap: int, r: Row)
    requires Keyed(rows) && 0 < cap <= |rows| && |Sort(rows, Newest())| == |rows|
    ensures multiset(Capped(rows, cap))[r] == multiset(Sort(rows, Newest())[..cap])[r]
  {
    hide Before, Sort;
    var sorted := Sort(rows, Newest());
    var cutoff := sorted[cap - 1];
    SortKeeps(rows, Newest());
    SortedDistinct(rows);
    KeptMembers(rows, From(cutoff), r);
    assert sorted == sorted[..cap] + sorted[cap..];
    forall i | 0 <= i < |rows| ensures Before(sorted[i], cutoff) <==> i >= cap {
      Compare(sorted[i], cutoff);
    }
    assert forall x | x in sorted[..cap] :: !Before(x, cutoff);
    assert forall x | x in sorted[cap..] :: Before(x, cutoff);
  }

  /** After a prune: only rows inside the window, none older than a row dropped by the cap, at most N. */
  lemma PruneKeeps(rows: seq<Row>, limit: real, cap: int)
    requires Keyed(rows)
    ensures forall r | r in Pruned(rows, limit, cap) :: r in rows && r.asOf >= limit
    ensures forall r, d | r in Pruned(rows, limit, cap) && d in rows && d !in Pruned(rows, limit, cap) :: Before(d, r)
    ensures cap > 0 ==>
              |Pruned(rows, limit, cap)| == if |Aged(rows, limit)| < cap then |Aged(rows, limit)| else cap
    ensures cap <= 0 ==> Pruned(rows, limit, cap) == Aged(rows, limit)
  {
    hide Before, Sort, Kept;
    var aged := Aged(rows, limit);
    KeptKeyed(rows, Recent(limit));
    forall r ensures r in aged <==> r in rows && r.asOf >= limit {
      KeptMembers(rows, Recent(limit), r);
    }
    if cap > 0 { CapKeepsNewest(aged, cap); }
    forall r ensures r in Pruned(rows, limit, cap) ==> r in aged { CappedMembers(aged, cap, r); }
    forall r, d | r in Pruned(rows, limit, cap) && d in rows && d !in Pruned(rows, limit, cap) ensures Before(d, r) {
      CappedMembers(aged, cap, r);
      if d in aged { CappedDrops(aged, cap, r, d); } else { Older(d, r); }
    }
  }

  lemma Older(d: Row, r: Row)
    requires d.asOf < r.asOf
    ensures Before(d, r)
  {
  }

  lemma CappedMembers(rows: seq<Row>, cap: int, r: Row)
    ensures r in Capped(rows, cap) ==> r in rows
  {
    if 0 < cap <= |rows| {
      SortKeeps(rows, Newest());
      var cutoff := Sort(rows, Newest())[cap - 1];
      KeptMembers(rows, From(cutoff), r);
    }
  }

  lemma CappedDrops(rows: seq<Row>, cap: int, r: Row, d: Row)
    requires r in Capped(rows, cap) && d in rows && d !in Capped(rows, cap)
    ensures Before(d, r)
  {
    hide Before, Sort, Kept;
    if 0 < cap <= |rows| {
      SortKeeps(rows, Newest());
      var cutoff := Sort(rows, Newest())[cap - 1];
      KeptMembers(rows, From(cutoff), r);
      KeptMembers(rows, From(cutoff), d);
      Compare(d, r);
      if !Before(d, r) { NotBeforeTransitive(d, r, cutoff); }
    }
  }

  /** Where a row is stored does not matter: any rearrangement of the table keeps the same rows. */
  lemma StorageOrderIrrelevant(rows: seq<Row>, stored: seq<Row>, cap: int)
    requires multiset(rows) == multiset(stored)
    ensures multiset(Capped(rows, cap)) == multiset(Capped(stored, cap))
  {
    hide Before, Sort, Kept;
    NewestOrders();
    assert |multiset(rows)| == |rows| && |multiset(stored)| == |stored|;
    SortPermutation(rows, stored, Newest());
    if 0 < cap <= |rows| {
      SortKeeps(rows, Newest());
      var cutoff := Sort(rows, Newest())[cap - 1];
      forall r ensures multiset(Capped(rows, cap))[r] == multiset(Capped(stored, cap))[r] {
        KeptMembers(rows, From(cutoff), r);
        KeptMembers(stored, From(cutoff), r);
      }
    }
  }

  /** Pruning again at the same moment removes nothing. */
  lemma PruneOnceIsEnough(rows: seq<Row>, limit: real, cap: int)
    requires Keyed(rows)
    ensures multiset(Pruned(Pruned(rows, limit, cap), limit, cap)) == multiset(Pruned(rows, limit, cap))
  {
    hide Before, Sort, Kept;
    var once := Pruned(rows, limit, cap);
    PruneKeeps(rows, limit, cap);
    AgedAll(once, limit);
    if cap > 0 {
      KeptKeyed(rows, Recent(limit));
      CappedKeyed(Aged(rows, limit), cap);
      CapKeepsNewest(once, cap);
      var sorted := Sort(once, Newest());
      SortKeeps(once, Newest());
      assert sorted[..|once|] == sorted;
    }
  }

  lemma {:induction false} AgedAll(rows: seq<Row>, limit: real)
    requires forall r | r in rows :: r.asOf >= limit
    ensures Aged(rows, limit) == rows
  {
    if rows != [] {
      assert rows[|rows| - 1] in rows;
      AgedAll(rows[..|rows| - 1], limit);
      assert rows == rows[..|rows| - 1] + [rows[|rows| - 1]];
    }
  }

  lemma {:induction false} KeptKeyed(rows: seq<Row>, keep: Row -> bool)
    requires Keyed(rows)
    ensures Keyed(Kept(rows, keep))
  {
    if rows != [] {
      var before, last := rows[..|rows| - 1], rows[|rows| - 1];
      KeptKeyed(before, keep);
      forall r | r in Kept(before, keep)
        ensures !(r.decisionHash == last.decisionHash && r.market == last.market && r.outcome == last.outcome)
      {
        KeptMembers(before, keep, r);
      }
    }
  }

  lemma CappedKeyed(rows: seq<Row>, cap: int)
    requires Keyed(rows)
    ensures Keyed(Capped(rows, cap))
  {
    if 0 < cap <= |rows| {
      SortKeeps(rows, Newest());
      var cutoff := Sort(rows, Newest())[cap - 1];
      KeptKeyed(rows, From(cutoff));
    }
  }
}
