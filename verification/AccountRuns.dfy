/** Every run of the account operations (app/accounts.py) from empty tables. */
module AccountRuns {
  import opened Accounts
  import opened Options
  import opened Placement

  function NewAccount(t: Strategy, custom: bool): Account {
    Account(t.name, t, t.startBankroll, t.startBankroll, t.cashOutEnabled, custom, true)
  }

  /** Inserts a preset, or refreshes the strategy of the account that has its name. */
  function SeedOne(k: Book, t: Strategy): Book {
    var a := FindAccount(k.accounts, t.name);
    if a.None? then Book(k.accounts + [NewAccount(t, false)], k.bets)
    else Book(k.accounts[a.value := k.accounts[a.value].(strategy := t, active := true)], k.bets)
  }

  function Seed(k: Book, ts: seq<Strategy>): Book {
    if ts == [] then k else SeedOne(Seed(k, ts[..|ts| - 1]), ts[|ts| - 1])
  }

  function Create(k: Book, t: Strategy): Book {
    if FindAccount(k.accounts, t.name).Some? then k else Book(k.accounts + [NewAccount(t, true)], k.bets)
  }

  datatype Op =
    | SeedOp(strategies: seq<Strategy>)
    | CreateOp(strategy: Strategy)
    | PlaceOp(request: Request, overrides: seq<Overrides>)
    | CashOutOp(prices: Prices)
    | SettleOp(final: Final)
    | VoidOp(event: string)

  function Step(k: Book, op: Op): Book {
    match op
    case SeedOp(ts) => Seed(k, ts)
    case CreateOp(t) => Create(k, t)
    case PlaceOp(r, o) => if |o| == |k.accounts| then Place(k, r, o) else k
    case CashOutOp(p) => MarkAndCashOut(k, p)
    case SettleOp(f) => CloseBets(k, SettleClosings(f, k.bets))
    case VoidOp(e) => CloseBets(k, VoidClosings(e, k.bets))
  }

  function Run(ops: seq<Op>, n: nat): Book
    requires n <= |ops|
  {
    if n == 0 then Book([], []) else Step(Run(ops, n - 1), ops[n - 1])
  }

  lemma {:induction false} NoBets(k: Book, name: string, n: nat)
    requires WellFormed(k) && !HasAccount(k.accounts, name) && n <= |k.bets|
    ensures ExposureTo(k.bets, name, Total, n) == 0.0 && RealizedTo(k.bets, name, n) == 0.0
  {
    if n > 0 {
      NoBets(k, name, n - 1);
      assert HasAccount(k.accounts, k.bets[n - 1].account);
    }
  }

  lemma AppendAccount(k: Book, t: Strategy, custom: bool)
    requires WellFormed(k) && Conserved(k) && FindAccount(k.accounts, t.name).None?
    ensures var after := Book(k.accounts + [NewAccount(t, custom)], k.bets);
      WellFormed(after) && Conserved(after) && Evolves(k, after)
  {
    hide FindAccount, Exposure, Realized;
    var after := Book(k.accounts + [NewAccount(t, custom)], k.bets);
    NoBets(k, t.name, |k.bets|);
    SumsWhole(k.bets, t.name);
    forall i | 0 <= i < |k.bets| ensures HasAccount(after.accounts, k.bets[i].account) {
      assert HasAccount(k.accounts, k.bets[i].account);
      var a :| 0 <= a < |k.accounts| && k.accounts[a].name == k.bets[i].account;
      assert after.accounts[a].name == k.bets[i].account;
    }
  }

  lemma SumsWhole(bets: seq<Bet>, name: string)
    ensures Exposure(bets, name, Total) == ExposureTo(bets, name, Total, |bets|)
    ensures Realized(bets, name) == RealizedTo(bets, name, |bets|)
  {
  }

  lemma SeedOneKeeps(k: Book, t: Strategy)
    requires WellFormed(k) && Conserved(k)
    ensures WellFormed(SeedOne(k, t)) && Conserved(SeedOne(k, t)) && Evolves(k, SeedOne(k, t))
  {
    hide FindAccount, Exposure, Realized;
    var a := FindAccount(k.accounts, t.name);
    if a.None? {
      AppendAccount(k, t, false);
    } else {
      var after := SeedOne(k, t);
      forall i | 0 <= i < |k.bets| ensures HasAccount(after.accounts, k.bets[i].account) {
        assert HasAccount(k.accounts, k.bets[i].account);
        var c :| 0 <= c < |k.accounts| && k.accounts[c].name == k.bets[i].account;
        assert after.accounts[c].name == k.accounts[c].name;
      }
    }
  }

  lemma {:induction false} SeedKeeps(k: Book, ts: seq<Strategy>)
    requires WellFormed(k) && Conserved(k)
    ensures WellFormed(Seed(k, ts)) && Conserved(Seed(k, ts)) && Evolves(k, Seed(k, ts))
  {
    hide WellFormed, Conserved, Evolves, SeedOne;
    if ts == [] {
      EvolvesSelf(k);
    } else {
      var mid := Seed(k, ts[..|ts| - 1]);
      SeedKeeps(k, ts[..|ts| - 1]);
      SeedOneKeeps(mid, ts[|ts| - 1]);
      EvolvesTrans(k, mid, Seed(k, ts));
    }
  }

  lemma SettleClosable(k: Book, f: Final)
    ensures Closable(k, SettleClosings(f, k.bets))
  {
    hide Verdict;
    forall i | 0 <= i < |k.bets| ensures !Verdict(f, k.bets[i]).Open? { VerdictCloses(f, k.bets[i]); }
  }

  /** Every operation keeps the tables well formed and the money conserved. */
  lemma StepKeeps(k: Book, op: Op)
    requires WellFormed(k) && Conserved(k)
    ensures WellFormed(Step(k, op)) && Conserved(Step(k, op)) && Evolves(k, Step(k, op))
  {
    hide WellFormed, Conserved, Evolves, Place, MarkAndCashOut, CloseBets, Seed, FindAccount, Closable;
    match op
    case SeedOp(ts) => SeedKeeps(k, ts);
    case CreateOp(t) =>
      if FindAccount(k.accounts, t.name).None? { AppendAccount(k, t, true); } else { EvolvesSelf(k); }
    case PlaceOp(r, o) =>
      if |o| == |k.accounts| { PlaceKeeps(k, r, o); } else { EvolvesSelf(k); }
    case CashOutOp(p) => CashOutKeeps(k, p);
    case SettleOp(f) =>
      SettleClosable(k, f);
      CloseKeeps(k, SettleClosings(f, k.bets));
    case VoidOp(e) =>
      VoidClosable(k, e);
      CloseKeeps(k, VoidClosings(e, k.bets));
  }

  lemma VoidClosable(k: Book, e: string)
    ensures Closable(k, VoidClosings(e, k.bets))
  {
  }

  /** Main result: in every run, at every moment, each account's money is accounted for. */
  lemma {:induction false} RunConserves(ops: seq<Op>, n: nat)
    requires n <= |ops|
    ensures WellFormed(Run(ops, n)) && Conserved(Run(ops, n))
  {
    hide Step;
    if n > 0 {
      RunConserves(ops, n - 1);
      StepKeeps(Run(ops, n - 1), ops[n - 1]);
    }
  }

  /** Between any two moments of a run rows survive, and a bet once closed never changes again. */
  lemma {:induction false} RunEvolves(ops: seq<Op>, m: nat, n: nat)
    requires m <= n <= |ops|
    ensures Evolves(Run(ops, m), Run(ops, n))
    decreases n
  {
    hide Step, Evolves, WellFormed, Conserved;
    if m == n {
      EvolvesSelf(Run(ops, m));
    } else {
      RunEvolves(ops, m, n - 1);
      RunConserves(ops, n - 1);
      StepKeeps(Run(ops, n - 1), ops[n - 1]);
      EvolvesTrans(Run(ops, m), Run(ops, n - 1), Run(ops, n));
    }
  }

  /** Settling or voiding an event leaves none of its bets open and touches no other event. */
  lemma EventClosed(k: Book, op: Op, event: string)
    requires (op.SettleOp? && op.final.event == event) || (op.VoidOp? && op.event == event)
    ensures var after := Step(k, op);
      && |after.bets| == |k.bets|
      && forall i | 0 <= i < |k.bets| ::
           && (k.bets[i].event == event ==> !after.bets[i].status.Open?)
           && (k.bets[i].event != event ==> after.bets[i] == k.bets[i])
  {
    hide Verdict, Payout;
    if op.SettleOp? {
      forall i | 0 <= i < |k.bets| ensures !Verdict(op.final, k.bets[i]).Open? { VerdictCloses(op.final, k.bets[i]); }
    }
  }
}
