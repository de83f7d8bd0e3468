/**
 Runs of the settlement steps that end where nobody wants to be, with one stream. None of them needs
 a healing, a crash or an answer that the chain withholds.
 */
module SettlementRuns {
  import opened Outcomes
  import opened Settlement
  import opened SettlementSafety

  /** A row that claims `amount` of the one stream. */
  function Claims(nonce: int, id: int, amount: nat, status: Status, retryCount: nat): Row {
    Row(nonce, "", [id], [amount], status, retryCount)
  }

  function Begins(nonce: int, id: int, amount: nat): Event {
    Begin("", nonce, [id], [amount], true)
  }

  /** A settlement of the one stream, of row `row`, at some stage. */
  function Settling(row: nat, id: int, amount: nat, stage: Stage): Task {
    Task(row, [id], [amount], stage)
  }

  function OneStream(id: int, deposit: nat, withdrawn: nat): map<int, Account> {
    map[id := Account(deposit, withdrawn)]
  }

  lemma OneStreamPays(id: int, deposit: nat, withdrawn: nat, amount: nat)
    requires amount > 0
    ensures WithdrawAll(OneStream(id, deposit, withdrawn), [id], [amount], 1) ==
              if withdrawn + amount <= deposit then Some(OneStream(id, deposit, withdrawn + amount)) else None
  {
    var accounts := OneStream(id, deposit, withdrawn);
    assert WithdrawAll(accounts, [id], [amount], 0) == Some(accounts);
    assert accounts[id := Account(deposit, withdrawn + amount)] == OneStream(id, deposit, withdrawn + amount);
  }

  lemma RunFour(s: State, e: Event, f: Event, g: Event, h: Event)
    ensures Run(s, [e, f, g, h]) == Next(Next(Next(Next(s, e), f), g), h)
  {
    RunTwo(s, e, f);
    RunTwo(Next(Next(s, e), f), g, h);
    RunInParts(s, [e, f], [g, h]);
    assert [e, f] + [g, h] == [e, f, g, h];
  }

  lemma Joined(s: State, first: seq<Event>, m: State, second: seq<Event>, all: seq<Event>)
    requires m == Run(s, first) && all == first + second
    ensures Run(s, all) == Run(m, second)
  {
    RunInParts(s, first, second);
  }

  // ----- a recovery beside a settlement in flight

  /** Tasks `t` and `u` settle one row, of status `status`. */
  ghost predicate BothSettle(
    s: State, t: nat, u: nat, id: int, amount: nat, deposit: nat, status: Status, stage: Stage)
  {
    && t != u && s.rows == [Claims(0, id, amount, status, 0)] && s.accounts == OneStream(id, deposit, 0) &&
         s.payments == []
    && s.tasks == map[t := Settling(0, id, amount, stage), u := Settling(0, id, amount, stage)]
  }

  /** One settlement has begun, and nothing else has happened. */
  ghost predicate OneBegun(s: State, t: nat, id: int, amount: nat, deposit: nat) {
    && s.rows == [Claims(0, id, amount, Pending, 0)] && s.tasks == map[t := Settling(0, id, amount, Submitting)]
    && t < s.nextTask && s.accounts == OneStream(id, deposit, 0) && s.payments == [] && s.submissions == []
  }

  /** The row is found PENDING, and replayed beside the settlement still at work on it. */
  lemma RecoveredBeside(s: State, t: nat, id: int, amount: nat, deposit: nat)
    requires OneBegun(s, t, id, amount, deposit)
    ensures var r := Next(Next(s, Recover), Replay);
            BothSettle(r, t, s.nextTask, id, amount, deposit, Pending, Submitting) && r.submissions == []
  {
    assert s.rows[..0] == [] && PendingIds(s.rows) == [0];
  }

  lemma BothSubmit(s: State, t: nat, u: nat, id: int, amount: nat, deposit: nat)
    requires BothSettle(s, t, u, id, amount, deposit, Pending, Submitting) && s.submissions == []
    ensures var r := Next(Next(s, Submit(t, true)), Submit(u, true));
            && BothSettle(r, t, u, id, amount, deposit, Pending, Confirming)
            && r.submissions == [Submission(0, Pending), Submission(0, Pending)]
  {
    var once := Next(s, Submit(t, true));
    assert once.tasks == map[t := Settling(0, id, amount, Confirming), u := Settling(0, id, amount, Submitting)];
  }

  lemma BothConfirm(s: State, t: nat, u: nat, id: int, amount: nat, deposit: nat)
    requires BothSettle(s, t, u, id, amount, deposit, Pending, Confirming)
    ensures var r := Next(Next(s, Confirm(t, true)), Confirm(u, true));
            BothSettle(r, t, u, id, amount, deposit, Confirmed, Withdrawing) && r.submissions == s.submissions
  {
    var once := Next(s, Confirm(t, true));
    assert once.tasks == map[t := Settling(0, id, amount, Withdrawing), u := Settling(0, id, amount, Confirming)];
  }

  lemma BothWithdraw(s: State, t: nat, u: nat, id: int, amount: nat, deposit: nat)
    requires BothSettle(s, t, u, id, amount, deposit, Confirmed, Withdrawing) && 0 < 2 * amount <= deposit
    ensures var r := Next(Next(s, Withdraw(t, true)), Withdraw(u, true));
            && r.payments == [Payment(0, [id], [amount]), Payment(0, [id], [amount])]
            && r.accounts == OneStream(id, deposit, 2 * amount) && r.submissions == s.submissions
  {
    OneStreamPays(id, deposit, 0, amount);
    OneStreamPays(id, deposit, amount, amount);
    var once := Next(s, Withdraw(t, true));
    assert once.accounts == OneStream(id, deposit, amount) && u in once.tasks && once.tasks[u] == s.tasks[u];
  }

  function BothSettleRun(t: nat, u: nat): seq<Event> {
    [Submit(t, true), Submit(u, true), Confirm(t, true), Confirm(u, true)]
  }

  /** The settlement and its replay both submit before either is confirmed. */
  function Beside(t: nat, u: nat): seq<Event> {
    [Replay] + BothSettleRun(t, u) + [Withdraw(t, true), Withdraw(u, true)]
  }

  ghost predicate TwicePaid(r: State, id: int, amount: nat, deposit: nat) {
    && r.payments == [Payment(0, [id], [amount]), Payment(0, [id], [amount])]
    && r.accounts == OneStream(id, deposit, 2 * amount)
    && r.submissions == [Submission(0, Pending), Submission(0, Pending)]
  }

  lemma BesidePaysTwice(s: State, t: nat, id: int, amount: nat, deposit: nat, events: seq<Event>)
    requires OneBegun(s, t, id, amount, deposit) && 0 < 2 * amount <= deposit && events == Beside(t, s.nextTask)
    ensures TwicePaid(Run(Next(s, Recover), events), id, amount, deposit)
  {
    var u, recovered := s.nextTask, Next(s, Recover);
    var replayed := Next(recovered, Replay);
    RecoveredBeside(s, t, id, amount, deposit);
    RunOne(recovered, Replay);
    var settled := Settled(replayed, t, u, id, amount, deposit);
    Joined(recovered, [Replay], replayed, BothSettleRun(t, u), [Replay] + BothSettleRun(t, u));
    BothWithdraw(settled, t, u, id, amount, deposit);
    RunTwo(settled, Withdraw(t, true), Withdraw(u, true));
    Joined(recovered, [Replay] + BothSettleRun(t, u), settled, [Withdraw(t, true), Withdraw(u, true)], events);
  }

  lemma Settled(s: State, t: nat, u: nat, id: int, amount: nat, deposit: nat) returns (r: State)
    requires BothSettle(s, t, u, id, amount, deposit, Pending, Submitting) && s.submissions == []
    ensures r == Run(s, BothSettleRun(t, u)) && BothSettle(r, t, u, id, amount, deposit, Confirmed, Withdrawing)
    ensures r.submissions == [Submission(0, Pending), Submission(0, Pending)]
  {
    BothSubmit(s, t, u, id, amount, deposit);
    var submitted := Next(Next(s, Submit(t, true)), Submit(u, true));
    BothConfirm(submitted, t, u, id, amount, deposit);
    RunFour(s, Submit(t, true), Submit(u, true), Confirm(t, true), Confirm(u, true));
    r := Next(Next(submitted, Confirm(t, true)), Confirm(u, true));
  }

  /**
   A recovery that starts while a settlement is in flight pays it twice, although every nonce is
   submitted from a PENDING row.
   */
  lemma PaidTwice(s: State, t: nat, id: int, amount: nat, deposit: nat)
    requires OneBegun(s, t, id, amount, deposit) && 0 < 2 * amount <= deposit
    ensures var rest := Beside(t, s.nextTask);
            var r := Run(Next(s, Recover), rest);
            && AllAllowed(Next(s, Recover), rest) && SubmittedWhilePending(r) && !PaidOnce(r)
            && r.accounts == OneStream(id, deposit, 2 * amount)
  {
    var rest := Beside(t, s.nextTask);
    BesidePaysTwice(s, t, id, amount, deposit, rest);
    NothingNeeded(Next(s, Recover), rest);
    TwiceIsNotOnce(Run(Next(s, Recover), rest), id, amount, deposit);
  }

  lemma TwiceIsNotOnce(r: State, id: int, amount: nat, deposit: nat)
    requires TwicePaid(r, id, amount, deposit)
    ensures SubmittedWhilePending(r) && !PaidOnce(r)
  {
    assert r.payments[0].id == r.payments[1].id;
  }

  lemma NothingNeeded(s: State, events: seq<Event>)
    requires forall i :: 0 <= i < |events| ==> NeedsNothing(events[i])
    ensures AllAllowed(s, events)
  {
    forall n | 0 <= n < |events| ensures Allowed(Run(s, events[..n]), events[n]) { assert NeedsNothing(events[n]); }
  }

  /** Such a state is one step away from an empty ledger. */
  lemma OneBegunIsReached(id: int, amount: nat, deposit: nat)
    ensures OneBegun(Run(Opening(OneStream(id, deposit, 0)), [Begins(0, id, amount)]), 0, id, amount, deposit)
    ensures AllAllowed(Opening(OneStream(id, deposit, 0)), [Begins(0, id, amount)])
  {
    UnquietIsReached(OneStream(id, deposit, 0), "", 0, [id], [amount], true);
    RunOne(Opening(OneStream(id, deposit, 0)), Begins(0, id, amount));
  }

  // ----- two settlements of one stream

  /** Both were begun before either was paid, so both claim all of the deposit. */
  ghost predicate TwoBegun(s: State, t: nat, u: nat, id: int, deposit: nat) {
    && t != u && s.accounts == OneStream(id, deposit, 0) && s.payments == []
    && s.rows == [Claims(0, id, deposit, Pending, 0), Claims(1, id, deposit, Pending, 0)]
    && s.tasks == map[t := Settling(0, id, deposit, Submitting), u := Settling(1, id, deposit, Submitting)]
  }

  ghost predicate FirstPaid(s: State, u: nat, id: int, deposit: nat, status: Status, stage: Stage) {
    && s.accounts == OneStream(id, deposit, deposit) && s.payments == [Payment(0, [id], [deposit])]
    && s.rows == [Claims(0, id, deposit, Confirmed, 0), Claims(1, id, deposit, status, 0)]
    && s.tasks == map[u := Settling(1, id, deposit, stage)]
  }

  lemma FirstConfirms(s: State, t: nat, u: nat, id: int, deposit: nat)
    requires TwoBegun(s, t, u, id, deposit)
    ensures var r := Next(Next(s, Submit(t, true)), Confirm(t, true));
            && r.accounts == s.accounts && r.payments == []
            && r.rows == [Claims(0, id, deposit, Confirmed, 0), Claims(1, id, deposit, Pending, 0)]
            && r.tasks == map[t := Settling(0, id, deposit, Withdrawing), u := Settling(1, id, deposit, Submitting)]
  {
    var submitted := Next(s, Submit(t, true));
    assert submitted.tasks == map[t := Settling(0, id, deposit, Confirming), u := Settling(1, id, deposit, Submitting)];
  }

  lemma FirstIsPaid(s: State, t: nat, u: nat, id: int, deposit: nat)
    requires TwoBegun(s, t, u, id, deposit) && deposit > 0
    ensures FirstPaid(Next(Next(Next(s, Submit(t, true)), Confirm(t, true)), Withdraw(t, true)), u, id, deposit,
              Pending, Submitting)
  {
    FirstConfirms(s, t, u, id, deposit);
    OneStreamPays(id, deposit, 0, deposit);
  }

  lemma SecondConfirms(s: State, u: nat, id: int, deposit: nat)
    requires FirstPaid(s, u, id, deposit, Pending, Submitting)
    ensures FirstPaid(Next(Next(s, Submit(u, true)), Confirm(u, true)), u, id, deposit, Confirmed, Withdrawing)
  {
    assert Next(s, Submit(u, true)).tasks == map[u := Settling(1, id, deposit, Confirming)];
  }

  lemma SecondFails(s: State, u: nat, id: int, deposit: nat)
    requires FirstPaid(s, u, id, deposit, Confirmed, Withdrawing) && deposit > 0
    ensures var r := Next(Next(s, Withdraw(u, true)), Fail(u, true));
            && r.rows == [Claims(0, id, deposit, Confirmed, 0), Claims(1, id, deposit, Failed, 1)]
            && r.payments == s.payments && r.accounts == s.accounts
  {
    OneStreamPays(id, deposit, deposit, deposit);
    assert Next(s, Withdraw(u, true)).tasks == map[u := Settling(1, id, deposit, Failing)];
  }

  /** The first is settled, and the second is confirmed. */
  function BothConfirmed(t: nat, u: nat): seq<Event> {
    [Submit(t, true), Confirm(t, true), Withdraw(t, true)] + [Submit(u, true), Confirm(u, true)]
  }

  function SecondIsPaid(u: nat): seq<Event> {
    [Withdraw(u, true), Fail(u, true)]
  }

  lemma AfterBothConfirmed(s: State, t: nat, u: nat, id: int, deposit: nat, events: seq<Event>)
    requires TwoBegun(s, t, u, id, deposit) && deposit > 0 && events == BothConfirmed(t, u)
    ensures FirstPaid(Run(s, events), u, id, deposit, Confirmed, Withdrawing)
  {
    FirstIsPaid(s, t, u, id, deposit);
    RunThree(s, Submit(t, true), Confirm(t, true), Withdraw(t, true));
    var paid := Next(Next(Next(s, Submit(t, true)), Confirm(t, true)), Withdraw(t, true));
    SecondConfirms(paid, u, id, deposit);
    RunTwo(paid, Submit(u, true), Confirm(u, true));
    Joined(s, [Submit(t, true), Confirm(t, true), Withdraw(t, true)], paid, [Submit(u, true), Confirm(u, true)],
      events);
  }

  lemma AfterSecondFails(s: State, u: nat, id: int, deposit: nat, events: seq<Event>)
    requires FirstPaid(s, u, id, deposit, Confirmed, Withdrawing) && deposit > 0 && events == SecondIsPaid(u)
    ensures var r := Run(s, events);
            && r.rows == [Claims(0, id, deposit, Confirmed, 0), Claims(1, id, deposit, Failed, 1)]
            && r.payments == s.payments
  {
    SecondFails(s, u, id, deposit);
    RunTwo(s, Withdraw(u, true), Fail(u, true));
  }

  /**
   Two settlements of one stream overlap: whatever its deposit, the second, confirmed on the chain,
   ends up FAILED and is not paid.
   */
  lemma ConfirmedFails(s: State, t: nat, u: nat, id: int, deposit: nat)
    requires TwoBegun(s, t, u, id, deposit) && deposit > 0
    ensures var confirmed := Run(s, BothConfirmed(t, u));
            var r := Run(confirmed, SecondIsPaid(u));
            && AllAllowed(s, BothConfirmed(t, u) + SecondIsPaid(u)) &&
                 r == Run(s, BothConfirmed(t, u) + SecondIsPaid(u))
            && confirmed.rows == [Claims(0, id, deposit, Confirmed, 0), Claims(1, id, deposit, Confirmed, 0)]
            && r.rows == [Claims(0, id, deposit, Confirmed, 0), Claims(1, id, deposit, Failed, 1)]
            && r.payments == [Payment(0, [id], [deposit])]
  {
    var confirmed := Run(s, BothConfirmed(t, u));
    AfterBothConfirmed(s, t, u, id, deposit, BothConfirmed(t, u));
    AfterSecondFails(confirmed, u, id, deposit, SecondIsPaid(u));
    Joined(s, BothConfirmed(t, u), confirmed, SecondIsPaid(u), BothConfirmed(t, u) + SecondIsPaid(u));
    NothingNeeded(s, BothConfirmed(t, u) + SecondIsPaid(u));
  }

  /** Two settlements, each with a nonce of its own, lead there from an empty ledger. */
  lemma TwoBegunIsReached(id: int, deposit: nat)
    ensures var start, events := Opening(OneStream(id, deposit, 0)), [Begins(0, id, deposit), Begins(1, id, deposit)];
            TwoBegun(Run(start, events), 0, 1, id, deposit) && AllAllowed(start, events)
  {
    var start, e, f := Opening(OneStream(id, deposit, 0)), Begins(0, id, deposit), Begins(1, id, deposit);
    OneBegunIsReached(id, deposit, deposit);
    RunOne(start, e);
    RunTwo(start, e, f);
    OnePendingCachesNothing(Next(start, e).rows, 1);
    forall n | 0 <= n < 2 ensures Allowed(Run(start, [e, f][..n]), [e, f][n]) {
      if n == 0 { assert [e, f][..0] == []; } else { assert [e, f][..1] == [e]; }
    }
  }

  lemma OnePendingCachesNothing(rows: seq<Row>, nonce: int)
    requires |rows| == 1 && rows[0].status == Pending
    ensures Cached(rows, nonce, "") == None
  {
    assert rows[..0] == [];
  }
}
