/** What every run of settlements, crashes, recoveries and healings keeps. */
module SettlementSafety {
  import opened Outcomes
  import opened Settlement

  // ----- properties of every run whatsoever

  ghost predicate Funded(accounts: map<int, Account>) {
    forall id :: id in accounts ==> accounts[id].withdrawn <= accounts[id].deposit
  }

  predicate RetriesInBounds(row: Row) {
    row.status == Failed ==> row.retryCount < MAX_RETRIES
  }

  ghost predicate RowsInBounds(rows: seq<Row>) {
    forall i :: 0 <= i < |rows| ==> RetriesInBounds(rows[i])
  }

  function PaidBy(p: Payment, streamId: int): nat {
    Taken(p.streamIds, p.amounts, |p.streamIds|, streamId)
  }

  /** All that settlements took from one stream. */
  function Paid(payments: seq<Payment>, streamId: int): nat {
    if payments == [] then 0
      else Paid(payments[..|payments| - 1], streamId) + PaidBy(payments[|payments| - 1], streamId)
  }

  /** All that healing added to one stream. */
  function Healed(healings: seq<Healing>, streamId: int): int {
    if healings == [] then 0 else
      Healed(healings[..|healings| - 1], streamId) +
      if healings[|healings| - 1].streamId == streamId then healings[|healings| - 1].amount else 0
  }

  lemma PaidGrows(payments: seq<Payment>, p: Payment, streamId: int)
    ensures Paid(payments + [p], streamId) == Paid(payments, streamId) + PaidBy(p, streamId)
  {
    assert (payments + [p])[..|payments|] == payments;
  }

  lemma HealedGrows(healings: seq<Healing>, h: Healing, streamId: int)
    ensures Healed(healings + [h], streamId) ==
              Healed(healings, streamId) + if h.streamId == streamId then h.amount else 0
  {
    assert (healings + [h])[..|healings|] == healings;
  }

  /** What is withdrawn beyond what the logs explain. */
  function Unexplained(s: State, id: int): int
    requires id in s.accounts
  {
    s.accounts[id].withdrawn - Paid(s.payments, id) - Healed(s.healings, id)
  }

  ghost predicate Conserves(s: State, r: State) {
    && Funded(r.accounts) && r.accounts.Keys == s.accounts.Keys
    && forall id ::
         id in s.accounts ==>
         r.accounts[id].deposit == s.accounts[id].deposit && Unexplained(r, id) == Unexplained(s, id)
  }

  lemma WithdrawConserves(s: State, t: nat, stored: bool)
    requires Funded(s.accounts) && t in s.tasks
    ensures Conserves(s, WithdrawStep(s, t, stored))
  {
    var task := s.tasks[t];
    WithdrawsExactly(s.accounts, task.streamIds, task.amounts, |task.streamIds|);
    forall id ensures Paid(s.payments + [Payment(task.id, task.streamIds, task.amounts)], id)
                      == Paid(s.payments, id) + Taken(task.streamIds, task.amounts, |task.streamIds|, id) {
      PaidGrows(s.payments, Payment(task.id, task.streamIds, task.amounts), id);
    }
  }

  lemma HealConserves(s: State, streamId: int, amount: int)
    requires Funded(s.accounts)
    ensures Conserves(s, Next(s, Heal(streamId, amount)))
  {
    forall id
      ensures Healed(s.healings + [Healing(streamId, amount)], id) ==
                Healed(s.healings, id) + if streamId == id then amount else 0
    {
      HealedGrows(s.healings, Healing(streamId, amount), id);
    }
  }

  lemma NextConserves(s: State, event: Event)
    requires Funded(s.accounts)
    ensures Conserves(s, Next(s, event))
  {
    match event
    case Withdraw(t, stored) => if t in s.tasks && s.tasks[t].stage == Withdrawing { WithdrawConserves(s, t, stored); }
    case Heal(streamId, amount) => HealConserves(s, streamId, amount);
    case _ =>
  }

  /**
   Conservation: what is withdrawn is what was withdrawn before, plus each payment, plus each
   healing, and never exceeds the deposit.
   */
  lemma {:induction false} RunConserves(s: State, events: seq<Event>, id: int)
    requires Funded(s.accounts) && s.payments == [] && s.healings == [] && id in s.accounts
    ensures var t := Run(s, events);
            && Funded(t.accounts) && t.accounts.Keys == s.accounts.Keys &&
                 t.accounts[id].deposit == s.accounts[id].deposit
            && t.accounts[id].withdrawn == s.accounts[id].withdrawn + Paid(t.payments, id) + Healed(t.healings, id) <=
                 s.accounts[id].deposit
  {
    if events != [] {
      RunConserves(s, events[..|events| - 1], id);
      var before := Run(s, events[..|events| - 1]);
      NextConserves(before, events[|events| - 1]);
      assert Unexplained(before, id) == s.accounts[id].withdrawn;
    }
  }

  /** A row never returns to PENDING, and its nonce, streams and amounts never change. */
  ghost predicate Follows(before: Row, after: Row) {
    && (after.status == Pending ==> before.status == Pending)
    && after == before.(status := after.status, retryCount := after.retryCount)
  }

  /** A row is kept, and stays within the bounds on its retries. */
  ghost predicate KeepsRow(s: State, r: State, i: nat) {
    i < |s.rows| ==>
      i < |r.rows| && Follows(s.rows[i], r.rows[i]) && (RetriesInBounds(s.rows[i]) ==> RetriesInBounds(r.rows[i]))
  }

  lemma NextKeepsRow(s: State, event: Event, i: nat)
    ensures KeepsRow(s, Next(s, event), i)
  {
  }

  lemma NextFollows(s: State, event: Event)
    ensures |s.rows| <= |Next(s, event).rows|
    ensures forall i :: 0 <= i < |s.rows| ==> Follows(s.rows[i], Next(s, event).rows[i])
    ensures RowsInBounds(s.rows) ==> RowsInBounds(Next(s, event).rows)
  {
    forall i: nat | i < |s.rows| ensures KeepsRow(s, Next(s, event), i) { NextKeepsRow(s, event, i); }
    assert |s.rows| <= |Next(s, event).rows|;
    forall i: nat | i < |Next(s, event).rows| && RowsInBounds(s.rows) ensures RetriesInBounds(Next(s, event).rows[i]) {
      if i < |s.rows| { assert KeepsRow(s, Next(s, event), i) && RetriesInBounds(s.rows[i]); }
    }
  }

  lemma {:induction false} NeverPendingAgain(s: State, events: seq<Event>, n: nat, i: nat)
    requires n <= |events| && i < |Run(s, events[..n]).rows|
    ensures i < |Run(s, events).rows| && Follows(Run(s, events[..n]).rows[i], Run(s, events).rows[i])
    decreases |events|
  {
    if n == |events| {
      assert events[..n] == events;
    } else {
      var before := events[..|events| - 1];
      assert before[..n] == events[..n];
      NeverPendingAgain(s, before, n, i);
      NextFollows(Run(s, before), events[|events| - 1]);
    }
  }

  /** A FAILED row has failed less than three times, in every run. */
  lemma {:induction false} FailedMeansRetriesLeft(s: State, events: seq<Event>)
    requires RowsInBounds(s.rows)
    ensures RowsInBounds(Run(s, events).rows)
  {
    if events != [] {
      FailedMeansRetriesLeft(s, events[..|events| - 1]);
      NextFollows(Run(s, events[..|events| - 1]), events[|events| - 1]);
    }
  }

  // ----- properties that need fresh nonces and quiet recoveries

  /** No settlement in memory still has its row PENDING. */
  ghost predicate Quiet(s: State) {
    forall t :: t in s.tasks ==> s.tasks[t].id < |s.rows| && s.rows[s.tasks[t].id].status != Pending
  }

  /** A recovery starts quiet, and a new nonce is not that of a confirmed settlement of the recipient. */
  ghost predicate Allowed(s: State, event: Event) {
    && (event.Recover? ==> Quiet(s))
    && (event.Begin? ==> Cached(s.rows, event.nonce, event.recipient).None?)
  }

  ghost predicate AllAllowed(s: State, events: seq<Event>) {
    forall n :: 0 <= n < |events| ==> Allowed(Run(s, events[..n]), events[n])
  }

  ghost predicate SubmittedWhilePending(s: State) {
    forall i :: 0 <= i < |s.submissions| ==> s.submissions[i].status == Pending
  }

  ghost predicate PaidOnce(s: State) {
    forall i, j :: 0 <= i < j < |s.payments| ==> s.payments[i].id != s.payments[j].id
  }

  /** A payment is the one its row announced, and the row is past PENDING. */
  predicate Announced(rows: seq<Row>, p: Payment) {
    p.id < |rows| && rows[p.id].status != Pending && p.streamIds == rows[p.id].streamIds &&
      p.amounts == rows[p.id].amounts
  }

  ghost predicate TaskStands(s: State, t: nat)
    requires t in s.tasks
  {
    var task := s.tasks[t];
    && t < s.nextTask && task.id < |s.rows| && task.streamIds == s.rows[task.id].streamIds &&
         task.amounts == s.rows[task.id].amounts
    && (task.stage == Submitting || task.stage == Confirming ==> s.rows[task.id].status == Pending)
    && (task.stage == Withdrawing ==> s.rows[task.id].status != Pending && Unpaid(s.payments, task.id))
    && task.id !in s.queue
  }

  ghost predicate Unpaid(payments: seq<Payment>, id: nat) {
    forall i :: 0 <= i < |payments| ==> payments[i].id != id
  }

  ghost predicate OneTaskARow(tasks: map<nat, Task>) {
    forall t, u :: t in tasks && u in tasks && t != u ==> tasks[t].id != tasks[u].id
  }

  ghost predicate QueueStands(s: State) {
    && (forall i :: 0 <= i < |s.queue| ==> s.queue[i] < |s.rows| && s.rows[s.queue[i]].status == Pending)
    && (forall i, j :: 0 <= i < j < |s.queue| ==> s.queue[i] != s.queue[j])
  }

  ghost predicate Good(s: State) {
    && (forall t :: t in s.tasks ==> TaskStands(s, t)) && OneTaskARow(s.tasks) && QueueStands(s)
    && SubmittedWhilePending(s) && PaidOnce(s)
    && (forall i :: 0 <= i < |s.payments| ==> Announced(s.rows, s.payments[i]))
  }

  lemma {:induction false} PendingIdIs(rows: seq<Row>, id: nat)
    ensures id in PendingIds(rows) <==> id < |rows| && rows[id].status == Pending
  {
    if rows != [] { PendingIdIs(rows[..|rows| - 1], id); }
  }

  lemma {:induction false} PendingIdsAscend(rows: seq<Row>)
    ensures forall i, j :: 0 <= i < j < |PendingIds(rows)| ==> PendingIds(rows)[i] < PendingIds(rows)[j]
  {
    if rows != [] {
      var before := PendingIds(rows[..|rows| - 1]);
      PendingIdsAscend(rows[..|rows| - 1]);
      forall i | 0 <= i < |before| ensures before[i] < |rows| - 1 { PendingIdIs(rows[..|rows| - 1], before[i]); }
    }
  }

  lemma BeginKeepsGood(s: State, event: Event)
    requires Good(s) && event.Begin? && Allowed(s, event)
    ensures Good(Next(s, event))
  {
  }

  lemma SubmitKeepsGood(s: State, event: Event)
    requires Good(s) && event.Submit?
    ensures Good(Next(s, event))
  {
    if event.task in s.tasks { assert TaskStands(s, event.task); }
  }

  lemma ConfirmKeepsGood(s: State, event: Event)
    requires Good(s) && event.Confirm?
    ensures Good(Next(s, event))
  {
    if event.task in s.tasks { assert TaskStands(s, event.task); }
  }

  lemma WithdrawKeepsGood(s: State, event: Event)
    requires Good(s) && event.Withdraw?
    ensures Good(Next(s, event))
  {
    if event.task in s.tasks { assert TaskStands(s, event.task); }
  }

  lemma FailKeepsGood(s: State, event: Event)
    requires Good(s) && event.Fail?
    ensures Good(Next(s, event))
  {
    if event.task in s.tasks { assert TaskStands(s, event.task); }
  }

  lemma RecoverKeepsGood(s: State, event: Event)
    requires Good(s) && event.Recover? && Allowed(s, event)
    ensures Good(Next(s, event))
  {
    var queue, r := PendingIds(s.rows), Next(s, event);
    PendingIdsAscend(s.rows);
    forall i | 0 <= i < |queue|
      ensures queue[i] < |s.rows| && s.rows[queue[i]].status == Pending
    {
      PendingIdIs(s.rows, queue[i]);
    }
    forall t | t in s.tasks ensures TaskStands(r, t) {
      assert TaskStands(s, t);
      PendingIdIs(s.rows, s.tasks[t].id);
    }
  }

  lemma ReplayKeepsGood(s: State, event: Event)
    requires Good(s) && event.Replay?
    ensures Good(Next(s, event))
  {
  }

  lemma NextKeepsGood(s: State, event: Event)
    requires Good(s) && Allowed(s, event)
    ensures Good(Next(s, event))
  {
    match event
    case Begin(_, _, _, _, _) => BeginKeepsGood(s, event);
    case Submit(_, _) => SubmitKeepsGood(s, event);
    case Confirm(_, _) => ConfirmKeepsGood(s, event);
    case Withdraw(_, _) => WithdrawKeepsGood(s, event);
    case Fail(_, _) => FailKeepsGood(s, event);
    case Crash =>
    case Recover => RecoverKeepsGood(s, event);
    case Replay => ReplayKeepsGood(s, event);
    case Heal(_, _) =>
    case Retry(_) =>
  }

  /**
   With fresh nonces and quiet recoveries: nonces are submitted from PENDING rows only, and each
   settlement is paid at most once, as announced.
   */
  lemma {:induction false} RunPaysOnce(s: State, events: seq<Event>)
    requires Good(s) && AllAllowed(s, events)
    ensures Good(Run(s, events))
  {
    if events != [] {
      var before := events[..|events| - 1];
      forall n | 0 <= n < |before| ensures Allowed(Run(s, before[..n]), before[n]) {
        assert before[..n] == events[..n] && before[n] == events[n];
      }
      RunPaysOnce(s, before);
      assert Allowed(Run(s, events[..|before|]), events[|before|]);
      NextKeepsGood(Run(s, before), events[|events| - 1]);
    }
  }

  // ----- and only then

  lemma {:induction false} RunInParts(s: State, first: seq<Event>, second: seq<Event>)
    ensures Run(s, first + second) == Run(Run(s, first), second)
  {
    if second == [] {
      assert first + second == first;
    } else {
      RunInParts(s, first, second[..|second| - 1]);
      assert (first + second)[..|first + second| - 1] == first + second[..|second| - 1];
    }
  }

  /** What `Recover` leaves behind. */
  ghost predicate Recovering(s: State) {
    && (forall i :: 0 <= i < |s.queue| ==> s.queue[i] < |s.rows|)
    && (forall t :: t in s.tasks ==> t < s.nextTask)
  }

  lemma RunThree(s: State, e: Event, f: Event, g: Event)
    ensures Run(s, [e, f, g]) == Next(Next(Next(s, e), f), g)
  {
    assert [e, f, g][..2] == [e, f];
    RunTwo(s, e, f);
  }

  /** A replay starts the settlement of the next row in the queue, and leaves the others alone. */
  lemma ReplayStarts(s: State)
    requires Recovering(s) && s.queue != []
    ensures var r, u := Next(s, Replay), s.nextTask;
            && r.rows == s.rows && r.queue == s.queue[1..] && r.nextTask == u + 1
            && u !in s.tasks && u in r.tasks && r.tasks - {u} == s.tasks
            && r.tasks[u].id == s.queue[0] && r.tasks[u].stage == Submitting
            && forall t :: t in s.tasks ==> t in r.tasks && r.tasks[t] == s.tasks[t]
  {
  }

  /** A replay that the chain does not answer. */
  function OneUnanswered(t: nat): seq<Event> {
    [Replay, Submit(t, false), Fail(t, true)]
  }

  /** One settlement of the queue is concluded; the rest of it and all other tasks are as they were. */
  lemma UnansweredIsConcluded(s: State) returns (r: State)
    requires Recovering(s) && s.queue != []
    ensures r == Run(s, OneUnanswered(s.nextTask))
    ensures Recovering(r) && |r.rows| == |s.rows| && r.queue == s.queue[1..] && r.tasks == s.tasks &&
              r.nextTask == s.nextTask + 1
  {
    var u, replayed := s.nextTask, Next(s, Replay);
    ReplayStarts(s);
    RunThree(s, Replay, Submit(u, false), Fail(u, true));
    var submitted := Next(replayed, Submit(u, false));
    assert submitted.tasks == replayed.tasks[u := replayed.tasks[u].(stage := Failing)] && submitted.rows == s.rows;
    r := Next(submitted, Fail(u, true));
    assert r.tasks == replayed.tasks - {u};
  }

  /** How a task takes its own row out of PENDING. */
  function Finish(t: nat, stage: Stage): seq<Event> {
    match stage
    case Submitting => [Submit(t, true), Confirm(t, true)]
    case Failing => [Fail(t, true)]
    case _ => [Confirm(t, true)]
  }

  lemma RunOne(s: State, e: Event)
    ensures Run(s, [e]) == Next(s, e)
  {
    assert [e][..0] == [];
  }

  lemma RunTwo(s: State, e: Event, f: Event)
    ensures Run(s, [e, f]) == Next(Next(s, e), f)
  {
    assert [e, f][..1] == [e];
    RunOne(s, e);
  }

  /** Task `u` is as it was, and row `id` is past PENDING. */
  ghost predicate Finished(s: State, r: State, id: nat, u: nat) {
    u in s.tasks && u in r.tasks && r.tasks[u] == s.tasks[u] && id < |r.rows| == |s.rows| &&
      r.rows[id].status != Pending
  }

  lemma ConfirmLeavesPending(s: State, t: nat, u: nat)
    requires t in s.tasks && s.tasks[t].stage == Confirming && s.tasks[t].id < |s.rows| && u in s.tasks && u != t
    ensures Finished(s, Next(s, Confirm(t, true)), s.tasks[t].id, u)
  {
  }

  lemma FinishLeavesPending(s: State, t: nat, u: nat)
    requires t in s.tasks && s.tasks[t].stage != Withdrawing && s.tasks[t].id < |s.rows| && u in s.tasks && u != t
    ensures Finished(s, Run(s, Finish(t, s.tasks[t].stage)), s.tasks[t].id, u)
  {
    match s.tasks[t].stage
    case Submitting =>
      RunTwo(s, Submit(t, true), Confirm(t, true));
      ConfirmLeavesPending(Next(s, Submit(t, true)), t, u);
    case Confirming =>
      RunOne(s, Confirm(t, true));
      ConfirmLeavesPending(s, t, u);
    case Failing => RunOne(s, Fail(t, true));
    case Withdrawing =>
  }

  lemma RecoveryQueues(s: State, t: nat) returns (p: nat)
    requires Good(s) && t in s.tasks && s.rows[s.tasks[t].id].status == Pending
    ensures p < |Next(s, Recover).queue| && Next(s, Recover).queue[p] == s.tasks[t].id
    ensures Recovering(Next(s, Recover))
  {
    var queue := Next(s, Recover).queue;
    forall i | 0 <= i < |queue| ensures queue[i] < |s.rows| { PendingIdIs(s.rows, queue[i]); }
    forall u | u in s.tasks ensures u < s.nextTask { assert TaskStands(s, u); }
    assert TaskStands(s, t);
    PendingIdIs(s.rows, s.tasks[t].id);
    p :| 0 <= p < |queue| && queue[p] == s.tasks[t].id;
  }

  lemma SubmitsPastPending(s: State, u: nat)
    requires u in s.tasks && s.tasks[u].stage == Submitting && s.tasks[u].id < |s.rows| &&
               s.rows[s.tasks[u].id].status != Pending
    ensures !SubmittedWhilePending(Run(s, [Submit(u, true)]))
  {
    RunOne(s, Submit(u, true));
    assert Next(s, Submit(u, true)).submissions[|s.submissions|].status != Pending;
  }

  /**
   A recovery loop that starts at task `first`: it concludes the `p` replays before the row of task
   `t` and starts that one; then `t` finishes, and the replay submits.
   */
  function LoudRecovery(first: nat, t: nat, stage: Stage, p: nat): seq<Event>
    decreases p
  {
    if p == 0 then [Replay] + (Finish(t, stage) + [Submit(first, true)])
    else OneUnanswered(first) + LoudRecovery(first + 1, t, stage, p - 1)
  }

  lemma LastReplayBreaks(s: State, t: nat)
    requires Recovering(s) && s.queue != []
    requires t in s.tasks && s.tasks[t].id == s.queue[0] && s.tasks[t].stage != Withdrawing
    ensures !SubmittedWhilePending(Run(s, LoudRecovery(s.nextTask, t, s.tasks[t].stage, 0)))
  {
    var r, u, finish := Next(s, Replay), s.nextTask, Finish(t, s.tasks[t].stage);
    ReplayStarts(s);
    FinishLeavesPending(r, t, u);
    SubmitsPastPending(Run(r, finish), u);
    RunInParts(r, finish, [Submit(u, true)]);
    RunInParts(s, [Replay], finish + [Submit(u, true)]);
    RunOne(s, Replay);
  }

  ghost predicate Breaks(s: State, events: seq<Event>) {
    !SubmittedWhilePending(Run(s, events))
  }

  lemma BreaksLater(s: State, first: seq<Event>, r: State, rest: seq<Event>, events: seq<Event>)
    requires r == Run(s, first) && Breaks(r, rest) && events == first + rest
    ensures Breaks(s, events)
  {
    RunInParts(s, first, rest);
  }

  lemma {:induction false} LoudRecoveryBreaks(s: State, t: nat, p: nat, events: seq<Event>)
    requires Recovering(s) && p < |s.queue|
    requires t in s.tasks && s.tasks[t].id == s.queue[p] && s.tasks[t].stage != Withdrawing
    requires events == LoudRecovery(s.nextTask, t, s.tasks[t].stage, p)
    ensures Breaks(s, events)
    decreases p
  {
    if p == 0 {
      LastReplayBreaks(s, t);
    } else {
      var r := UnansweredIsConcluded(s);
      var rest := LoudRecovery(r.nextTask, t, r.tasks[t].stage, p - 1);
      LoudRecoveryBreaks(r, t, p - 1, rest);
      BreaksLater(s, OneUnanswered(s.nextTask), r, rest, events);
    }
  }

  /**
   From any sound state that is not quiet, a recovery that concludes each settlement before the next
   one goes on to submit a nonce whose row is past PENDING.
   */
  lemma UnquietRecoveryBreaks(s: State) returns (t: nat, p: nat)
    requires Good(s) && !Quiet(s)
    ensures t in s.tasks &&
              !SubmittedWhilePending(Run(Next(s, Recover), LoudRecovery(s.nextTask, t, s.tasks[t].stage, p)))
  {
    t := LoudTask(s);
    p := RecoveryQueues(s, t);
    LoudRecoveryBreaks(Next(s, Recover), t, p, LoudRecovery(s.nextTask, t, s.tasks[t].stage, p));
  }

  lemma LoudTask(s: State) returns (t: nat)
    requires Good(s) && !Quiet(s)
    ensures t in s.tasks && s.tasks[t].id < |s.rows| && s.rows[s.tasks[t].id].status == Pending &&
              s.tasks[t].stage != Withdrawing
  {
    t :| t in s.tasks && !(s.tasks[t].id < |s.rows| && s.rows[s.tasks[t].id].status != Pending);
    assert TaskStands(s, t);
  }

  /**
   What follows a recovery, as long as later recoveries are quiet and nonces fresh: nonces are
   submitted from PENDING rows only, and each settlement is paid at most once.
   */
  ghost predicate SafeAfterRecovery(s: State, rest: seq<Event>) {
    AllAllowed(Next(s, Recover), rest) ==>
      SubmittedWhilePending(Run(Next(s, Recover), rest)) && PaidOnce(Run(Next(s, Recover), rest))
  }

  predicate NeedsNothing(event: Event) {
    !event.Recover? && !event.Begin?
  }

  lemma {:induction false} LoudRecoveryNeedsNothing(first: nat, t: nat, stage: Stage, p: nat)
    ensures forall i ::
              0 <= i < |LoudRecovery(first, t, stage, p)| ==> NeedsNothing(LoudRecovery(first, t, stage, p)[i])
    decreases p
  {
    if p > 0 { LoudRecoveryNeedsNothing(first + 1, t, stage, p - 1); }
  }

  /** Crash recovery is safe exactly when no settlement in memory still has its row PENDING. */
  lemma RecoveryIsSafeExactly(s: State)
    requires Good(s)
    ensures (forall rest :: SafeAfterRecovery(s, rest)) <==> Quiet(s)
  {
    if Quiet(s) {
      RecoverKeepsGood(s, Recover);
      forall rest ensures SafeAfterRecovery(s, rest) {
        if AllAllowed(Next(s, Recover), rest) { RunPaysOnce(Next(s, Recover), rest); }
      }
    } else {
      var t, p := UnquietRecoveryBreaks(s);
      var rest := LoudRecovery(s.nextTask, t, s.tasks[t].stage, p);
      LoudRecoveryNeedsNothing(s.nextTask, t, s.tasks[t].stage, p);
      assert !SafeAfterRecovery(s, rest);
    }
  }

  /** Settlement `t` goes on to record a failure, and no table has changed. */
  ghost predicate OnlyFails(s: State, r: State, t: nat) {
    && t in r.tasks && r.tasks[t].stage == Failing && r.rows == s.rows && r.accounts == s.accounts
    && r.payments == s.payments && r.tasks - {t} == s.tasks - {t}
  }

  /** When the database refuses a statement after the submission, a failure is recorded, if it can be. */
  lemma RefusedStatements(s: State, t: nat)
    requires t in s.tasks && s.tasks[t].id < |s.rows|
    ensures s.tasks[t].stage == Confirming ==> OnlyFails(s, Next(s, Confirm(t, false)), t)
    ensures s.tasks[t].stage == Withdrawing ==> OnlyFails(s, Next(s, Withdraw(t, false)), t)
    ensures s.tasks[t].stage == Failing ==> Next(s, Fail(t, false)) == s.(tasks := s.tasks - {t})
  {
  }

  /** Only dead-lettered rows are taken up again, as FAILED with no failures; healing needs a stream it fits. */
  lemma RetriesAndHealings(s: State, id: nat, streamId: int, amount: int)
    ensures if id < |s.rows| && s.rows[id].status == DeadLettered
            then Next(s, Retry(id)) == s.(rows := s.rows[id := s.rows[id].(status := Failed, retryCount := 0)])
            else Next(s, Retry(id)) == s
    ensures var r := Next(s, Heal(streamId, amount));
            if amount > 0 && streamId in s.accounts &&
               s.accounts[streamId].withdrawn + amount <= s.accounts[streamId].deposit
            then
              && r == s.(accounts := r.accounts, healings := s.healings + [Healing(streamId, amount)])
              && r.accounts == s.accounts[streamId := r.accounts[streamId]]
              && r.accounts[streamId] ==
                   Account(s.accounts[streamId].deposit, s.accounts[streamId].withdrawn + amount)
            else r == s
  {
  }

  /** A crash forgets the settlements in flight and nothing that is stored, so a recovery after it starts quiet. */
  lemma CrashIsQuiet(s: State)
    ensures var r := Next(s, Crash);
            Quiet(r) && r.queue == [] && r == s.(tasks := r.tasks, queue := r.queue) && Allowed(r, Recover)
  {
  }

  /** One settlement that has only begun makes a state that is not quiet. */
  lemma UnquietIsReached(
    accounts: map<int, Account>, recipient: string, nonce: int, streamIds: seq<int>, amounts: seq<int>,
    configured: bool)
    ensures var events := [Begin(recipient, nonce, streamIds, amounts, configured)];
            AllAllowed(Opening(accounts), events) && Good(Run(Opening(accounts), events)) &&
              !Quiet(Run(Opening(accounts), events))
  {
    var begin := Begin(recipient, nonce, streamIds, amounts, configured);
    assert [begin][..0] == [];
    RunOne(Opening(accounts), begin);
    BeginKeepsGood(Opening(accounts), begin);
    assert Next(Opening(accounts), begin).tasks[0].id == 0;
  }

  /** With a confirmed nonce drawn again, the very next submission comes from a CONFIRMED row. */
  lemma ReusedNonceBreaks(s: State, recipient: string, nonce: int, streamIds: seq<int>, amounts: seq<int>)
    requires Cached(s.rows, nonce, recipient).Some?
    ensures !SubmittedWhilePending(Run(s,
              [Begin(recipient, nonce, streamIds, amounts, true), Submit(s.nextTask, true)]))
  {
    var begin, submit := Begin(recipient, nonce, streamIds, amounts, true), Submit(s.nextTask, true);
    var begun := Next(s, begin);
    RunTwo(s, begin, submit);
    var last := Next(begun, submit);
    assert last.submissions[|s.submissions|].status == Confirmed;
  }

  // ----- two consequences that the documentation does not mention

  /** Each deposit still covers what the settlement takes from it. */
  ghost predicate Fits(accounts: map<int, Account>, task: Task) {
    Covered(accounts, task.streamIds, task.amounts, |task.streamIds|)
  }

  /**
   A confirmed settlement is paid exactly when its amounts still fit the deposits; else it is rolled
   back and its row, confirmed on the chain, is marked as failed.
   */
  lemma ConfirmedMayFail(s: State, t: nat)
    requires t in s.tasks && s.tasks[t].stage == Withdrawing && s.tasks[t].id < |s.rows|
    ensures var task := s.tasks[t];
            && (Next(s, Withdraw(t, true)).payments != s.payments <==> Fits(s.accounts, task))
            && (Fits(s.accounts, task) ==>
                  Next(s, Withdraw(t, true)).payments == s.payments + [Payment(task.id, task.streamIds, task.amounts)])
            && (!Fits(s.accounts, task) ==>
                  var r := Run(s, [Withdraw(t, true), Fail(t, true)]);
                  r.accounts == s.accounts && r.payments == s.payments &&
                    r.rows == s.rows[task.id := FailSettlement(s.rows[task.id])])
  {
    WithdrawsExactly(s.accounts, s.tasks[t].streamIds, s.tasks[t].amounts, |s.tasks[t].streamIds|);
    RunTwo(s, Withdraw(t, true), Fail(t, true));
  }

  /** A failed row has failed once, and no task works on it. */
  ghost predicate NeverRetried(s: State) {
    && (forall i ::
         0 <= i < |s.rows| ==>
         s.rows[i].status != DeadLettered && s.rows[i].retryCount == if s.rows[i].status == Failed then 1 else 0)
    && (forall t :: t in s.tasks ==> s.tasks[t].id < |s.rows| && s.rows[s.tasks[t].id].status != Failed)
  }

  lemma FailNeverRetries(s: State, t: nat, stored: bool)
    requires Good(s) && NeverRetried(s)
    ensures NeverRetried(Next(s, Fail(t, stored)))
  {
    if t in s.tasks { assert TaskStands(s, t); }
  }

  lemma ReplayNeverRetries(s: State)
    requires Good(s) && NeverRetried(s)
    ensures NeverRetried(Next(s, Replay))
  {
  }

  lemma NextNeverRetries(s: State, event: Event)
    requires Good(s) && NeverRetried(s) && Allowed(s, event)
    ensures NeverRetried(Next(s, event))
  {
    match event
    case Begin(_, _, _, _, _) =>
    case Submit(_, _) =>
    case Confirm(_, _) =>
    case Withdraw(_, _) =>
    case Fail(t, stored) => FailNeverRetries(s, t, stored);
    case Crash =>
    case Recover =>
    case Replay => ReplayNeverRetries(s);
    case Heal(_, _) =>
    case Retry(_) =>
  }

  /** Nothing submits a FAILED row again, so from an empty ledger no row is ever dead-lettered. */
  lemma {:induction false} NothingIsDeadLettered(accounts: map<int, Account>, events: seq<Event>)
    requires AllAllowed(Opening(accounts), events)
    ensures NeverRetried(Run(Opening(accounts), events))
  {
    var s := Opening(accounts);
    if events != [] {
      var before := events[..|events| - 1];
      forall n | 0 <= n < |before| ensures Allowed(Run(s, before[..n]), before[n]) {
        assert before[..n] == events[..n] && before[n] == events[n];
      }
      NothingIsDeadLettered(accounts, before);
      RunPaysOnce(s, before);
      assert Allowed(Run(s, events[..|before|]), events[|before|]);
      NextNeverRetries(Run(s, before), events[|events| - 1]);
    }
  }

  function Opening(accounts: map<int, Account>): State {
    State([], accounts, map[], 0, [], [], [], [])
  }
}
