/**
 backend/src/repositories/settlementRepository.js, SettlementLedger.js, DeadLetterQueue.js,
 streamRepository.js and the step sequences of BatchSettler.js and SettlementReconciler.js.

 One step is one database transaction or one call to the chain; in-flight settlements interleave
 at steps, and a crash can come between any two. The last three fields of `State` are logs that no
 code reads.
 */
module Settlement {
  import opened Outcomes

  datatype Status = Pending | Confirmed | Failed | DeadLettered

  /** A settlement_ledger row; its id is its position. */
  datatype Row = Row(
    nonce: int, recipient: string, streamIds: seq<int>, amounts: seq<int>, status: Status, retryCount: nat)

  datatype Account = Account(deposit: int, withdrawn: int)

  datatype Stage = Submitting | Confirming | Withdrawing | Failing

  /** A settlement in memory, working on row `id`. */
  datatype Task = Task(id: nat, streamIds: seq<int>, amounts: seq<int>, stage: Stage)

  datatype Submission = Submission(id: nat, status: Status)

  datatype Payment = Payment(id: nat, streamIds: seq<int>, amounts: seq<int>)

  datatype Healing = Healing(streamId: int, amount: int)

  datatype State = State(
    rows: seq<Row>, accounts: map<int, Account>, tasks: map<nat, Task>, nextTask: nat, queue: seq<nat>,
    submissions: seq<Submission>, payments: seq<Payment>, healings: seq<Healing>)

  const MAX_RETRIES := 3

  // ----- one row

  function MarkConfirmed(row: Row): Row {
    row.(status := Confirmed)
  }

  function MarkFailed(row: Row): Row {
    row.(status := if row.retryCount >= 3 then DeadLettered else Failed, retryCount := row.retryCount + 1)
  }

  /** failSettlement: dead-letters the row once it has failed often enough. */
  function FailSettlement(row: Row): Row {
    var failed := MarkFailed(row);
    if failed.retryCount >= MAX_RETRIES then failed.(status := DeadLettered) else failed
  }

  /** One failure more on record: FAILED, from the third failure on DEAD_LETTERED, and nothing else. */
  predicate FailedOnce(before: Row, after: Row) {
    && after.retryCount == before.retryCount + 1
    && after.status == (if after.retryCount >= 3 then DeadLettered else Failed)
    && after == before.(status := after.status, retryCount := after.retryCount)
  }

  lemma FailsExactly(row: Row)
    ensures FailedOnce(row, FailSettlement(row))
  {
  }

  /** The newest row with this nonce and recipient. */
  function FindByNonce(rows: seq<Row>, nonce: int, recipient: string): Option<nat> {
    if rows == [] then None
    else if rows[|rows| - 1].nonce == nonce && rows[|rows| - 1].recipient == recipient then Some(|rows| - 1)
    else FindByNonce(rows[..|rows| - 1], nonce, recipient)
  }

  /** The row a new settlement works on, when its nonce was already confirmed. */
  function Cached(rows: seq<Row>, nonce: int, recipient: string): Option<nat> {
    var found := FindByNonce(rows, nonce, recipient);
    if found.Some? && found.value < |rows| && rows[found.value].status == Confirmed then found else None
  }

  ghost predicate Newest(rows: seq<Row>, nonce: int, recipient: string, i: nat) {
    && i < |rows| && rows[i].nonce == nonce && rows[i].recipient == recipient
    && forall j :: i < j < |rows| ==> !(rows[j].nonce == nonce && rows[j].recipient == recipient)
  }

  lemma {:induction false} FindsNewest(rows: seq<Row>, nonce: int, recipient: string, i: nat)
    ensures FindByNonce(rows, nonce, recipient) == Some(i) <==> Newest(rows, nonce, recipient, i)
  {
    if rows != [] {
      var before := rows[..|rows| - 1];
      FindsNewest(before, nonce, recipient, i);
      if Newest(before, nonce, recipient, i) && FindByNonce(rows, nonce, recipient) == Some(i) {
        forall j | i < j < |rows| ensures !(rows[j].nonce == nonce && rows[j].recipient == recipient) {
          if j < |before| { assert before[j] == rows[j]; }
        }
      }
      if Newest(rows, nonce, recipient, i) && i < |before| {
        assert before[i] == rows[i];
        assert Newest(before, nonce, recipient, i);
      }
    }
  }

  /**
   A new settlement works on an old row exactly when that is the newest with its nonce and
   recipient, and CONFIRMED.
   */
  lemma CachedExactly(rows: seq<Row>, nonce: int, recipient: string, i: nat)
    ensures Cached(rows, nonce, recipient) == Some(i) <==>
              Newest(rows, nonce, recipient, i) && rows[i].status == Confirmed
  {
    FindsNewest(rows, nonce, recipient, i);
  }

  function PendingIds(rows: seq<Row>): seq<nat> {
    if rows == [] then [] else
      PendingIds(rows[..|rows| - 1]) + (if rows[|rows| - 1].status == Pending then [|rows| - 1] else [])
  }

  // ----- the accounts

  /** What a stream may claim: never more than is left of its deposit. */
  function Claimable(a: Account, elapsed: int, ratePerSecond: int): int {
    var accrued := elapsed * ratePerSecond;
    var claimable := if a.deposit - a.withdrawn < accrued then a.deposit - a.withdrawn else accrued;
    if claimable > 0 then claimable else 0
  }

  /** The claim is the most that has accrued and is left of the deposit; nothing when either is used up. */
  lemma ClaimableIsMost(a: Account, elapsed: int, ratePerSecond: int, other: int)
    ensures var claim, accrued, left :=
              Claimable(a, elapsed, ratePerSecond), elapsed * ratePerSecond, a.deposit - a.withdrawn;
            && 0 <= claim && (claim > 0 ==> claim <= accrued && claim <= left)
            && (other <= accrued && other <= left ==> other <= claim)
  {
  }

  /**
   The guarded update: `None` is the error thrown when the deposit does not suffice; a missing
   stream is passed over.
   */
  function RecordWithdrawal(accounts: map<int, Account>, streamId: int, amount: int): Option<map<int, Account>> {
    if streamId !in accounts then Some(accounts)
    else if accounts[streamId].withdrawn + amount <= accounts[streamId].deposit then
      Some(accounts[streamId := accounts[streamId].(withdrawn := accounts[streamId].withdrawn + amount)])
    else None
  }

  /** The amount aligned with position `i`; none is no amount. */
  function AmountAt(amounts: seq<int>, i: nat): int {
    if i < |amounts| then amounts[i] else 0
  }

  /** The withdrawals of the first `n` streams, in one transaction. */
  function WithdrawAll(
    accounts: map<int, Account>, streamIds: seq<int>, amounts: seq<int>, n: nat): Option<map<int, Account>>
    requires n <= |streamIds|
  {
    if n == 0 then Some(accounts) else
      match WithdrawAll(accounts, streamIds, amounts, n - 1)
      case None => None
      case Some(before) =>
        if AmountAt(amounts, n - 1) > 0 then RecordWithdrawal(before, streamIds[n - 1], AmountAt(amounts, n - 1))
          else Some(before)
  }

  /** What the first `n` positions take from one stream. */
  function Taken(streamIds: seq<int>, amounts: seq<int>, n: nat, streamId: int): (sum: nat)
    requires n <= |streamIds|
  {
    if n == 0 then 0 else
      Taken(streamIds, amounts, n - 1, streamId) +
      if streamIds[n - 1] == streamId && AmountAt(amounts, n - 1) > 0 then AmountAt(amounts, n - 1) else 0
  }

  /** Every deposit covers what the first `n` positions take from it, if they take anything. */
  ghost predicate Covered(accounts: map<int, Account>, streamIds: seq<int>, amounts: seq<int>, n: nat)
    requires n <= |streamIds|
  {
    forall id :: id in accounts && Taken(streamIds, amounts, n, id) > 0 ==>
      accounts[id].withdrawn + Taken(streamIds, amounts, n, id) <= accounts[id].deposit
  }

  /** Each account grows by what the first `n` positions take from it. */
  ghost predicate Grown(
    before: map<int, Account>, after: map<int, Account>, streamIds: seq<int>, amounts: seq<int>, n: nat)
    requires n <= |streamIds|
  {
    && after.Keys == before.Keys
    && forall id :: id in before ==>
         after[id] == Account(before[id].deposit, before[id].withdrawn + Taken(streamIds, amounts, n, id))
  }

  /** The transaction commits exactly when every deposit covers all that is taken from it, and takes just that. */
  lemma {:induction false} WithdrawsExactly(accounts: map<int, Account>, streamIds: seq<int>, amounts: seq<int>, n: nat)
    requires n <= |streamIds|
    ensures var r := WithdrawAll(accounts, streamIds, amounts, n);
            && (r.Some? <==> Covered(accounts, streamIds, amounts, n))
            && (r.Some? ==> Grown(accounts, r.value, streamIds, amounts, n))
  {
    if n > 0 {
      WithdrawsExactly(accounts, streamIds, amounts, n - 1);
      var r := WithdrawAll(accounts, streamIds, amounts, n - 1);
      if r.None? {
        var short :| short in accounts && Taken(streamIds, amounts, n - 1, short) > 0 &&
          accounts[short].withdrawn + Taken(streamIds, amounts, n - 1, short) > accounts[short].deposit;
        assert Taken(streamIds, amounts, n, short) >= Taken(streamIds, amounts, n - 1, short);
      } else {
        OneMoreWithdrawal(accounts, r.value, streamIds, amounts, n);
      }
    }
  }

  lemma OneMoreWithdrawal(
    accounts: map<int, Account>, before: map<int, Account>, streamIds: seq<int>, amounts: seq<int>, n: nat)
    requires 0 < n <= |streamIds| && WithdrawAll(accounts, streamIds, amounts, n - 1) == Some(before)
    requires Covered(accounts, streamIds, amounts, n - 1) && Grown(accounts, before, streamIds, amounts, n - 1)
    ensures var r := WithdrawAll(accounts, streamIds, amounts, n);
            && (r.Some? <==> Covered(accounts, streamIds, amounts, n))
            && (r.Some? ==> Grown(accounts, r.value, streamIds, amounts, n))
  {
    var id := streamIds[n - 1];
    forall other | other != id || AmountAt(amounts, n - 1) <= 0
      ensures Taken(streamIds, amounts, n, other) == Taken(streamIds, amounts, n - 1, other)
    {
    }
    if id in accounts {
      assert before[id] == Account(accounts[id].deposit,
        accounts[id].withdrawn + Taken(streamIds, amounts, n - 1, id));
    }
  }

  // ----- steps

  datatype Event =
    | Begin(recipient: string, nonce: int, streamIds: seq<int>, amounts: seq<int>, configured: bool)
    | Submit(task: nat, answered: bool)
    | Confirm(task: nat, stored: bool)
    | Withdraw(task: nat, stored: bool)
    | Fail(task: nat, stored: bool)
    | Crash
    | Recover
    | Replay
    | Heal(streamId: int, amount: int)
    | Retry(id: nat)

  function SetRow(s: State, id: nat, row: Row): State {
    if id < |s.rows| then s.(rows := s.rows[id := row]) else s
  }

  function SetStage(s: State, t: nat, stage: Stage): State {
    if t in s.tasks then s.(tasks := s.tasks[t := s.tasks[t].(stage := stage)]) else s
  }

  function Start(s: State, task: Task): State {
    s.(tasks := s.tasks[s.nextTask := task], nextTask := s.nextTask + 1)
  }

  function End(s: State, t: nat): State {
    s.(tasks := s.tasks - {t})
  }

  /** beginSettlement, and the failure recorded when no contract is configured. */
  function BeginStep(
    s: State, recipient: string, nonce: int, streamIds: seq<int>, amounts: seq<int>, configured: bool): State
  {
    var stage := if configured then Submitting else Failing;
    var cached := Cached(s.rows, nonce, recipient);
    if cached.Some? then Start(s, Task(cached.value, streamIds, amounts, stage))
    else Start(s.(rows := s.rows + [Row(nonce, recipient, streamIds, amounts, Pending, 0)]),
      Task(|s.rows|, streamIds, amounts, stage))
  }

  function WithdrawStep(s: State, t: nat, stored: bool): State
    requires t in s.tasks
  {
    var task := s.tasks[t];
    var r := WithdrawAll(s.accounts, task.streamIds, task.amounts, |task.streamIds|);
    if r.None? || !stored then SetStage(s, t, Failing)
    else End(s.(accounts := r.value, payments := s.payments + [Payment(task.id, task.streamIds, task.amounts)]), t)
  }

  function Next(s: State, event: Event): State {
    match event
    case Begin(recipient, nonce, streamIds, amounts, configured) =>
      BeginStep(s, recipient, nonce, streamIds, amounts, configured)
    case Submit(t, answered) =>
      if t in s.tasks && s.tasks[t].stage == Submitting && s.tasks[t].id < |s.rows| then
        SetStage(s.(submissions := s.submissions + [Submission(s.tasks[t].id, s.rows[s.tasks[t].id].status)]), t,
                 if answered then Confirming else Failing)
      else s
    case Confirm(t, stored) =>
      if t in s.tasks && s.tasks[t].stage == Confirming && s.tasks[t].id < |s.rows| then
        if stored then SetStage(SetRow(s, s.tasks[t].id, MarkConfirmed(s.rows[s.tasks[t].id])), t, Withdrawing)
          else SetStage(s, t, Failing)
      else s
    case Withdraw(t, stored) =>
      if t in s.tasks && s.tasks[t].stage == Withdrawing then WithdrawStep(s, t, stored) else s
    case Fail(t, stored) =>
      if t in s.tasks && s.tasks[t].stage == Failing && s.tasks[t].id < |s.rows| then
        End(if stored then SetRow(s, s.tasks[t].id, FailSettlement(s.rows[s.tasks[t].id])) else s, t)
      else s
    case Crash => s.(tasks := map[], queue := [])
    case Recover => s.(queue := PendingIds(s.rows))
    case Replay =>
      if s.queue != [] && s.queue[0] < |s.rows| then
        var row := s.rows[s.queue[0]];
        Start(s.(queue := s.queue[1..]), Task(s.queue[0], row.streamIds, row.amounts, Submitting))
      else s
    case Heal(streamId, amount) =>
      var r := RecordWithdrawal(s.accounts, streamId, amount);
      if amount > 0 && streamId in s.accounts && r.Some?
        then s.(accounts := r.value, healings := s.healings + [Healing(streamId, amount)]) else s
    case Retry(id) =>
      if id < |s.rows| && s.rows[id].status == DeadLettered
        then SetRow(s, id, s.rows[id].(status := Failed, retryCount := 0)) else s
  }

  /**
   A settlement begins on the newest row of its nonce and recipient if that is CONFIRMED, and else on a
   PENDING row of its own; it goes on to submit exactly when a contract is configured.
   */
  lemma BeginsExactly(
    s: State, recipient: string, nonce: int, streamIds: seq<int>, amounts: seq<int>, configured: bool)
    ensures var r := Next(s, Begin(recipient, nonce, streamIds, amounts, configured));
            && s.nextTask in r.tasks && r.nextTask == s.nextTask + 1 && r.tasks - {s.nextTask} == s.tasks - {s.nextTask}
            && r == s.(rows := r.rows, tasks := r.tasks, nextTask := r.nextTask)
            && var task := r.tasks[s.nextTask];
               && task.streamIds == streamIds && task.amounts == amounts
               && task.stage == (if configured then Submitting else Failing)
               && if Newest(s.rows, nonce, recipient, task.id) && s.rows[task.id].status == Confirmed
                  then r.rows == s.rows
                  else
                    && r.rows == s.rows + [Row(nonce, recipient, streamIds, amounts, Pending, 0)]
                    && task.id == |s.rows|
                    && forall i: nat :: !(Newest(s.rows, nonce, recipient, i) && s.rows[i].status == Confirmed)
  {
    forall i: nat ensures Cached(s.rows, nonce, recipient) == Some(i) <==>
                       Newest(s.rows, nonce, recipient, i) && s.rows[i].status == Confirmed {
      CachedExactly(s.rows, nonce, recipient, i);
    }
  }

  function Run(s: State, events: seq<Event>): State {
    if events == [] then s else Next(Run(s, events[..|events| - 1]), events[|events| - 1])
  }
}
