/**
 What the chain's answers mean for the anchors of backend/src/audit/MerkleAnchor.js: which attempt
 is behind each anchor, what a failed one leaves behind, and how far anchoring lags.
 */
module AnchorAnswers {
  import opened Outcomes
  import opened AuditChain
  import opened AuditTree
  import opened MerkleAnchor

  function AttemptOf(event: Event): Option<Attempt> {
    match event
    case Append(_) => None
    case Scheduled(_, attempt) => Some(attempt)
    case OnDemand(attempt) => Some(attempt)
  }

  /** The attempts of a run that made an anchor, in order. */
  function Made(g: Hashing, digest: EntryDigest, interval: int, events: seq<Event>): seq<Attempt> {
    if events == [] then [] else
      var before, event := events[..|events| - 1], events[|events| - 1];
      Made(g, digest, interval, before) +
        if AttemptOf(event).Some? &&
           |Run(g, digest, interval, events).anchors| > |Run(g, digest, interval, before).anchors|
          then [AttemptOf(event).value] else []
  }

  /** The status on record is the answer of the chain, once it is recorded. */
  predicate Records(a: Anchor, attempt: Attempt) {
    var recorded := attempt.stop != BeforeUpdate;
    && (a.status == Confirmed <==> recorded && attempt.outcome == Taken)
    && (a.status == Submitted <==> recorded && attempt.outcome == NoContract)
    && (a.status == Failed <==> recorded && attempt.outcome == Refused)
    && (Live(a) <==> recorded && attempt.outcome != Refused)
  }

  /** The anchor that an attempt makes: all that is not anchored yet, with the answer it got. */
  ghost predicate Makes(s: State, attempt: Attempt, a: Anchor) {
    a.fromSeq == LastAnchored(s.anchors) + 1 <= a.toSeq == LastSeq(s.rows) && Records(a, attempt)
  }

  lemma AttemptMakesOne(g: Hashing, digest: EntryDigest, interval: int, s: State, event: Event) returns (a: Anchor)
    ensures var r := Next(g, digest, interval, s, event);
            && LastSeq(s.rows) <= LastSeq(r.rows) <= LastSeq(s.rows) + 1
            && (r.anchors == s.anchors ||
                (AttemptOf(event).Some? && r.anchors == s.anchors + [a] && Makes(s, AttemptOf(event).value, a)))
  {
    var attempt := AttemptOf(event);
    a := Fresh(g, s.rows, LastAnchored(s.anchors) + 1, LastSeq(s.rows));
    if attempt.Some? && attempt.value.stop != BeforeUpdate {
      a := a.(status := StatusAfter(attempt.value.outcome));
    }
  }

  /** In every run, each anchor has the attempt that made it, and is confirmed only if the chain took its root. */
  lemma {:induction false} AnchorsAreAnswered(g: Hashing, digest: EntryDigest, interval: int, events: seq<Event>)
    ensures var anchors, made := Run(g, digest, interval, events).anchors, Made(g, digest, interval, events);
            |made| == |anchors| && forall i :: 0 <= i < |anchors| ==> Records(anchors[i], made[i])
  {
    if events != [] {
      var before := events[..|events| - 1];
      AnchorsAreAnswered(g, digest, interval, before);
      var a := AttemptMakesOne(g, digest, interval, Run(g, digest, interval, before), events[|events| - 1]);
    }
  }

  // ----- failed attempts

  /** An event after which nothing more is anchored: an append, or an attempt that fails or is not recorded. */
  predicate AnchorsNothing(event: Event) {
    AttemptOf(event).Some? ==> AttemptOf(event).value.stop == BeforeUpdate || AttemptOf(event).value.outcome == Refused
  }

  /** The anchors beyond the first `n` all start at `fromSeq`, and none ends before an earlier one. */
  ghost predicate StartOver(s: State, n: nat, fromSeq: int) {
    && n <= |s.anchors|
    && (forall i :: n <= i < |s.anchors| ==> s.anchors[i].fromSeq == fromSeq && s.anchors[i].toSeq <= LastSeq(s.rows))
    && (forall i, j :: n <= i < j < |s.anchors| ==> s.anchors[i].toSeq <= s.anchors[j].toSeq)
  }

  lemma NextStartsOver(
    g: Hashing, digest: EntryDigest, interval: int, s: State, event: Event, n: nat, fromSeq: int)
    requires StartOver(s, n, fromSeq) && fromSeq == LastAnchored(s.anchors) + 1
    ensures StartOver(Next(g, digest, interval, s, event), n, fromSeq)
    ensures AnchorsNothing(event) ==>
              LastAnchored(Next(g, digest, interval, s, event).anchors) == LastAnchored(s.anchors)
  {
    var a := AttemptMakesOne(g, digest, interval, s, event);
    var r := Next(g, digest, interval, s, event);
    if r.anchors != s.anchors { LastOfLonger(s.anchors, a); }
  }

  lemma LastOfLonger(anchors: seq<Anchor>, a: Anchor)
    ensures LastAnchored(anchors + [a]) ==
              if Live(a) && a.toSeq > LastAnchored(anchors) then a.toSeq else LastAnchored(anchors)
  {
    assert (anchors + [a])[..|anchors|] == anchors;
  }

  /** What was anchored in `s` still is, and nothing else; later anchors start over from there. */
  ghost predicate KeptSince(s: State, r: State) {
    LastAnchored(r.anchors) == LastAnchored(s.anchors) && StartOver(r, |s.anchors|, LastAnchored(s.anchors) + 1)
  }

  lemma KeptOneMore(
    g: Hashing, digest: EntryDigest, interval: int, s: State, events: seq<Event>, event: Event, longer: seq<Event>)
    requires KeptSince(s, Run(g, digest, interval, events)) && longer == events + [event]
    ensures StartOver(Run(g, digest, interval, longer), |s.anchors|, LastAnchored(s.anchors) + 1)
    ensures AnchorsNothing(event) ==> KeptSince(s, Run(g, digest, interval, longer))
  {
    assert longer[..|events|] == events;
    NextStartsOver(g, digest, interval, Run(g, digest, interval, events), event, |s.anchors|,
      LastAnchored(s.anchors) + 1);
  }

  lemma {:induction false} FailuresKeep(
    g: Hashing, digest: EntryDigest, interval: int, events: seq<Event>, failing: seq<Event>, all: seq<Event>)
    requires forall i :: 0 <= i < |failing| ==> AnchorsNothing(failing[i])
    requires all == events + failing
    ensures KeptSince(Run(g, digest, interval, events), Run(g, digest, interval, all))
  {
    if failing == [] {
      assert all == events;
    } else {
      var before, last := failing[..|failing| - 1], failing[|failing| - 1];
      FailuresKeep(g, digest, interval, events, before, events + before);
      assert all == events + before + [last];
      KeptOneMore(g, digest, interval, Run(g, digest, interval, events), events + before, last, all);
    }
  }

  /**
   A failed attempt anchors nothing: however many attempts fail and entries are appended, what was
   anchored stays as it was, and the next anchoring begins where the first failed one did and covers
   all of its numbers.
   */
  lemma FailedAttemptsStartOver(
    g: Hashing, digest: EntryDigest, interval: int, events: seq<Event>, failing: seq<Event>, event: Event)
    requires forall i :: 0 <= i < |failing| ==> AnchorsNothing(failing[i])
    ensures var s := Run(g, digest, interval, events);
            && KeptSince(s, Run(g, digest, interval, events + failing))
            && StartOver(Run(g, digest, interval, events + failing + [event]), |s.anchors|, LastAnchored(s.anchors) + 1)
  {
    FailuresKeep(g, digest, interval, events, failing, events + failing);
    KeptOneMore(g, digest, interval, Run(g, digest, interval, events), events + failing, event,
      events + failing + [event]);
  }

  /** An entry is appended exactly when it has an event type and an actor, and no anchor changes. */
  lemma AppendsExactly(g: Hashing, digest: EntryDigest, interval: int, s: State, e: Entry)
    ensures var r := Next(g, digest, interval, s, Append(e));
            && r.anchors == s.anchors
            && (if e.eventType == "" || e.actor == "" then r.rows == s.rows
                else
                  && |r.rows| == |s.rows| + 1 && s.rows <= r.rows
                  && Carries(digest, r.rows[|s.rows|], e, LastSeq(s.rows) + 1, LastHash(s.rows)))
  {
  }

  // ----- the schedule

  /** Entries that no live anchor covers yet. */
  function Backlog(s: State): int {
    LastSeq(s.rows) - LastAnchored(s.anchors)
  }

  /**
   A scheduled check makes an anchor exactly when there is something to anchor and either threshold
   is crossed; one that the chain does not refuse leaves no number of that time uncovered, and without
   an attempt the backlog is below the interval.
   */
  lemma ScheduleBoundsBacklog(
    g: Hashing, digest: EntryDigest, interval: int, events: seq<Event>, elapsed: bool, attempt: Attempt)
    ensures var s := Run(g, digest, interval, events);
            var r := Next(g, digest, interval, s, Scheduled(elapsed, attempt));
            && (|r.anchors| == |s.anchors| + 1 <==> Backlog(s) > 0 && (Backlog(s) >= interval || elapsed))
            && (|r.anchors| == |s.anchors| <==> r == s)
            && (r == s ==> Backlog(r) <= 0 || Backlog(r) < interval)
            && (r != s && !AnchorsNothing(Scheduled(elapsed, attempt)) ==>
                  LastAnchored(r.anchors) == LastSeq(s.rows) && Backlog(r) <= 1)
  {
    var s := Run(g, digest, interval, events);
    var r := Next(g, digest, interval, s, Scheduled(elapsed, attempt));
    if r != s { LastOfLonger(s.anchors, r.anchors[|s.anchors|]); }
  }

  /** On demand, an anchor is made exactly when there is something to anchor. */
  lemma OnDemandExactly(g: Hashing, digest: EntryDigest, interval: int, events: seq<Event>, attempt: Attempt)
    ensures var s := Run(g, digest, interval, events);
            var r := Next(g, digest, interval, s, OnDemand(attempt));
            && (|r.anchors| == |s.anchors| + 1 <==> Backlog(s) > 0) && (|r.anchors| == |s.anchors| <==> r == s)
            && (r != s && !AnchorsNothing(OnDemand(attempt)) ==> LastAnchored(r.anchors) == LastSeq(s.rows))
  {
    var s := Run(g, digest, interval, events);
    var r := Next(g, digest, interval, s, OnDemand(attempt));
    if r != s { LastOfLonger(s.anchors, r.anchors[|s.anchors|]); }
  }

  /** What the log says about an anchoring: whether the chain took the root, in a row of its own at the end. */
  lemma NoticeTells(g: Hashing, digest: EntryDigest, s: State, fromSeq: int, toSeq: int, attempt: Attempt)
    ensures var r := Anchored(g, digest, s, fromSeq, toSeq, attempt);
            if attempt.stop != Completes then r.rows == s.rows else
              && |r.rows| == |s.rows| + 1 && r.rows[..|s.rows|] == s.rows
              && var row := r.rows[|s.rows|];
                 row.actor == "system" && row.subjectId == None && row.payload == attempt.stored &&
                   row.eventType ==
                     (if Records(r.anchors[|s.anchors|], attempt) && r.anchors[|s.anchors|].status == Confirmed
                     then "MERKLE_ANCHOR_CONFIRMED" else "MERKLE_ANCHOR_SUBMITTED")
  {
  }
}
