/**
 When the ranges of the committed batches of a stream are disjoint. Nothing in AttestationArchive.js
 or in the tables asks for it: a commit is checked for the seller's signature and for the count of its
 row, and its leaves are claimed in a statement of its own, after the row is in.
 */
module BatchRanges {
  import opened Bytes
  import opened Outcomes
  import opened AttestationCanonical
  import opened MerkleBatchBuilder
  import opened AttestationVerifier
  import opened Metering
  import opened AttestationArchive

  /** The ranges of the two rows have no index in common. */
  predicate Apart(p: BatchRow, q: BatchRow) {
    p.lastCallIndex < q.firstCallIndex || q.lastCallIndex < p.firstCallIndex
  }

  ghost predicate ApartFromAll(batches: seq<BatchRow>, row: BatchRow) {
    forall id :: 0 <= id < |batches| ==> Apart(batches[id], row)
  }

  ghost predicate PairwiseApart(batches: seq<BatchRow>) {
    forall x, y :: 0 <= x < y < |batches| ==> Apart(batches[x], batches[y])
  }

  /** No leaf of the row's range belongs to a batch. */
  ghost predicate Unclaimed(leaves: seq<Leaf>, row: BatchRow) {
    forall i :: 0 <= i < |leaves| && InRow(leaves[i], row) ==> leaves[i].batchRef.None?
  }

  /** No leaf of the row's range belongs to a batch, and no batch that misses leaves reaches into it. */
  ghost predicate Free(t: Tables, row: BatchRow) {
    Unclaimed(t.leaves, row) && forall id :: 0 <= id < |t.batches| && !Complete(t, id) ==> Apart(t.batches[id], row)
  }

  ghost predicate AllComplete(t: Tables) {
    forall id :: 0 <= id < |t.batches| ==> Complete(t, id)
  }

  // ----- one more row

  /** A claimed leaf in the range of a row lies in the range of its own batch as well. */
  lemma ClaimedOverlaps(t: Tables, row: BatchRow, i: nat)
    requires i < |t.leaves| && InRow(t.leaves[i], row) && t.leaves[i].batchRef.Some?
    requires ClaimedInRange(t.leaves[i], t.batches)
    ensures !ApartFromAll(t.batches, row)
  {
    assert !Apart(t.batches[t.leaves[i].batchRef.value], row);
  }

  /** A complete batch that reaches into a range has claimed a leaf of it. */
  lemma CompleteClaims(w: World, t: Tables, row: BatchRow, id: nat)
    requires GoodBatches(w, t) && id < |t.batches| && Complete(t, id) && RowAllowed(row) && !Apart(t.batches[id], row)
    ensures !Unclaimed(t.leaves, row)
  {
    var batch := t.batches[id];
    assert BatchStands(w, Wire(t.leaves), batch);
    var n := if batch.firstCallIndex < row.firstCallIndex then row.firstCallIndex else batch.firstCallIndex;
    var i := LeafInBatch(w, t, id, n);
    assert InRow(t.leaves[i], batch) && InRow(t.leaves[i], row);
  }

  /** A range is apart from those of all committed batches exactly when it is free. */
  lemma ApartExactly(w: World, t: Tables, row: BatchRow)
    requires GoodBatches(w, t) && RowAllowed(row)
    ensures ApartFromAll(t.batches, row) <==> Free(t, row)
    ensures AllComplete(t) ==> (Free(t, row) <==> Unclaimed(t.leaves, row))
  {
    if ApartFromAll(t.batches, row) {
      forall i | 0 <= i < |t.leaves| && InRow(t.leaves[i], row) ensures t.leaves[i].batchRef.None? {
        if t.leaves[i].batchRef.Some? { ClaimedOverlaps(t, row, i); }
      }
    }
    if Free(t, row) {
      forall id | 0 <= id < |t.batches| ensures Apart(t.batches[id], row) {
        if Complete(t, id) && !Apart(t.batches[id], row) { CompleteClaims(w, t, row, id); }
      }
    }
  }

  // ----- complete batches stay complete

  lemma MeteringKeepsComplete(w: World, t: Tables, call: Call)
    requires GoodLeaves(w, t) && GoodBatches(w, t) && AllComplete(t) && Meter(w, t, call).Ok?
    ensures AllComplete(Meter(w, t, call).value)
  {
    var after := Meter(w, t, call).value;
    if call.attestation.Some? {
      MeteredCall(w, t, call);
      NewLeafKeepsComplete(w, t, after, Leaf(call.attestation.value.(signer := call.signer), None));
    } else {
      assert forall id :: 0 <= id < |after.batches| && Complete(t, id) ==> Complete(after, id);
    }
  }

  lemma NewLeafKeepsComplete(w: World, t: Tables, after: Tables, leaf: Leaf)
    requires GoodBatches(w, t) && AllComplete(t)
    requires after.leaves == t.leaves + [leaf] && after.batches == t.batches
    requires forall i :: 0 <= i < |t.leaves| ==> Index(t.leaves[i].att) < Index(leaf.att)
    ensures AllComplete(after)
  {
    forall id | 0 <= id < |t.batches| ensures Complete(after, id) {
      NewestInNoBatch(w, t, leaf, id);
      assert Complete(t, id);
    }
  }

  /** A leaf above all others lies beyond every batch. */
  lemma NewestInNoBatch(w: World, t: Tables, leaf: Leaf, id: nat)
    requires GoodBatches(w, t) && id < |t.batches|
    requires forall i :: 0 <= i < |t.leaves| ==> Index(t.leaves[i].att) < Index(leaf.att)
    ensures !InRow(leaf, t.batches[id])
  {
    assert BatchStands(w, Wire(t.leaves), t.batches[id]);
    var i := LeafInBatch(w, t, id, t.batches[id].lastCallIndex);
  }

  /** What a step with `CommitOffer` stores, if anything. */
  predicate Stores(w: World, s: State, event: Event) {
    && event.CommitOffer? && event.offer < |s.offers| && Buildable(s.offers[event.offer])
    && Commit(w, s.tables, s.offers[event.offer], event.seller, event.signature, event.attached).Some?
  }

  function Stored(w: World, s: State, event: Event): (row: BatchRow)
    requires Stores(w, s, event)
    ensures RowAllowed(row)
  {
    RowFor(w.sha, s.offers[event.offer], event.seller, event.signature)
  }

  lemma StoredIsLast(w: World, s: State, event: Event)
    requires Stores(w, s, event)
    ensures Next(w, s, event).tables.batches == s.tables.batches + [Stored(w, s, event)]
  {
  }

  lemma NothingStored(w: World, s: State, event: Event)
    requires !Stores(w, s, event)
    ensures Next(w, s, event).tables.batches == s.tables.batches
  {
  }

  /** After a whole commit every batch is still complete exactly when its range was unclaimed. */
  lemma CommitKeepsComplete(w: World, s: State, event: Event)
    requires Good(w, s) && Stores(w, s, event) && event.attached && AllComplete(s.tables)
    ensures AllComplete(Next(w, s, event).tables) <==> Unclaimed(s.tables.leaves, Stored(w, s, event))
  {
    var t, row, after := s.tables, Stored(w, s, event), Next(w, s, event).tables;
    CompleteExactly(w, s, event.offer, event.seller, event.signature);
    if Unclaimed(t.leaves, row) {
      forall id | 0 <= id < |t.batches| ensures Complete(after, id) { OldStaysComplete(w, s, event, id); }
    }
  }

  lemma OldStaysComplete(w: World, s: State, event: Event, id: nat)
    requires Stores(w, s, event) && id < |s.tables.batches| && Complete(s.tables, id)
    ensures Complete(Next(w, s, event).tables, id)
  {
    var t, after := s.tables, Next(w, s, event).tables;
    forall i | 0 <= i < |after.leaves| && InRow(after.leaves[i], after.batches[id])
      ensures after.leaves[i].batchRef == Some(id)
    {
      assert InRow(t.leaves[i], t.batches[id]);
    }
  }

  // ----- every run

  /** If the step stores a batch, its range was free. */
  ghost predicate FindsFree(w: World, s: State, event: Event) {
    Stores(w, s, event) ==> Free(s.tables, Stored(w, s, event))
  }

  /** If the step stores a batch, no leaf of its range was claimed. */
  ghost predicate FindsUnclaimed(w: World, s: State, event: Event) {
    Stores(w, s, event) ==> Unclaimed(s.tables.leaves, Stored(w, s, event))
  }

  ghost predicate AllFindFree(w: World, stream: Option<Stream>, events: seq<Event>) {
    events != [] ==>
      var before := events[..|events| - 1];
      AllFindFree(w, stream, before) && FindsFree(w, Run(w, stream, before), events[|events| - 1])
  }

  ghost predicate AllFindUnclaimed(w: World, stream: Option<Stream>, events: seq<Event>) {
    events != [] ==>
      var before := events[..|events| - 1];
      AllFindUnclaimed(w, stream, before) && FindsUnclaimed(w, Run(w, stream, before), events[|events| - 1])
  }

  /** No commit stops between its two statements. */
  ghost predicate AllAttach(events: seq<Event>) {
    forall i :: 0 <= i < |events| && events[i].CommitOffer? ==> events[i].attached
  }

  lemma OneMoreApart(batches: seq<BatchRow>, row: BatchRow)
    ensures PairwiseApart(batches + [row]) <==> PairwiseApart(batches) && ApartFromAll(batches, row)
  {
    var all := batches + [row];
    if PairwiseApart(all) {
      forall x, y | 0 <= x < y < |batches| ensures Apart(batches[x], batches[y]) { assert Apart(all[x], all[y]); }
      forall id | 0 <= id < |batches| ensures Apart(batches[id], row) { assert Apart(all[id], all[|batches|]); }
    }
  }

  lemma NextApart(w: World, s: State, event: Event)
    requires Good(w, s)
    ensures PairwiseApart(Next(w, s, event).tables.batches) <==>
              PairwiseApart(s.tables.batches) && FindsFree(w, s, event)
  {
    if Stores(w, s, event) {
      StoredIsLast(w, s, event);
      OneMoreApart(s.tables.batches, Stored(w, s, event));
      ApartExactly(w, s.tables, Stored(w, s, event));
    } else {
      NothingStored(w, s, event);
    }
  }

  /**
   In every run, with commits that stop halfway and offers that are stale or repeated: the committed
   batches are pairwise disjoint exactly when each of them found its range free.
   */
  lemma {:induction false} BatchesDisjointExactly(w: World, stream: Option<Stream>, events: seq<Event>)
    ensures PairwiseApart(Run(w, stream, events).tables.batches) <==> AllFindFree(w, stream, events)
  {
    if events != [] {
      var before := events[..|events| - 1];
      BatchesDisjointExactly(w, stream, before);
      RunKeepsGood(w, stream, before);
      NextApart(w, Run(w, stream, before), events[|events| - 1]);
    }
  }

  lemma NextKeepsComplete(w: World, s: State, event: Event)
    requires Good(w, s) && AllComplete(s.tables) && FindsUnclaimed(w, s, event) &&
               (event.CommitOffer? ==> event.attached)
    ensures AllComplete(Next(w, s, event).tables)
  {
    match event
    case MeterCall(call) => if Meter(w, s.tables, call).Ok? { MeteringKeepsComplete(w, s.tables, call); }
    case SettleStream(_) => OnlyStreamChanges(w, s, event);
    case Prepare(_, _) => OnlyStreamChanges(w, s, event);
    case CommitOffer(_, _, _, _) =>
      if Stores(w, s, event) { CommitKeepsComplete(w, s, event); }
  }

  lemma OnlyStreamChanges(w: World, s: State, event: Event)
    requires event.SettleStream? || event.Prepare?
    ensures Next(w, s, event).tables.leaves == s.tables.leaves && Next(w, s, event).tables.batches == s.tables.batches
    ensures AllComplete(s.tables) ==> AllComplete(Next(w, s, event).tables)
  {
    var after := Next(w, s, event).tables;
    assert forall id :: 0 <= id < |after.batches| && Complete(s.tables, id) ==> Complete(after, id);
  }

  lemma {:induction false} WholeCommitsStayComplete(w: World, stream: Option<Stream>, events: seq<Event>)
    requires AllAttach(events) && AllFindUnclaimed(w, stream, events)
    ensures AllComplete(Run(w, stream, events).tables) && AllFindFree(w, stream, events)
  {
    if events != [] {
      var before, event := events[..|events| - 1], events[|events| - 1];
      var s := Run(w, stream, before);
      WholeCommitsStayComplete(w, stream, before);
      RunKeepsGood(w, stream, before);
      NextKeepsComplete(w, s, event);
      if Stores(w, s, event) { ApartExactly(w, s.tables, Stored(w, s, event)); }
    }
  }

  lemma {:induction false} FreeIsUnclaimed(w: World, stream: Option<Stream>, events: seq<Event>)
    requires AllFindFree(w, stream, events)
    ensures AllFindUnclaimed(w, stream, events)
  {
    if events != [] { FreeIsUnclaimed(w, stream, events[..|events| - 1]); }
  }

  /**
   In every run whose commits all claim their leaves: the committed batches are pairwise disjoint
   exactly when each of them found no leaf of its range claimed, and then all of them are complete.
   */
  lemma WholeBatchesDisjointExactly(w: World, stream: Option<Stream>, events: seq<Event>)
    requires AllAttach(events)
    ensures PairwiseApart(Run(w, stream, events).tables.batches) <==> AllFindUnclaimed(w, stream, events)
    ensures AllFindUnclaimed(w, stream, events) ==> AllComplete(Run(w, stream, events).tables)
  {
    BatchesDisjointExactly(w, stream, events);
    if AllFindUnclaimed(w, stream, events) { WholeCommitsStayComplete(w, stream, events); }
    if AllFindFree(w, stream, events) { FreeIsUnclaimed(w, stream, events); }
  }

  // ----- two ways to commit a range twice

  /** The same commit, with both of its statements. */
  function Whole(event: Event): Event
    requires event.CommitOffer?
  {
    event.(attached := true)
  }

  /** An offer that was committed, wholly or halfway, commits again: nothing it is checked for has changed. */
  lemma StoresAgain(w: World, s: State, event: Event)
    requires Good(w, s) && Stores(w, s, event)
    ensures var once := Next(w, s, event);
            Good(w, once) && Stores(w, once, Whole(event)) && Stored(w, once, Whole(event)) == Stored(w, s, event)
  {
    CommitKeepsGood(w, s, event.offer, event.seller, event.signature, event.attached);
  }

  lemma SameRowTwice(batches: seq<BatchRow>, row: BatchRow)
    requires RowAllowed(row)
    ensures !PairwiseApart(batches + [row] + [row])
  {
    var all := batches + [row] + [row];
    assert !Apart(all[|batches|], all[|batches| + 1]);
  }

  lemma RunLonger(w: World, stream: Option<Stream>, events: seq<Event>, e: Event, longer: seq<Event>)
    requires longer == events + [e]
    ensures Run(w, stream, longer) == Next(w, Run(w, stream, events), e)
  {
    assert longer[..|longer| - 1] == events;
  }

  /** Committed twice, an offer leaves two batches over one range; the second finds leaves of it claimed. */
  lemma OfferTwiceOverlaps(w: World, stream: Option<Stream>, events: seq<Event>, event: Event)
    requires Stores(w, Run(w, stream, events), event) && event.attached
    ensures !PairwiseApart(Run(w, stream, events + [event, event]).tables.batches)
    ensures !FindsUnclaimed(w, Run(w, stream, events + [event]), event)
  {
    var s, once := Run(w, stream, events), Run(w, stream, events + [event]);
    RunKeepsGood(w, stream, events);
    RunLonger(w, stream, events, event, events + [event]);
    RunLonger(w, stream, events + [event], event, events + [event, event]);
    StoresAgain(w, s, event);
    StoredTwice(w, s, event);
    var i := FirstLeafClaimed(w, s, event.offer, event.seller, event.signature);
    assert InRow(once.tables.leaves[i], Stored(w, s, event));
  }

  lemma StoredTwice(w: World, s: State, event: Event)
    requires Good(w, s) && Stores(w, s, event)
    ensures var twice := Next(w, Next(w, s, event), Whole(event));
            && |twice.tables.batches| == |s.tables.batches| + 2 && !PairwiseApart(twice.tables.batches)
  {
    StoresAgain(w, s, event);
    StoredIsLast(w, s, event);
    StoredIsLast(w, Next(w, s, event), Whole(event));
    SameRowTwice(s.tables.batches, Stored(w, s, event));
  }

  /** A commit that found its range unclaimed leaves its own batch complete. */
  lemma WholeIsComplete(w: World, s: State, event: Event)
    requires Good(w, s) && Stores(w, s, event) && event.attached && FindsUnclaimed(w, s, event)
    ensures var batches := Next(w, s, event).tables.batches;
            |batches| > 0 && Complete(Next(w, s, event).tables, |batches| - 1)
  {
    StoredIsLast(w, s, event);
    CompleteExactly(w, s, event.offer, event.seller, event.signature);
  }

  lemma HalfDoneClaimsNothing(w: World, s: State, event: Event)
    requires Good(w, s) && Stores(w, s, event) && !event.attached && FindsUnclaimed(w, s, event)
    ensures FindsUnclaimed(w, Next(w, s, event), Whole(event))
  {
    StoresAgain(w, s, event);
    assert Next(w, s, event).tables.leaves == s.tables.leaves;
  }

  /**
   A commit that stops after its row, and the same offer committed whole: again two batches over one
   range, although each of them found it unclaimed, and the second is complete.
   */
  lemma HalfDoneOverlaps(w: World, stream: Option<Stream>, events: seq<Event>, event: Event)
    requires Stores(w, Run(w, stream, events), event) && !event.attached &&
               FindsUnclaimed(w, Run(w, stream, events), event)
    ensures var twice := Run(w, stream, events + [event, Whole(event)]);
            && !PairwiseApart(twice.tables.batches)
            && |twice.tables.batches| > 0 && Complete(twice.tables, |twice.tables.batches| - 1)
    ensures FindsUnclaimed(w, Run(w, stream, events + [event]), Whole(event))
  {
    var s, once := Run(w, stream, events), Run(w, stream, events + [event]);
    RunKeepsGood(w, stream, events);
    RunLonger(w, stream, events, event, events + [event]);
    RunLonger(w, stream, events + [event], Whole(event), events + [event, Whole(event)]);
    StoresAgain(w, s, event);
    StoredTwice(w, s, event);
    HalfDoneClaimsNothing(w, s, event);
    WholeIsComplete(w, once, Whole(event));
  }

  // ----- and both are reached

  /** Takes every signature of the right width, and skips the clock. */
  function AnySignature(sha: Hash): World {
    World(Rules((key, message, signature) => true, 0), sha, 0)
  }

  function SixtyFour(): seq<byte> {
    seq(SIGNATURE_BYTES, _ => 0)
  }

  function FirstCall(signer: string): Attestation {
    Attestation(Fields(0, 0, Filled(0), Filled(0), 0, Filled(0)), SixtyFour(), signer)
  }

  /** One call, metered and offered for a batch. */
  function OneCallOffered(): seq<Event> {
    [MeterCall(Call(Some(FirstCall("")), "S", 0, true)), Prepare(1, 1)]
  }

  function OneCall(): Option<Stream> {
    Some(Stream(true, 1, 0))
  }

  lemma OneCallMetered(sha: Hash)
    ensures var s := Next(AnySignature(sha), Run(AnySignature(sha), OneCall(), []), OneCallOffered()[0]);
            s.tables.leaves == [Leaf(FirstCall("S"), None)] && s.tables.batches == [] && s.offers == []
  {
    var w, att, call := AnySignature(sha), FirstCall(""), OneCallOffered()[0].call;
    assert WellShaped(att) && Encodable(att.fields);
    assert Check(w.rules, att, Expectation("S", Some(0), 0)) == Passed;
    assert Meter(w, Tables(OneCall(), [], [], []), call).Ok?;
  }

  lemma OnlyCallBuilds()
    ensures Buildable([FirstCall("S")]) && InRun([FirstCall("S")], 0)
  {
    assert InRun([FirstCall("S")], 0);
  }

  lemma OnlyCallIsOffered(t: Tables)
    requires t.leaves == [Leaf(FirstCall("S"), None)]
    ensures OfferOf(t, 1, 1) == Offer([FirstCall("S")])
  {
    var run := [FirstCall("S")];
    assert t.leaves[..0] == [] && Held(t.leaves, None) == run;
    assert Pending(t, 1) == run && run[..RunEnd(run, 1)] == run;
    OnlyCallBuilds();
  }

  lemma OneCallIsOffered(sha: Hash)
    ensures var s := Run(AnySignature(sha), OneCall(), OneCallOffered());
            s.offers == [[FirstCall("S")]] && s.tables.leaves == [Leaf(FirstCall("S"), None)] && s.tables.batches == []
  {
    var w, metered, prepared := AnySignature(sha), OneCallOffered()[0], OneCallOffered()[1];
    OneCallMetered(sha);
    RunLonger(w, OneCall(), [], metered, [metered]);
    RunLonger(w, OneCall(), [metered], prepared, OneCallOffered());
    OnlyCallIsOffered(Next(w, Run(w, OneCall(), []), metered).tables);
  }

  lemma OnlyCallStores(sha: Hash, s: State, attached: bool)
    requires s.offers == [[FirstCall("S")]] && s.tables.leaves == [Leaf(FirstCall("S"), None)]
    ensures Stores(AnySignature(sha), s, CommitOffer(0, "S", SixtyFour(), attached))
    ensures FindsUnclaimed(AnySignature(sha), s, CommitOffer(0, "S", SixtyFour(), attached))
  {
    OnlyCallBuilds();
    assert RowAllowed(RowFor(sha, [FirstCall("S")], "S", SixtyFour()));
  }

  /** From an empty archive, one call is enough for both. */
  lemma OverlapIsReached(sha: Hash, attached: bool)
    ensures var w, event := AnySignature(sha), CommitOffer(0, "S", SixtyFour(), attached);
            && Stores(w, Run(w, OneCall(), OneCallOffered()), event)
            && FindsUnclaimed(w, Run(w, OneCall(), OneCallOffered()), event)
            && !PairwiseApart(Run(w, OneCall(), OneCallOffered() + [event, Whole(event)]).tables.batches)
  {
    var w, event := AnySignature(sha), CommitOffer(0, "S", SixtyFour(), attached);
    OneCallIsOffered(sha);
    OnlyCallStores(sha, Run(w, OneCall(), OneCallOffered()), attached);
    if attached {
      OfferTwiceOverlaps(w, OneCall(), OneCallOffered(), event);
    } else {
      HalfDoneOverlaps(w, OneCall(), OneCallOffered(), event);
    }
  }
}
