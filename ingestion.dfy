/**
 * The message loop of the first service generation (backend/kafka.go,
 * ConsumeKafka): fetch a message, decode it, skip it without a uid, save it,
 * write it to the plain cache and only then commit its offset. The broker,
 * the JSON decoder and the save are oracles: each round of the loop is given
 * as an Input saying what they returned.
 */
module Ingestion {
  import opened Wrappers
  import opened Domain
  import BackendCache

  /** What FetchMessage returned: an error, or a message at `offset` whose payload decodes to `decoded` (None: invalid JSON). */
  datatype Fetched = FetchFailed | Fetched(offset: nat, decoded: Option<Order>)

  /** One round of the loop: the fetch, whether SaveOrderTx succeeds, whether CommitMessages succeeds. */
  datatype Input = Input(fetch: Fetched, saveOk: bool, commitOk: bool)

  /** The effects a round has on the outside world, in the order they happen. */
  datatype Event = Saved(uid: string) | Cached(uid: string) | Committed(offset: nat)

  /** The order a round saves, or None when it is skipped before or at the save. */
  function SavedBy(round: Input): Option<Order> {
    if round.fetch.FetchFailed? || round.fetch.decoded.None? then None
    else if round.fetch.decoded.value.orderUid == "" then None
    else if !round.saveOk then None
    else round.fetch.decoded
  }

  /** The effects of one round. */
  function StepEvents(round: Input): (evs: seq<Event>)
    ensures evs == [] <==> SavedBy(round).None?
    ensures |evs| <= 3
  {
    match SavedBy(round)
    case None => []
    case Some(o) => [Saved(o.orderUid), Cached(o.orderUid)] + (if round.commitOk then [Committed(round.fetch.offset)] else [])
  }

  /** The cache after one round. */
  function StepCache(m: map<string, Order>, round: Input): map<string, Order> {
    match SavedBy(round)
    case None => m
    case Some(o) => m[o.orderUid := o]
  }

  /** The effects of a sequence of rounds. */
  function RunEvents(ins: seq<Input>): seq<Event> {
    if ins == [] then [] else RunEvents(ins[..|ins| - 1]) + StepEvents(ins[|ins| - 1])
  }

  /** The cache after a sequence of rounds. */
  function RunCache(m: map<string, Order>, ins: seq<Input>): map<string, Order> {
    if ins == [] then m else StepCache(RunCache(m, ins[..|ins| - 1]), ins[|ins| - 1])
  }

  // ---------------------------------------------------------------------------
  // Ordering of the effects

  /**
   * Every cache write comes right after the save of the same uid, and every
   * commit right after such a cache write.
   */
  predicate WellOrdered(evs: seq<Event>) {
    && (forall i | 0 <= i < |evs| && evs[i].Cached? :: i >= 1 && evs[i - 1] == Saved(evs[i].uid))
    && (forall i | 0 <= i < |evs| && evs[i].Committed? :: i >= 2 && evs[i - 1].Cached? && evs[i - 2] == Saved(evs[i - 1].uid))
  }

  /** Appending a block that starts with a save keeps the ordering. */
  lemma WellOrderedAppend(a: seq<Event>, b: seq<Event>)
    requires WellOrdered(a) && WellOrdered(b)
    requires b != [] ==> b[0].Saved?
    ensures WellOrdered(a + b)
  {
    var c := a + b;
    forall i | 0 <= i < |c| && c[i].Cached?
      ensures i >= 1 && c[i - 1] == Saved(c[i].uid)
    {
      if i >= |a| {
        assert c[i] == b[i - |a|];
      }
    }
    forall i | 0 <= i < |c| && c[i].Committed?
      ensures i >= 2 && c[i - 1].Cached? && c[i - 2] == Saved(c[i - 1].uid)
    {
      if i >= |a| {
        assert c[i] == b[i - |a|];
        if i - 1 >= |a| {
          assert c[i - 1] == b[i - 1 - |a|];
        }
      }
    }
  }

  /** Over any run, a cache write always follows a successful save and a commit always follows a cache write. */
  lemma {:induction false} RunWellOrdered(ins: seq<Input>)
    ensures WellOrdered(RunEvents(ins))
  {
    if ins != [] {
      RunWellOrdered(ins[..|ins| - 1]);
      WellOrderedAppend(RunEvents(ins[..|ins| - 1]), StepEvents(ins[|ins| - 1]));
    }
  }

  /** A committed offset belongs to a message that was decoded, had a uid, was saved and whose commit succeeded. */
  lemma {:induction false} CommittedWasSaved(ins: seq<Input>, k: nat)
    requires k < |RunEvents(ins)| && RunEvents(ins)[k].Committed?
    ensures exists i | 0 <= i < |ins| ::
              SavedBy(ins[i]).Some? && ins[i].commitOk && ins[i].fetch.offset == RunEvents(ins)[k].offset
  {
    var init := ins[..|ins| - 1];
    var last := ins[|ins| - 1];
    assert RunEvents(ins) == RunEvents(init) + StepEvents(last);
    if k < |RunEvents(init)| {
      assert RunEvents(ins)[k] == RunEvents(init)[k];
      CommittedWasSaved(init, k);
      var i :| 0 <= i < |init| && SavedBy(init[i]).Some? && init[i].commitOk
                && init[i].fetch.offset == RunEvents(init)[k].offset;
      assert ins[i] == init[i];
    } else {
      assert RunEvents(ins)[k] == StepEvents(last)[k - |RunEvents(init)|];
      assert ins[|ins| - 1] == last;
    }
  }

  /** A round that skips the save has no effect at all: no save, no cache write, no commit. */
  lemma SkippedRoundHasNoEffect(m: map<string, Order>, round: Input)
    requires round.fetch.FetchFailed? || round.fetch.decoded.None? || round.fetch.decoded.value.orderUid == "" || !round.saveOk
    ensures StepEvents(round) == [] && StepCache(m, round) == m
  {
  }

  /** A failed commit undoes nothing: the save and the cache write stand, only the commit is missing. */
  lemma FailedCommitKeepsWrites(m: map<string, Order>, round: Input)
    requires SavedBy(round).Some? && !round.commitOk
    ensures var o := SavedBy(round).value;
            StepEvents(round) == [Saved(o.orderUid), Cached(o.orderUid)] && StepCache(m, round) == m[o.orderUid := o]
  {
  }

  /** After a run, the last order saved under a uid is what the cache holds for it. */
  lemma {:induction false} LastSaveIsCached(m: map<string, Order>, ins: seq<Input>, i: nat)
    requires i < |ins| && SavedBy(ins[i]).Some?
    requires forall j | i < j < |ins| && SavedBy(ins[j]).Some? ::
               SavedBy(ins[j]).value.orderUid != SavedBy(ins[i]).value.orderUid
    ensures var o := SavedBy(ins[i]).value;
            o.orderUid in RunCache(m, ins) && RunCache(m, ins)[o.orderUid] == o
  {
    var init := ins[..|ins| - 1];
    if i < |ins| - 1 {
      assert init[i] == ins[i];
      assert forall j | i < j < |init| :: init[j] == ins[j];
      LastSaveIsCached(m, init, i);
    }
  }

  /** An uncached uid stays uncached by every round that does not save it. */
  lemma {:induction false} UnsavedUidNotCached(m: map<string, Order>, ins: seq<Input>, uid: string)
    requires uid !in m
    requires forall j | 0 <= j < |ins| && SavedBy(ins[j]).Some? :: SavedBy(ins[j]).value.orderUid != uid
    ensures uid !in RunCache(m, ins)
  {
    if ins != [] {
      UnsavedUidNotCached(m, ins[..|ins| - 1], uid);
    }
  }

  // ---------------------------------------------------------------------------
  // The consumer

  class Consumer {
    const cache: BackendCache.OrderCache
    /** The saves, cache writes and commits made so far. */
    var events: seq<Event>

    constructor (cache: BackendCache.OrderCache)
      ensures this.cache == cache && events == []
    {
      this.cache := cache;
      events := [];
    }

    /** One iteration of the loop; every early `continue` skips all later effects. */
    method Step(round: Input)
      modifies this, cache
      ensures events == old(events) + StepEvents(round)
      ensures cache.orders == StepCache(old(cache.orders), round)
    {
      if round.fetch.FetchFailed? {
        return;
      }
      if round.fetch.decoded.None? {
        return;
      }
      var order := round.fetch.decoded.value;
      if order.orderUid == "" {
        return;
      }
      if !round.saveOk {
        return;
      }
      events := events + [Saved(order.orderUid)];
      cache.Set(order);
      events := events + [Cached(order.orderUid)];
      if round.commitOk {
        events := events + [Committed(round.fetch.offset)];
      }
    }

    /** The loop over a finite prefix `ins` of its rounds. */
    method Run(ins: seq<Input>)
      modifies this, cache
      ensures events == old(events) + RunEvents(ins)
      ensures cache.orders == RunCache(old(cache.orders), ins)
    {
      var i := 0;
      while i < |ins|
        invariant 0 <= i <= |ins|
        invariant events == old(events) + RunEvents(ins[..i])
        invariant cache.orders == RunCache(old(cache.orders), ins[..i])
      {
        assert ins[..i + 1][..i] == ins[..i];
        Step(ins[i]);
        i := i + 1;
      }
      assert ins[..|ins|] == ins;
    }
  }

  /** A consumer started with an empty log produces only well-ordered effects. */
  method RunFresh(cache: BackendCache.OrderCache, ins: seq<Input>) returns (c: Consumer)
    modifies cache
    ensures c.cache == cache && c.events == RunEvents(ins)
    ensures WellOrdered(c.events)
    ensures cache.orders == RunCache(old(cache.orders), ins)
  {
    c := new Consumer(cache);
    c.Run(ins);
    RunWellOrdered(ins);
  }
}
