/** bufqueue.Queue used by one goroutine: a memqueue refilled by a provider, and a pending
    buffer emptied into an enqueuer. */
module BufQueue {
  import opened Clock
  import opened Checks
  import opened Float64
  import opened MemQueue

  /** Everything in a sequence of batches. */
  function Everything(batches: seq<seq<Check>>): multiset<Check> {
    if batches == [] then multiset{}
    else Everything(batches[..|batches| - 1]) + multiset(batches[|batches| - 1])
  }

  lemma EverythingAppend(batches: seq<seq<Check>>, batch: seq<Check>)
    ensures Everything(batches + [batch]) == Everything(batches) + multiset(batch)
  {
    assert (batches + [batch])[..|batches|] == batches;
  }

  ghost predicate QueueBalances<T>(
    provided: multiset<T>, delivered: multiset<T>, inner: multiset<T>, flushed: multiset<T>)
  {
    provided == delivered + inner + flushed
  }

  ghost predicate SaveBalances<T>(
    accepted: multiset<T>, flushed: multiset<T>, pending: multiset<T>, saved: multiset<T>)
  {
    accepted + flushed == pending + saved
  }

  /** From the list before, the head is delivered if it is due, and nothing otherwise. */
  ghost predicate Delivers(before: seq<Entry>, now: Time, chk: Check?, after: seq<Entry>)
    reads set e | e in before :: e.chk
  {
    if Ready(before, now) then chk == before[0].chk && after == before[1..] else chk == null && after == before
  }

  /** An empty slice is not handed over. */
  function AsBatch(chks: seq<Check>): seq<seq<Check>> {
    if chks == [] then [] else [chks]
  }

  class BufferedQueue {
    const queue: Queue
    var pendingEnqueued: seq<Check>
    /** The batches the CheckEnqueuer received, in order. */
    var saved: seq<seq<Check>>

    /** Ledgers: what the provider gave, what Dequeue delivered, what Enqueue took and what Flush
        moved from the inner queue to the enqueuer. */
    ghost var provided: multiset<Check>
    ghost var delivered: multiset<Check>
    ghost var accepted: multiset<Check>
    ghost var flushed: multiset<Check>
    /** Everything in saved. */
    ghost var stored: multiset<Check>

    ghost function Inner(): multiset<Check>
      reads this, queue
    {
      multiset(ChecksOf(queue.entries))
    }

    /** Both ledgers balance: provided checks are delivered, still queued or flushed; accepted and
        flushed checks are pending or saved. */
    ghost predicate Valid()
      reads this, queue
    {
      && queue.Valid() && queue.Near()
      && QueueBalances(provided, delivered, Inner(), flushed)
      && SaveBalances(accepted, flushed, multiset(pendingEnqueued), stored)
      && stored == Everything(saved)
    }

    constructor (overflow: Int64)
      ensures Valid() && fresh(queue)
      ensures pendingEnqueued == [] && saved == [] && queue.entries == []
      ensures provided == delivered == accepted == flushed == multiset{}
    {
      queue := new Queue(overflow);
      pendingEnqueued := [];
      saved := [];
      provided, delivered, accepted, flushed, stored := multiset{}, multiset{}, multiset{}, multiset{}, multiset{};
    }

    method Enqueue(chk: Check)
      requires Valid()
      modifies this`pendingEnqueued, this`accepted
      ensures Valid()
      ensures pendingEnqueued == old(pendingEnqueued) + [chk]
      ensures accepted == old(accepted) + multiset{chk}
    {
      Grow(accepted, flushed, multiset{chk});
      Deposit(accepted + flushed, multiset(pendingEnqueued), stored, multiset{chk});
      pendingEnqueued := pendingEnqueued + [chk];
      accepted := accepted + multiset{chk};
    }

    /** batch and times are what the provider would return and the clock readings as its checks
        are queued; consulted says whether it was asked.  The check that is delivered is the head of
        the queue, or of the arranged batch when the queue was empty, if it is due. */
    method Dequeue(batch: seq<Check>, times: seq<Time>, now: Time) returns (chk: Check?, consulted: bool)
      requires Valid() && |times| == |batch| && AllNear(batch, times)
      modifies this`provided, this`delivered, queue, (set c | c in batch)`executed
      ensures Valid()
      ensures consulted <==> old(queue.entries) == []
      ensures provided == old(provided) + (if consulted then multiset(batch) else multiset{})
      ensures delivered == old(delivered) + (if chk == null then multiset{} else multiset{chk})
      ensures var before := if consulted then Arrange(old(Arrivals(batch, times))) else old(queue.entries);
              Delivers(before, now, chk, queue.entries)
    {
      consulted := queue.Count() == 0;
      if consulted {
        Refill(batch, times);
      }
      chk := Deliver(now);
    }

    method Deliver(now: Time) returns (chk: Check?)
      requires Valid()
      modifies this`delivered, queue
      ensures Valid()
      ensures Delivers(old(queue.entries), now, chk, queue.entries)
      ensures delivered == old(delivered) + (if chk == null then multiset{} else multiset{chk})
    {
      chk := TakeReady(now);
      if chk != null {
        MoveToDelivered(provided, delivered, multiset{chk}, Inner(), flushed);
        delivered := delivered + multiset{chk};
      }
    }

    method TakeReady(now: Time) returns (chk: Check?)
      requires queue.Valid() && queue.Near()
      modifies queue
      ensures queue.Valid() && queue.Near()
      ensures Delivers(old(queue.entries), now, chk, queue.entries)
      ensures old(Inner()) == (if chk == null then multiset{} else multiset{chk}) + Inner()
    {
      ghost var es := queue.entries;
      chk := queue.Dequeue(now);
      if chk != null {
        assert es == [es[0]] + es[1..];
        ChecksOfCons(es[0], es[1..]);
      }
    }

    method Refill(batch: seq<Check>, times: seq<Time>)
      requires Valid() && queue.entries == [] && |times| == |batch| && AllNear(batch, times)
      modifies this`provided, queue, (set c | c in batch)`executed
      ensures Valid() && provided == old(provided) + multiset(batch)
      ensures queue.entries == Arrange(old(Arrivals(batch, times)))
    {
      ghost var arrivals := Arrivals(batch, times);
      Fill(queue, batch, times);
      ArrangeChecks(arrivals);
      assert ChecksOf(arrivals) == batch;
      provided := provided + multiset(batch);
    }

    method EnqueuePending()
      requires Valid()
      modifies this`pendingEnqueued, this`saved, this`stored
      ensures Valid() && pendingEnqueued == []
      ensures saved == old(saved) + if old(pendingEnqueued) == [] then [] else [old(pendingEnqueued)]
      ensures stored == old(stored + multiset(pendingEnqueued))
    {
      var chks := pendingEnqueued;
      if |chks| > 0 {
        pendingEnqueued := [];
      }
      Save(chks);
    }

    /** Flush empties both buffers and saves every outstanding check exactly once: first the
        pending ones, then the ones still queued. */
    method Flush()
      requires Valid()
      modifies this`pendingEnqueued, this`saved, this`stored, this`flushed, queue
      ensures Valid() && pendingEnqueued == [] && queue.entries == []
      ensures Everything(saved) == old(Everything(saved) + multiset(pendingEnqueued) + Inner())
      ensures provided == delivered + flushed
      ensures accepted + flushed == Everything(saved)
      ensures exists rest ::
                && multiset(rest) == old(Inner())
                && saved == old(saved) + AsBatch(old(pendingEnqueued)) + AsBatch(rest)
    {
      EnqueuePending();
      ghost var rest := FlushInner();
      assert Inner() == multiset{};
    }

    method FlushInner() returns (ghost rest: seq<Check>)
      requires Valid()
      modifies this`saved, this`stored, this`flushed, queue
      ensures Valid() && queue.entries == []
      ensures stored == old(stored + Inner())
      ensures flushed == old(flushed + Inner())
      ensures multiset(rest) == old(Inner()) && saved == old(saved) + AsBatch(rest)
    {
      FlushLedger(provided, delivered, Inner(), flushed, accepted, multiset(pendingEnqueued), stored);
      var chks := TakeAll();
      Save(chks);
      flushed := flushed + multiset(chks);
      rest := chks;
    }

    /** Everything the inner queue holds, which is empty afterwards. */
    method TakeAll() returns (chks: seq<Check>)
      requires queue.Valid()
      modifies queue
      ensures queue.Valid() && queue.Near() && queue.entries == []
      ensures multiset(chks) == old(Inner()) && Inner() == multiset{}
    {
      chks := queue.All();
      queue.Flush();
    }

    /** Hands a batch over unless it is empty. */
    method Save(chks: seq<Check>)
      requires stored == Everything(saved)
      modifies this`saved, this`stored
      ensures saved == old(saved) + if chks == [] then [] else [chks]
      ensures stored == Everything(saved) == old(stored) + multiset(chks)
    {
      if |chks| > 0 {
        EverythingAppend(saved, chks);
        saved := saved + [chks];
        stored := stored + multiset(chks);
      }
    }
  }

  lemma {:induction false} InsertChecks(es: seq<Entry>, e: Entry)
    ensures multiset(ChecksOf(Insert(es, e))) == multiset(ChecksOf(es)) + multiset{e.chk}
  {
    if es != [] && es[0].Priority() <= e.Priority() {
      InsertChecks(es[1..], e);
      ChecksOfCons(es[0], Insert(es[1..], e));
      ChecksOfCons(es[0], es[1..]);
      assert es == [es[0]] + es[1..];
    } else {
      ChecksOfCons(e, es);
    }
  }

  /** Arranging keeps the checks. */
  lemma {:induction false} ArrangeChecks(arrivals: seq<Entry>)
    ensures multiset(ChecksOf(Arrange(arrivals))) == multiset(ChecksOf(arrivals))
    decreases |arrivals|
  {
    if arrivals != [] {
      var front, e := arrivals[..|arrivals| - 1], arrivals[|arrivals| - 1];
      ArrangeChecks(front);
      InsertChecks(Arrange(front), e);
      assert arrivals == front + [e];
      ChecksOfSnoc(front, e);
    }
  }

  lemma ChecksOfSnoc(es: seq<Entry>, e: Entry)
    ensures multiset(ChecksOf(es + [e])) == multiset(ChecksOf(es)) + multiset{e.chk}
  {
    assert ChecksOf(es + [e]) == ChecksOf(es) + [e.chk];
  }

  /** What leaves the queue is delivered. */
  lemma MoveToDelivered<T>(
    provided: multiset<T>, delivered: multiset<T>, m: multiset<T>, inner: multiset<T>, flushed: multiset<T>)
    requires QueueBalances(provided, delivered, m + inner, flushed)
    ensures QueueBalances(provided, delivered + m, inner, flushed)
  {
  }

  lemma Deposit<T>(total: multiset<T>, x: multiset<T>, y: multiset<T>, m: multiset<T>)
    requires total == x + y
    ensures total + m == (x + m) + y && total + m == x + (y + m)
  {
  }

  /** Flushing moves what is left in the queue from one ledger to the other. */
  lemma FlushLedger<T>(provided: multiset<T>, delivered: multiset<T>, left: multiset<T>, flushed: multiset<T>,
                       accepted: multiset<T>, pending: multiset<T>, saved: multiset<T>)
    requires QueueBalances(provided, delivered, left, flushed) && SaveBalances(accepted, flushed, pending, saved)
    ensures QueueBalances(provided, delivered, multiset{}, flushed + left)
    ensures SaveBalances(accepted, flushed + left, pending, saved + left)
  {
    Grow(accepted, flushed, left);
    Deposit(accepted + flushed, pending, saved, left);
  }

  lemma Grow<T>(a: multiset<T>, f: multiset<T>, m: multiset<T>)
    ensures (a + m) + f == (a + f) + m && a + (f + m) == (a + f) + m
  {
  }
}
