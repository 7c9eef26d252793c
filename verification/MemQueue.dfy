/** memqueue.Queue: FIFO buckets by due second, refining a stably sorted list. */
module MemQueue {
  import opened Clock
  import opened Checks
  import opened Float64

  // ---- the list the buckets stand for ----

  /** A queued check, when it was enqueued and when it was due as seen then. */
  datatype Entry = Entry(chk: Check, at: Time, due: Time) {
    function Priority(): int {
      Unix(due)
    }

    /** The check still has the schedule and last-check time it was enqueued with. */
    predicate Untouched(now: Time)
      reads chk
    {
      at <= now && due == chk.DueAt(at)
    }
  }

  predicate Sorted(es: seq<Entry>) {
    forall i, j :: 0 <= i < j < |es| ==> es[i].Priority() <= es[j].Priority()
  }

  /** e goes behind every entry of the same or a smaller priority. */
  function Insert(es: seq<Entry>, e: Entry): seq<Entry> {
    if es != [] && es[0].Priority() <= e.Priority() then [es[0]] + Insert(es[1..], e) else [e] + es
  }

  /** The list after enqueueing arrivals in order. */
  function Arrange(arrivals: seq<Entry>): seq<Entry> {
    if arrivals == [] then [] else Insert(Arrange(arrivals[..|arrivals| - 1]), arrivals[|arrivals| - 1])
  }

  /** The entries of one priority, in order. */
  function Bucket(es: seq<Entry>, p: int): seq<Entry> {
    if es == [] then []
    else if es[0].Priority() == p then [es[0]] + Bucket(es[1..], p)
    else Bucket(es[1..], p)
  }

  function ChecksOf(es: seq<Entry>): (cs: seq<Check>)
    ensures |cs| == |es| && forall i :: 0 <= i < |es| ==> cs[i] == es[i].chk
  {
    seq(|es|, i requires 0 <= i < |es| => es[i].chk)
  }

  /** A new entry goes between those of the same or a smaller priority and those of a larger one,
      which keep their order. */
  lemma {:induction false} InsertSplits(es: seq<Entry>, e: Entry) returns (k: nat)
    requires Sorted(es)
    ensures k <= |es| && Insert(es, e) == es[..k] + [e] + es[k..]
    ensures forall i :: 0 <= i < k ==> es[i].Priority() <= e.Priority()
    ensures forall i :: k <= i < |es| ==> e.Priority() < es[i].Priority()
  {
    if es != [] && es[0].Priority() <= e.Priority() {
      var j := InsertSplits(es[1..], e);
      k := j + 1;
      assert es[..k] == [es[0]] + es[1..][..j] && es[k..] == es[1..][j..];
    } else {
      k := 0;
    }
  }

  lemma {:induction false} InsertKeeps(es: seq<Entry>, e: Entry)
    ensures multiset(Insert(es, e)) == multiset(es) + multiset{e}
  {
    if es != [] && es[0].Priority() <= e.Priority() {
      InsertKeeps(es[1..], e);
      assert es == [es[0]] + es[1..];
    }
  }

  lemma {:induction false} InsertAbove(es: seq<Entry>, e: Entry, p: int)
    requires p <= e.Priority() && forall i :: 0 <= i < |es| ==> p <= es[i].Priority()
    ensures forall i :: 0 <= i < |Insert(es, e)| ==> p <= Insert(es, e)[i].Priority()
  {
    if es != [] && es[0].Priority() <= e.Priority() {
      InsertAbove(es[1..], e, p);
    }
  }

  lemma {:induction false} InsertSorted(es: seq<Entry>, e: Entry)
    requires Sorted(es)
    ensures Sorted(Insert(es, e))
    ensures Insert(es, e)[0] == if es != [] && es[0].Priority() <= e.Priority() then es[0] else e
  {
    if es != [] && es[0].Priority() <= e.Priority() {
      InsertSorted(es[1..], e);
      InsertAbove(es[1..], e, es[0].Priority());
      ConsSorted(es[0], Insert(es[1..], e));
    } else {
      ConsSorted(e, es);
    }
  }

  lemma ConsSorted(e: Entry, es: seq<Entry>)
    requires Sorted(es) && forall i :: 0 <= i < |es| ==> e.Priority() <= es[i].Priority()
    ensures Sorted([e] + es)
  {
  }

  lemma {:induction false} InsertLonger(es: seq<Entry>, e: Entry)
    ensures |Insert(es, e)| == |es| + 1
  {
    if es != [] && es[0].Priority() <= e.Priority() {
      InsertLonger(es[1..], e);
    }
  }

  lemma {:induction false} InsertBucket(es: seq<Entry>, e: Entry, p: int)
    requires Sorted(es)
    ensures Bucket(Insert(es, e), p) == Bucket(es, p) + (if e.Priority() == p then [e] else [])
  {
    if es != [] && es[0].Priority() <= e.Priority() {
      InsertBucket(es[1..], e, p);
      assert Insert(es, e)[1..] == Insert(es[1..], e);
    } else {
      assert Insert(es, e)[1..] == es;
      if e.Priority() == p {
        BucketBelow(es, p);
      }
    }
  }

  /** A sorted list that starts above p has no entry of priority p. */
  lemma {:induction false} BucketBelow(es: seq<Entry>, p: int)
    requires Sorted(es) && (es != [] ==> p < es[0].Priority())
    ensures Bucket(es, p) == []
  {
    if es != [] {
      BucketBelow(es[1..], p);
    }
  }

  lemma {:induction false} BucketMember(es: seq<Entry>, p: int)
    ensures Bucket(es, p) != [] <==> exists i :: 0 <= i < |es| && es[i].Priority() == p
  {
    if es != [] {
      BucketMember(es[1..], p);
      if i :| 0 <= i < |es| && es[i].Priority() == p && es[0].Priority() != p {
        assert es[1..][i - 1].Priority() == p;
      }
    }
  }

  /** Enqueueing sorts stably: the list is sorted, holds the arrivals, and keeps the arrival
      order among entries of the same priority. */
  lemma {:induction false} ArrangeIsStableSort(arrivals: seq<Entry>)
    ensures Sorted(Arrange(arrivals))
    ensures multiset(Arrange(arrivals)) == multiset(arrivals)
    ensures forall p :: Bucket(Arrange(arrivals), p) == Bucket(arrivals, p)
    decreases |arrivals|
  {
    if arrivals != [] {
      var front, e := arrivals[..|arrivals| - 1], arrivals[|arrivals| - 1];
      assert arrivals == front + [e];
      ArrangeIsStableSort(front);
      InsertSorted(Arrange(front), e);
      InsertKeeps(Arrange(front), e);
      forall p
        ensures Bucket(Arrange(arrivals), p) == Bucket(arrivals, p)
      {
        InsertBucket(Arrange(front), e, p);
        BucketAppend(front, e, p);
      }
    }
  }

  lemma {:induction false} BucketAppend(es: seq<Entry>, e: Entry, p: int)
    ensures Bucket(es + [e], p) == Bucket(es, p) + (if e.Priority() == p then [e] else [])
  {
    if es == [] {
      assert es + [e] == [e];
    } else {
      assert (es + [e])[1..] == es[1..] + [e];
      BucketAppend(es[1..], e, p);
    }
  }

  /** es without its first entry of priority p. */
  function RemoveFirst(es: seq<Entry>, p: int): seq<Entry> {
    if es == [] then []
    else if es[0].Priority() == p then es[1..]
    else [es[0]] + RemoveFirst(es[1..], p)
  }

  lemma {:induction false} RemoveFirstFrom(es: seq<Entry>, p: int)
    ensures forall i :: 0 <= i < |RemoveFirst(es, p)| ==> RemoveFirst(es, p)[i] in es
    ensures |RemoveFirst(es, p)| == if Bucket(es, p) == [] then |es| else |es| - 1
  {
    if es != [] && es[0].Priority() != p {
      RemoveFirstFrom(es[1..], p);
    }
  }

  lemma {:induction false} RemoveFirstSorted(es: seq<Entry>, p: int)
    requires Sorted(es)
    ensures Sorted(RemoveFirst(es, p))
  {
    if es != [] && es[0].Priority() != p {
      RemoveFirstSorted(es[1..], p);
      RemoveFirstFrom(es[1..], p);
      ConsSorted(es[0], RemoveFirst(es[1..], p));
    }
  }

  lemma {:induction false} RemoveFirstBucket(es: seq<Entry>, p: int, q: int)
    ensures Bucket(RemoveFirst(es, p), q) ==
            if q == p && Bucket(es, p) != [] then Bucket(es, p)[1..] else Bucket(es, q)
  {
    if es != [] && es[0].Priority() != p {
      RemoveFirstBucket(es[1..], p, q);
      assert RemoveFirst(es, p)[1..] == RemoveFirst(es[1..], p);
    }
  }

  /** The least bucket of a sorted list starts with the head. */
  lemma HeadLeads(es: seq<Entry>)
    ensures es == [] ==> forall p :: Bucket(es, p) == []
    ensures es != [] ==>
              var p := es[0].Priority();
              Bucket(es, p) != [] && Bucket(es, p)[0] == es[0] && RemoveFirst(es, p) == es[1..]
  {
  }

  lemma HeadHasBucket(es: seq<Entry>)
    ensures es != [] ==> Bucket(es, es[0].Priority()) != []
  {
  }

  /** Sorted lists with the same buckets are the same list. */
  lemma {:induction false} BucketsDetermineList(es: seq<Entry>, fs: seq<Entry>)
    requires Sorted(es) && Sorted(fs)
    requires forall p :: Bucket(es, p) == Bucket(fs, p)
    ensures es == fs
  {
    HeadHasBucket(fs);
    if es != [] {
      var p := es[0].Priority();
      assert Bucket(es, p)[0] == es[0];
      BucketMember(fs, p);
      BucketMember(es, fs[0].Priority());
      assert fs[0].Priority() == p;
      assert Bucket(fs, p)[0] == fs[0];
      forall q
        ensures Bucket(es[1..], q) == Bucket(fs[1..], q)
      {
        assert Bucket(es, q) == Bucket(fs, q);
        if q == p {
          assert Bucket(es, q)[1..] == Bucket(es[1..], q);
          assert Bucket(fs, q)[1..] == Bucket(fs[1..], q);
        }
      }
      BucketsDetermineList(es[1..], fs[1..]);
    }
  }

  /** What Dequeue does to the list: the head leaves if it is due. */
  ghost predicate Ready(es: seq<Entry>, now: Time)
    reads set e | e in es :: e.chk
  {
    es != [] && es[0].chk.IsDue(now)
  }

  /** A list whose head is not due holds nothing that was due before the current second began,
      although priorities only have the precision of a second. */
  lemma NothingWaitsASecond(es: seq<Entry>, now: Time)
    requires Sorted(es) && !Ready(es, now)
    requires forall e :: e in es ==> e.Untouched(now)
    ensures forall e :: e in es ==> Unix(now) * SECOND <= e.due && now - SECOND < e.due
  {
    forall e | e in es
      ensures Unix(now) * SECOND <= e.due && now - SECOND < e.due
    {
      UnixFloors(now);
      UnixFloors(e.due);
      assert es[0].Untouched(now);
      assert es[0].Priority() <= e.Priority();
    }
  }

  /** A check that still has the schedule and last-check time it was enqueued with is due from
      the instant that was computed then. */
  lemma DueFromThenOn(e: Entry, now: Time)
    requires e.Untouched(now)
    ensures e.chk.IsDue(now) <==> e.due <= now
  {
  }

  ghost predicate NothingDue(es: seq<Entry>, now: Time)
    reads set e | e in es :: e.chk
  {
    forall e :: e in es ==> !e.chk.IsDue(now)
  }

  /** "If the top-most check is not due, then nothing is due" holds at every instant from now on
      if and only if the head is the first to be due within its second. */
  lemma HeadSpeaksForAllIff(es: seq<Entry>, since: Time)
    requires Sorted(es) && es != [] && !Ready(es, since)
    requires forall e :: e in es ==> e.Untouched(since)
    ensures (forall now :: since <= now && !Ready(es, now) ==> NothingDue(es, now)) <==>
            (forall e :: e in es && e.Priority() == es[0].Priority() ==> es[0].due <= e.due)
  {
    assert es[0].Untouched(since);
    if forall e :: e in es && e.Priority() == es[0].Priority() ==> es[0].due <= e.due {
      forall now, e | since <= now && !Ready(es, now) && e in es
        ensures !e.chk.IsDue(now)
      {
        assert e.Untouched(since) && es[0].Priority() <= e.Priority();
        DueFromThenOn(es[0], now);
        DueFromThenOn(e, now);
        LaterSecond(es[0].due, e.due);
      }
    } else {
      var e :| e in es && e.Priority() == es[0].Priority() && e.due < es[0].due;
      var now := es[0].due - 1;
      assert e.Untouched(since);
      DueFromThenOn(es[0], since);
      DueFromThenOn(es[0], now);
      DueFromThenOn(e, now);
      assert !NothingDue(es, now);
    }
  }

  lemma LaterSecond(a: Time, b: Time)
    ensures Unix(a) < Unix(b) ==> a < b
  {
  }

  // ---- the buckets ----

  function Lookup(buckets: map<int, seq<Check>>, p: int): seq<Check> {
    if p in buckets then buckets[p] else []
  }

  /** The buckets hold the list, priority by priority, and none is empty. */
  ghost predicate Links(buckets: map<int, seq<Check>>, es: seq<Entry>) {
    && Sorted(es)
    && (forall p :: p in buckets ==> buckets[p] != [])
    && (forall p :: ChecksOf(Bucket(es, p)) == Lookup(buckets, p))
  }

  lemma InsertLinks(buckets: map<int, seq<Check>>, es: seq<Entry>, e: Entry)
    requires Links(buckets, es)
    ensures Links(buckets[e.Priority() := Lookup(buckets, e.Priority()) + [e.chk]], Insert(es, e))
  {
    InsertSorted(es, e);
    forall p
      ensures ChecksOf(Bucket(Insert(es, e), p)) ==
              Lookup(buckets[e.Priority() := Lookup(buckets, e.Priority()) + [e.chk]], p)
    {
      InsertLookup(buckets, es, e, p);
    }
  }

  lemma InsertLookup(buckets: map<int, seq<Check>>, es: seq<Entry>, e: Entry, p: int)
    requires Sorted(es) && ChecksOf(Bucket(es, p)) == Lookup(buckets, p)
    ensures ChecksOf(Bucket(Insert(es, e), p)) ==
            Lookup(buckets[e.Priority() := Lookup(buckets, e.Priority()) + [e.chk]], p)
  {
    InsertBucket(es, e, p);
    LookupAppended(buckets, Bucket(es, p), Bucket(Insert(es, e), p), e, p);
  }

  lemma LookupAppended(buckets: map<int, seq<Check>>, before: seq<Entry>, after: seq<Entry>, e: Entry, p: int)
    requires after == before + (if e.Priority() == p then [e] else [])
    requires ChecksOf(before) == Lookup(buckets, p)
    ensures ChecksOf(after) == Lookup(buckets[e.Priority() := Lookup(buckets, e.Priority()) + [e.chk]], p)
  {
    if e.Priority() == p {
      assert ChecksOf(after) == ChecksOf(before) + [e.chk];
    } else {
      assert after == before;
    }
  }

  /** A bucket exists exactly when the list has an entry of its priority. */
  lemma KeysArePriorities(buckets: map<int, seq<Check>>, es: seq<Entry>, p: int)
    requires Links(buckets, es)
    ensures p in buckets <==> exists i :: 0 <= i < |es| && es[i].Priority() == p
  {
    BucketMember(es, p);
    assert ChecksOf(Bucket(es, p)) == Lookup(buckets, p);
  }

  /** The bucket of a priority starts with the first entry of that priority. */
  lemma BucketFront(buckets: map<int, seq<Check>>, es: seq<Entry>, p: int)
    requires Links(buckets, es)
    ensures p in buckets <==> Bucket(es, p) != []
    ensures p in buckets ==> buckets[p] != [] && buckets[p][0] == Bucket(es, p)[0].chk
    ensures p in buckets ==> |buckets[p]| == |Bucket(es, p)|
  {
    assert ChecksOf(Bucket(es, p)) == Lookup(buckets, p);
  }

  /** The head's priority, or the sentinel of an empty queue. */
  function Least(es: seq<Entry>): int {
    if es == [] then MAX_INT64 else es[0].Priority()
  }

  lemma InsertLeast(buckets: map<int, seq<Check>>, es: seq<Entry>, e: Entry)
    requires Links(buckets, es) && e.Priority() <= MAX_INT64
    ensures Least(Insert(es, e)) == Min(e.Priority(), Least(es))
    ensures e.Priority() in buckets ==> Least(Insert(es, e)) == Least(es)
  {
    InsertSorted(es, e);
    KeysArePriorities(buckets, es, e.Priority());
  }

  /** A bucket that is not used up keeps its priority in the list, and the least one stays. */
  lemma RemoveLeast(buckets: map<int, seq<Check>>, es: seq<Entry>)
    requires Links(buckets, es) && es != [] && Bucket(es[1..], es[0].Priority()) != []
    ensures Least(es[1..]) == Least(es)
  {
    BucketMember(es[1..], es[0].Priority());
  }

  lemma InsertNear(es: seq<Entry>, e: Entry)
    requires (forall x :: x in es ==> NearEpoch(x.Priority())) && NearEpoch(e.Priority())
    ensures forall x :: x in Insert(es, e) ==> NearEpoch(x.Priority())
    ensures NearEpoch(Least(es)) || Least(es) == MAX_INT64
  {
    InsertKeeps(es, e);
    forall x | x in Insert(es, e)
      ensures NearEpoch(x.Priority())
    {
      assert x in multiset(Insert(es, e));
    }
  }

  function WithoutHead(buckets: map<int, seq<Check>>, p: int): map<int, seq<Check>>
    requires p in buckets && buckets[p] != []
  {
    if |buckets[p]| == 1 then buckets - {p} else buckets[p := buckets[p][1..]]
  }

  lemma RemoveLinks(buckets: map<int, seq<Check>>, es: seq<Entry>, p: int)
    requires Links(buckets, es) && p in buckets
    ensures Links(WithoutHead(buckets, p), RemoveFirst(es, p))
  {
    RemoveFirstSorted(es, p);
    var after := WithoutHead(buckets, p);
    forall q
      ensures ChecksOf(Bucket(RemoveFirst(es, p), q)) == Lookup(after, q)
    {
      RemoveLookup(buckets, es, p, q);
    }
  }

  lemma RemoveLookup(buckets: map<int, seq<Check>>, es: seq<Entry>, p: int, q: int)
    requires p in buckets && buckets[p] != []
    requires ChecksOf(Bucket(es, p)) == Lookup(buckets, p) && ChecksOf(Bucket(es, q)) == Lookup(buckets, q)
    ensures ChecksOf(Bucket(RemoveFirst(es, p), q)) == Lookup(WithoutHead(buckets, p), q)
  {
    RemoveFirstBucket(es, p, q);
    if q == p {
      assert ChecksOf(Bucket(es, p)[1..]) == ChecksOf(Bucket(es, p))[1..];
    }
  }

  lemma Member<T>(s: set<T>) returns (p: T)
    requires s != {}
    ensures p in s
  {
    p :| p in s;
  }

  class Queue {
    var checks: map<int, seq<Check>>
    var priorities: map<int, int>
    var minPriority: Int64
    var total: nat
    /** What the platform makes of a float64 that no int64 can hold. */
    const overflow: Int64
    /** The list this queue stands for. */
    ghost var entries: seq<Entry>

    /** Buckets, key map and counter agree with the list. */
    ghost predicate Linked()
      reads this
    {
      && Links(checks, entries)
      && total == |entries|
      && checks.Keys == priorities.Keys
      && (forall p :: p in priorities ==> priorities[p] == p && InInt64(p))
    }

    /** The cached minimum is the priority of the head, or the sentinel. */
    ghost predicate MinCached()
      reads this
    {
      minPriority == Least(entries)
    }

    ghost predicate Valid()
      reads this
    {
      Linked() && MinCached()
    }

    /** Checks are queued, but the cached minimum, which a float64 can hold, has no bucket. */
    ghost predicate Blocked()
      reads this
    {
      Linked() && entries != [] && minPriority !in checks && Representable(minPriority)
    }

    /** Every priority lies within 2^53 seconds of the epoch, where float64 is exact. */
    ghost predicate Near()
      reads this
    {
      forall e :: e in entries ==> NearEpoch(e.Priority())
    }

    constructor (overflow: Int64)
      ensures Valid() && entries == []
    {
      this.overflow := overflow;
      checks := map[];
      priorities := map[];
      minPriority := MAX_INT64;
      total := 0;
      entries := [];
    }

    /** Enqueue inserts stably.  The cached minimum is right afterwards if and only if the priority
        already had a bucket and it was right before, or the detour through float64 finds the smaller
        of the new priority and the least one. */
    method Enqueue(chk: Check, now: Time)
      requires Linked() && InInt64(Unix(chk.DueAt(now)))
      modifies this, chk`executed
      ensures !chk.executed && Linked()
      ensures entries == Insert(old(entries), Entry(chk, now, old(chk.DueAt(now))))
      ensures var priority := Unix(old(chk.DueAt(now)));
              minPriority == if priority in old(checks) then old(minPriority)
                             else FloatMin(priority, old(minPriority), overflow)
      ensures var priority := Unix(old(chk.DueAt(now)));
              MinCached() <==>
              if priority in old(checks) then old(MinCached())
              else FloatMin(priority, old(minPriority), overflow) == Min(priority, Least(old(entries)))
    {
      ghost var e := Entry(chk, now, chk.DueAt(now));
      chk.executed := false;
      InsertLinks(checks, entries, e);
      InsertLeast(checks, entries, e);
      InsertLonger(entries, e);
      ghost var buckets := checks[e.Priority() := Lookup(checks, e.Priority()) + [chk]];
      var priority := Unix(chk.DueAt(now));
      assert priority == e.Priority();
      Put(priority, chk);
      assert checks == buckets;
      entries := Insert(entries, e);
    }

    /** The critical section of Enqueue. */
    method Put(priority: Int64, chk: Check)
      requires checks.Keys == priorities.Keys && forall p :: p in priorities ==> priorities[p] == p
      modifies this`checks, this`priorities, this`minPriority, this`total
      ensures checks == old(checks)[priority := Lookup(old(checks), priority) + [chk]]
      ensures total == old(total) + 1
      ensures priorities == old(priorities)[priority := priority]
      ensures minPriority == if priority in old(checks) then old(minPriority)
                             else FloatMin(priority, old(minPriority), overflow)
    {
      checks := checks[priority := Lookup(checks, priority) + [chk]];
      total := total + 1;
      if priority !in priorities {
        priorities := priorities[priority := priority];
        minPriority := FloatMin(priority, minPriority, overflow);
      }
    }

    /** Dequeue takes the first entry whose priority is the cached minimum, if there is one and it
        is due.  With the minimum cached right that is the head of the list, and when it answers
        nil nothing that was due before the current second began is left waiting. */
    method Dequeue(now: Time) returns (chk: Check?)
      requires Linked()
      modifies this
      ensures Linked()
      ensures chk == old(var front := Bucket(entries, minPriority);
                         if front != [] && front[0].chk.IsDue(now) then front[0].chk else null)
      ensures chk == null ==> entries == old(entries) && checks == old(checks) && minPriority == old(minPriority)
      ensures chk != null ==> entries == RemoveFirst(old(entries), old(minPriority))
      ensures chk != null ==>
                minPriority == if Bucket(entries, old(minPriority)) != [] then old(minPriority) else Least(entries)
      ensures old(MinCached()) ==>
                && MinCached()
                && (chk != null <==> old(Ready(entries, now)))
                && (chk != null ==> chk == old(entries)[0].chk && entries == old(entries)[1..])
      ensures chk == null && MinCached() && (forall e :: e in entries ==> e.Untouched(now)) ==>
                forall e :: e in entries ==> Unix(now) * SECOND <= e.due && now - SECOND < e.due
    {
      BucketFront(checks, entries, minPriority);
      HeadLeads(entries);
      if minPriority !in checks {
        return null;
      }
      if !checks[minPriority][0].IsDue(now) {
        if MinCached() && forall e :: e in entries ==> e.Untouched(now) {
          NothingWaitsASecond(entries, now);
        }
        return null;
      }
      chk := checks[minPriority][0];
      TakeFront();
    }

    /** Deletes the front of the minimum's bucket. */
    method TakeFront()
      requires Linked() && minPriority in checks
      modifies this
      ensures Linked()
      ensures entries == RemoveFirst(old(entries), old(minPriority))
      ensures minPriority == if Bucket(entries, old(minPriority)) != [] then old(minPriority) else Least(entries)
      ensures old(MinCached()) ==> MinCached()
    {
      ghost var es := entries;
      BucketFront(checks, es, minPriority);
      RemoveLinks(checks, es, minPriority);
      RemoveFirstFrom(es, minPriority);
      RemoveFirstBucket(es, minPriority, minPriority);
      HeadLeads(es);
      var rest := checks[minPriority][1..];
      total := total - 1;
      entries := RemoveFirst(es, minPriority);
      if rest == [] {
        checks := checks - {minPriority};
        priorities := priorities - {minPriority};
        SmallestPriority();
      } else {
        if minPriority == Least(es) {
          RemoveLeast(checks, es);
        }
        checks := checks[minPriority := rest];
      }
    }

    /** The loop over the key map: the next minimum is the priority of the new head. */
    method SmallestPriority()
      requires Linked()
      modifies this`minPriority
      ensures Valid()
    {
      minPriority := MAX_INT64;
      var todo := priorities.Keys;
      while todo != {}
        invariant todo <= priorities.Keys
        invariant minPriority == MAX_INT64 || minPriority in priorities
        invariant forall p :: p in priorities && p !in todo ==> minPriority <= p
        invariant minPriority <= MAX_INT64
        decreases todo
      {
        ghost var q := Member(todo);
        var p :| p in todo;
        minPriority := Min(priorities[p], minPriority);
        todo := todo - {p};
      }
      KeysArePriorities(checks, entries, minPriority);
      if entries != [] {
        BucketFront(checks, entries, entries[0].Priority());
      }
    }

    method Flush()
      modifies this
      ensures Valid() && entries == []
    {
      checks := map[];
      priorities := map[];
      minPriority := MAX_INT64;
      total := 0;
      entries := [];
    }

    function Count(): (n: nat)
      requires Linked()
      reads this
      ensures n == |entries|
    {
      total
    }

    /** All: every queued check once, in whatever order the map yields the buckets. */
    method All() returns (all: seq<Check>)
      requires Linked()
      ensures multiset(all) == multiset(ChecksOf(entries))
    {
      all := [];
      var todo := checks.Keys;
      ghost var seen: set<int> := {};
      PickNone(entries);
      while todo != {}
        invariant seen !! todo && seen + todo == checks.Keys
        invariant multiset(all) == multiset(ChecksOf(Pick(entries, seen)))
        decreases todo
      {
        ghost var q := Member(todo);
        var p :| p in todo;
        ghost var before := all;
        for j := 0 to |checks[p]|
          invariant all == before + checks[p][..j]
        {
          all := all + [checks[p][j]];
        }
        assert all == before + checks[p];
        PickGrows(entries, seen, p);
        assert ChecksOf(Bucket(entries, p)) == Lookup(checks, p);
        todo, seen := todo - {p}, seen + {p};
      }
      forall e | e in entries
        ensures e.Priority() in seen
      {
        KeysArePriorities(checks, entries, e.Priority());
      }
      PickAll(entries, seen);
    }
  }

  /** The entries whose priority is in ps, in order. */
  function Pick(es: seq<Entry>, ps: set<int>): seq<Entry> {
    if es == [] then []
    else if es[0].Priority() in ps then [es[0]] + Pick(es[1..], ps)
    else Pick(es[1..], ps)
  }

  lemma {:induction false} PickGrows(es: seq<Entry>, ps: set<int>, p: int)
    requires p !in ps
    ensures multiset(ChecksOf(Pick(es, ps + {p})))
         == multiset(ChecksOf(Pick(es, ps))) + multiset(ChecksOf(Bucket(es, p)))
  {
    if es != [] {
      PickGrows(es[1..], ps, p);
      if es[0].Priority() == p {
        ChecksOfCons(es[0], Pick(es[1..], ps + {p}));
        ChecksOfCons(es[0], Bucket(es[1..], p));
      } else if es[0].Priority() in ps {
        ChecksOfCons(es[0], Pick(es[1..], ps + {p}));
        ChecksOfCons(es[0], Pick(es[1..], ps));
      }
    }
  }

  lemma {:induction false} PickNone(es: seq<Entry>)
    ensures Pick(es, {}) == []
  {
    if es != [] {
      PickNone(es[1..]);
    }
  }

  lemma ChecksOfCons(e: Entry, es: seq<Entry>)
    ensures ChecksOf([e] + es) == [e.chk] + ChecksOf(es)
    ensures multiset(ChecksOf([e] + es)) == multiset{e.chk} + multiset(ChecksOf(es))
  {
    assert ChecksOf([e] + es) == [e.chk] + ChecksOf(es);
  }

  lemma {:induction false} PickAll(es: seq<Entry>, ps: set<int>)
    requires forall e :: e in es ==> e.Priority() in ps
    ensures Pick(es, ps) == es
  {
    if es != [] {
      PickAll(es[1..], ps);
    }
  }

  // ---- what the float64 detour costs ----

  /** A check that is due and alone in the queue is taken out if and only if its second fits into
      a float64, or rounds up to 2^63 and the platform restores it. */
  method LoneCheckTakenIff(q: Queue, chk: Check, now: Time) returns (r: Check?)
    requires q.Valid() && q.entries == [] && chk.IsDue(now) && InInt64(Unix(chk.DueAt(now)))
    modifies q, chk`executed
    ensures var p := Unix(old(chk.DueAt(now)));
            if Representable(p) || (FromInt64(p) == TWO63 && q.overflow == p)
            then r == chk && q.entries == []
            else r == null && q.entries == [Entry(chk, now, old(chk.DueAt(now)))] && chk.IsDue(now)
                 && q.minPriority == FloatMin(p, MAX_INT64, q.overflow) && q.Linked()
  {
    ghost var p := Unix(chk.DueAt(now));
    FloatMinExactIff(p, MAX_INT64, q.overflow);
    BucketFront(q.checks, q.entries, p);
    q.Enqueue(chk, now);
    r := q.Dequeue(now);
  }

  /** A second before -2^53 an ordinary clock is enough for a check to be stranded, and it blocks
      the queue. */
  method RoundedPriorityStrands(q: Queue, chk: Check, now: Time) returns (r: Check?)
    requires q.Valid() && q.entries == [] && chk.IsDue(now) && Unix(chk.DueAt(now)) == -(TWO53 + 1)
    modifies q, chk`executed
    ensures r == null && q.entries == [Entry(chk, now, old(chk.DueAt(now)))] && q.entries[0].chk.IsDue(now)
    ensures q.Blocked() && q.minPriority == -TWO53
  {
    FloatMinLosesASecond(MAX_INT64, q.overflow);
    FloatMinExactIff(-(TWO53 + 1), MAX_INT64, q.overflow);
    r := LoneCheckTakenIff(q, chk, now);
    NearEpochFits(-TWO53);
    BucketFront(q.checks, q.entries, -TWO53);
  }

  /** A check that is due at the cached minimum or later leaves that minimum alone, and unblocks the
      queue if and only if it brings the missing bucket. */
  method EnqueueWhileBlocked(q: Queue, chk: Check, now: Time)
    requires q.Blocked() && q.minPriority <= Unix(chk.DueAt(now)) < TWO63
    modifies q, chk`executed
    ensures q.minPriority == old(q.minPriority)
    ensures q.entries == Insert(old(q.entries), Entry(chk, now, old(chk.DueAt(now))))
    ensures q.Blocked() <==> Unix(old(chk.DueAt(now))) != q.minPriority
  {
    ghost var e, es, m := Entry(chk, now, chk.DueAt(now)), q.entries, q.minPriority;
    FloatMinExactIff(e.Priority(), m, q.overflow);
    BucketFront(q.checks, es, m);
    InsertBucket(es, e, m);
    InsertLonger(es, e);
    q.Enqueue(chk, now);
    BucketFront(q.checks, q.entries, m);
  }

  /** A blocked queue stays blocked: whatever is enqueued for seconds after the cached minimum, and
      whatever the clock reads, Dequeue answers nil. */
  method BlockedForEver(q: Queue, chks: seq<Check>, times: seq<Time>, nows: seq<Time>) returns (out: seq<Check?>)
    requires q.Blocked() && |chks| == |times| == |nows|
    requires forall i :: 0 <= i < |chks| ==> q.minPriority < Unix(chks[i].DueAt(times[i])) < TWO63
    modifies q, (set c | c in chks)`executed
    ensures q.Blocked() && |q.entries| == |old(q.entries)| + |chks|
    ensures |out| == |chks| && forall i :: 0 <= i < |out| ==> out[i] == null
  {
    ghost var arrivals, m := Arrivals(chks, times), q.minPriority;
    assert forall j :: 0 <= j < |chks| ==> m < arrivals[j].Priority() < TWO63;
    out := [];
    for i := 0 to |chks|
      invariant q.Blocked() && q.minPriority == m && |q.entries| == |old(q.entries)| + i
      invariant |out| == i && forall j :: 0 <= j < i ==> out[j] == null
    {
      assert arrivals[i] == Entry(chks[i], times[i], chks[i].DueAt(times[i]));
      InsertLonger(q.entries, arrivals[i]);
      EnqueueWhileBlocked(q, chks[i], times[i]);
      BucketFront(q.checks, q.entries, m);
      var r := q.Dequeue(nows[i]);
      out := out + [r];
    }
  }

  /** The rounded minimum can be the key of a later bucket: the younger of two due checks goes
      first, and the minimum is right again. */
  method RoundedPriorityReorders(q: Queue, younger: Check, older: Check, now: Time) returns (r: Check?)
    requires q.Valid() && q.entries == [] && younger != older && younger.IsDue(now) && older.IsDue(now)
    requires Unix(younger.DueAt(now)) == -TWO53 && Unix(older.DueAt(now)) == -(TWO53 + 1)
    modifies q, younger`executed, older`executed
    ensures r == younger && q.Valid() && q.entries == [Entry(older, now, old(older.DueAt(now)))]
  {
    ghost var first := Entry(younger, now, younger.DueAt(now));
    ghost var second := Entry(older, now, older.DueAt(now));
    BucketFront(q.checks, q.entries, -TWO53);
    BucketFront(q.checks, q.entries, -(TWO53 + 1));
    FloatMinExactNearEpoch(-TWO53, MAX_INT64, q.overflow);
    FloatMinLosesASecond(-TWO53, q.overflow);
    q.Enqueue(younger, now);
    assert q.entries == [first];
    q.Enqueue(older, now);
    assert q.entries == [second, first];
    assert [second, first][1..] == [first];
    r := q.Dequeue(now);
  }

  /** Within a second the head may be due after the checks behind it: then a due check waits. */
  method FractionHidesDueCheck(q: Queue, late: Check, early: Check, now: Time) returns (r: Check?)
    requires q.Valid() && q.entries == [] && late != early && !late.IsDue(now) && early.IsDue(now)
    requires Unix(late.DueAt(now)) == Unix(early.DueAt(now)) && NearEpoch(Unix(late.DueAt(now)))
    modifies q, late`executed, early`executed
    ensures r == null && q.Valid() && early.IsDue(now)
    ensures q.entries == [Entry(late, now, old(late.DueAt(now))), Entry(early, now, old(early.DueAt(now)))]
  {
    EnqueueNear(q, late, now);
    EnqueueNear(q, early, now);
    r := q.Dequeue(now);
  }

  // ---- checks that never ran ----

  /** A check that never ran, enqueued at now, is due from now on, and goes behind everything due
      before the end of this second and before everything due later. */
  method EnqueueNeverRun(q: Queue, chk: Check, now: Time) returns (ghost k: nat)
    requires q.Valid() && q.Near() && chk.lastCheck.None? && NearEpoch(Unix(now))
    modifies q, chk`executed
    ensures q.Valid() && q.Near() && forall t :: now <= t ==> chk.IsDue(t)
    ensures k <= |old(q.entries)|
    ensures q.entries == old(q.entries)[..k] + [Entry(chk, now, now)] + old(q.entries)[k..]
    ensures forall i :: 0 <= i < k ==> old(q.entries)[i].due < (Unix(now) + 1) * SECOND
    ensures forall i :: k <= i < |old(q.entries)| ==> old(q.entries)[i].due >= (Unix(now) + 1) * SECOND
  {
    ghost var es, e := q.entries, Entry(chk, now, now);
    k := InsertSplits(es, e);
    EnqueueNear(q, chk, now);
    forall i | 0 <= i < |es|
      ensures i < k <==> es[i].due < (Unix(now) + 1) * SECOND
    {
      UnixFloors(es[i].due);
    }
  }

  lemma InsertEither(a: Entry, b: Entry)
    requires a.Priority() < b.Priority()
    ensures Insert([a], b) == [a, b] && Insert([b], a) == [a, b] && Insert([], a) == [a] && Insert([], b) == [b]
  {
  }

  method DequeueBoth(q: Queue, a: Check, b: Check, now: Time) returns (first: Check?, second: Check?)
    requires q.Valid() && |q.entries| == 2 && q.entries[0].chk == a && q.entries[1].chk == b
    requires a.IsDue(now) && b.IsDue(now)
    modifies q
    ensures q.Valid() && first == a && second == b && q.entries == []
  {
    first := TakeHead(q, now);
    second := TakeHead(q, now);
  }

  /** A newcomer waits for a check that is overdue, even if it comes first. */
  method OverdueGoesFirst(q: Queue, newcomer: Check, overdue: Check, now: Time, newcomerFirst: bool)
    returns (first: Check?, second: Check?)
    requires q.Valid() && q.entries == [] && newcomer != overdue && NearEpoch(Unix(now))
    requires newcomer.lastCheck.None? && overdue.lastCheck.Some?
    requires var due := overdue.lastCheck.value + overdue.schedule.intervalSeconds * 1_000_000_000;
             NearEpoch(Unix(due)) && Unix(due) < Unix(now)
    modifies q, newcomer`executed, overdue`executed
    ensures first == overdue && second == newcomer && q.entries == []
  {
    UnixFloors(overdue.DueAt(now));
    UnixFloors(now);
    ghost var a, b := Entry(overdue, now, overdue.DueAt(now)), Entry(newcomer, now, now);
    InsertEither(a, b);
    if newcomerFirst {
      EnqueueNear(q, newcomer, now);
      EnqueueNear(q, overdue, now);
    } else {
      EnqueueNear(q, overdue, now);
      EnqueueNear(q, newcomer, now);
    }
    assert q.entries == [a, b];
    first, second := DequeueBoth(q, overdue, newcomer, now);
  }

  // ---- arrivals and a full drain ----

  ghost function Arrivals(chks: seq<Check>, times: seq<Time>): seq<Entry>
    requires |chks| == |times|
    reads set c | c in chks
  {
    seq(|chks|, i requires 0 <= i < |chks| reads set c | c in chks => Entry(chks[i], times[i], chks[i].DueAt(times[i])))
  }

  /** Every check came with a priority near the epoch. */
  ghost predicate AllNear(chks: seq<Check>, times: seq<Time>)
    requires |chks| == |times|
    reads set c | c in chks
  {
    forall i :: 0 <= i < |chks| ==> NearEpoch(Unix(chks[i].DueAt(times[i])))
  }

  /** Near the epoch Enqueue keeps the cached minimum right. */
  method EnqueueNear(q: Queue, chk: Check, now: Time)
    requires q.Valid() && q.Near() && NearEpoch(Unix(chk.DueAt(now)))
    modifies q, chk`executed
    ensures q.Valid() && q.Near() && !chk.executed
    ensures q.entries == Insert(old(q.entries), Entry(chk, now, old(chk.DueAt(now))))
  {
    NearEpochFits(Unix(chk.DueAt(now)));
    FloatMinExactNearEpoch(Unix(chk.DueAt(now)), q.minPriority, q.overflow);
    InsertNear(q.entries, Entry(chk, now, chk.DueAt(now)));
    q.Enqueue(chk, now);
  }

  /** Enqueueing checks one after the other into an empty queue arranges them. */
  method Fill(q: Queue, chks: seq<Check>, times: seq<Time>)
    requires q.Valid() && q.entries == [] && |chks| == |times| && AllNear(chks, times)
    modifies q, (set c | c in chks)`executed
    ensures q.Valid() && q.Near()
    ensures q.entries == Arrange(old(Arrivals(chks, times)))
  {
    ghost var arrivals := Arrivals(chks, times);
    assert forall j :: 0 <= j < |chks| ==> NearEpoch(arrivals[j].Priority());
    for i := 0 to |chks|
      invariant q.Valid() && q.Near()
      invariant q.entries == Arrange(arrivals[..i])
    {
      assert arrivals[i] == Entry(chks[i], times[i], chks[i].DueAt(times[i]));
      EnqueueNear(q, chks[i], times[i]);
      ArrangeNext(arrivals, i);
    }
    assert arrivals[..|chks|] == arrivals;
  }

  lemma ArrangeNext(arrivals: seq<Entry>, i: nat)
    requires i < |arrivals|
    ensures Arrange(arrivals[..i + 1]) == Insert(Arrange(arrivals[..i]), arrivals[i])
  {
    assert arrivals[..i + 1][..i] == arrivals[..i];
  }

  /** With the minimum cached right, a head that is due is taken out. */
  method TakeHead(q: Queue, now: Time) returns (chk: Check)
    requires q.Valid() && Ready(q.entries, now)
    modifies q
    ensures q.Valid() && q.entries == old(q.entries)[1..] && chk == old(q.entries)[0].chk
  {
    var head := q.Dequeue(now);
    chk := head;
  }

  /** Taking everything out at an instant at which all of it is due yields the list in order. */
  method Drain(q: Queue, now: Time) returns (out: seq<Check>)
    requires q.Valid() && forall e :: e in q.entries ==> e.chk.IsDue(now)
    modifies q
    ensures q.Valid() && q.entries == []
    ensures out == ChecksOf(old(q.entries))
  {
    ghost var es, cs := q.entries, ChecksOf(q.entries);
    out := [];
    while q.total > 0
      invariant q.Valid()
      invariant |out| <= |es| && q.entries == es[|out|..] && out == cs[..|out|]
      decreases |q.entries|
    {
      assert q.entries[0] == es[|out|] && es[|out|] in es;
      var chk := TakeHead(q, now);
      out := out + [chk];
    }
  }

  /** A fully due drain is the stable sort of the arrivals by due second. */
  method FillAndDrain(q: Queue, chks: seq<Check>, times: seq<Time>, now: Time) returns (out: seq<Check>)
    requires q.Valid() && q.entries == [] && |chks| == |times| && AllNear(chks, times)
    requires forall c :: c in chks ==> c.IsDue(now)
    modifies q, (set c | c in chks)`executed
    ensures q.Valid() && q.entries == []
    ensures out == ChecksOf(Arrange(old(Arrivals(chks, times))))
  {
    ghost var arrivals := Arrivals(chks, times);
    Fill(q, chks, times);
    ArrangeIsStableSort(arrivals);
    forall e | e in q.entries
      ensures e.chk.IsDue(now)
    {
      assert e in multiset(arrivals);
    }
    out := Drain(q, now);
  }
}
