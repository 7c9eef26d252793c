/** GoSnmpGetter.Get (snmp/gosnmp_getter.go): oids are requested in chunks. */
module SnmpGetter {
  import opened Counters
  import Counting

  datatype Variable = Variable(kind: nat, value: Value, name: string)

  /** What the agent answers to one GET request. */
  datatype Answer = Packet(variables: seq<Variable>) | Failure(err: string)

  datatype Result = Objects(objects: seq<Variable>) | Error(err: string)

  /** oids cut into requests of max oids, the last one possibly shorter. */
  function Chunks(oids: seq<string>, max: nat): seq<seq<string>>
    requires max >= 1
    decreases |oids|
  {
    if oids == [] then []
    else if |oids| <= max then [oids]
    else [oids[..max]] + Chunks(oids[max..], max)
  }

  function Concat(chunks: seq<seq<string>>): seq<string> {
    if chunks == [] then [] else chunks[0] + Concat(chunks[1..])
  }

  /** The requests together are the oids in order. */
  lemma {:induction false} ChunksPartition(oids: seq<string>, max: nat)
    requires max >= 1
    ensures Concat(Chunks(oids, max)) == oids
    decreases |oids|
  {
    if oids == [] {
    } else if |oids| <= max {
      ConcatCons(oids, []);
    } else {
      ChunksPartition(oids[max..], max);
      ConcatCons(oids[..max], Chunks(oids[max..], max));
    }
  }

  lemma ConcatCons(chunk: seq<string>, rest: seq<seq<string>>)
    ensures Concat([chunk] + rest) == chunk + Concat(rest)
  {
    assert ([chunk] + rest)[1..] == rest;
  }

  /** No request is empty or longer than max, and all but the last are full. */
  lemma {:induction false} ChunkSize(oids: seq<string>, max: nat, k: nat)
    requires max >= 1 && k < |Chunks(oids, max)|
    ensures 1 <= |Chunks(oids, max)[k]| <= max
    ensures k < |Chunks(oids, max)| - 1 ==> |Chunks(oids, max)[k]| == max
    decreases k
  {
    if |oids| > max && k > 0 {
      ChunkSize(oids[max..], max, k - 1);
    }
  }

  /** There are as many requests as the ceiling of the oids over max. */
  lemma {:induction false} ChunksCount(oids: seq<string>, max: nat)
    requires max >= 1
    ensures |Chunks(oids, max)| == (|oids| + max - 1) / max
    decreases |oids|
  {
    if |oids| <= max {
      Ceiling(|oids|, max, |Chunks(oids, max)|);
    } else {
      ChunksCount(oids[max..], max);
      var k := |Chunks(oids[max..], max)|;
      Ceiling(|oids| - max, max, k);
      Ceiling(|oids|, max, k + 1);
      assert (k + 1) * max == k * max + max;
    }
  }

  /** k is the ceiling of n / max exactly when k chunks are enough and k - 1 are not. */
  lemma Ceiling(n: nat, max: nat, k: nat)
    requires max >= 1
    ensures (n + max - 1) / max == k <==> n <= k * max && (k * max < n + max)
  {
    var q, r := (n + max - 1) / max, (n + max - 1) % max;
    assert n + max - 1 == q * max + r;
    if k > q {
      Counting.Scale(q + 1, k, max);
      assert (q + 1) * max == q * max + max;
    } else if k < q {
      Counting.Scale(k + 1, q, max);
      assert (k + 1) * max == k * max + max;
    }
  }

  /** The agent's answer to the k-th request. */
  function Ask(answer: (nat, seq<string>) -> Answer, k: nat, request: seq<string>): Answer {
    answer(k, request)
  }

  /** The answers to the remaining requests, of which the first is the k-th, up to a failure. */
  function Gather(answer: (nat, seq<string>) -> Answer, k: nat, rest: seq<seq<string>>): Result
    decreases |rest|
  {
    if rest == [] then Objects([])
    else
      match Ask(answer, k, rest[0])
      case Failure(e) => Error(e)
      case Packet(vs) => Prepend(vs, Gather(answer, k + 1, rest[1..]))
  }

  function Prepend(vs: seq<Variable>, r: Result): Result {
    match r
    case Objects(objects) => Objects(vs + objects)
    case Error(e) => Error(e)
  }

  function NoneMissing(oids: seq<string>, r: Result): Result {
    if r.Objects? && oids != [] && r.objects == [] then Error("no snmp objects returned from host") else r
  }

  /** The requests that are sent: all, or up to the one that fails. */
  function Sent(answer: (nat, seq<string>) -> Answer, k: nat, rest: seq<seq<string>>): seq<seq<string>>
    decreases |rest|
  {
    if rest == [] then []
    else if Ask(answer, k, rest[0]).Failure? then [rest[0]]
    else [rest[0]] + Sent(answer, k + 1, rest[1..])
  }

  /** A failing request ends the exchange; otherwise every chunk is requested. */
  lemma {:induction false} SentUpToFailure(answer: (nat, seq<string>) -> Answer, k: nat, rest: seq<seq<string>>)
    ensures Sent(answer, k, rest) <= rest
    ensures Gather(answer, k, rest).Objects? ==> Sent(answer, k, rest) == rest
    decreases |rest|
  {
    if rest != [] {
      SentUpToFailure(answer, k + 1, rest[1..]);
      assert rest == [rest[0]] + rest[1..];
    }
  }

  /** If every request is answered, the objects are those of all answers, in the order of the
      requests and of each answer. */
  lemma {:induction false} AllAnswered(answer: (nat, seq<string>) -> Answer, k: nat, rest: seq<seq<string>>)
    requires forall j :: 0 <= j < |rest| ==> Ask(answer, k + j, rest[j]).Packet?
    ensures Gather(answer, k, rest) ==
            Objects(Flatten(seq(|rest|, j requires 0 <= j < |rest| => Ask(answer, k + j, rest[j]).variables)))
    decreases |rest|
  {
    if rest != [] {
      assert Ask(answer, k + 0, rest[0]).Packet?;
      assert forall j :: 0 <= j < |rest| - 1 ==> Ask(answer, k + (j + 1), rest[1..][j]).Packet?;
      AllAnswered(answer, k + 1, rest[1..]);
      var all := seq(|rest|, j requires 0 <= j < |rest| => Ask(answer, k + j, rest[j]).variables);
      assert all[1..] == seq(|rest| - 1, j requires 0 <= j < |rest| - 1 =>
                               Ask(answer, k + 1 + j, rest[1..][j]).variables);
    }
  }

  function Flatten(packets: seq<seq<Variable>>): seq<Variable> {
    if packets == [] then [] else packets[0] + Flatten(packets[1..])
  }

  /** The first request that fails is the last one sent, and its error the result. */
  lemma {:induction false} FirstFailure(answer: (nat, seq<string>) -> Answer, k: nat, rest: seq<seq<string>>, j: nat)
    requires j < |rest| && Ask(answer, k + j, rest[j]).Failure?
    requires forall i :: 0 <= i < j ==> Ask(answer, k + i, rest[i]).Packet?
    ensures Gather(answer, k, rest) == Error(Ask(answer, k + j, rest[j]).err)
    ensures Sent(answer, k, rest) == rest[..j + 1]
    decreases |rest|
  {
    if j > 0 {
      assert Ask(answer, k + 0, rest[0]).Packet?;
      assert Ask(answer, k + 1 + (j - 1), rest[1..][j - 1]) == Ask(answer, k + j, rest[j]);
      assert forall i :: 0 <= i < j - 1 ==> Ask(answer, k + 1 + i, rest[1..][i]) == Ask(answer, k + (i + 1), rest[i + 1]);
      FirstFailure(answer, k + 1, rest[1..], j - 1);
      assert rest[..j + 1] == [rest[0]] + rest[1..][..j];
    } else {
      assert rest[..1] == [rest[0]];
    }
  }

  /** maxOids is at least one: Connect replaces zero by its default. */
  method Get(oids: seq<string>, maxOids: nat, answer: (nat, seq<string>) -> Answer)
    returns (result: Result, requests: seq<seq<string>>)
    requires maxOids >= 1
    ensures result == NoneMissing(oids, Gather(answer, 0, Chunks(oids, maxOids)))
    ensures requests == Sent(answer, 0, Chunks(oids, maxOids))
    ensures var gathered := Gather(answer, 0, Chunks(oids, maxOids));
            && (gathered.Error? ==> result == gathered)
            && (gathered.Objects? && gathered.objects != [] ==> result == gathered)
            && (gathered == Objects([]) ==>
                  result == if oids == [] then Objects([]) else Error("no snmp objects returned from host"))
  {
    ghost var chunks := Chunks(oids, maxOids);
    var objects: seq<Variable> := [];
    var chunk := if |oids| > maxOids then maxOids else |oids|;
    var offset := 0;
    requests := [];
    assert oids[0..] == oids;
    while offset < |oids|
      invariant offset <= |oids|
      invariant offset < |oids| ==> chunk == maxOids || (chunk == |oids| <= maxOids && offset == 0)
      invariant Exchanged(answer, chunks, objects, requests, Chunks(oids[offset..], maxOids))
      decreases |oids| - offset
    {
      if chunk > |oids| - offset {
        chunk := |oids| - offset;
      }
      var request := oids[offset..offset + chunk];
      ChunksNext(oids, maxOids, offset, chunk);
      Exchange(answer, chunks, objects, requests, request, Chunks(oids[offset + chunk..], maxOids));
      var packet := Ask(answer, |requests|, request);
      requests := requests + [request];
      if packet.Failure? {
        return Error(packet.err), requests;
      }
      objects := objects + packet.variables;
      offset := offset + chunk;
    }
    if |oids| > 0 && |objects| == 0 {
      return Error("no snmp objects returned from host"), requests;
    }
    return Objects(objects), requests;
  }

  /** What remains to be done after the requests so far, which brought the objects so far. */
  predicate Exchanged(answer: (nat, seq<string>) -> Answer, all: seq<seq<string>>,
                      objects: seq<Variable>, requests: seq<seq<string>>, rest: seq<seq<string>>)
  {
    && Gather(answer, 0, all) == Prepend(objects, Gather(answer, |requests|, rest))
    && Sent(answer, 0, all) == requests + Sent(answer, |requests|, rest)
  }

  /** One request and its answer. */
  lemma Exchange(answer: (nat, seq<string>) -> Answer, all: seq<seq<string>>,
                 objects: seq<Variable>, requests: seq<seq<string>>, request: seq<string>, rest: seq<seq<string>>)
    requires Exchanged(answer, all, objects, requests, [request] + rest)
    ensures var reply := Ask(answer, |requests|, request);
            if reply.Failure?
            then Gather(answer, 0, all) == Error(reply.err) && Sent(answer, 0, all) == requests + [request]
            else Exchanged(answer, all, objects + reply.variables, requests + [request], rest)
  {
    assert ([request] + rest)[1..] == rest;
    var reply := Ask(answer, |requests|, request);
    if reply.Packet? {
      PrependTwice(objects, reply.variables, Gather(answer, |requests| + 1, rest));
    }
  }

  lemma PrependTwice(a: seq<Variable>, b: seq<Variable>, r: Result)
    ensures Prepend(a, Prepend(b, r)) == Prepend(a + b, r)
  {
    if r.Objects? {
      assert a + (b + r.objects) == (a + b) + r.objects;
    }
  }

  lemma ChunksNext(oids: seq<string>, max: nat, offset: nat, chunk: nat)
    requires max >= 1 && offset < |oids|
    requires chunk == if max <= |oids| - offset then max else |oids| - offset
    ensures Chunks(oids[offset..], max) == [oids[offset..offset + chunk]] + Chunks(oids[offset + chunk..], max)
  {
    var rest := oids[offset..];
    assert rest[..chunk] == oids[offset..offset + chunk];
    assert rest[chunk..] == oids[offset + chunk..];
    if |rest| <= max {
      assert oids[offset + chunk..] == [] && rest[..chunk] == rest;
    }
  }
}
