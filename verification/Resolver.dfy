/**
 The resolver's work loop: peers arrive in batches, at most sixteen of them are
 looked up at once, and the endpoints found are yielded as lookups finish.
 */
module Resolver {
  import opened Base

  const MAX_INDEX_LOOKUPS: nat := 16
  const MAX_QUEUED_PEERS: nat := 64

  type Endpoint = Bytes

  /** A finished lookup: its peer, and the endpoints found unless it failed. */
  datatype Finished = Finished(peer: SocketAddr, found: Option<seq<Endpoint>>)

  function PeersOf(finished: seq<Finished>): (peers: seq<SocketAddr>)
    ensures |peers| == |finished|
  {
    if finished == [] then [] else PeersOf(finished[..|finished| - 1]) + [finished[|finished| - 1].peer]
  }

  /** Every endpoint of every lookup that succeeded, in the order the lookups finished. */
  function EndpointsOf(finished: seq<Finished>): seq<Endpoint> {
    if finished == [] then [] else
      EndpointsOf(finished[..|finished| - 1]) +
      (if finished[|finished| - 1].found.Some? then finished[|finished| - 1].found.value else [])
  }

  /** Peers received are queued, in flight or finished; none is lost or looked up twice. */
  ghost predicate Conserved(
      received: seq<SocketAddr>, queued: seq<SocketAddr>, inFlight: seq<SocketAddr>, finished: seq<Finished>)
  {
    multiset(received) == multiset(queued) + multiset(inFlight) + multiset(PeersOf(finished))
  }

  lemma Started(received: seq<SocketAddr>, queued: seq<SocketAddr>, inFlight: seq<SocketAddr>, finished: seq<Finished>)
    requires queued != [] && Conserved(received, queued, inFlight, finished)
    ensures Conserved(received, queued[1..], inFlight + [queued[0]], finished)
  {
    assert queued == [queued[0]] + queued[1..];
  }

  lemma Ended(
      received: seq<SocketAddr>, queued: seq<SocketAddr>, inFlight: seq<SocketAddr>, finished: seq<Finished>,
      k: nat, done: Finished)
    requires k < |inFlight| && done.peer == inFlight[k] && Conserved(received, queued, inFlight, finished)
    ensures Conserved(received, queued, inFlight[..k] + inFlight[k + 1..], finished + [done])
    ensures EndpointsOf(finished + [done]) ==
            EndpointsOf(finished) + (if done.found.Some? then done.found.value else [])
  {
    assert inFlight == inFlight[..k] + [inFlight[k]] + inFlight[k + 1..];
    assert (finished + [done])[..|finished|] == finished;
    assert PeersOf(finished + [done]) == PeersOf(finished) + [done.peer];
  }

  lemma Arrived(
      batches: seq<seq<SocketAddr>>, b: nat, queued: seq<SocketAddr>, inFlight: seq<SocketAddr>,
      finished: seq<Finished>)
    requires b < |batches| && Conserved(Flatten(batches[..b]), queued, inFlight, finished)
    ensures Conserved(Flatten(batches[..b + 1]), queued + batches[b], inFlight, finished)
    ensures |Flatten(batches[..b + 1])| == |Flatten(batches[..b])| + |batches[b]|
  {
    assert batches[..b + 1][..b] == batches[..b];
    assert Flatten(batches[..b + 1]) == Flatten(batches[..b]) + batches[b];
  }

  lemma Counted(received: seq<SocketAddr>, queued: seq<SocketAddr>, inFlight: seq<SocketAddr>, finished: seq<Finished>)
    requires Conserved(received, queued, inFlight, finished)
    ensures |received| == |queued| + |inFlight| + |finished|
  {
    assert |multiset(received)| == |received|;
    assert |multiset(queued) + multiset(inFlight) + multiset(PeersOf(finished))| ==
           |queued| + |inFlight| + |finished|;
  }

  /** No batch is longer than `n`. */
  ghost predicate BatchesWithin(batches: seq<seq<SocketAddr>>, n: nat) {
    forall i :: 0 <= i < |batches| ==> |batches[i]| <= n
  }

  /** Starts lookups for queued peers, oldest first, while there is room. */
  method StartLookups(
      queuedBefore: seq<SocketAddr>, inFlightBefore: seq<SocketAddr>,
      ghost received: seq<SocketAddr>, ghost finished: seq<Finished>)
    returns (queued: seq<SocketAddr>, inFlight: seq<SocketAddr>)
    requires |inFlightBefore| <= MAX_INDEX_LOOKUPS && Conserved(received, queuedBefore, inFlightBefore, finished)
    ensures Conserved(received, queued, inFlight, finished)
    ensures |inFlight| <= MAX_INDEX_LOOKUPS && (queued == [] || |inFlight| == MAX_INDEX_LOOKUPS)
    ensures inFlight + queued == inFlightBefore + queuedBefore && |queued| <= |queuedBefore|
  {
    queued, inFlight := queuedBefore, inFlightBefore;
    while |inFlight| < MAX_INDEX_LOOKUPS && queued != []
      invariant Conserved(received, queued, inFlight, finished)
      invariant |inFlight| <= MAX_INDEX_LOOKUPS
      invariant inFlight + queued == inFlightBefore + queuedBefore && |queued| <= |queuedBefore|
      decreases |queued|
    {
      Started(received, queued, inFlight, finished);
      queued, inFlight := queued[1..], inFlight + [queued[0]];
    }
  }

  /** One lookup, whichever it is, finishes with `found`. */
  method FinishOne(
      before: seq<SocketAddr>, finishedBefore: seq<Finished>, found: Option<seq<Endpoint>>,
      ghost received: seq<SocketAddr>, ghost queued: seq<SocketAddr>)
    returns (inFlight: seq<SocketAddr>, finished: seq<Finished>)
    requires before != [] && Conserved(received, queued, before, finishedBefore)
    ensures Conserved(received, queued, inFlight, finished)
    ensures |inFlight| == |before| - 1 && |finished| == |finishedBefore| + 1
    ensures EndpointsOf(finished) == EndpointsOf(finishedBefore) + (if found.Some? then found.value else [])
  {
    var k :| 0 <= k < |before|;
    var done := Finished(before[k], found);
    Ended(received, queued, before, finishedBefore, k, done);
    inFlight, finished := before[..k] + before[k + 1..], finishedBefore + [done];
  }

  /** Everything received so far is accounted for. */
  ghost predicate Working(
      batches: seq<seq<SocketAddr>>, received: int, queued: seq<SocketAddr>, inFlight: seq<SocketAddr>,
      finished: seq<Finished>)
  {
    0 <= received <= |batches| && Conserved(Flatten(batches[..received]), queued, inFlight, finished)
  }

  ghost predicate QueueBound(batches: seq<seq<SocketAddr>>, longest: nat) {
    forall n: nat :: BatchesWithin(batches, n) ==> longest < MAX_QUEUED_PEERS + n
  }

  /** While a lookup is in flight, more are to finish than have. */
  lemma Unfinished(
      batches: seq<seq<SocketAddr>>, received: int, queued: seq<SocketAddr>, inFlight: seq<SocketAddr>,
      finished: seq<Finished>)
    requires Working(batches, received, queued, inFlight, finished) && inFlight != []
    ensures |finished| < |Flatten(batches)|
  {
    FlattenSplit(batches, received);
    Counted(Flatten(batches[..received]), queued, inFlight, finished);
  }

  lemma AllDone(batches: seq<seq<SocketAddr>>, finished: seq<Finished>)
    requires Working(batches, |batches|, [], [], finished)
    ensures multiset(PeersOf(finished)) == multiset(Flatten(batches))
  {
    assert batches[..|batches|] == batches;
  }

  /** The next batch joins the queue, which had room. */
  method Receive(
      batches: seq<seq<SocketAddr>>, received: nat, before: seq<SocketAddr>, longestBefore: nat,
      ghost inFlight: seq<SocketAddr>, ghost finished: seq<Finished>)
    returns (queued: seq<SocketAddr>, longest: nat)
    requires received < |batches| && |before| < MAX_QUEUED_PEERS
    requires Working(batches, received, before, inFlight, finished) && QueueBound(batches, longestBefore)
    ensures Working(batches, received + 1, queued, inFlight, finished)
    ensures |queued| <= longest && QueueBound(batches, longest)
  {
    Arrived(batches, received, before, inFlight, finished);
    queued := before + batches[received];
    longest := Max(longestBefore, |queued|);
  }

  /**
   The loop of `resolve_stream` over a finite stream of batches. Which ready
   branch is taken, which lookup finishes next and what it finds are left open;
   `peak` and `longest` are the most lookups in flight and peers queued.
   The guarded choice has to be able to go on at every turn, as `select!` does,
   which panics when all its branches are disabled.
   */
  method ResolveStream(batches: seq<seq<SocketAddr>>)
    returns (yielded: seq<Endpoint>, finished: seq<Finished>, peak: nat, longest: nat)
    ensures multiset(PeersOf(finished)) == multiset(Flatten(batches))
    ensures yielded == EndpointsOf(finished)
    ensures peak <= MAX_INDEX_LOOKUPS
    ensures QueueBound(batches, longest)
  {
    var queued: seq<SocketAddr>, inFlight: seq<SocketAddr> := [], [];
    var received := 0;
    var peersDone := false;
    yielded, finished, peak, longest := [], [], 0, 0;
    while true
      invariant Working(batches, received, queued, inFlight, finished) && (peersDone ==> received == |batches|)
      invariant |inFlight| <= peak <= MAX_INDEX_LOOKUPS && yielded == EndpointsOf(finished)
      invariant |queued| <= longest && QueueBound(batches, longest)
      decreases |batches| - received, !peersDone, |Flatten(batches)| - |finished|
    {
      queued, inFlight := StartLookups(queued, inFlight, Flatten(batches[..received]), finished);
      peak := Max(peak, |inFlight|);
      if peersDone && queued == [] && inFlight == [] {
        AllDone(batches, finished);
        break;
      }
      var pollPeers := !peersDone && |queued| < MAX_QUEUED_PEERS;
      var pollLookups := inFlight != [];
      if
      case pollPeers =>
        if received < |batches| {
          queued, longest := Receive(batches, received, queued, longest, inFlight, finished);
          received := received + 1;
        } else {
          peersDone := true;
        }
      case pollLookups =>
        Unfinished(batches, received, queued, inFlight, finished);
        var found: Option<seq<Endpoint>> := *;
        inFlight, finished := FinishOne(inFlight, finished, found, Flatten(batches[..received]), queued);
        if found.Some? {
          yielded := yielded + found.value;
        }
    }
  }
}
