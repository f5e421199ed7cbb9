/**
 Discovery of the index servers: the newest signed list seen, its stored copy,
 or servers that announced themselves.

 What the network answers during one refresh is an input. Decoding a list is a
 parameter; its decoder rejects lists of more than two sockets.
 */
module Discovery {
  import opened Base
  import opened Ordering

  /** A signed mutable item as Mainline returns it, its signature already checked. */
  datatype Item = Item(key: Bytes, value: Bytes, sequence: int, salted: bool, signature: Bytes)

  /** Reads the sockets of a list from an item's value and key. */
  type ListDecoder = (Bytes, Bytes) -> Option<seq<SocketAddr>>

  ghost predicate AtMostTwo(decode: ListDecoder) {
    forall value: Bytes, key: Bytes :: decode(value, key).Some? ==> |decode(value, key).value| <= 2
  }

  // ----- The newest signed list -----

  predicate Acceptable(decode: ListDecoder, item: Item) {
    !item.salted && item.sequence >= 0 && decode(item.value, item.key).Some?
  }

  /** Ordered by sequence, then by value. */
  predicate NotNewer(a: Item, b: Item) {
    a.sequence < b.sequence || (a.sequence == b.sequence && BytesLe(a.value, b.value))
  }

  function Accept(decode: ListDecoder, signed: Option<Item>, item: Item): Option<Item> {
    if !Acceptable(decode, item) then signed
    else if signed.None? || !NotNewer(item, signed.value) then Some(item)
    else signed
  }

  function AcceptAll(decode: ListDecoder, signed: Option<Item>, items: seq<Item>): Option<Item> {
    if items == [] then signed
    else Accept(decode, AcceptAll(decode, signed, items[..|items| - 1]), items[|items| - 1])
  }

  /** `best` is an acceptable item seen, and none seen is newer. */
  ghost predicate IsNewest(decode: ListDecoder, best: Option<Item>, seen: set<Item>) {
    match best
    case None => forall x :: x in seen ==> !Acceptable(decode, x)
    case Some(b) =>
      b in seen && Acceptable(decode, b) && forall x :: x in seen && Acceptable(decode, x) ==> NotNewer(x, b)
  }

  lemma AcceptIsNewest(decode: ListDecoder, signed: Option<Item>, seen: set<Item>, item: Item)
    requires IsNewest(decode, signed, seen)
    ensures IsNewest(decode, Accept(decode, signed, item), seen + {item})
  {
    BytesLeIsTotal();
  }

  function Elements(items: seq<Item>): set<Item> {
    set x | x in items
  }

  /** What is kept is the newest acceptable list of all seen, in whatever order and however often they came. */
  lemma {:induction false} AcceptAllIsNewest(
      decode: ListDecoder, signed: Option<Item>, seen: set<Item>, items: seq<Item>)
    requires IsNewest(decode, signed, seen)
    ensures IsNewest(decode, AcceptAll(decode, signed, items), seen + Elements(items))
  {
    if items == [] {
      assert seen + Elements(items) == seen;
    } else {
      var earlier := items[..|items| - 1];
      AcceptAllIsNewest(decode, signed, seen, earlier);
      AcceptIsNewest(decode, AcceptAll(decode, signed, earlier), seen + Elements(earlier), items[|items| - 1]);
      assert items == earlier + [items[|items| - 1]];
      assert seen + Elements(items) == seen + Elements(earlier) + {items[|items| - 1]};
    }
  }

  /** The sockets of the list that is kept. */
  function ListIn(decode: ListDecoder, signed: Option<Item>): Option<seq<SocketAddr>> {
    var item :- signed;
    decode(item.value, item.key)
  }

  /**
   So two histories that saw the same items agree on sequence and value, and if
   all items are for the one key that was asked for, on the servers listed.
   */
  lemma OrderDoesNotMatter(decode: ListDecoder, key: Bytes, xs: seq<Item>, ys: seq<Item>)
    requires Elements(xs) == Elements(ys)
    ensures var (a, b) := (AcceptAll(decode, None, xs), AcceptAll(decode, None, ys));
            && (a.None? <==> b.None?)
            && (a.Some? ==> a.value.sequence == b.value.sequence && a.value.value == b.value.value)
            && ((forall x :: x in xs ==> x.key == key) ==> ListIn(decode, a) == ListIn(decode, b))
  {
    AcceptAllIsNewest(decode, None, {}, xs);
    AcceptAllIsNewest(decode, None, {}, ys);
    var (a, b) := (AcceptAll(decode, None, xs), AcceptAll(decode, None, ys));
    assert {} + Elements(xs) == {} + Elements(ys);
    BytesLeIsTotal();
    if a.Some? && b.Some? {
      assert NotNewer(a.value, b.value) && NotNewer(b.value, a.value);
      assert a.value in Elements(xs) && b.value in Elements(xs);
    }
  }

  // ----- One refresh -----

  datatype Failure = Shutdown | Timeout | NoServers | Closed

  /** How a lookup of the list ended, after the items that arrived. */
  datatype ListLookup = ListLookup(items: seq<Item>, failure: Option<Failure>)

  /** How a rendezvous lookup ended, after the batches that arrived. */
  datatype Meeting = Finished(batches: seq<seq<SocketAddr>>) | TimedOut(batches: seq<seq<SocketAddr>>) | NotStarted

  /** Everything one refresh learns from outside; waiting for the bootstrap fails only if the DHT shut down. */
  datatype Answers = Answers(dhtOpen: bool, list: ListLookup, meeting: Meeting, clientOpen: bool)

  /** The peers a rendezvous finds. */
  function Met(meeting: Meeting): set<SocketAddr> {
    if meeting.NotStarted? then {} else FirstTwo({}, Flatten(meeting.batches))
  }

  predicate ValidPeer(peer: SocketAddr) {
    && peer.port != 0
    && peer.ip != 0
    && !(0xE000_0000 <= peer.ip < 0xF000_0000)
    && peer.ip != 0xFFFF_FFFF
  }

  /** The first two distinct valid peers. */
  function FirstTwo(found: set<SocketAddr>, peers: seq<SocketAddr>): (r: set<SocketAddr>)
    ensures |found| <= 2 ==> |r| <= 2
    ensures forall p :: p in r ==> p in found || (p in peers && ValidPeer(p))
    ensures r == {} <==> found == {} && forall p :: p in peers ==> !ValidPeer(p)
    decreases |peers|
  {
    if |found| == 2 || peers == [] then
      found
    else
      assert forall p :: p in peers <==> p == peers[0] || p in peers[1..];
      FirstTwo(if ValidPeer(peers[0]) then found + {peers[0]} else found, peers[1..])
  }

  lemma {:induction false} FirstTwoAppend(found: set<SocketAddr>, xs: seq<SocketAddr>, ys: seq<SocketAddr>)
    ensures FirstTwo(found, xs + ys) ==
            if |FirstTwo(found, xs)| == 2 then FirstTwo(found, xs) else FirstTwo(FirstTwo(found, xs), ys)
    decreases |xs|
  {
    if |found| != 2 && xs != [] {
      var next := if ValidPeer(xs[0]) then found + {xs[0]} else found;
      assert (xs + ys)[1..] == xs[1..] + ys;
      FirstTwoAppend(next, xs[1..], ys);
    } else if xs == [] {
      assert xs + ys == ys;
    }
  }

  lemma FirstTwoAdds(found: set<SocketAddr>, peers: seq<SocketAddr>, j: nat)
    requires j < |peers| && |FirstTwo(found, peers[..j])| != 2
    ensures FirstTwo(found, peers[..j + 1]) ==
            FirstTwo(found, peers[..j]) + (if ValidPeer(peers[j]) then {peers[j]} else {})
  {
    FirstTwoAppend(found, peers[..j], [peers[j]]);
    assert peers[..j + 1] == peers[..j] + [peers[j]];
    assert [peers[j]][1..] == [];
  }

  /** Everything, cut after the first `j` peers of batch `i`. */
  lemma FlattenCut(batches: seq<seq<SocketAddr>>, i: nat, j: nat) returns (rest: seq<SocketAddr>)
    requires i < |batches| && j <= |batches[i]|
    ensures Flatten(batches) == Flatten(batches[..i]) + (batches[i][..j] + rest)
  {
    FlattenSplit(batches, i + 1);
    assert batches[..i + 1][..i] == batches[..i];
    assert batches[i] == batches[i][..j] + batches[i][j..];
    rest := batches[i][j..] + Flatten(batches[i + 1..]);
  }

  /** Two peers found in the first batches and the first peers of the next are found in all. */
  lemma TwoAreEnough(before: seq<SocketAddr>, head: seq<SocketAddr>, rest: seq<SocketAddr>)
    requires |FirstTwo({}, before)| != 2 && |FirstTwo(FirstTwo({}, before), head)| == 2
    ensures FirstTwo({}, before + (head + rest)) == FirstTwo(FirstTwo({}, before), head)
  {
    FirstTwoAppend({}, before, head + rest);
    FirstTwoAppend(FirstTwo({}, before), head, rest);
  }

  /** The loop over arriving batches, which stops at the second valid peer. */
  method CollectPeers(batches: seq<seq<SocketAddr>>) returns (peers: set<SocketAddr>)
    ensures peers == FirstTwo({}, Flatten(batches))
  {
    peers := {};
    for i := 0 to |batches|
      invariant peers == FirstTwo({}, Flatten(batches[..i])) && |peers| != 2
    {
      ghost var before := peers;
      var batch := batches[i];
      for j := 0 to |batch|
        invariant peers == FirstTwo(before, batch[..j]) && |peers| != 2
      {
        FirstTwoAdds(before, batch, j);
        if ValidPeer(batch[j]) {
          peers := peers + {batch[j]};
          if |peers| == 2 {
            ghost var rest := FlattenCut(batches, i, j + 1);
            TwoAreEnough(Flatten(batches[..i]), batch[..j + 1], rest);
            return;
          }
        }
      }
      assert batch[..|batch|] == batch && batches[..i + 1][..i] == batches[..i];
      FirstTwoAppend({}, Flatten(batches[..i]), batch);
    }
    assert batches[..|batches|] == batches;
  }

  class Discovery {
    const decode: ListDecoder
    const listKey: Option<Bytes>
    const fallback: Option<Item>
    const rendezvous: bool
    var signed: Option<Item>
    var servers: set<SocketAddr>
    /** Every item any refresh considered. */
    ghost var seen: set<Item>

    ghost predicate Valid()
      reads this
    {
      IsNewest(decode, signed, seen)
    }

    constructor (decode: ListDecoder, listKey: Option<Bytes>, fallback: Option<Item>, rendezvous: bool)
      ensures this.decode == decode && this.listKey == listKey && this.fallback == fallback
      ensures this.rendezvous == rendezvous && signed == None && servers == {}
      ensures Valid() && seen == {}
    {
      this.decode, this.listKey, this.fallback, this.rendezvous := decode, listKey, fallback, rendezvous;
      signed, servers, seen := None, {}, {};
    }

    method AcceptItem(item: Item)
      requires Valid()
      modifies this`signed, this`seen
      ensures signed == Accept(decode, old(signed), item)
      ensures Valid() && seen == old(seen) + {item}
    {
      AcceptIsNewest(decode, signed, seen, item);
      seen := seen + {item};
      if item.salted || item.sequence < 0 || decode(item.value, item.key).None? {
        return;
      }
      if signed.None? || !NotNewer(item, signed.value) {
        signed := Some(item);
      }
    }

    /** The items this refresh considers: what arrived, and the stored copy if nothing was accepted. */
    ghost function Considered(before: Option<Item>, answers: Answers): seq<Item> {
      var items := if listKey.Some? then answers.list.items else [];
      if AcceptAll(decode, before, items).None? && fallback.Some? && listKey == Some(fallback.value.key)
      then items + [fallback.value] else items
    }

    /** The sockets of the signed list, if there is one. */
    function SignedServers(): Option<set<SocketAddr>>
      reads this
    {
      var list :- ListIn(decode, signed);
      Some(set a | a in list)
    }

    method AcceptLists(answers: Answers)
      requires Valid()
      modifies this`signed, this`seen
      ensures signed == AcceptAll(decode, old(signed), Considered(old(signed), answers))
      ensures Valid() && seen == old(seen) + Elements(Considered(old(signed), answers))
    {
      var items := if listKey.Some? then answers.list.items else [];
      for i := 0 to |items|
        invariant signed == AcceptAll(decode, old(signed), items[..i])
        invariant Valid() && seen == old(seen) + Elements(items[..i])
      {
        assert items[..i + 1][..i] == items[..i];
        assert Elements(items[..i + 1]) == Elements(items[..i]) + {items[i]};
        AcceptItem(items[i]);
      }
      assert items[..|items|] == items;
      if signed.None? && fallback.Some? && listKey == Some(fallback.value.key) {
        assert (items + [fallback.value])[..|items|] == items;
        assert Elements(items + [fallback.value]) == Elements(items) + {fallback.value};
        AcceptItem(fallback.value);
      }
    }

    /** The rendezvous peers, and the failure that counts unless the list withdrew its servers. */
    method Meet(meeting: Meeting) returns (peers: set<SocketAddr>, failure: Option<Failure>)
      ensures peers == Met(meeting)
      ensures failure == if peers != {} || meeting.Finished? then None
                         else Some(if meeting.TimedOut? then Timeout else Shutdown)
    {
      match meeting {
        case NotStarted => return {}, Some(Shutdown);
        case Finished(batches) =>
          peers := CollectPeers(batches);
          return peers, None;
        case TimedOut(batches) =>
          peers := CollectPeers(batches);
          return peers, if peers == {} then Some(Timeout) else None;
      }
    }

    /**
     A refresh that fails leaves the servers as they were. One that succeeds
     uses the signed list if it names any; other peers only if it names none;
     at most two servers in all; and none only if the signed list is empty,
     which withdraws them. The newest signed list is kept either way.
     */
    method Refresh(answers: Answers) returns (failure: Option<Failure>)
      requires Valid() && AtMostTwo(decode)
      modifies this
      ensures Valid()
      ensures seen == old(seen) + if answers.dhtOpen then Elements(Considered(old(signed), answers)) else {}
      ensures signed == if answers.dhtOpen
                        then AcceptAll(decode, old(signed), Considered(old(signed), answers)) else old(signed)
      ensures failure.Some? ==> servers == old(servers)
      ensures failure.None? <==>
                && answers.dhtOpen && answers.clientOpen
                && (SignedServers().Some? || (rendezvous && Met(answers.meeting) != {}))
      ensures failure == Some(NoServers) ==> SignedServers().None? && !(rendezvous && Met(answers.meeting) != {})
      ensures failure.None? ==> |servers| <= 2
      ensures failure.None? && SignedServers().Some? && SignedServers().value != {} ==>
                servers == SignedServers().value
      ensures failure.None? && (SignedServers().None? || SignedServers().value == {}) ==>
                servers == if rendezvous then Met(answers.meeting) else {}
      ensures failure.None? && servers == {} ==> SignedServers() == Some({})
    {
      if !answers.dhtOpen {
        return Some(Shutdown);
      }
      AcceptLists(answers);
      var list := SignedServers();
      var withdrawn := list == Some({});
      var peers := if list.Some? then list.value else {};
      if peers == {} {
        if rendezvous {
          var met, missed := Meet(answers.meeting);
          peers := met;
          if !withdrawn && missed.Some? {
            return missed;
          }
        } else if !withdrawn && listKey.Some? && answers.list.failure.Some? {
          return answers.list.failure;
        }
      } else {
        SmallList(decode(signed.value.value, signed.value.key).value);
      }
      if peers == {} && !withdrawn {
        return Some(NoServers);
      }
      if !answers.clientOpen {
        return Some(Closed);
      }
      servers := peers;
      return None;
    }
  }

  lemma {:induction false} SmallList(list: seq<SocketAddr>)
    ensures |set a | a in list| <= |list|
  {
    if list == [] {
      assert (set a | a in list) == {};
    } else {
      SmallList(list[1..]);
      assert (set a | a in list) == {list[0]} + (set a | a in list[1..]);
    }
  }
}
