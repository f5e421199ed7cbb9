/** Publishing and looking up signed records through the client: the two uses the index is made for. */
module AddrIndex {
  import opened Base
  import opened Ordering
  import opened Wire
  import opened Client
  import opened ClientRuns
  import Record

  /** `publish`: a record signed for whatever socket a server observed; the clock reading may depend on it. */
  function RecordFor(scheme: Record.Scheme, secret: Bytes, ts: SocketAddr -> U64): SocketAddr -> Bytes {
    addr => Record.RecordBytes(Record.Sign(scheme, secret, addr, ts(addr)))
  }

  /** `lookup_uncached`: a value that decodes for the address is good enough to stop waiting. */
  function GoodEnough(scheme: Record.Scheme, addr: SocketAddr): Bytes -> bool {
    value => Record.DecodeRecord(scheme, value, addr).Some?
  }

  /** A record never exceeds the protocol's limit, so publishing it cannot fail as too large. */
  lemma PublishingFits(
      traces: seq<Trace>, events: seq<Event>, i: nat, tx: U64,
      scheme: Record.Scheme, secret: Bytes, ts: SocketAddr -> U64)
    requires Run(traces, events) && i < |traces| && tx in traces[i].publications && Record.Sound(scheme)
    requires traces[i].publications[tx].valueFor == RecordFor(scheme, secret, ts)
    requires traces[i].publications[tx].channel in traces[i].state.answers
    ensures traces[i].state.answers[traces[i].publications[tx].channel] != Failed(TooLarge)
  {
    PublicationEnds(traces, events, i, tx);
    var p := traces[i].publications[tx];
    forall s | s in p.granted ensures s !in p.Oversized() {
      var addr := p.granted[s].0;
      Record.BoundToItsSlot(scheme, secret, addr, ts(addr), addr);
      assert p.valueFor(addr) == Record.RecordBytes(Record.Sign(scheme, secret, addr, ts(addr)));
    }
    assert p.Oversized() == {};
  }

  /**
   What an uncached lookup returns: only verified records bound to the address
   it asked for, each read from a server it asked; and if its deadline did not
   end it, it found one or heard from every server.
   */
  lemma UncachedLookup(traces: seq<Trace>, events: seq<Event>, i: nat, tx: U64, scheme: Record.Scheme)
    requires Run(traces, events) && i < |traces| && tx in traces[i].lookups
    requires traces[i].lookups[tx].accept == Some(GoodEnough(scheme, traces[i].lookups[tx].addr))
    requires traces[i].lookups[tx].channel in traces[i].state.answers
    requires traces[i].state.answers[traces[i].lookups[tx].channel].ResolvedTo?
    ensures var (t, l) := (traces[i], traces[i].lookups[tx]);
            var records := Record.Validated(scheme, t.state.answers[l.channel].values, l.addr);
            && (forall r :: r in records ==>
                  && r.addr == l.addr && Record.Verify(scheme, r)
                  && exists s, v :: Received(s, Value(tx, l.addr, Some(v))) in t.received && s in l.asked &&
                       Record.DecodeRecord(scheme, v, l.addr) == Some(r))
            && (l.channel !in t.expired ==> records != [] || l.heard.Keys == l.asked)
  {
    LookupEnds(traces, events, i, tx);
    var (t, l) := (traces[i], traces[i].lookups[tx]);
    var values := t.state.answers[l.channel].values;
    var records := Record.Validated(scheme, values, l.addr);
    forall r | r in records
      ensures exists s, v :: Received(s, Value(tx, l.addr, Some(v))) in t.received && s in l.asked &&
                Record.DecodeRecord(scheme, v, l.addr) == Some(r)
    {
      var v :| v in values && Record.DecodeRecord(scheme, v, l.addr) == Some(r);
      var s :| s in l.heard && l.heard[s] == Some(v);
      assert Received(s, Value(tx, l.addr, Some(v))) in t.received;
    }
    if l.channel !in t.expired && l.heard.Keys != l.asked {
      var s :| s in l.heard && l.Accepts(l.heard[s]);
      var v := l.heard[s].value;
      assert v in values;
      assert Record.DecodeRecord(scheme, v, l.addr).value in records;
    }
  }
}
