/**
 What the client sends in every run: to each server it asks the request itself,
 and to each server that granted a socket the put for that socket.
 */
module Requests {
  import opened Base
  import opened Wire
  import opened Client
  import opened ClientRuns

  /** The put that a grant calls for. */
  function PutFor(tx: U64, p: Publication, s: SocketAddr): Datagram
    requires s in p.granted && |p.valueFor(p.granted[s].0)| <= MAX_VALUE_LEN
  {
    Datagram(s, PutData(tx, p.granted[s].1, p.valueFor(p.granted[s].0)))
  }

  ghost predicate PublicationSent(outbox: multiset<Datagram>, tx: U64, p: Publication) {
    && (forall s :: s in p.asked ==> Datagram(s, PrepareData(tx)) in outbox)
    && (forall s :: s in p.granted && |p.valueFor(p.granted[s].0)| <= MAX_VALUE_LEN ==> PutFor(tx, p, s) in outbox)
  }

  ghost predicate LookupSent(outbox: multiset<Datagram>, tx: U64, l: Lookup) {
    forall s :: s in l.asked ==> Datagram(s, GetData(tx, l.addr)) in outbox
  }

  ghost predicate Sent(t: Trace) {
    && (forall tx {:trigger PublicationSent(t.state.outbox, tx, t.publications[tx])} ::
          tx in t.publications ==> PublicationSent(t.state.outbox, tx, t.publications[tx]))
    && (forall tx {:trigger LookupSent(t.state.outbox, tx, t.lookups[tx])} ::
          tx in t.lookups ==> LookupSent(t.state.outbox, tx, t.lookups[tx]))
  }

  lemma SamePublicationSent(
      small: multiset<Datagram>, big: multiset<Datagram>, tx: U64, p: Publication, q: Publication)
    requires small <= big && PublicationSent(small, tx, p)
    requires q.asked == p.asked && q.granted == p.granted && q.valueFor == p.valueFor
    ensures PublicationSent(big, tx, q)
  {
    forall s | s in q.granted && |q.valueFor(q.granted[s].0)| <= MAX_VALUE_LEN ensures PutFor(tx, q, s) in big {
      assert PutFor(tx, p, s) in small;
    }
  }

  lemma SameLookupSent(small: multiset<Datagram>, big: multiset<Datagram>, tx: U64, l: Lookup, m: Lookup)
    requires small <= big && LookupSent(small, tx, l) && m.asked == l.asked && m.addr == l.addr
    ensures LookupSent(big, tx, m)
  {
  }

  /** What was sent stays sent; it remains to look at what step `hot` began or changed. */
  lemma SentStays(t: Trace, u: Trace, hot: U64)
    requires Sent(t) && t.state.outbox <= u.state.outbox
    requires forall tx :: tx in u.publications && tx != hot ==>
               tx in t.publications && u.publications[tx] == t.publications[tx]
    requires forall tx :: tx in u.lookups && tx != hot ==> tx in t.lookups && u.lookups[tx] == t.lookups[tx]
    requires hot in u.publications ==> PublicationSent(u.state.outbox, hot, u.publications[hot])
    requires hot in u.lookups ==> LookupSent(u.state.outbox, hot, u.lookups[hot])
    ensures Sent(u)
  {
    forall tx | tx in u.publications ensures PublicationSent(u.state.outbox, tx, u.publications[tx]) {
      if tx != hot {
        SamePublicationSent(t.state.outbox, u.state.outbox, tx, t.publications[tx], t.publications[tx]);
      }
    }
    forall tx | tx in u.lookups ensures LookupSent(u.state.outbox, tx, u.lookups[tx]) {
      if tx != hot {
        SameLookupSent(t.state.outbox, u.state.outbox, tx, t.lookups[tx], t.lookups[tx]);
      }
    }
  }

  lemma BroadcastReaches(servers: set<SocketAddr>, data: Bytes, s: SocketAddr)
    requires s in servers
    ensures Datagram(s, data) in ToAll(servers, data)
  {
  }

  lemma NewPublicationSent(
      t: Trace, tx: U64, deadline: nat, valueFor: SocketAddr -> Bytes, channel: Channel)
    requires t.state.servers != {}
    ensures var u := WithCommand(t, Publish(valueFor, channel), tx, deadline);
            tx in u.publications && PublicationSent(u.state.outbox, tx, u.publications[tx])
  {
    var u := WithCommand(t, Publish(valueFor, channel), tx, deadline);
    forall s | s in t.state.servers ensures Datagram(s, PrepareData(tx)) in u.state.outbox {
      BroadcastReaches(t.state.servers, PrepareData(tx), s);
    }
  }

  lemma NewLookupSent(
      t: Trace, tx: U64, deadline: nat, addr: SocketAddr, accept: Option<Bytes -> bool>, channel: Channel)
    requires t.state.servers != {}
    ensures var u := WithCommand(t, Resolve(addr, accept, channel), tx, deadline);
            tx in u.lookups && LookupSent(u.state.outbox, tx, u.lookups[tx])
  {
    var u := WithCommand(t, Resolve(addr, accept, channel), tx, deadline);
    forall s | s in t.state.servers ensures Datagram(s, GetData(tx, addr)) in u.state.outbox {
      BroadcastReaches(t.state.servers, GetData(tx, addr), s);
    }
  }

  lemma CommandSends(t: Trace, command: Command, tx: U64, deadline: nat)
    requires Sent(t) && Enabled(t, Commanded(command, tx, deadline))
    ensures Sent(WithCommand(t, command, tx, deadline))
  {
    CommandKeeps(t, command, tx, deadline);
    if t.state.servers != {} {
      match command
      case Publish(valueFor, channel) => NewPublicationSent(t, tx, deadline, valueFor, channel);
      case Resolve(addr, accept, channel) => NewLookupSent(t, tx, deadline, addr, accept, channel);
      case _ =>
    }
    SentStays(t, WithCommand(t, command, tx, deadline), tx);
  }

  /** A grant that counts is answered with its put. */
  lemma GrantSends(s: State, from: SocketAddr, tx: U64, addr: SocketAddr, token: Token)
    requires tx in s.publishes && from in s.publishes[tx].awaiting && from !in s.publishes[tx].prepared
    requires |s.publishes[tx].valueFor(addr)| <= MAX_VALUE_LEN
    ensures Datagram(from, PutData(tx, token, s.publishes[tx].valueFor(addr))) in
              OnPrepared(s, from, tx, addr, token).outbox
  {
  }

  lemma PreparedSends(t: Trace, from: SocketAddr, tx: U64, addr: SocketAddr, token: Token)
    requires tx in t.publications && PublicationSent(t.state.outbox, tx, t.publications[tx])
    requires t.publications[tx].channel !in t.state.answers ==>
               tx in t.state.publishes && PendingPublishIs(t.publications[tx], t.state.publishes[tx])
    ensures var u := WithReply(t, from, Prepared(tx, addr, token));
            tx in u.publications && PublicationSent(u.state.outbox, tx, u.publications[tx])
  {
    var response := Prepared(tx, addr, token);
    var u := WithReply(t, from, response);
    var p := t.publications[tx];
    ReplyOutboxGrows(t.state, from, response);
    SamePublicationSent(t.state.outbox, u.state.outbox, tx, p, p);
    if u.publications[tx] != p && |p.valueFor(addr)| <= MAX_VALUE_LEN {
      GrantSends(t.state, from, tx, addr, token);
    }
  }

  /** A reply changes nothing of what a lookup asked, and only a grant something of what a publication did. */
  lemma ReplyKeepsAsked(t: Trace, from: SocketAddr, response: Response)
    ensures var (u, tx) := (WithReply(t, from, response), response.tx);
            && (tx in t.lookups ==>
                  && tx in u.lookups
                  && u.lookups[tx].asked == t.lookups[tx].asked && u.lookups[tx].addr == t.lookups[tx].addr)
            && (tx in t.publications && !response.Prepared? ==>
                  && tx in u.publications && u.publications[tx].asked == t.publications[tx].asked
                  && u.publications[tx].granted == t.publications[tx].granted
                  && u.publications[tx].valueFor == t.publications[tx].valueFor)
  {
  }

  lemma GrantStaysSent(t: Trace, from: SocketAddr, tx: U64, addr: SocketAddr, token: Token)
    requires Inv(t) && tx in t.publications && PublicationSent(t.state.outbox, tx, t.publications[tx])
    ensures var u := WithReply(t, from, Prepared(tx, addr, token));
            tx in u.publications && PublicationSent(u.state.outbox, tx, u.publications[tx])
  {
    PublicationOpen(t, tx);
    PreparedSends(t, from, tx, addr, token);
  }

  lemma ReplySends(t: Trace, from: SocketAddr, response: Response)
    requires Inv(t) && Sent(t)
    ensures Sent(WithReply(t, from, response))
  {
    var (u, tx) := (WithReply(t, from, response), response.tx);
    ReplyOutboxGrows(t.state, from, response);
    ReplyKeepsAsked(t, from, response);
    ReplyRecords(t, from, response);
    if tx in t.publications {
      if response.Prepared? {
        GrantStaysSent(t, from, tx, response.addr, response.token);
      } else {
        SamePublicationSent(t.state.outbox, u.state.outbox, tx, t.publications[tx], u.publications[tx]);
      }
    }
    if tx in t.lookups {
      SameLookupSent(t.state.outbox, u.state.outbox, tx, t.lookups[tx], u.lookups[tx]);
    }
    SentStays(t, u, tx);
  }

  lemma NextSends(t: Trace, e: Event)
    requires Inv(t) && Sent(t) && Enabled(t, e)
    ensures Sent(Next(t, e))
  {
    match e
    case Commanded(command, tx, deadline) => CommandSends(t, command, tx, deadline);
    case Delivered(from, data) =>
      if ResponseIn(data).Some? {
        ReplySends(t, from, ResponseIn(data).value);
      }
    case PublishExpired(_, _) =>
    case ResolveExpired(_, _) =>
  }

  lemma {:induction false} RunSends(traces: seq<Trace>, events: seq<Event>, i: nat)
    requires Run(traces, events) && i < |traces|
    ensures Sent(traces[i])
  {
    if i > 0 {
      RunSends(traces, events, i - 1);
      RunInv(traces, events, i - 1);
      assert StepAt(traces, events, i - 1);
      NextSends(traces[i - 1], events[i - 1]);
    }
  }

  // ----- What it promises -----

  /**
   Every server that granted a socket whose value fits was sent exactly one put
   of this transaction: the value built for that socket, with the token granted.
   */
  lemma GrantedMeansOnePut(traces: seq<Trace>, events: seq<Event>, i: nat, tx: U64, s: SocketAddr)
    requires Run(traces, events) && i < |traces| && tx in traces[i].publications
    requires s in traces[i].publications[tx].granted
    requires |traces[i].publications[tx].valueFor(traces[i].publications[tx].granted[s].0)| <= MAX_VALUE_LEN
    ensures var (outbox, p) := (traces[i].state.outbox, traces[i].publications[tx]);
            exists d :: outbox[d] == 1 && d.to == s &&
              Decode(d.data) == Some(FromClient(Put(tx, p.granted[s].1, p.valueFor(p.granted[s].0)))) &&
              forall e :: e in outbox && IsPut(e, tx) && e.to == s ==> e == d
  {
    var (outbox, p) := (traces[i].state.outbox, traces[i].publications[tx]);
    RunSends(traces, events, i);
    assert PublicationSent(outbox, tx, p);
    var d := PutFor(tx, p, s);
    PutReadsBack(tx, p.granted[s].1, p.valueFor(p.granted[s].0));
    OnePutPerServer(traces, events, i, d, d, tx);
    forall e | e in outbox && IsPut(e, tx) && e.to == s ensures e == d {
      OnePutPerServer(traces, events, i, e, d, tx);
    }
  }

  lemma PutReadsBack(tx: U64, token: Token, value: Bytes)
    requires |value| <= MAX_VALUE_LEN
    ensures Decode(PutData(tx, token, value)) == Some(FromClient(Put(tx, token, value)))
  {
    EncodeFits(FromClient(Put(tx, token, value)));
    RoundTrip(FromClient(Put(tx, token, value)));
  }

  /** Who is asked is who was configured: each command about servers does what it says. */
  lemma CommandsSetServers(s: State, command: Command, tx: U64, deadline: nat, x: SocketAddr)
    ensures var after := OnCommand(s, command, tx, deadline).servers;
            match command
            case AddServer(server) => x in after <==> x in s.servers || x == server
            case RemoveServer(server) => x in after <==> x in s.servers && x != server
            case ReplaceServers(servers) => x in after <==> x in servers
            case _ => x in after <==> x in s.servers
  {
  }

  /** Every server a publication asked was sent its prepare, and every server a lookup asked was sent its get. */
  lemma AskedMeansSent(traces: seq<Trace>, events: seq<Event>, i: nat, tx: U64, s: SocketAddr)
    requires Run(traces, events) && i < |traces|
    ensures tx in traces[i].publications && s in traces[i].publications[tx].asked ==>
              exists d :: d in traces[i].state.outbox && d.to == s &&
                Decode(d.data) == Some(FromClient(Prepare(tx, Zeros(24))))
    ensures tx in traces[i].lookups && s in traces[i].lookups[tx].asked ==>
              exists d :: d in traces[i].state.outbox && d.to == s &&
                Decode(d.data) == Some(FromClient(Get(tx, traces[i].lookups[tx].addr)))
  {
    RunSends(traces, events, i);
    var t := traces[i];
    if tx in t.publications && s in t.publications[tx].asked {
      EncodeFits(FromClient(Prepare(tx, Zeros(24))));
      RoundTrip(FromClient(Prepare(tx, Zeros(24))));
      assert PublicationSent(t.state.outbox, tx, t.publications[tx]);
      assert Datagram(s, PrepareData(tx)) in t.state.outbox;
    }
    if tx in t.lookups && s in t.lookups[tx].asked {
      var addr := t.lookups[tx].addr;
      EncodeFits(FromClient(Get(tx, addr)));
      RoundTrip(FromClient(Get(tx, addr)));
      assert LookupSent(t.state.outbox, tx, t.lookups[tx]);
      assert Datagram(s, GetData(tx, addr)) in t.state.outbox;
    }
  }
}
