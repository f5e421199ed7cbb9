/**
 What the client actor promises over every run.

 Beside the actor's state, a trace keeps a plain record of what happened: which
 servers were asked, what the first counted reply of each said, and which
 transactions a deadline ended. The answers are then stated in those terms.
 */
module ClientRuns {
  import opened Base
  import opened Ordering
  import opened Wire
  import opened Client

  /** A lookup: whom it asked and what each of them reported, at most once per server. */
  datatype Lookup = Lookup(
    addr: SocketAddr,
    accept: Option<Bytes -> bool>,
    asked: set<SocketAddr>,
    heard: map<SocketAddr, Option<Bytes>>,
    channel: Channel)
  {
    ghost predicate Accepts(found: Option<Bytes>) {
      Usable(found) && accept.Some? && accept.value(found.value)
    }

    ghost predicate Done() {
      heard.Keys == asked || exists s :: s in heard && Accepts(heard[s])
    }

    ghost function Values(): set<Bytes> {
      set s | s in heard && Usable(heard[s]) :: heard[s].value
    }

    ghost function Result(): Answer {
      BytesLeIsTotal();
      if heard == map[] then Failed(Timeout) else ResolvedTo(Listed(Values(), BytesLe))
    }
  }

  /** A publication: whom it asked, the socket and token each granted, and the socket each stored under. */
  datatype Publication = Publication(
    valueFor: SocketAddr -> Bytes,
    asked: set<SocketAddr>,
    granted: map<SocketAddr, (SocketAddr, Token)>,
    confirmed: map<SocketAddr, SocketAddr>,
    channel: Channel)
  {
    /** Servers whose socket led to a value that is too long to send. */
    ghost function Oversized(): set<SocketAddr> {
      set s | s in granted && |valueFor(granted[s].0)| > MAX_VALUE_LEN
    }

    ghost function Waiting(): set<SocketAddr> {
      asked - confirmed.Keys - Oversized()
    }

    ghost function Result(): Answer {
      AddrLeIsTotal();
      if confirmed == map[] then Failed(if Oversized() == {} then Timeout else TooLarge)
      else PublishedAt(Listed(confirmed.Values, AddrLe))
    }
  }

  predicate Usable(found: Option<Bytes>) {
    found.Some? && |found.value| <= MAX_VALUE_LEN
  }

  datatype Received = Received(from: SocketAddr, response: Response)

  datatype Trace = Trace(
    state: State,
    lookups: map<U64, Lookup>,
    publications: map<U64, Publication>,
    received: set<Received>,
    issued: set<Channel>,
    expired: set<Channel>)

  datatype Event =
    | Commanded(command: Command, tx: U64, deadline: nat)
    | Delivered(from: SocketAddr, data: Bytes)
    | PublishExpired(tx: U64, now: nat)
    | ResolveExpired(tx: U64, now: nat)

  const START := Trace(INITIAL, map[], map[], {}, {}, {})

  // ----- Steps -----

  function WithCommand(t: Trace, command: Command, tx: U64, deadline: nat): Trace {
    var begun := t.(state := OnCommand(t.state, command, tx, deadline), issued := t.issued + Opened(command));
    if t.state.servers == {} then begun else
      match command
      case Publish(valueFor, channel) =>
        begun.(publications :=
            t.publications[tx := Publication(valueFor, t.state.servers, map[], map[], channel)])
      case Resolve(addr, accept, channel) =>
        begun.(lookups := t.lookups[tx := Lookup(addr, accept, t.state.servers, map[], channel)])
      case _ => begun
  }

  /** Which replies count: to an open transaction, from a server it asked, the first of its kind. */
  ghost function WithReply(t: Trace, from: SocketAddr, response: Response): Trace {
    var after := t.(state := OnResponse(t.state, from, response),
                    received := t.received + {Received(from, response)});
    match response
    case Prepared(tx, addr, token) =>
      if tx in t.publications && t.publications[tx].channel !in t.state.answers &&
         from in t.publications[tx].Waiting() && from !in t.publications[tx].granted
      then
        var p := t.publications[tx];
        after.(publications := t.publications[tx := p.(granted := p.granted[from := (addr, token)])])
      else after
    case Stored(tx, addr) =>
      if tx in t.publications && t.publications[tx].channel !in t.state.answers &&
         from in t.publications[tx].Waiting()
      then
        var p := t.publications[tx];
        after.(publications := t.publications[tx := p.(confirmed := p.confirmed[from := addr])])
      else after
    case Value(tx, addr, found) =>
      if tx in t.lookups && t.lookups[tx].channel !in t.state.answers && t.lookups[tx].addr == addr &&
         from in t.lookups[tx].asked && from !in t.lookups[tx].heard
      then
        var l := t.lookups[tx];
        after.(lookups := t.lookups[tx := l.(heard := l.heard[from := found])])
      else after
  }

  ghost function Next(t: Trace, e: Event): Trace {
    match e
    case Commanded(command, tx, deadline) => WithCommand(t, command, tx, deadline)
    case Delivered(from, data) =>
      if ResponseIn(data).None? then t else WithReply(t, from, ResponseIn(data).value)
    case PublishExpired(tx, _) =>
      if tx !in t.state.publishes then t else
        t.(state := FinishPublish(t.state, tx), expired := t.expired + {t.state.publishes[tx].channel})
    case ResolveExpired(tx, _) =>
      if tx !in t.state.resolves then t else
        t.(state := FinishResolve(t.state, tx), expired := t.expired + {t.state.resolves[tx].channel})
  }

  /**
   A command comes with its own channel and a transaction id this client never
   used; a transaction expires once its deadline has passed.
   */
  ghost predicate Enabled(t: Trace, e: Event) {
    match e
    case Commanded(command, tx, _) =>
      && (forall c :: c in Opened(command) ==> c !in t.issued)
      && tx !in t.lookups && tx !in t.publications
    case Delivered(_, _) => true
    case PublishExpired(tx, now) => tx in t.state.publishes ==> t.state.publishes[tx].deadline <= now
    case ResolveExpired(tx, now) => tx in t.state.resolves ==> t.state.resolves[tx].deadline <= now
  }

  // ----- The invariant -----

  ghost predicate PendingPublishIs(p: Publication, q: PendingPublish) {
    && q.valueFor == p.valueFor
    && q.channel == p.channel
    && q.tooLarge == (p.Oversized() != {})
    && q.awaiting == p.Waiting()
    && q.prepared == p.granted.Keys
    && q.stored == p.confirmed.Values
  }

  ghost predicate PublicationOk(t: Trace, tx: U64, p: Publication) {
    && p.granted.Keys <= p.asked && p.confirmed.Keys <= p.asked
    && p.channel in t.issued
    && (forall s :: s in p.granted ==> Received(s, Prepared(tx, p.granted[s].0, p.granted[s].1)) in t.received)
    && (forall s :: s in p.confirmed ==> Received(s, Stored(tx, p.confirmed[s])) in t.received)
    && if tx in t.state.publishes then
         PendingPublishIs(p, t.state.publishes[tx]) && p.Waiting() != {} && p.channel !in t.expired
       else
         && p.channel in t.state.answers
         && t.state.answers[p.channel] == p.Result()
         && (p.Waiting() == {} || p.channel in t.expired)
  }

  ghost predicate PendingResolveIs(l: Lookup, q: PendingResolve) {
    && q.addr == l.addr && q.accept == l.accept && q.channel == l.channel
    && q.awaiting == l.asked - l.heard.Keys
    && q.values == l.Values()
    && q.responded == (l.heard != map[])
  }

  ghost predicate LookupOk(t: Trace, tx: U64, l: Lookup) {
    && l.heard.Keys <= l.asked
    && l.channel in t.issued
    && (forall s :: s in l.heard ==> Received(s, Value(tx, l.addr, l.heard[s])) in t.received)
    && if tx in t.state.resolves then
         PendingResolveIs(l, t.state.resolves[tx]) && !l.Done() && l.channel !in t.expired
       else
         && l.channel in t.state.answers
         && t.state.answers[l.channel] == l.Result()
         && (l.Done() || l.channel in t.expired)
  }

  /** What the client ever sent: requests only, and puts only of values built for the socket a server granted. */
  ghost predicate DatagramOk(t: Trace, d: Datagram) {
    var m := Decode(d.data);
    && m.Some? && m.value.FromClient?
    && Encode(m.value) == Some(d.data)
    && (m.value.request.Put? ==>
          var Put(tx, token, value) := m.value.request;
          && tx in t.publications
          && var p := t.publications[tx];
             && d.to in p.granted
             && p.granted[d.to].1 == token
             && p.valueFor(p.granted[d.to].0) == value
             && t.state.outbox[d] == 1)
  }

  ghost predicate PublicationsOk(t: Trace) {
    forall tx {:trigger PublicationOk(t, tx, t.publications[tx])} ::
      tx in t.publications ==> PublicationOk(t, tx, t.publications[tx])
  }

  ghost predicate LookupsOk(t: Trace) {
    forall tx {:trigger LookupOk(t, tx, t.lookups[tx])} ::
      tx in t.lookups ==> LookupOk(t, tx, t.lookups[tx])
  }

  ghost predicate OutboxOk(t: Trace) {
    forall d {:trigger DatagramOk(t, d)} :: d in t.state.outbox ==> DatagramOk(t, d)
  }

  ghost predicate Inv(t: Trace) {
    && Consistent(t.state) && Accounted(t.state) == t.issued
    && t.expired <= t.state.answers.Keys
    && t.state.publishes.Keys <= t.publications.Keys
    && t.state.resolves.Keys <= t.lookups.Keys
    && PublicationsOk(t) && LookupsOk(t) && OutboxOk(t)
  }

  // ----- Transactions a step does not touch -----

  /** History and settled accounts only grow. */
  ghost predicate Grows(t: Trace, u: Trace) {
    && t.received <= u.received && t.issued <= u.issued
    && (forall c :: c in t.state.answers ==> c in u.state.answers && u.state.answers[c] == t.state.answers[c])
    && (forall c :: c in t.state.answers ==> (c in u.expired <==> c in t.expired))
  }

  lemma PublicationFrame(t: Trace, u: Trace, tx: U64, p: Publication)
    requires PublicationOk(t, tx, p) && Grows(t, u)
    requires tx in t.state.publishes <==> tx in u.state.publishes
    requires tx in t.state.publishes ==> u.state.publishes[tx] == t.state.publishes[tx] && p.channel !in u.expired
    ensures PublicationOk(u, tx, p)
  {
  }

  lemma LookupFrame(t: Trace, u: Trace, tx: U64, l: Lookup)
    requires LookupOk(t, tx, l) && Grows(t, u)
    requires tx in t.state.resolves <==> tx in u.state.resolves
    requires tx in t.state.resolves ==> u.state.resolves[tx] == t.state.resolves[tx] && l.channel !in u.expired
    ensures LookupOk(u, tx, l)
  {
  }

  /** Only the publication `hot` may differ. */
  ghost predicate OthersPublish(t: Trace, u: Trace, hot: U64) {
    forall x :: x != hot ==>
      && (x in t.publications <==> x in u.publications)
      && (x in t.publications ==> u.publications[x] == t.publications[x])
      && (x in t.state.publishes <==> x in u.state.publishes)
      && (x in t.state.publishes ==>
            u.state.publishes[x] == t.state.publishes[x] && t.state.publishes[x].channel !in u.expired)
  }

  /** Only the lookup `hot` may differ. */
  ghost predicate OthersResolve(t: Trace, u: Trace, hot: U64) {
    forall x :: x != hot ==>
      && (x in t.lookups <==> x in u.lookups)
      && (x in t.lookups ==> u.lookups[x] == t.lookups[x])
      && (x in t.state.resolves <==> x in u.state.resolves)
      && (x in t.state.resolves ==>
            u.state.resolves[x] == t.state.resolves[x] && t.state.resolves[x].channel !in u.expired)
  }

  lemma PublicationsStep(t: Trace, u: Trace, hot: U64)
    requires PublicationsOk(t)
    requires Grows(t, u) && OthersPublish(t, u, hot)
    requires hot in u.publications ==> PublicationOk(u, hot, u.publications[hot])
    ensures PublicationsOk(u)
  {
    forall x | x in u.publications && x != hot ensures PublicationOk(u, x, u.publications[x]) {
      assert PublicationOk(t, x, t.publications[x]);
      PublicationFrame(t, u, x, t.publications[x]);
    }
  }

  lemma LookupsStep(t: Trace, u: Trace, hot: U64)
    requires LookupsOk(t)
    requires Grows(t, u) && OthersResolve(t, u, hot)
    requires hot in u.lookups ==> LookupOk(u, hot, u.lookups[hot])
    ensures LookupsOk(u)
  {
    forall x | x in u.lookups && x != hot ensures LookupOk(u, x, u.lookups[x]) {
      assert LookupOk(t, x, t.lookups[x]);
      LookupFrame(t, u, x, t.lookups[x]);
    }
  }

  lemma OpenNotExpired(t: Trace)
    requires Inv(t)
    ensures forall x :: x in t.state.publishes ==> t.state.publishes[x].channel !in t.expired
    ensures forall x :: x in t.state.resolves ==> t.state.resolves[x].channel !in t.expired
  {
    forall x | x in t.state.publishes ensures t.state.publishes[x].channel !in t.expired {
      assert t.state.publishes[x].channel in PublishChannels(t.state.publishes);
    }
    forall x | x in t.state.resolves ensures t.state.resolves[x].channel !in t.expired {
      assert t.state.resolves[x].channel in ResolveChannels(t.state.resolves);
    }
  }

  /** Publications keep their value function and what was granted to them. */
  ghost predicate Keeps(t: Trace, u: Trace) {
    forall tx :: tx in t.publications ==>
      && tx in u.publications
      && u.publications[tx].valueFor == t.publications[tx].valueFor
      && (forall s :: s in t.publications[tx].granted ==>
            s in u.publications[tx].granted && u.publications[tx].granted[s] == t.publications[tx].granted[s])
  }

  lemma DatagramFrame(t: Trace, u: Trace, d: Datagram)
    requires DatagramOk(t, d) && Keeps(t, u)
    requires Decode(d.data).value.request.Put? ==> u.state.outbox[d] == t.state.outbox[d]
    ensures DatagramOk(u, d)
  {
  }

  lemma AllDatagramsFrame(t: Trace, u: Trace)
    requires OutboxOk(t) && Keeps(t, u)
    requires u.state.outbox == t.state.outbox
    ensures OutboxOk(u)
  {
    forall d | d in u.state.outbox ensures DatagramOk(u, d) {
      assert DatagramOk(t, d);
      DatagramFrame(t, u, d);
    }
  }

  // ----- Commands -----

  /** A broadcast request that is not a put joins the outbox. */
  lemma BroadcastOk(t: Trace, u: Trace, request: Request, data: Bytes)
    requires OutboxOk(t) && Keeps(t, u)
    requires Encode(FromClient(request)) == Some(data) && !request.Put?
    requires u.state.outbox == t.state.outbox + ToAll(t.state.servers, data)
    ensures OutboxOk(u)
  {
    RoundTrip(FromClient(request));
    forall d | d in u.state.outbox ensures DatagramOk(u, d) {
      if d.data != data {
        assert d !in ToAll(t.state.servers, data);
        DatagramFrame(t, u, d);
      }
    }
  }

  lemma NewPublicationOk(t: Trace, tx: U64, valueFor: SocketAddr -> Bytes, asked: set<SocketAddr>, channel: Channel)
    requires asked != {} && channel in t.issued && channel !in t.expired && tx in t.state.publishes
    requires exists deadline ::
               t.state.publishes[tx] == PendingPublish(valueFor, false, asked, {}, {}, channel, deadline)
    ensures PublicationOk(t, tx, Publication(valueFor, asked, map[], map[], channel))
  {
    var p := Publication(valueFor, asked, map[], map[], channel);
    assert p.Oversized() == {} && p.Waiting() == asked;
  }

  lemma NewLookupOk(
      t: Trace, tx: U64, addr: SocketAddr, accept: Option<Bytes -> bool>, asked: set<SocketAddr>, channel: Channel)
    requires asked != {} && channel in t.issued && channel !in t.expired && tx in t.state.resolves
    requires exists deadline ::
               t.state.resolves[tx] == PendingResolve(addr, accept, asked, {}, false, channel, deadline)
    ensures LookupOk(t, tx, Lookup(addr, accept, asked, map[], channel))
  {
    var l := Lookup(addr, accept, asked, map[], channel);
    assert l.Values() == {};
  }

  lemma CommandGrows(t: Trace, u: Trace, command: Command, tx: U64, deadline: nat)
    requires u == WithCommand(t, command, tx, deadline)
    requires tx !in t.publications && tx !in t.lookups
    requires forall c :: c in Opened(command) ==> c !in t.state.answers
    requires forall x :: x in t.state.publishes ==> t.state.publishes[x].channel !in t.expired
    requires forall x :: x in t.state.resolves ==> t.state.resolves[x].channel !in t.expired
    ensures Grows(t, u) && Keeps(t, u)
    ensures OthersPublish(t, u, tx) && OthersResolve(t, u, tx)
  {
    var s := OnCommand(t.state, command, tx, deadline);
    assert u.state == s && u.received == t.received && u.expired == t.expired;
    assert s.publishes == t.state.publishes || s.publishes == t.state.publishes[tx := s.publishes[tx]];
    assert s.resolves == t.state.resolves || s.resolves == t.state.resolves[tx := s.resolves[tx]];
    assert u.publications == t.publications || u.publications == t.publications[tx := u.publications[tx]];
    assert u.lookups == t.lookups || u.lookups == t.lookups[tx := u.lookups[tx]];
    assert s.answers == t.state.answers ||
           exists c :: c in Opened(command) && s.answers == t.state.answers[c := Failed(NoServers)];
  }

  lemma CommandKeepsTransactions(t: Trace, u: Trace, command: Command, tx: U64, deadline: nat)
    requires Inv(t) && Enabled(t, Commanded(command, tx, deadline)) && u == WithCommand(t, command, tx, deadline)
    ensures PublicationsOk(u)
    ensures LookupsOk(u)
  {
    assert forall c :: c in Opened(command) ==> c in u.issued && c !in Accounted(t.state);
    OpenNotExpired(t);
    CommandGrows(t, u, command, tx, deadline);
    if t.state.servers != {} {
      match command
      case Publish(valueFor, channel) =>
        NewPublicationOk(u, tx, valueFor, t.state.servers, channel);
      case Resolve(addr, accept, channel) =>
        NewLookupOk(u, tx, addr, accept, t.state.servers, channel);
      case _ =>
    }
    PublicationsStep(t, u, tx);
    LookupsStep(t, u, tx);
  }

  lemma CommandKeepsOutbox(t: Trace, u: Trace, command: Command, tx: U64, deadline: nat)
    requires Inv(t) && u == WithCommand(t, command, tx, deadline) && Keeps(t, u)
    ensures OutboxOk(u)
  {
    if command.Publish? && t.state.servers != {} {
      EncodeFits(FromClient(Prepare(tx, Zeros(24))));
      BroadcastOk(t, u, Prepare(tx, Zeros(24)), PrepareData(tx));
    } else if command.Resolve? && t.state.servers != {} {
      EncodeFits(FromClient(Get(tx, command.addr)));
      BroadcastOk(t, u, Get(tx, command.addr), GetData(tx, command.addr));
    } else {
      AllDatagramsFrame(t, u);
    }
  }

  lemma CommandKeepsInv(t: Trace, command: Command, tx: U64, deadline: nat)
    requires Inv(t) && Enabled(t, Commanded(command, tx, deadline))
    ensures Inv(WithCommand(t, command, tx, deadline))
  {
    var u := WithCommand(t, command, tx, deadline);
    OnCommandKeeps(t.state, command, tx, deadline);
    OpenNotExpired(t);
    assert forall c :: c in Opened(command) ==> c !in Accounted(t.state);
    CommandGrows(t, u, command, tx, deadline);
    CommandKeepsTransactions(t, u, command, tx, deadline);
    CommandKeepsOutbox(t, u, command, tx, deadline);
  }

  // ----- Replies to a publication -----

  /** A publication is pending exactly as long as its channel is unanswered. */
  lemma PublicationOpen(t: Trace, tx: U64)
    requires Inv(t) && tx in t.publications
    ensures PublicationOk(t, tx, t.publications[tx])
    ensures tx in t.state.publishes <==> t.publications[tx].channel !in t.state.answers
  {
    assert PublicationOk(t, tx, t.publications[tx]);
    if tx in t.state.publishes {
      assert t.state.publishes[tx].channel in PublishChannels(t.state.publishes);
    }
  }

  lemma LookupOpen(t: Trace, tx: U64)
    requires Inv(t) && tx in t.lookups
    ensures LookupOk(t, tx, t.lookups[tx])
    ensures tx in t.state.resolves <==> t.lookups[tx].channel !in t.state.answers
  {
    assert LookupOk(t, tx, t.lookups[tx]);
    if tx in t.state.resolves {
      assert t.state.resolves[tx].channel in ResolveChannels(t.state.resolves);
    }
  }

  /** The pending entry and the history give the same answer. */
  lemma SamePublishAnswer(p: Publication, q: PendingPublish)
    requires PendingPublishIs(p, q)
    ensures PublishAnswer(q) == p.Result()
  {
    if p.confirmed != map[] {
      var s :| s in p.confirmed;
      assert p.confirmed[s] in p.confirmed.Values;
    }
  }

  /** Only transaction `tx` changes, and no answer already given. */
  ghost predicate Touches(s: State, r: State, tx: U64) {
    && (forall x :: x != tx ==>
          && (x in s.publishes <==> x in r.publishes)
          && (x in s.publishes ==> r.publishes[x] == s.publishes[x])
          && (x in s.resolves <==> x in r.resolves)
          && (x in s.resolves ==> r.resolves[x] == s.resolves[x]))
    && (forall c :: c in s.answers ==> c in r.answers && r.answers[c] == s.answers[c])
  }

  lemma FinishPublishTouches(s: State, tx: U64)
    requires tx in s.publishes ==> s.publishes[tx].channel !in s.answers
    ensures Touches(s, FinishPublish(s, tx), tx)
  {
  }

  lemma FinishResolveTouches(s: State, tx: U64)
    requires tx in s.resolves ==> s.resolves[tx].channel !in s.answers
    ensures Touches(s, FinishResolve(s, tx), tx)
  {
  }

  lemma PreparedTouches(s: State, from: SocketAddr, tx: U64, addr: SocketAddr, token: Token)
    requires tx in s.publishes ==> s.publishes[tx].channel !in s.answers
    ensures var r := OnPrepared(s, from, tx, addr, token);
            Touches(s, r, tx) && r.publishes.Keys <= s.publishes.Keys && r.resolves == s.resolves
  {
    if tx in s.publishes {
      var p := s.publishes[tx];
      var q := p.(prepared := p.prepared + {from}, tooLarge := true, awaiting := p.awaiting - {from});
      var t := s.(publishes := s.publishes[tx := q]);
      FinishPublishTouches(t, tx);
      var r := OnPrepared(s, from, tx, addr, token);
      assert r == s || r == t || r == FinishPublish(t, tx) ||
             (r.publishes == s.publishes[tx := p.(prepared := p.prepared + {from})] &&
              r.resolves == s.resolves && r.answers == s.answers);
    }
  }

  lemma StoredTouches(s: State, from: SocketAddr, tx: U64, addr: SocketAddr)
    requires tx in s.publishes ==> s.publishes[tx].channel !in s.answers
    ensures var r := OnStored(s, from, tx, addr);
            Touches(s, r, tx) && r.publishes.Keys <= s.publishes.Keys && r.resolves == s.resolves
  {
    if tx in s.publishes {
      var p := s.publishes[tx];
      var q := p.(awaiting := p.awaiting - {from}, stored := p.stored + {addr});
      var t := s.(publishes := s.publishes[tx := q]);
      FinishPublishTouches(t, tx);
      var r := OnStored(s, from, tx, addr);
      assert r == s || r == t || r == FinishPublish(t, tx);
    }
  }

  lemma ValueTouches(s: State, from: SocketAddr, tx: U64, addr: SocketAddr, found: Option<Bytes>)
    requires tx in s.resolves ==> s.resolves[tx].channel !in s.answers
    ensures var r := OnValue(s, from, tx, addr, found);
            Touches(s, r, tx) && r.resolves.Keys <= s.resolves.Keys && r.publishes == s.publishes
  {
    if tx in s.resolves {
      var p := s.resolves[tx];
      var q := p.(awaiting := p.awaiting - {from},
                  responded := true,
                  values := if Usable(found) then p.values + {found.value} else p.values);
      var t := s.(resolves := s.resolves[tx := q]);
      FinishResolveTouches(t, tx);
      var r := OnValue(s, from, tx, addr, found);
      assert r == s || r == t || r == FinishResolve(t, tx);
    }
  }

  /** Only the history of `hot` changes. */
  ghost predicate Records(t: Trace, u: Trace, hot: U64) {
    && t.received <= u.received && u.issued == t.issued && u.expired == t.expired
    && u.publications.Keys == t.publications.Keys && u.lookups.Keys == t.lookups.Keys
    && (forall x :: x in t.publications && x != hot ==> u.publications[x] == t.publications[x])
    && (forall x :: x in t.lookups && x != hot ==> u.lookups[x] == t.lookups[x])
  }

  lemma ReplyRecords(t: Trace, from: SocketAddr, response: Response)
    ensures Records(t, WithReply(t, from, response), response.tx)
    ensures response.Value? ==> WithReply(t, from, response).publications == t.publications
    ensures !response.Value? ==> WithReply(t, from, response).lookups == t.lookups
    ensures WithReply(t, from, response).state == OnResponse(t.state, from, response)
  {
  }

  /** Puts a step's parts together: everything but `hot` is framed. */
  lemma Assemble(t: Trace, u: Trace, hot: U64)
    requires Inv(t) && Grows(t, u) && OthersPublish(t, u, hot) && OthersResolve(t, u, hot)
    requires Consistent(u.state) && Accounted(u.state) == u.issued && u.expired <= u.state.answers.Keys
    requires hot in u.state.publishes ==> hot in u.publications
    requires hot in u.state.resolves ==> hot in u.lookups
    requires hot in u.publications ==> PublicationOk(u, hot, u.publications[hot])
    requires hot in u.lookups ==> LookupOk(u, hot, u.lookups[hot])
    requires OutboxOk(u)
    ensures Inv(u)
  {
    PublicationsStep(t, u, hot);
    LookupsStep(t, u, hot);
  }

  lemma RecordsFrame(t: Trace, u: Trace, hot: U64)
    requires Touches(t.state, u.state, hot) && Records(t, u, hot)
    requires forall x :: x in t.state.publishes ==> t.state.publishes[x].channel !in t.expired
    requires forall x :: x in t.state.resolves ==> t.state.resolves[x].channel !in t.expired
    ensures Grows(t, u) && OthersPublish(t, u, hot) && OthersResolve(t, u, hot)
  {
  }

  lemma GrantedSets(p: Publication, from: SocketAddr, addr: SocketAddr, token: Token)
    requires from !in p.granted
    ensures var g := p.(granted := p.granted[from := (addr, token)]);
            && g.granted.Keys == p.granted.Keys + {from}
            && g.Oversized() == p.Oversized() + (if |p.valueFor(addr)| > MAX_VALUE_LEN then {from} else {})
            && g.Waiting() == p.Waiting() - (if |p.valueFor(addr)| > MAX_VALUE_LEN then {from} else {})
  {
    var g := p.(granted := p.granted[from := (addr, token)]);
    assert g.Oversized() == p.Oversized() + (if |p.valueFor(addr)| > MAX_VALUE_LEN then {from} else {});
  }

  lemma ConfirmedSets(p: Publication, from: SocketAddr, addr: SocketAddr)
    requires from !in p.confirmed
    ensures var g := p.(confirmed := p.confirmed[from := addr]);
            && g.confirmed.Keys == p.confirmed.Keys + {from}
            && g.confirmed.Values == p.confirmed.Values + {addr}
            && g.Waiting() == p.Waiting() - {from}
  {
    var g := p.(confirmed := p.confirmed[from := addr]);
    forall v | v in p.confirmed.Values + {addr} ensures v in g.confirmed.Values {
      if v == addr {
        assert g.confirmed[from] == addr;
      } else {
        var s :| s in p.confirmed && p.confirmed[s] == v;
        assert g.confirmed[s] == v;
      }
    }
    assert g.Waiting() == p.Waiting() - {from};
  }

  /** The publication as it is recorded and as it is pending, before a reply. */
  ghost predicate OpenPublication(t: Trace, tx: U64) {
    && tx in t.publications && tx in t.state.publishes
    && PublicationOk(t, tx, t.publications[tx])
    && t.publications[tx].channel !in t.state.answers
  }

  /** A publication that was just ended on its last server. */
  lemma EndedPublicationOk(u: Trace, tx: U64, p: Publication, q: PendingPublish)
    requires PendingPublishIs(p, q) && p.Waiting() == {}
    requires p.granted.Keys <= p.asked && p.confirmed.Keys <= p.asked && p.channel in u.issued
    requires forall s :: s in p.granted ==> Received(s, Prepared(tx, p.granted[s].0, p.granted[s].1)) in u.received
    requires forall s :: s in p.confirmed ==> Received(s, Stored(tx, p.confirmed[s])) in u.received
    requires tx !in u.state.publishes && p.channel in u.state.answers
    requires u.state.answers[p.channel] == PublishAnswer(q)
    ensures PublicationOk(u, tx, p)
  {
    SamePublishAnswer(p, q);
  }

  /** The publication `tx` after a counted `Prepared`. */
  lemma PreparedCounts(t: Trace, from: SocketAddr, tx: U64, addr: SocketAddr, token: Token)
    requires OpenPublication(t, tx)
    requires from in t.publications[tx].Waiting() && from !in t.publications[tx].granted
    ensures var u := WithReply(t, from, Prepared(tx, addr, token));
            tx in u.publications && PublicationOk(u, tx, u.publications[tx])
  {
    var (p, q) := (t.publications[tx], t.state.publishes[tx]);
    var g := p.(granted := p.granted[from := (addr, token)]);
    var u := WithReply(t, from, Prepared(tx, addr, token));
    assert u.publications[tx] == g;
    GrantedSets(p, from, addr, token);
    if |p.valueFor(addr)| <= MAX_VALUE_LEN {
      assert PendingPublishIs(g, q.(prepared := q.prepared + {from}));
    } else {
      var r := q.(prepared := q.prepared + {from}, tooLarge := true, awaiting := q.awaiting - {from});
      assert PendingPublishIs(g, r);
      if g.Waiting() == {} {
        EndedPublicationOk(u, tx, g, r);
      }
    }
  }

  /** The publication `tx` after a counted `Stored`. */
  lemma StoredCounts(t: Trace, from: SocketAddr, tx: U64, addr: SocketAddr)
    requires OpenPublication(t, tx) && from in t.publications[tx].Waiting()
    ensures var u := WithReply(t, from, Stored(tx, addr));
            tx in u.publications && PublicationOk(u, tx, u.publications[tx])
  {
    var (p, q) := (t.publications[tx], t.state.publishes[tx]);
    var g := p.(confirmed := p.confirmed[from := addr]);
    var u := WithReply(t, from, Stored(tx, addr));
    assert u.publications[tx] == g;
    ConfirmedSets(p, from, addr);
    assert g.Oversized() == p.Oversized();
    var r := q.(awaiting := q.awaiting - {from}, stored := q.stored + {addr});
    assert PendingPublishIs(g, r);
    if g.Waiting() == {} {
      EndedPublicationOk(u, tx, g, r);
    }
  }

  /** The only put for its server and transaction joins the outbox. */
  lemma PutJoins(t: Trace, from: SocketAddr, tx: U64, addr: SocketAddr, token: Token)
    requires OpenPublication(t, tx) && OutboxOk(t)
    requires from in t.publications[tx].Waiting() && from !in t.publications[tx].granted
    ensures var u := WithReply(t, from, Prepared(tx, addr, token));
            OutboxOk(u)
  {
    var u := WithReply(t, from, Prepared(tx, addr, token));
    var p := t.publications[tx];
    var value := p.valueFor(addr);
    assert Keeps(t, u);
    if |value| > MAX_VALUE_LEN {
      AllDatagramsFrame(t, u);
    } else {
      var put := Datagram(from, PutData(tx, token, value));
      EncodeFits(FromClient(Put(tx, token, value)));
      RoundTrip(FromClient(Put(tx, token, value)));
      assert u.state.outbox == t.state.outbox + multiset{put};
      assert put in t.state.outbox ==> DatagramOk(t, put);
      forall d | d in u.state.outbox ensures DatagramOk(u, d) {
        if d != put {
          DatagramFrame(t, u, d);
        }
      }
    }
  }

  // ----- Replies to a lookup -----

  lemma HeardSets(l: Lookup, from: SocketAddr, found: Option<Bytes>)
    requires from !in l.heard
    ensures var h := l.(heard := l.heard[from := found]);
            && h.heard.Keys == l.heard.Keys + {from}
            && h.Values() == l.Values() + (if Usable(found) then {found.value} else {})
  {
    var h := l.(heard := l.heard[from := found]);
    forall v | v in l.Values() ensures v in h.Values() {
      var s :| s in l.heard && Usable(l.heard[s]) && l.heard[s].value == v;
      assert h.heard[s] == l.heard[s];
    }
    if Usable(found) {
      assert h.heard[from] == found;
    }
  }

  lemma HeardDone(l: Lookup, from: SocketAddr, found: Option<Bytes>)
    requires from !in l.heard && !l.Done()
    ensures var h := l.(heard := l.heard[from := found]);
            h.Done() <==> h.heard.Keys == h.asked || l.Accepts(found)
  {
    var h := l.(heard := l.heard[from := found]);
    assert h.heard[from] == found;
    assert forall s :: s in h.heard && s != from ==> !h.Accepts(h.heard[s]) by {
      assert forall s :: s in l.heard ==> !l.Accepts(l.heard[s]);
    }
  }

  lemma SameResolveAnswer(l: Lookup, q: PendingResolve)
    requires PendingResolveIs(l, q)
    ensures ResolveAnswer(q) == l.Result()
  {
  }

  ghost predicate OpenLookup(t: Trace, tx: U64) {
    && tx in t.lookups && tx in t.state.resolves
    && LookupOk(t, tx, t.lookups[tx])
    && t.lookups[tx].channel !in t.state.answers
  }

  lemma EndedLookupOk(u: Trace, tx: U64, l: Lookup, q: PendingResolve)
    requires PendingResolveIs(l, q) && l.Done()
    requires l.heard.Keys <= l.asked && l.channel in u.issued
    requires forall s :: s in l.heard ==> Received(s, Value(tx, l.addr, l.heard[s])) in u.received
    requires tx !in u.state.resolves && l.channel in u.state.answers
    requires u.state.answers[l.channel] == ResolveAnswer(q)
    ensures LookupOk(u, tx, l)
  {
    SameResolveAnswer(l, q);
  }

  function HeardPending(q: PendingResolve, from: SocketAddr, found: Option<Bytes>): PendingResolve {
    q.(awaiting := q.awaiting - {from},
       responded := true,
       values := if Usable(found) then q.values + {found.value} else q.values)
  }

  lemma HeardIsPending(l: Lookup, q: PendingResolve, from: SocketAddr, found: Option<Bytes>)
    requires PendingResolveIs(l, q) && from !in l.heard && l.heard.Keys <= l.asked && from in l.asked
    ensures var (h, r) := (l.(heard := l.heard[from := found]), HeardPending(q, from, found));
            PendingResolveIs(h, r) && (r.awaiting == {} <==> h.heard.Keys == h.asked)
  {
    var h := l.(heard := l.heard[from := found]);
    HeardSets(l, from, found);
    assert from in h.heard;
  }

  lemma CountedValue(s: State, from: SocketAddr, tx: U64, addr: SocketAddr, found: Option<Bytes>)
    requires tx in s.resolves && s.resolves[tx].addr == addr && from in s.resolves[tx].awaiting
    ensures var (p, q) := (s.resolves[tx], HeardPending(s.resolves[tx], from, found));
            var ended := q.awaiting == {} || (Usable(found) && p.accept.Some? && p.accept.value(found.value));
            var t := s.(resolves := s.resolves[tx := q]);
            OnValue(s, from, tx, addr, found) == if ended then FinishResolve(t, tx) else t
  {
  }

  /** The lookup `tx` after a counted `Value`. */
  lemma ValueCounts(t: Trace, from: SocketAddr, tx: U64, addr: SocketAddr, found: Option<Bytes>)
    requires OpenLookup(t, tx)
    requires t.lookups[tx].addr == addr && from in t.lookups[tx].asked && from !in t.lookups[tx].heard
    ensures var u := WithReply(t, from, Value(tx, addr, found));
            tx in u.lookups && LookupOk(u, tx, u.lookups[tx])
  {
    var (l, q) := (t.lookups[tx], t.state.resolves[tx]);
    var (h, r) := (l.(heard := l.heard[from := found]), HeardPending(q, from, found));
    var u := WithReply(t, from, Value(tx, addr, found));
    assert u.lookups[tx] == h;
    HeardIsPending(l, q, from, found);
    HeardDone(l, from, found);
    CountedValue(t.state, from, tx, addr, found);
    if h.Done() {
      EndedLookupOk(u, tx, h, r);
    }
  }

  // ----- Every step keeps the invariant -----

  /** The history counts a reply exactly when the actor acts on it. */
  lemma ReplyIgnored(t: Trace, from: SocketAddr, response: Response)
    requires Inv(t)
    requires var u := WithReply(t, from, response); u.publications == t.publications && u.lookups == t.lookups
    ensures OnResponse(t.state, from, response) == t.state
  {
    if response.Value? && response.tx in t.lookups {
      LookupOpen(t, response.tx);
      assert from !in t.lookups[response.tx].heard ==>
        t.lookups[response.tx].heard[from := response.found] != t.lookups[response.tx].heard;
    } else if !response.Value? && response.tx in t.publications {
      PublicationOpen(t, response.tx);
      var p := t.publications[response.tx];
      assert response.Prepared? && from !in p.granted ==>
        p.granted[from := (response.addr, response.token)] != p.granted;
      assert from !in p.confirmed ==> p.confirmed[from := response.addr] != p.confirmed;
    }
  }

  /** What every reply does to the actor, whether or not it counts. */
  lemma ResponseEffects(s: State, from: SocketAddr, response: Response)
    requires Consistent(s)
    ensures var r := OnResponse(s, from, response);
            && Consistent(r) && Accounted(r) == Accounted(s)
            && Touches(s, r, response.tx)
            && r.publishes.Keys <= s.publishes.Keys && r.resolves.Keys <= s.resolves.Keys
            && (response.Value? ==> r.publishes == s.publishes)
            && (!response.Value? ==> r.resolves == s.resolves)
  {
    PublishChannelsDrop(s.publishes, response.tx);
    ResolveChannelsDrop(s.resolves, response.tx);
    match response
    case Prepared(tx, addr, token) =>
      OnPreparedKeeps(s, from, tx, addr, token);
      PreparedTouches(s, from, tx, addr, token);
    case Stored(tx, addr) =>
      OnStoredKeeps(s, from, tx, addr);
      StoredTouches(s, from, tx, addr);
    case Value(tx, addr, found) =>
      OnValueKeeps(s, from, tx, addr, found);
      ValueTouches(s, from, tx, addr, found);
  }

  /** A lookup that shares its id with a publication is not touched by the publication's replies. */
  lemma LookupUntouched(t: Trace, u: Trace, tx: U64)
    requires Inv(t) && Touches(t.state, u.state, tx) && Records(t, u, tx)
    requires u.state.resolves == t.state.resolves && u.lookups == t.lookups
    ensures tx in u.lookups ==> LookupOk(u, tx, u.lookups[tx])
  {
    OpenNotExpired(t);
    if tx in t.lookups {
      LookupOpen(t, tx);
      LookupFrame(t, u, tx, t.lookups[tx]);
    }
  }

  lemma PublicationUntouched(t: Trace, u: Trace, tx: U64)
    requires Inv(t) && Touches(t.state, u.state, tx) && Records(t, u, tx)
    requires u.state.publishes == t.state.publishes && u.publications == t.publications
    ensures tx in u.publications ==> PublicationOk(u, tx, u.publications[tx])
  {
    OpenNotExpired(t);
    if tx in t.publications {
      PublicationOpen(t, tx);
      PublicationFrame(t, u, tx, t.publications[tx]);
    }
  }

  /** It remains to look at the transaction the reply is for, and at the outbox. */
  lemma HotKeepsInv(t: Trace, from: SocketAddr, response: Response)
    requires Inv(t)
    requires var u := WithReply(t, from, response);
             && (!response.Value? && response.tx in u.publications ==>
                   PublicationOk(u, response.tx, u.publications[response.tx]))
             && (response.Value? && response.tx in u.lookups ==> LookupOk(u, response.tx, u.lookups[response.tx]))
             && OutboxOk(u)
    ensures Inv(WithReply(t, from, response))
  {
    var u := WithReply(t, from, response);
    ReplyRecords(t, from, response);
    ResponseEffects(t.state, from, response);
    if response.Value? {
      PublicationUntouched(t, u, response.tx);
    } else {
      LookupUntouched(t, u, response.tx);
    }
    OpenNotExpired(t);
    RecordsFrame(t, u, response.tx);
    Assemble(t, u, response.tx);
  }

  lemma IgnoredOk(t: Trace, u: Trace, from: SocketAddr, response: Response)
    requires Inv(t) && u == t.(received := t.received + {Received(from, response)})
    ensures response.tx in u.publications ==> PublicationOk(u, response.tx, u.publications[response.tx])
    ensures response.tx in u.lookups ==> LookupOk(u, response.tx, u.lookups[response.tx])
    ensures OutboxOk(u)
  {
    AllDatagramsFrame(t, u);
    LookupUntouched(t, u, response.tx);
    PublicationUntouched(t, u, response.tx);
  }

  lemma ReplyOk(t: Trace, from: SocketAddr, response: Response)
    requires Inv(t)
    requires var u := WithReply(t, from, response); u.publications != t.publications || u.lookups != t.lookups
    ensures var u := WithReply(t, from, response);
             && (!response.Value? && response.tx in u.publications ==>
                   PublicationOk(u, response.tx, u.publications[response.tx]))
             && (response.Value? && response.tx in u.lookups ==> LookupOk(u, response.tx, u.lookups[response.tx]))
             && OutboxOk(u)
  {
    var u := WithReply(t, from, response);
    match response
    case Prepared(tx, addr, token) =>
      PublicationOpen(t, tx);
      PreparedCounts(t, from, tx, addr, token);
      PutJoins(t, from, tx, addr, token);
    case Stored(tx, addr) =>
      PublicationOpen(t, tx);
      StoredCounts(t, from, tx, addr);
      StoredOutbox(t, from, tx, addr);
    case Value(tx, addr, found) =>
      LookupOpen(t, tx);
      ValueCounts(t, from, tx, addr, found);
      ValueOutbox(t, from, tx, addr, found);
  }

  lemma StoredOutbox(t: Trace, from: SocketAddr, tx: U64, addr: SocketAddr)
    requires OutboxOk(t)
    ensures var u := WithReply(t, from, Stored(tx, addr)); OutboxOk(u)
  {
    AllDatagramsFrame(t, WithReply(t, from, Stored(tx, addr)));
  }

  lemma ValueOutbox(t: Trace, from: SocketAddr, tx: U64, addr: SocketAddr, found: Option<Bytes>)
    requires OutboxOk(t)
    ensures var u := WithReply(t, from, Value(tx, addr, found)); OutboxOk(u)
  {
    AllDatagramsFrame(t, WithReply(t, from, Value(tx, addr, found)));
  }

  lemma ReplyKeepsInv(t: Trace, from: SocketAddr, response: Response)
    requires Inv(t)
    ensures Inv(WithReply(t, from, response))
  {
    var u := WithReply(t, from, response);
    if u.publications == t.publications && u.lookups == t.lookups {
      ReplyIgnored(t, from, response);
      IgnoredOk(t, u, from, response);
    } else {
      ReplyOk(t, from, response);
    }
    HotKeepsInv(t, from, response);
  }

  // ----- Deadlines -----

  /** Ending one transaction at its deadline leaves the others alone. */
  lemma ExpiryFrame(t: Trace, u: Trace, tx: U64, c: Channel)
    requires Touches(t.state, u.state, tx) && c !in t.state.answers
    requires u == t.(state := u.state, expired := t.expired + {c})
    requires forall x :: x in t.state.publishes ==> t.state.publishes[x].channel !in t.expired
    requires forall x :: x in t.state.resolves ==> t.state.resolves[x].channel !in t.expired
    requires forall x :: x in t.state.publishes && x != tx ==> t.state.publishes[x].channel != c
    requires forall x :: x in t.state.resolves && x != tx ==> t.state.resolves[x].channel != c
    ensures Grows(t, u) && OthersPublish(t, u, tx) && OthersResolve(t, u, tx)
  {
  }

  lemma PublishExpiryOk(t: Trace, tx: U64, now: nat)
    requires OpenPublication(t, tx)
    ensures PublicationOk(Next(t, PublishExpired(tx, now)), tx, t.publications[tx])
  {
    SamePublishAnswer(t.publications[tx], t.state.publishes[tx]);
  }

  /** What remains to be shown of an expiry is its own transaction. */
  lemma ExpiryKeepsInv(t: Trace, u: Trace, tx: U64, c: Channel)
    requires Inv(t) && u == t.(state := u.state, expired := t.expired + {c})
    requires Touches(t.state, u.state, tx) && u.state.outbox == t.state.outbox
    requires Consistent(u.state) && Accounted(u.state) == Accounted(t.state)
    requires u.state.publishes.Keys <= t.state.publishes.Keys && u.state.resolves.Keys <= t.state.resolves.Keys
    requires c !in t.state.answers && c in u.state.answers
    requires forall x :: x in t.state.publishes && x != tx ==> t.state.publishes[x].channel != c
    requires forall x :: x in t.state.resolves && x != tx ==> t.state.resolves[x].channel != c
    requires tx in t.publications ==> PublicationOk(u, tx, t.publications[tx])
    requires tx in t.lookups ==> LookupOk(u, tx, t.lookups[tx])
    ensures Inv(u)
  {
    OpenNotExpired(t);
    ExpiryFrame(t, u, tx, c);
    AllDatagramsFrame(t, u);
    Assemble(t, u, tx);
  }

  lemma OtherLookupOk(t: Trace, u: Trace, tx: U64, c: Channel)
    requires Inv(t) && u == t.(state := u.state, expired := t.expired + {c}) && u.state.resolves == t.state.resolves
    requires Touches(t.state, u.state, tx) && c !in t.state.answers && tx in t.lookups
    requires tx in t.state.resolves ==> t.state.resolves[tx].channel != c
    ensures LookupOk(u, tx, t.lookups[tx])
  {
    LookupOpen(t, tx);
    LookupFrame(t, u, tx, t.lookups[tx]);
  }

  lemma OtherPublicationOk(t: Trace, u: Trace, tx: U64, c: Channel)
    requires Inv(t) && u == t.(state := u.state, expired := t.expired + {c}) && u.state.publishes == t.state.publishes
    requires Touches(t.state, u.state, tx) && c !in t.state.answers && tx in t.publications
    requires tx in t.state.publishes ==> t.state.publishes[tx].channel != c
    ensures PublicationOk(u, tx, t.publications[tx])
  {
    PublicationOpen(t, tx);
    PublicationFrame(t, u, tx, t.publications[tx]);
  }

  lemma PublishExpiryKeepsInv(t: Trace, tx: U64, now: nat)
    requires Inv(t) && tx in t.state.publishes
    ensures Inv(Next(t, PublishExpired(tx, now)))
  {
    var u := Next(t, PublishExpired(tx, now));
    var c := t.state.publishes[tx].channel;
    PublicationOpen(t, tx);
    PublishExpiryOk(t, tx, now);
    OwnChannel(t.state, tx);
    FinishPublishTouches(t.state, tx);
    FinishPublishKeeps(t.state, tx);
    if tx in t.lookups {
      OtherLookupOk(t, u, tx, c);
    }
    ExpiryKeepsInv(t, u, tx, c);
  }

  lemma ResolveExpiryOk(t: Trace, tx: U64, now: nat)
    requires OpenLookup(t, tx)
    ensures LookupOk(Next(t, ResolveExpired(tx, now)), tx, t.lookups[tx])
  {
    SameResolveAnswer(t.lookups[tx], t.state.resolves[tx]);
  }

  lemma ResolveExpiryKeepsInv(t: Trace, tx: U64, now: nat)
    requires Inv(t) && tx in t.state.resolves
    ensures Inv(Next(t, ResolveExpired(tx, now)))
  {
    var u := Next(t, ResolveExpired(tx, now));
    var c := t.state.resolves[tx].channel;
    LookupOpen(t, tx);
    ResolveExpiryOk(t, tx, now);
    OwnChannel(t.state, tx);
    FinishResolveTouches(t.state, tx);
    FinishResolveKeeps(t.state, tx);
    if tx in t.publications {
      OtherPublicationOk(t, u, tx, c);
    }
    ExpiryKeepsInv(t, u, tx, c);
  }

  lemma NextKeepsInv(t: Trace, e: Event)
    requires Inv(t) && Enabled(t, e)
    ensures Inv(Next(t, e))
  {
    match e
    case Commanded(command, tx, deadline) => CommandKeepsInv(t, command, tx, deadline);
    case Delivered(from, data) =>
      if ResponseIn(data).Some? {
        ReplyKeepsInv(t, from, ResponseIn(data).value);
      }
    case PublishExpired(tx, now) =>
      if tx in t.state.publishes {
        PublishExpiryKeepsInv(t, tx, now);
      }
    case ResolveExpired(tx, now) =>
      if tx in t.state.resolves {
        ResolveExpiryKeepsInv(t, tx, now);
      }
  }

  lemma StartInv()
    ensures Inv(START)
  {
  }

  // ----- Whole runs -----

  ghost predicate StepAt(traces: seq<Trace>, events: seq<Event>, i: nat) {
    && i < |events| && i + 1 < |traces|
    && Enabled(traces[i], events[i]) && traces[i + 1] == Next(traces[i], events[i])
  }

  /** A run: traces and the events that lead from each to the next. */
  ghost predicate Run(traces: seq<Trace>, events: seq<Event>) {
    && |traces| == |events| + 1
    && traces[0] == START
    && (forall i {:trigger StepAt(traces, events, i)} :: 0 <= i < |events| ==> StepAt(traces, events, i))
  }

  lemma RunExtends(traces: seq<Trace>, events: seq<Event>, e: Event, u: Trace)
    requires Run(traces, events) && Enabled(traces[|events|], e) && u == Next(traces[|events|], e)
    ensures Run(traces + [u], events + [e])
  {
    var (longer, more) := (traces + [u], events + [e]);
    forall i | 0 <= i < |more| ensures StepAt(longer, more, i) {
      if i < |events| {
        assert StepAt(traces, events, i);
      }
    }
  }

  lemma {:induction false} RunInv(traces: seq<Trace>, events: seq<Event>, i: nat)
    requires Run(traces, events) && i < |traces|
    ensures Inv(traces[i])
  {
    if i == 0 {
      StartInv();
    } else {
      RunInv(traces, events, i - 1);
      assert StepAt(traces, events, i - 1);
      NextKeepsInv(traces[i - 1], events[i - 1]);
    }
  }

  lemma NextKeepsAnswers(t: Trace, e: Event)
    requires Inv(t) && Enabled(t, e)
    ensures t.issued <= Next(t, e).issued
    ensures forall c :: c in t.state.answers ==>
              c in Next(t, e).state.answers && Next(t, e).state.answers[c] == t.state.answers[c]
  {
    match e
    case Commanded(command, tx, deadline) =>
      assert forall c :: c in Opened(command) ==> c !in Accounted(t.state);
    case Delivered(from, data) =>
      if ResponseIn(data).Some? {
        ResponseEffects(t.state, from, ResponseIn(data).value);
        ReplyRecords(t, from, ResponseIn(data).value);
      }
    case PublishExpired(tx, _) => OwnChannel(t.state, tx);
    case ResolveExpired(tx, _) => OwnChannel(t.state, tx);
  }

  lemma {:induction false} AnswersStay(traces: seq<Trace>, events: seq<Event>, i: nat, j: nat, c: Channel)
    requires Run(traces, events) && i <= j < |traces| && c in traces[i].state.answers
    ensures c in traces[j].state.answers && traces[j].state.answers[c] == traces[i].state.answers[c]
    decreases j - i
  {
    if i < j {
      AnswersStay(traces, events, i, j - 1, c);
      RunInv(traces, events, j - 1);
      assert StepAt(traces, events, j - 1);
      NextKeepsAnswers(traces[j - 1], events[j - 1]);
    }
  }

  /**
   No command is forgotten or answered twice: at each moment its channel is owed
   an answer by exactly one transaction or has its answer, and an answer never
   changes. When the answer comes is a matter of the clock.
   */
  lemma OwedOneAnswer(traces: seq<Trace>, events: seq<Event>, i: nat, j: nat, c: Channel)
    requires Run(traces, events) && i <= j < |traces| && c in traces[i].issued
    ensures var s := traces[i].state;
            && (c in s.answers || c in PublishChannels(s.publishes) || c in ResolveChannels(s.resolves))
            && (c in PublishChannels(s.publishes) ==> c !in ResolveChannels(s.resolves) && c !in s.answers)
            && (c in ResolveChannels(s.resolves) ==> c !in s.answers)
            && (forall t, u :: t in s.publishes && u in s.publishes && t != u && s.publishes[t].channel == c ==>
                  s.publishes[u].channel != c)
            && (forall t, u :: t in s.resolves && u in s.resolves && t != u && s.resolves[t].channel == c ==>
                  s.resolves[u].channel != c)
            && (c in s.answers ==>
                  c in traces[j].state.answers && traces[j].state.answers[c] == s.answers[c])
  {
    RunInv(traces, events, i);
    if c in traces[i].state.answers {
      AnswersStay(traces, events, i, j, c);
    }
  }

  ghost predicate IsPut(d: Datagram, tx: U64) {
    var m := Decode(d.data);
    m.Some? && m.value.FromClient? && m.value.request.Put? && m.value.request.tx == tx
  }

  /** Each server gets at most one put per transaction, whatever is repeated, forged or late. */
  lemma OnePutPerServer(traces: seq<Trace>, events: seq<Event>, i: nat, d: Datagram, e: Datagram, tx: U64)
    requires Run(traces, events) && i < |traces|
    requires d in traces[i].state.outbox && e in traces[i].state.outbox
    requires IsPut(d, tx) && IsPut(e, tx) && d.to == e.to
    ensures d == e && traces[i].state.outbox[d] == 1
  {
    RunInv(traces, events, i);
    var t := traces[i];
    assert DatagramOk(t, d) && DatagramOk(t, e);
  }

  lemma PublicationOkAt(traces: seq<Trace>, events: seq<Event>, i: nat, tx: U64)
    requires Run(traces, events) && i < |traces| && tx in traces[i].publications
    ensures PublicationOk(traces[i], tx, traces[i].publications[tx])
    ensures tx in traces[i].state.publishes <==> traces[i].publications[tx].channel !in traces[i].state.answers
  {
    RunInv(traces, events, i);
    PublicationOpen(traces[i], tx);
  }

  lemma LookupOkAt(traces: seq<Trace>, events: seq<Event>, i: nat, tx: U64)
    requires Run(traces, events) && i < |traces| && tx in traces[i].lookups
    ensures LookupOk(traces[i], tx, traces[i].lookups[tx])
    ensures tx in traces[i].state.resolves <==> traces[i].lookups[tx].channel !in traces[i].state.answers
  {
    RunInv(traces, events, i);
    LookupOpen(traces[i], tx);
  }

  /**
   How a publication ends: before its deadline only when every server it asked
   stored the value or led to one that is too long; with exactly the sockets its
   servers reported, in the one order that is sorted; with a timeout only when
   none stored it and none led to a value that is too long.
   */
  lemma PublicationEnds(traces: seq<Trace>, events: seq<Event>, i: nat, tx: U64)
    requires Run(traces, events) && i < |traces| && tx in traces[i].publications
    requires traces[i].publications[tx].channel in traces[i].state.answers
    ensures var (t, p) := (traces[i], traces[i].publications[tx]);
            var answer := t.state.answers[p.channel];
            && (p.channel !in t.expired ==> p.asked <= p.confirmed.Keys + p.Oversized())
            && (answer == Failed(Timeout) <==> p.confirmed == map[] && p.Oversized() == {})
            && (answer == Failed(TooLarge) <==> p.confirmed == map[] && p.Oversized() != {})
            && (p.confirmed != map[] ==>
                  && answer.PublishedAt? && Ascending(answer.addrs, AddrLe)
                  && (forall a :: a in answer.addrs <==> exists s :: s in p.confirmed && p.confirmed[s] == a)
                  && OnlyAscending(answer.addrs, AddrLe)
                  && (forall s :: s in p.confirmed ==>
                        s in p.asked && Received(s, Stored(tx, p.confirmed[s])) in t.received))
  {
    PublicationOkAt(traces, events, i, tx);
    var p := traces[i].publications[tx];
    AddrLeIsTotal();
    assert forall s :: s in p.asked ==> s in p.Waiting() || s in p.confirmed || s in p.Oversized();
    if p.confirmed != map[] {
      AscendingIsOnly(traces[i].state.answers[p.channel].addrs, AddrLe);
    }
  }

  /**
   How a lookup ends: before its deadline only when it heard from every server
   it asked or holds a value its caller accepts; with the distinct values its
   servers reported for the address, sorted; with a timeout exactly when no
   server answered.
   */
  lemma LookupEnds(traces: seq<Trace>, events: seq<Event>, i: nat, tx: U64)
    requires Run(traces, events) && i < |traces| && tx in traces[i].lookups
    requires traces[i].lookups[tx].channel in traces[i].state.answers
    ensures var (t, l) := (traces[i], traces[i].lookups[tx]);
            var answer := t.state.answers[l.channel];
            && (l.channel !in t.expired ==> l.Done())
            && (answer == Failed(Timeout) <==> l.heard == map[])
            && (l.heard != map[] ==>
                  && answer.ResolvedTo? && Ascending(answer.values, BytesLe)
                  && (forall v :: v in answer.values <==>
                        exists s :: s in l.heard && l.heard[s] == Some(v) && |v| <= MAX_VALUE_LEN)
                  && OnlyAscending(answer.values, BytesLe)
                  && (forall s :: s in l.heard ==>
                        s in l.asked && Received(s, Value(tx, l.addr, l.heard[s])) in t.received))
  {
    LookupOkAt(traces, events, i, tx);
    var (t, l) := (traces[i], traces[i].lookups[tx]);
    BytesLeIsTotal();
    forall v ensures v in l.Values() <==> exists s :: s in l.heard && l.heard[s] == Some(v) && |v| <= MAX_VALUE_LEN {
    }
    if l.heard != map[] {
      AscendingIsOnly(t.state.answers[l.channel].values, BytesLe);
    }
  }

  /** While a transaction is open it is not finished: nothing is waited for that has already come. */
  lemma OpenMeansUnfinished(traces: seq<Trace>, events: seq<Event>, i: nat, tx: U64)
    requires Run(traces, events) && i < |traces|
    ensures var t := traces[i];
            && (tx in t.publications && t.publications[tx].channel !in t.state.answers ==>
                  t.publications[tx].Waiting() != {})
            && (tx in t.lookups && t.lookups[tx].channel !in t.state.answers ==> !t.lookups[tx].Done())
  {
    if tx in traces[i].publications {
      PublicationOkAt(traces, events, i, tx);
    }
    if tx in traces[i].lookups {
      LookupOkAt(traces, events, i, tx);
    }
  }

  lemma ReplyKeeps(t: Trace, from: SocketAddr, response: Response)
    ensures Keeps(t, WithReply(t, from, response))
    ensures WithReply(t, from, response).received == t.received + {Received(from, response)}
    ensures t.state.outbox <= WithReply(t, from, response).state.outbox
  {
    ReplyOutboxGrows(t.state, from, response);
  }

  lemma ReplyOutboxGrows(s: State, from: SocketAddr, response: Response)
    ensures s.outbox <= OnResponse(s, from, response).outbox
  {
  }

  lemma CommandKeeps(t: Trace, command: Command, tx: U64, deadline: nat)
    requires tx !in t.publications
    ensures Keeps(t, WithCommand(t, command, tx, deadline))
    ensures WithCommand(t, command, tx, deadline).received == t.received
    ensures t.state.outbox <= WithCommand(t, command, tx, deadline).state.outbox
  {
  }

  /** What one step adds to the record: nothing is taken back, and only a delivered reply is added. */
  lemma NextRecords(t: Trace, e: Event)
    requires Enabled(t, e)
    ensures Keeps(t, Next(t, e)) && t.received <= Next(t, e).received
    ensures t.state.outbox <= Next(t, e).state.outbox
    ensures forall r :: r in Next(t, e).received && r !in t.received ==>
              e.Delivered? && ResponseIn(e.data) == Some(r.response) && e.from == r.from
  {
    match e
    case Commanded(command, tx, deadline) => CommandKeeps(t, command, tx, deadline);
    case Delivered(from, data) =>
      if ResponseIn(data).Some? {
        ReplyKeeps(t, from, ResponseIn(data).value);
      }
    case PublishExpired(_, _) =>
    case ResolveExpired(_, _) =>
  }
}
