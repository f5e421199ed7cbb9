/**
 Clients and servers over a network that drops, duplicates, delays and reorders
 datagrams, and in which a client's packets may arrive from any source socket.

 Other hosts may send anything from anywhere, with one exception: they cannot
 send what a client reads as a response from a server's socket.
 */
module System {
  import opened Base
  import opened Wire
  import opened AddrStore
  import Ordering
  import Tokens
  import Server
  import Client
  import Record
  import opened ClientRuns

  type Servers = map<SocketAddr, Server.Config>

  datatype Origin = ByClient(id: nat) | ByServer | ByOther

  datatype Packet = Packet(src: SocketAddr, dst: SocketAddr, data: Bytes, origin: Origin)

  /** A put that a server accepted; a local one carries no transaction. */
  datatype Deposit = Deposit(server: SocketAddr, slot: SocketAddr, tx: Option<U64>, value: Bytes, origin: Origin)

  /** `net` holds every packet ever sent; a packet in it may be delivered any number of times, or never. */
  datatype World = World(
    stores: map<SocketAddr, Entries>,
    clients: map<nat, Trace>,
    net: set<Packet>,
    deposits: set<Deposit>)

  // ----- Steps -----

  /** A client takes a command, a deadline, or a packet from the net, whoever it was sent to. */
  ghost predicate ClientStep(w: World, v: World, id: nat, e: Event) {
    && id in w.clients && Enabled(w.clients[id], e)
    && (e.Delivered? ==> exists p :: p in w.net && p.src == e.from && p.data == e.data)
    && v == w.(clients := w.clients[id := Next(w.clients[id], e)])
  }

  /** A datagram a client sent enters the net, from whatever socket its NAT gives it now. */
  ghost predicate Transmit(w: World, v: World, id: nat, d: Client.Datagram, src: SocketAddr) {
    && id in w.clients && d in w.clients[id].state.outbox
    && v == w.(net := w.net + {Packet(src, d.to, d.data, ByClient(id))})
  }

  ghost function Replies(server: SocketAddr, p: Packet, response: Option<Response>): set<Packet> {
    if response.None? || Encode(FromServer(response.value)).None? then {}
    else {Packet(server, p.src, Encode(FromServer(response.value)).value, ByServer)}
  }

  ghost function Puts(server: SocketAddr, p: Packet, response: Option<Response>): set<Deposit> {
    if response.None? || !response.value.Stored? then {} else
      match Server.RequestIn(p.data)
      case Some(Put(tx, _, value)) => {Deposit(server, p.src, Some(tx), value, p.origin)}
      case _ => {}
  }

  /** A server handles a packet from the net. */
  ghost predicate Serve(
      servers: Servers, w: World, v: World, server: SocketAddr, p: Packet, at: Server.Readings, allowed: bool)
  {
    && server in servers && server in w.stores && p in w.net && p.dst == server
    && var (entries, response) := Server.Handle(servers[server], w.stores[server], p.data, p.src, at, allowed);
       v == w.(stores := w.stores[server := entries],
               net := w.net + Replies(server, p, response),
               deposits := w.deposits + Puts(server, p, response))
  }

  /** A server's own host stores a value directly. */
  ghost predicate PutLocally(
      servers: Servers, w: World, v: World, server: SocketAddr, addr: SocketAddr, value: Bytes, now: U64)
  {
    && server in servers && server in w.stores
    && var (entries, result) := PutTo(w.stores[server], addr, value, now, servers[server].limits);
       v == w.(stores := w.stores[server := entries],
               deposits := w.deposits +
                 if result.Accepted? then {Deposit(server, addr, None, value, ByOther)} else {})
  }

  /** Anyone sends anything, except a response from a server's socket. */
  ghost predicate Inject(servers: Servers, w: World, v: World, p: Packet) {
    && p.origin == ByOther
    && (p.src in servers ==> Client.ResponseIn(p.data).None?)
    && v == w.(net := w.net + {p})
  }

  ghost predicate Step(servers: Servers, w: World, v: World) {
    || (exists id, e :: ClientStep(w, v, id, e))
    || (exists id, d, src :: Transmit(w, v, id, d, src))
    || (exists server, p, at, allowed :: Serve(servers, w, v, server, p, at, allowed))
    || (exists server, addr, value, now :: PutLocally(servers, w, v, server, addr, value, now))
    || (exists p :: Inject(servers, w, v, p))
  }

  ghost predicate Initial(servers: Servers, w: World) {
    && (forall s :: s in w.stores ==> s in servers && w.stores[s] == map[])
    && (forall id :: id in w.clients ==> w.clients[id] == START)
    && w.net == {} && w.deposits == {}
  }

  ghost predicate Run(servers: Servers, run: seq<World>) {
    && run != [] && Initial(servers, run[0])
    && (forall i :: 0 <= i < |run| - 1 ==> Step(servers, run[i], run[i + 1]))
  }

  ghost predicate InjectiveTokens(servers: Servers) {
    forall s :: s in servers ==> Tokens.Injective(servers[s].tokenFor)
  }

  // ----- What holds in every reachable world -----

  ghost predicate Issued(cfg: Server.Config, addr: SocketAddr, token: Token) {
    exists b: U64 :: cfg.tokenFor(addr, b) == token
  }

  /** What a server's response says is true: its token is for the socket, and what it reports was accepted. */
  ghost predicate Truthful(servers: Servers, deposits: set<Deposit>, server: SocketAddr, r: Response) {
    && server in servers
    && match r
       case Prepared(_, addr, token) => Issued(servers[server], addr, token)
       case Stored(tx, addr) =>
         exists a :: a in deposits && a.server == server && a.slot == addr && a.tx == Some(tx)
       case Value(_, addr, found) =>
         found.Some? ==>
           exists a :: a in deposits && a.server == server && a.slot == addr && a.value == found.value
  }

  ghost predicate PacketOk(servers: Servers, w: World, p: Packet) {
    match p.origin
    case ByServer =>
      Client.ResponseIn(p.data).Some? && Truthful(servers, w.deposits, p.src, Client.ResponseIn(p.data).value)
    case ByClient(id) =>
      id in w.clients && Client.Datagram(p.dst, p.data) in w.clients[id].state.outbox
    case ByOther => p.src in servers ==> Client.ResponseIn(p.data).None?
  }

  ghost predicate ClientOk(servers: Servers, w: World, t: Trace) {
    && ClientRuns.Inv(t)
    && (forall r :: r in t.received && r.from in servers ==> Truthful(servers, w.deposits, r.from, r.response))
  }

  /** A put accepted from a client's packet holds the value that client built for exactly this slot. */
  ghost predicate BuiltForSlot(w: World, a: Deposit) {
    a.origin.ByClient? ==>
      && a.origin.id in w.clients && a.tx.Some?
      && var t := w.clients[a.origin.id];
         a.tx.value in t.publications && a.value == t.publications[a.tx.value].valueFor(a.slot)
  }

  ghost predicate Carried(w: World, a: Deposit) {
    a.tx.Some? ==>
      exists p :: p in w.net && p.origin == a.origin && p.src == a.slot && p.dst == a.server &&
        Server.RequestIn(p.data).Some? && Server.RequestIn(p.data).value.tx == a.tx.value
  }

  ghost predicate StoreOk(w: World, server: SocketAddr, e: Entries) {
    forall slot :: slot in e ==>
      exists a :: a in w.deposits && a.server == server && a.slot == slot && a.value == e[slot].value
  }

  ghost predicate PacketsOk(servers: Servers, w: World) {
    forall p {:trigger PacketOk(servers, w, p)} :: p in w.net ==> PacketOk(servers, w, p)
  }

  ghost predicate ClientsOk(servers: Servers, w: World) {
    forall id {:trigger ClientOk(servers, w, w.clients[id])} :: id in w.clients ==> ClientOk(servers, w, w.clients[id])
  }

  ghost predicate DepositsOk(w: World) {
    forall a {:trigger BuiltForSlot(w, a)} {:trigger Carried(w, a)} ::
      a in w.deposits ==> BuiltForSlot(w, a) && Carried(w, a)
  }

  ghost predicate StoresOk(w: World) {
    forall s {:trigger StoreOk(w, s, w.stores[s])} :: s in w.stores ==> StoreOk(w, s, w.stores[s])
  }

  ghost predicate Inv(servers: Servers, w: World) {
    PacketsOk(servers, w) && ClientsOk(servers, w) && DepositsOk(w) && StoresOk(w)
  }

  // ----- Growth -----

  /** Nothing that a client promised or a server accepted is taken back. */
  ghost predicate Grows(w: World, v: World) {
    && w.net <= v.net && w.deposits <= v.deposits
    && (forall id :: id in w.clients ==>
          && id in v.clients
          && w.clients[id].state.outbox <= v.clients[id].state.outbox
          && Keeps(w.clients[id], v.clients[id]))
  }

  lemma KeepsItself(t: Trace)
    ensures Keeps(t, t)
  {
  }

  lemma PacketStays(servers: Servers, w: World, v: World, p: Packet)
    requires Grows(w, v) && PacketOk(servers, w, p)
    ensures PacketOk(servers, v, p)
  {
    if p.origin.ByServer? {
      TruthStays(servers, w.deposits, v.deposits, p.src, Client.ResponseIn(p.data).value);
    }
  }

  lemma TruthStays(servers: Servers, small: set<Deposit>, big: set<Deposit>, server: SocketAddr, r: Response)
    requires small <= big && Truthful(servers, small, server, r)
    ensures Truthful(servers, big, server, r)
  {
  }

  lemma DepositStays(w: World, v: World, a: Deposit)
    requires Grows(w, v) && BuiltForSlot(w, a) && Carried(w, a)
    ensures BuiltForSlot(v, a) && Carried(v, a)
  {
  }

  lemma OthersStay(servers: Servers, w: World, v: World)
    requires Inv(servers, w) && Grows(w, v)
    ensures forall p {:trigger PacketOk(servers, v, p)} :: p in w.net ==> PacketOk(servers, v, p)
    ensures forall a {:trigger BuiltForSlot(v, a)} {:trigger Carried(v, a)} ::
              a in w.deposits ==> BuiltForSlot(v, a) && Carried(v, a)
    ensures v.stores == w.stores ==> StoresOk(v)
    ensures v.clients == w.clients ==> ClientsOk(servers, v)
  {
    forall p | p in w.net ensures PacketOk(servers, v, p) {
      assert PacketOk(servers, w, p);
      PacketStays(servers, w, v, p);
    }
    forall a | a in w.deposits ensures BuiltForSlot(v, a) && Carried(v, a) {
      assert BuiltForSlot(w, a) && Carried(w, a);
      DepositStays(w, v, a);
    }
    if v.stores == w.stores {
      forall s | s in v.stores ensures StoreOk(v, s, v.stores[s]) {
        assert StoreOk(w, s, w.stores[s]);
      }
    }
    if v.clients == w.clients {
      forall id | id in v.clients ensures ClientOk(servers, v, v.clients[id]) {
        assert ClientOk(servers, w, w.clients[id]);
        ClientStays(servers, w, v, w.clients[id]);
      }
    }
  }

  lemma ClientStays(servers: Servers, w: World, v: World, t: Trace)
    requires w.deposits <= v.deposits && ClientOk(servers, w, t)
    ensures ClientOk(servers, v, t)
  {
    forall r | r in t.received && r.from in servers ensures Truthful(servers, v.deposits, r.from, r.response) {
      TruthStays(servers, w.deposits, v.deposits, r.from, r.response);
    }
  }

  // ----- Every step keeps the invariant -----

  lemma ClientsSendRequests(servers: Servers, w: World, p: Packet)
    requires PacketOk(servers, w, p) && ClientsOk(servers, w) && p.origin.ByClient?
    ensures Client.ResponseIn(p.data).None?
  {
    var t := w.clients[p.origin.id];
    assert ClientOk(servers, w, t);
    assert DatagramOk(t, Client.Datagram(p.dst, p.data));
  }

  /** A response that arrives from a server's socket was sent by that server. */
  lemma ResponseIsGenuine(servers: Servers, w: World, p: Packet, r: Response)
    requires PacketOk(servers, w, p) && ClientsOk(servers, w) && p.src in servers
    requires Client.ResponseIn(p.data) == Some(r)
    ensures Truthful(servers, w.deposits, p.src, r)
  {
    if p.origin.ByClient? {
      ClientsSendRequests(servers, w, p);
    }
  }

  lemma ClientStepKeeps(servers: Servers, w: World, v: World, id: nat, e: Event)
    requires Inv(servers, w) && ClientStep(w, v, id, e)
    ensures Inv(servers, v)
  {
    var (t, u) := (w.clients[id], v.clients[id]);
    assert ClientOk(servers, w, t);
    NextKeepsInv(t, e);
    NextRecords(t, e);
    forall x | x in w.clients ensures Keeps(w.clients[x], w.clients[x]) {
      KeepsItself(w.clients[x]);
    }
    OthersStay(servers, w, v);
    forall r | r in u.received && r.from in servers ensures Truthful(servers, v.deposits, r.from, r.response) {
      if r !in t.received {
        var p :| p in w.net && p.src == e.from && p.data == e.data;
        assert PacketOk(servers, w, p);
        ResponseIsGenuine(servers, w, p, r.response);
      }
    }
    forall x | x in v.clients ensures ClientOk(servers, v, v.clients[x]) {
      if x != id {
        assert ClientOk(servers, w, w.clients[x]);
        ClientStays(servers, w, v, w.clients[x]);
      }
    }
  }

  lemma NetKeeps(servers: Servers, w: World, v: World, p: Packet)
    requires Inv(servers, w) && v == w.(net := w.net + {p}) && PacketOk(servers, v, p)
    ensures Inv(servers, v)
  {
    forall x | x in w.clients ensures Keeps(w.clients[x], w.clients[x]) {
      KeepsItself(w.clients[x]);
    }
    OthersStay(servers, w, v);
  }

  /** After a put, each entry was there before or is the one just put. */
  lemma PutToProvenance(e: Entries, addr: SocketAddr, value: Bytes, now: U64, limits: Limits)
    ensures var (after, result) := PutTo(e, addr, value, now, limits);
            forall slot :: slot in after ==>
              || (slot in e && after[slot] == e[slot])
              || (slot == addr && after[slot].value == value && result.Accepted?)
  {
  }

  /** A store whose entries were there before, or are deposits of this step. */
  lemma StoreStays(w: World, v: World, server: SocketAddr, after: Entries)
    requires server in w.stores && StoreOk(w, server, w.stores[server]) && w.deposits <= v.deposits
    requires forall slot :: slot in after ==>
               || (slot in w.stores[server] && after[slot] == w.stores[server][slot])
               || (exists a :: a in v.deposits && a.server == server && a.slot == slot && a.value == after[slot].value)
    ensures StoreOk(v, server, after)
  {
  }

  /** A step that changes one server's store, adds packets and adds deposits. */
  lemma ServerStepKeeps(servers: Servers, w: World, v: World, server: SocketAddr, after: Entries)
    requires Inv(servers, w) && server in w.stores
    requires v.clients == w.clients && v.stores == w.stores[server := after]
    requires w.net <= v.net && w.deposits <= v.deposits
    requires StoreOk(v, server, after)
    requires forall p :: p in v.net && p !in w.net ==> PacketOk(servers, v, p)
    requires forall a :: a in v.deposits && a !in w.deposits ==> BuiltForSlot(v, a) && Carried(v, a)
    ensures Inv(servers, v)
  {
    forall x | x in w.clients ensures Keeps(w.clients[x], w.clients[x]) {
      KeepsItself(w.clients[x]);
    }
    OthersStay(servers, w, v);
    forall s | s in v.stores ensures StoreOk(v, s, v.stores[s]) {
      if s != server {
        assert StoreOk(w, s, w.stores[s]);
      }
    }
    forall p | p in v.net ensures PacketOk(servers, v, p) {
      if p in w.net {
        assert PacketOk(servers, v, p);
      }
    }
    forall a | a in v.deposits ensures BuiltForSlot(v, a) && Carried(v, a) {
      if a in w.deposits {
        assert BuiltForSlot(v, a) && Carried(v, a);
      }
    }
  }

  lemma PutLocallyKeeps(
      servers: Servers, w: World, v: World, server: SocketAddr, addr: SocketAddr, value: Bytes, now: U64)
    requires Inv(servers, w) && PutLocally(servers, w, v, server, addr, value, now)
    ensures Inv(servers, v)
  {
    var limits := servers[server].limits;
    var (after, result) := PutTo(w.stores[server], addr, value, now, limits);
    PutToProvenance(w.stores[server], addr, value, now, limits);
    assert StoreOk(w, server, w.stores[server]);
    assert result.Accepted? ==> Deposit(server, addr, None, value, ByOther) in v.deposits;
    StoreStays(w, v, server, after);
    ServerStepKeeps(servers, w, v, server, after);
  }

  /**
   The heart of the protocol: the token in a client's put was granted for the
   socket the value was built for, and the server takes it from no other socket.
   */
  lemma PutIsBuiltForItsSlot(
      servers: Servers, w: World, server: SocketAddr, p: Packet, now: U64, tx: U64, token: Token, value: Bytes)
    requires Inv(servers, w) && InjectiveTokens(servers) && server in servers
    requires p in w.net && p.dst == server && p.origin.ByClient?
    requires Server.RequestIn(p.data) == Some(Put(tx, token, value))
    requires Tokens.Verify(servers[server].tokenFor, servers[server].tokenBucketSecs, p.src, token, now)
    ensures p.origin.id in w.clients
    ensures var t := w.clients[p.origin.id];
            tx in t.publications && value == t.publications[tx].valueFor(p.src)
  {
    assert PacketOk(servers, w, p);
    var t := w.clients[p.origin.id];
    assert ClientOk(servers, w, t);
    assert DatagramOk(t, Client.Datagram(p.dst, p.data));
    PublicationOpen(t, tx);
    var (addr, granted) := t.publications[tx].granted[server];
    assert Received(server, Prepared(tx, addr, granted)) in t.received;
    var b: U64 :| servers[server].tokenFor(addr, b) == token;
    assert Tokens.Injective(servers[server].tokenFor);
  }

  lemma FoundWasDeposited(w: World, server: SocketAddr, e: Entries, now: U64, addr: SocketAddr)
    requires StoreOk(w, server, e)
    ensures var found := AddrStore.Lookup(Live(e, now), addr);
            found.Some? ==>
              exists a :: a in w.deposits && a.server == server && a.slot == addr && a.value == found.value
  {
  }

  /** What a server answers is true of the world it leaves. */
  lemma ResponseIsTruthful(
      servers: Servers, w: World, v: World, server: SocketAddr, p: Packet, at: Server.Readings, allowed: bool)
    requires Serve(servers, w, v, server, p, at, allowed) && StoreOk(w, server, w.stores[server])
    ensures var response := Server.Handle(servers[server], w.stores[server], p.data, p.src, at, allowed).1;
            response.Some? ==> Truthful(servers, v.deposits, server, response.value)
  {
    var cfg := servers[server];
    var response := Server.Handle(cfg, w.stores[server], p.data, p.src, at, allowed).1;
    if response.Some? {
      match response.value
      case Prepared(_, addr, token) =>
        assert cfg.tokenFor(addr, Tokens.Bucket(cfg.tokenBucketSecs, at.now)) == token;
      case Stored(tx, addr) =>
        var value := Server.RequestIn(p.data).value.value;
        assert Deposit(server, p.src, Some(tx), value, p.origin) in v.deposits;
      case Value(_, addr, found) =>
        FoundWasDeposited(w, server, w.stores[server], at.storeNow, addr);
        TruthStays(servers, w.deposits, v.deposits, server, response.value);
    }
  }

  lemma ServeReply(
      servers: Servers, w: World, v: World, server: SocketAddr, p: Packet, at: Server.Readings, allowed: bool)
    requires Serve(servers, w, v, server, p, at, allowed) && StoreOk(w, server, w.stores[server])
    ensures forall q :: q in v.net && q !in w.net ==> PacketOk(servers, v, q)
  {
    ResponseIsTruthful(servers, w, v, server, p, at, allowed);
    var response := Server.Handle(servers[server], w.stores[server], p.data, p.src, at, allowed).1;
    if response.Some? && Encode(FromServer(response.value)).Some? {
      RoundTrip(FromServer(response.value));
    }
  }

  lemma ServeStore(
      servers: Servers, w: World, v: World, server: SocketAddr, p: Packet, at: Server.Readings, allowed: bool)
    requires Serve(servers, w, v, server, p, at, allowed) && StoreOk(w, server, w.stores[server])
    ensures StoreOk(v, server, v.stores[server])
  {
    var cfg := servers[server];
    var (after, response) := Server.Handle(cfg, w.stores[server], p.data, p.src, at, allowed);
    if Server.Metered(cfg, p.data, p.src, at.now) && allowed && Server.RequestIn(p.data).value.Put? {
      var Put(tx, token, value) := Server.RequestIn(p.data).value;
      PutToProvenance(w.stores[server], p.src, value, at.storeNow, cfg.limits);
      assert response.Some? ==> Deposit(server, p.src, Some(tx), value, p.origin) in v.deposits;
    }
    StoreStays(w, v, server, after);
  }

  lemma ServeDeposit(
      servers: Servers, w: World, v: World, server: SocketAddr, p: Packet, at: Server.Readings, allowed: bool)
    requires Inv(servers, w) && InjectiveTokens(servers) && Serve(servers, w, v, server, p, at, allowed)
    ensures forall a :: a in v.deposits && a !in w.deposits ==> BuiltForSlot(v, a) && Carried(v, a)
  {
    forall a | a in v.deposits && a !in w.deposits ensures BuiltForSlot(v, a) && Carried(v, a) {
      var Put(tx, token, value) := Server.RequestIn(p.data).value;
      assert a == Deposit(server, p.src, Some(tx), value, p.origin);
      assert p in v.net;
      if p.origin.ByClient? {
        PutIsBuiltForItsSlot(servers, w, server, p, at.now, tx, token, value);
      }
    }
  }

  lemma ServeKeeps(
      servers: Servers, w: World, v: World, server: SocketAddr, p: Packet, at: Server.Readings, allowed: bool)
    requires Inv(servers, w) && InjectiveTokens(servers) && Serve(servers, w, v, server, p, at, allowed)
    ensures Inv(servers, v)
  {
    assert StoreOk(w, server, w.stores[server]);
    ServeReply(servers, w, v, server, p, at, allowed);
    ServeStore(servers, w, v, server, p, at, allowed);
    ServeDeposit(servers, w, v, server, p, at, allowed);
    ServerStepKeeps(servers, w, v, server, v.stores[server]);
  }

  lemma StepKeeps(servers: Servers, w: World, v: World)
    requires Inv(servers, w) && InjectiveTokens(servers) && Step(servers, w, v)
    ensures Inv(servers, v)
  {
    if id, e :| ClientStep(w, v, id, e) {
      ClientStepKeeps(servers, w, v, id, e);
    } else if id, d, src :| Transmit(w, v, id, d, src) {
      NetKeeps(servers, w, v, Packet(src, d.to, d.data, ByClient(id)));
    } else if server, p, at, allowed :| Serve(servers, w, v, server, p, at, allowed) {
      ServeKeeps(servers, w, v, server, p, at, allowed);
    } else if server, addr, value, now :| PutLocally(servers, w, v, server, addr, value, now) {
      PutLocallyKeeps(servers, w, v, server, addr, value, now);
    } else {
      var p :| Inject(servers, w, v, p);
      NetKeeps(servers, w, v, p);
    }
  }

  lemma {:induction false} RunKeeps(servers: Servers, run: seq<World>, i: nat)
    requires Run(servers, run) && InjectiveTokens(servers) && i < |run|
    ensures Inv(servers, run[i])
  {
    if i == 0 {
      StartInv();
    } else {
      RunKeeps(servers, run, i - 1);
      StepKeeps(servers, run[i - 1], run[i]);
    }
  }

  // ----- End to end -----

  lemma DepositIn(servers: Servers, run: seq<World>, i: nat, a: Deposit)
    requires Run(servers, run) && InjectiveTokens(servers) && i < |run| && a in run[i].deposits
    ensures BuiltForSlot(run[i], a) && Carried(run[i], a)
  {
    RunKeeps(servers, run, i);
  }

  lemma PublicationIn(servers: Servers, run: seq<World>, i: nat, id: nat, tx: U64)
    requires Run(servers, run) && InjectiveTokens(servers) && i < |run|
    requires id in run[i].clients && tx in run[i].clients[id].publications
    ensures var (t, p) := (run[i].clients[id], run[i].clients[id].publications[tx]);
            PublicationOk(t, tx, p) && (tx in t.state.publishes <==> p.channel !in t.state.answers)
  {
    RunKeeps(servers, run, i);
    assert ClientOk(servers, run[i], run[i].clients[id]);
    PublicationOpen(run[i].clients[id], tx);
  }

  lemma LookupIn(servers: Servers, run: seq<World>, i: nat, id: nat, tx: U64)
    requires Run(servers, run) && InjectiveTokens(servers) && i < |run|
    requires id in run[i].clients && tx in run[i].clients[id].lookups
    ensures var (t, l) := (run[i].clients[id], run[i].clients[id].lookups[tx]);
            LookupOk(t, tx, l) && (tx in t.state.resolves <==> l.channel !in t.state.answers)
  {
    RunKeeps(servers, run, i);
    assert ClientOk(servers, run[i], run[i].clients[id]);
    LookupOpen(run[i].clients[id], tx);
  }

  lemma ReceivedIn(servers: Servers, run: seq<World>, i: nat, id: nat, r: Received)
    requires Run(servers, run) && InjectiveTokens(servers) && i < |run|
    requires id in run[i].clients && r in run[i].clients[id].received && r.from in servers
    ensures Truthful(servers, run[i].deposits, r.from, r.response)
  {
    RunKeeps(servers, run, i);
    assert ClientOk(servers, run[i], run[i].clients[id]);
  }

  /**
   Every value in every store was deposited there; and whatever the network and
   the NAT of a client did, each deposit that ever came in through a client's
   exchange is the value that client's publication builds for exactly its slot.
   */
  lemma StoredValuesAreBound(servers: Servers, run: seq<World>, i: nat, server: SocketAddr, slot: SocketAddr)
    requires Run(servers, run) && InjectiveTokens(servers) && i < |run|
    requires server in run[i].stores && slot in run[i].stores[server]
    ensures exists a :: a in run[i].deposits && a.server == server && a.slot == slot &&
              a.value == run[i].stores[server][slot].value
    ensures forall a :: a in run[i].deposits && a.origin.ByClient? ==>
              && a.origin.id in run[i].clients && a.tx.Some?
              && var t := run[i].clients[a.origin.id];
                 a.tx.value in t.publications && a.value == t.publications[a.tx.value].valueFor(a.slot)
  {
    RunKeeps(servers, run, i);
    assert StoreOk(run[i], server, run[i].stores[server]);
    forall a | a in run[i].deposits ensures BuiltForSlot(run[i], a) {
    }
  }

  /** A server that lets a get through sends the value it holds for that slot, or that it holds none. */
  lemma StoredValueIsServed(
      servers: Servers, w: World, v: World, server: SocketAddr, p: Packet, at: Server.Readings, tx: U64,
      slot: SocketAddr)
    requires Serve(servers, w, v, server, p, at, true) && Server.RequestIn(p.data) == Some(Get(tx, slot))
    requires Server.ValuesFit(w.stores[server])
    ensures exists q :: q in v.net && q.src == server && q.dst == p.src &&
              Client.ResponseIn(q.data) == Some(Value(tx, slot, Server.FoundIn(w.stores[server], slot, at.storeNow)))
  {
    Server.EveryPacketIsReplied(servers[server], w.stores[server], p.data, p.src, at, true);
    var response := Server.Handle(servers[server], w.stores[server], p.data, p.src, at, true).1;
    var q := Packet(server, p.src, Encode(FromServer(response.value)).value, ByServer);
    assert q in Replies(server, p, response);
  }

  /** The publication signs a record for whatever socket it is given. */
  ghost predicate Signs(p: Publication, scheme: Record.Scheme, secret: Bytes, ts: SocketAddr -> U64) {
    forall addr :: p.valueFor(addr) == Record.RecordBytes(Record.Sign(scheme, secret, addr, ts(addr)))
  }

  /** So a published record decodes under the slot it sits in, to the record its publisher signed. */
  lemma PublishedRecordDecodes(
      servers: Servers, run: seq<World>, i: nat, a: Deposit,
      scheme: Record.Scheme, secret: Bytes, ts: SocketAddr -> U64)
    requires Run(servers, run) && InjectiveTokens(servers) && i < |run| && Record.Sound(scheme)
    requires a in run[i].deposits && a.origin.ByClient?
    requires BuiltForSlot(run[i], a) ==>
               Signs(run[i].clients[a.origin.id].publications[a.tx.value], scheme, secret, ts)
    ensures Record.DecodeRecord(scheme, a.value, a.slot) == Some(Record.Sign(scheme, secret, a.slot, ts(a.slot)))
  {
    DepositIn(servers, run, i, a);
    Record.BoundToItsSlot(scheme, secret, a.slot, ts(a.slot), a.slot);
  }

  /** No packet of anyone else carries this transaction id. */
  ghost predicate Unguessed(w: World, id: nat, tx: U64) {
    forall p :: p in w.net && Server.RequestIn(p.data).Some? && Server.RequestIn(p.data).value.tx == tx ==>
      p.origin == ByClient(id)
  }

  /**
   A publication that succeeds lists only sockets under which one of the servers
   it asked accepted a put of this transaction; as long as nobody else uses its
   id, that put was its own and holds the value built for the socket listed.
   */
  lemma PublishedSocketsWereAccepted(servers: Servers, run: seq<World>, i: nat, id: nat, tx: U64, addr: SocketAddr)
    requires Run(servers, run) && InjectiveTokens(servers) && i < |run|
    requires id in run[i].clients && tx in run[i].clients[id].publications
    requires var (t, p) := (run[i].clients[id], run[i].clients[id].publications[tx]);
             && p.channel in t.state.answers
             && t.state.answers[p.channel].PublishedAt? && addr in t.state.answers[p.channel].addrs
             && p.asked <= servers.Keys
    ensures var (w, p) := (run[i], run[i].clients[id].publications[tx]);
            exists a :: a in w.deposits && a.server in p.asked && a.slot == addr && a.tx == Some(tx) &&
              (Unguessed(w, id, tx) ==> a.origin == ByClient(id) && a.value == p.valueFor(addr))
  {
    PublicationIn(servers, run, i, id, tx);
    var w := run[i];
    var p := w.clients[id].publications[tx];
    Ordering.AddrLeIsTotal();
    var s :| s in p.confirmed && p.confirmed[s] == addr;
    ReceivedIn(servers, run, i, id, Received(s, Stored(tx, addr)));
    var a :| a in w.deposits && a.server == s && a.slot == addr && a.tx == Some(tx);
    DepositIn(servers, run, i, a);
  }

  /** A lookup returns only values that servers it asked accepted for the address it queried. */
  lemma LookedUpValuesWereAccepted(servers: Servers, run: seq<World>, i: nat, id: nat, tx: U64, v: Bytes)
    requires Run(servers, run) && InjectiveTokens(servers) && i < |run|
    requires id in run[i].clients && tx in run[i].clients[id].lookups
    requires var (t, l) := (run[i].clients[id], run[i].clients[id].lookups[tx]);
             && l.channel in t.state.answers
             && t.state.answers[l.channel].ResolvedTo? && v in t.state.answers[l.channel].values
             && l.asked <= servers.Keys
    ensures var (w, l) := (run[i], run[i].clients[id].lookups[tx]);
            exists a :: a in w.deposits && a.server in l.asked && a.slot == l.addr && a.value == v && BuiltForSlot(w, a)
  {
    LookupIn(servers, run, i, id, tx);
    var w := run[i];
    var l := w.clients[id].lookups[tx];
    Ordering.BytesLeIsTotal();
    assert v in l.Values();
    var s :| s in l.heard && Usable(l.heard[s]) && l.heard[s].value == v;
    ReceivedIn(servers, run, i, id, Received(s, Value(tx, l.addr, l.heard[s])));
    var a :| a in w.deposits && a.server == s && a.slot == l.addr && a.value == v;
    DepositIn(servers, run, i, a);
  }

  /**
   Publisher to reader: when a lookup of a slot returned the value that a
   signing publication put there, the record is among those it validates, under
   its signer's key.
   */
  lemma LookupFindsPublisher(
      servers: Servers, run: seq<World>, i: nat, a: Deposit, id: nat, tx: U64,
      scheme: Record.Scheme, secret: Bytes, ts: SocketAddr -> U64)
    requires Run(servers, run) && InjectiveTokens(servers) && i < |run| && Record.Sound(scheme)
    requires a in run[i].deposits && a.origin.ByClient?
    requires BuiltForSlot(run[i], a) ==>
               Signs(run[i].clients[a.origin.id].publications[a.tx.value], scheme, secret, ts)
    requires id in run[i].clients && tx in run[i].clients[id].lookups
    requires var (t, l) := (run[i].clients[id], run[i].clients[id].lookups[tx]);
             && l.addr == a.slot && l.channel in t.state.answers
             && t.state.answers[l.channel].ResolvedTo? && a.value in t.state.answers[l.channel].values
    ensures var (t, l) := (run[i].clients[id], run[i].clients[id].lookups[tx]);
            var records := Record.Validated(scheme, t.state.answers[l.channel].values, l.addr);
            && Record.Sign(scheme, secret, a.slot, ts(a.slot)) in records
            && forall r :: r in records ==> r.addr == a.slot && Record.Verify(scheme, r)
  {
    PublishedRecordDecodes(servers, run, i, a, scheme, secret, ts);
  }
}
