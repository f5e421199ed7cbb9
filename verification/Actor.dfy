/** The client actor as the source runs it: handlers that update maps and sets in place. */
module Actor {
  import opened Base
  import opened Ordering
  import opened Wire
  import opened Client

  class Actor {
    const timeout: nat
    var servers: set<SocketAddr>
    var publishes: map<U64, PendingPublish>
    var resolves: map<U64, PendingResolve>
    var outbox: multiset<Datagram>
    var answers: map<Channel, Answer>

    ghost function View(): State
      reads this
    {
      State(servers, publishes, resolves, outbox, answers)
    }

    ghost predicate Valid()
      reads this
    {
      Consistent(View())
    }

    constructor (timeout: nat)
      ensures View() == INITIAL && this.timeout == timeout
      ensures Valid()
    {
      this.timeout := timeout;
      servers, publishes, resolves, outbox, answers := {}, map[], map[], multiset{}, map[];
    }

    /** Sends on a one-shot channel, which can be done once. */
    method Answer(channel: Channel, answer: Answer)
      requires channel !in answers
      modifies this`answers
      ensures answers == old(answers)[channel := answer]
    {
      answers := answers[channel := answer];
    }

    method Send(to: SocketAddr, data: Bytes)
      modifies this`outbox
      ensures outbox == old(outbox) + multiset{Datagram(to, data)}
    {
      outbox := outbox + multiset{Datagram(to, data)};
    }

    method SendToServers(data: Bytes)
      modifies this`outbox
      ensures outbox == old(outbox) + ToAll(servers, data)
    {
      var rest := servers;
      while rest != {}
        invariant rest <= servers
        invariant outbox == old(outbox) + ToAll(servers - rest, data)
        decreases rest
      {
        var server :| server in rest;
        ToAllGrows(servers - rest, server, data);
        assert servers - (rest - {server}) == servers - rest + {server};
        Send(server, data);
        rest := rest - {server};
      }
      assert servers - rest == servers;
    }

    method OpenPublish(pending: PendingPublish, tx: U64, data: Bytes)
      requires Valid() && pending.channel !in Accounted(View())
      modifies this
      ensures View() == old(View()).(outbox := old(outbox) + ToAll(servers, data),
                                     publishes := old(publishes)[tx := pending])
      ensures Valid()
    {
      PublishAccounts(View(), tx, pending, outbox + ToAll(servers, data));
      SendToServers(data);
      publishes := publishes[tx := pending];
    }

    method OpenResolve(pending: PendingResolve, tx: U64, data: Bytes)
      requires Valid() && pending.channel !in Accounted(View())
      modifies this
      ensures View() == old(View()).(outbox := old(outbox) + ToAll(servers, data),
                                     resolves := old(resolves)[tx := pending])
      ensures Valid()
    {
      ResolveAccounts(View(), tx, pending, outbox + ToAll(servers, data));
      SendToServers(data);
      resolves := resolves[tx := pending];
    }

    method HandleMessage(command: Command, tx: U64, now: nat)
      requires Valid() && (forall c :: c in Opened(command) ==> c !in Accounted(View()))
      modifies this
      ensures View() == OnCommand(old(View()), command, tx, now + timeout)
      ensures Valid()
    {
      match command {
        case ReplaceServers(replacement) =>
          servers := replacement;
        case AddServer(server) =>
          servers := servers + {server};
        case RemoveServer(server) =>
          servers := servers - {server};
        case Publish(valueFor, channel) =>
          assert channel in Opened(command);
          if servers == {} {
            Answer(channel, Failed(NoServers));
            return;
          }
          OpenPublish(PendingPublish(valueFor, false, servers, {}, {}, channel, now + timeout), tx, PrepareData(tx));
        case Resolve(addr, accept, channel) =>
          assert channel in Opened(command);
          if servers == {} {
            Answer(channel, Failed(NoServers));
            return;
          }
          OpenResolve(PendingResolve(addr, accept, servers, {}, false, channel, now + timeout), tx, GetData(tx, addr));
      }
    }

    method DoFinishPublish(tx: U64)
      requires Valid()
      modifies this
      ensures View() == FinishPublish(old(View()), tx)
      ensures Valid()
    {
      FinishPublishKeeps(View(), tx);
      PublishChannelsDrop(publishes, tx);
      if tx !in publishes {
        return;
      }
      var pending := publishes[tx];
      publishes := publishes - {tx};
      AddrLeIsTotal();
      if pending.stored == {} {
        Answer(pending.channel, Failed(if pending.tooLarge then TooLarge else Timeout));
      } else {
        Answer(pending.channel, PublishedAt(Listed(pending.stored, AddrLe)));
      }
    }

    method DoFinishResolve(tx: U64)
      requires Valid()
      modifies this
      ensures View() == FinishResolve(old(View()), tx)
      ensures Valid()
    {
      FinishResolveKeeps(View(), tx);
      ResolveChannelsDrop(resolves, tx);
      if tx !in resolves {
        return;
      }
      var pending := resolves[tx];
      resolves := resolves - {tx};
      BytesLeIsTotal();
      if !pending.responded {
        Answer(pending.channel, Failed(Timeout));
      } else {
        Answer(pending.channel, ResolvedTo(Listed(pending.values, BytesLe)));
      }
    }

    method HandlePrepared(from: SocketAddr, tx: U64, addr: SocketAddr, token: Token)
      requires Valid()
      modifies this
      ensures View() == OnPrepared(old(View()), from, tx, addr, token)
      ensures Valid()
    {
      OnPreparedKeeps(View(), from, tx, addr, token);
      if tx !in publishes {
        return;
      }
      var pending := publishes[tx];
      if from !in pending.awaiting || from in pending.prepared {
        return;
      }
      publishes := publishes[tx := pending.(prepared := pending.prepared + {from})];
      var value := pending.valueFor(addr);
      if |value| > MAX_VALUE_LEN {
        var refused := publishes[tx].(tooLarge := true, awaiting := pending.awaiting - {from});
        UpdatePublishKeeps(old(View()), tx, refused, outbox);
        publishes := publishes[tx := refused];
        assert publishes == old(publishes)[tx := refused];
        if refused.awaiting == {} {
          DoFinishPublish(tx);
        }
        return;
      }
      Send(from, PutData(tx, token, value));
    }

    method HandleStored(from: SocketAddr, tx: U64, addr: SocketAddr)
      requires Valid()
      modifies this
      ensures View() == OnStored(old(View()), from, tx, addr)
      ensures Valid()
    {
      OnStoredKeeps(View(), from, tx, addr);
      if tx !in publishes {
        return;
      }
      var pending := publishes[tx];
      if from !in pending.awaiting {
        return;
      }
      var confirmed := pending.(awaiting := pending.awaiting - {from}, stored := pending.stored + {addr});
      UpdatePublishKeeps(View(), tx, confirmed, outbox);
      publishes := publishes[tx := confirmed];
      if confirmed.awaiting == {} {
        DoFinishPublish(tx);
      }
    }

    method HandleValue(from: SocketAddr, tx: U64, addr: SocketAddr, found: Option<Bytes>)
      requires Valid()
      modifies this
      ensures View() == OnValue(old(View()), from, tx, addr, found)
      ensures Valid()
    {
      OnValueKeeps(View(), from, tx, addr, found);
      if tx !in resolves {
        return;
      }
      var pending := resolves[tx];
      if pending.addr != addr || from !in pending.awaiting {
        return;
      }
      var heard := pending.(awaiting := pending.awaiting - {from}, responded := true);
      var accepted := false;
      if found.Some? && |found.value| <= MAX_VALUE_LEN {
        accepted := pending.accept.Some? && pending.accept.value(found.value);
        heard := heard.(values := heard.values + {found.value});
      }
      UpdateResolveKeeps(View(), tx, heard);
      resolves := resolves[tx := heard];
      if accepted || heard.awaiting == {} {
        DoFinishResolve(tx);
      }
    }

    method HandlePacket(data: Bytes, from: SocketAddr)
      requires Valid()
      modifies this
      ensures View() == OnPacket(old(View()), from, data)
      ensures Valid()
    {
      var decoded := Decode(data);
      if decoded.None? || !decoded.value.FromServer? {
        return;
      }
      match decoded.value.response {
        case Prepared(tx, addr, token) => HandlePrepared(from, tx, addr, token);
        case Stored(tx, addr) => HandleStored(from, tx, addr);
        case Value(tx, addr, found) => HandleValue(from, tx, addr, found);
      }
    }

    /** When the timer of the loop is set to. */
    method NextDeadline() returns (next: Option<nat>)
      ensures IsNextDeadline(View(), next)
    {
      next := None;
      var deadlines := (set tx | tx in publishes :: publishes[tx].deadline) +
                       (set tx | tx in resolves :: resolves[tx].deadline);
      ghost var all := deadlines;
      while deadlines != {}
        invariant deadlines <= all
        invariant if next.None? then all - deadlines == {}
                  else next.value in all && forall d :: d in all - deadlines ==> next.value <= d
        decreases deadlines
      {
        var d :| d in deadlines;
        assert all - (deadlines - {d}) == all - deadlines + {d};
        next := Some(if next.None? then d else Min(next.value, d));
        deadlines := deadlines - {d};
      }
      assert all - deadlines == all;
    }

    method FlushPublishes(now: nat)
      requires Valid()
      modifies this
      ensures Valid() && Ended(old(View()), View(), ExpiredPublishes(old(View()), now), {})
    {
      ghost var s := View();
      var due := set tx | tx in publishes && publishes[tx].deadline <= now;
      ghost var all := due;
      while due != {}
        invariant Valid() && due <= all && Ended(s, View(), all - due, {})
        decreases due
      {
        var tx :| tx in due;
        EndPublish(s, View(), all - due, {}, tx);
        DoFinishPublish(tx);
        assert all - (due - {tx}) == all - due + {tx};
        due := due - {tx};
      }
      assert all - due == all;
    }

    method FlushResolves(now: nat, ghost s: State, ghost ps: set<U64>)
      requires Valid() && Consistent(s) && Ended(s, View(), ps, {})
      modifies this
      ensures Valid() && Ended(s, View(), ps, ExpiredResolves(s, now))
    {
      var due := set tx | tx in resolves && resolves[tx].deadline <= now;
      ghost var all := due;
      assert resolves == s.resolves && all == ExpiredResolves(s, now);
      while due != {}
        invariant Valid() && due <= all && Ended(s, View(), ps, all - due)
        decreases due
      {
        var tx :| tx in due;
        EndResolve(s, View(), ps, all - due, tx);
        DoFinishResolve(tx);
        assert all - (due - {tx}) == all - due + {tx};
        due := due - {tx};
      }
      assert all - due == all;
    }

    /** Answers everything that is due, each transaction once and with its own answer, and nothing else. */
    method FlushExpired(now: nat)
      requires Valid()
      modifies this
      ensures Valid() && Flushed(old(View()), View(), now)
    {
      ghost var s := View();
      FlushPublishes(now);
      FlushResolves(now, s, ExpiredPublishes(s, now));
    }
  }

  lemma ToAllGrows(servers: set<SocketAddr>, server: SocketAddr, data: Bytes)
    requires server !in servers
    ensures ToAll(servers + {server}, data) == ToAll(servers, data) + multiset{Datagram(server, data)}
  {
    var small := set s | s in servers :: Datagram(s, data);
    var big := set s | s in servers + {server} :: Datagram(s, data);
    assert big == small + {Datagram(server, data)};
    assert Datagram(server, data) !in small;
  }
}
