/**
 The client actor's loop with a clock: it takes commands and packets, and its
 timer flushes what is due.

 The timer may be late. `slack` bounds by how much, since packets may keep the
 loop busy; whatever it is, every command is answered once it has passed.
 */
module Deadlines {
  import opened Base
  import opened Wire
  import opened Client
  import opened ClientRuns

  /** `dueAt` records the deadline each command was given. */
  datatype Moment = Moment(trace: Trace, clock: nat, dueAt: map<Channel, nat>)

  // ----- A flush is a run of expiries -----

  ghost function After(t: Trace, events: seq<Event>): Trace {
    if events == [] then t else Next(After(t, events[..|events| - 1]), events[|events| - 1])
  }

  ghost predicate Possible(t: Trace, events: seq<Event>) {
    events == [] ||
    (Possible(t, events[..|events| - 1]) && Enabled(After(t, events[..|events| - 1]), events[|events| - 1]))
  }

  predicate ExpiresAt(e: Event, now: nat) {
    (e.PublishExpired? || e.ResolveExpired?) && e.now == now
  }

  ghost predicate ExpiriesAt(events: seq<Event>, now: nat) {
    forall i :: 0 <= i < |events| ==> ExpiresAt(events[i], now)
  }

  ghost function Channels(s: State, ps: set<U64>, rs: set<U64>): set<Channel>
    requires ps <= s.publishes.Keys && rs <= s.resolves.Keys
  {
    (set tx | tx in ps :: s.publishes[tx].channel) + (set tx | tx in rs :: s.resolves[tx].channel)
  }

  /** Of the history, only that these transactions expired is new. */
  ghost predicate Marked(t: Trace, u: Trace, ps: set<U64>, rs: set<U64>) {
    && ps <= t.state.publishes.Keys && rs <= t.state.resolves.Keys
    && u == t.(state := u.state, expired := t.expired + Channels(t.state, ps, rs))
  }

  ghost predicate FlushedTo(t: Trace, u: Trace, now: nat) {
    && Flushed(t.state, u.state, now)
    && Marked(t, u, ExpiredPublishes(t.state, now), ExpiredResolves(t.state, now))
  }

  lemma OneMore(t: Trace, events: seq<Event>, e: Event, now: nat)
    requires Possible(t, events) && ExpiriesAt(events, now)
    requires Enabled(After(t, events), e) && ExpiresAt(e, now)
    ensures Possible(t, events + [e]) && ExpiriesAt(events + [e], now)
    ensures After(t, events + [e]) == Next(After(t, events), e)
  {
    assert (events + [e])[..|events|] == events;
  }

  lemma MarkPublish(t: Trace, u: Trace, ps: set<U64>, tx: U64, now: nat)
    requires Marked(t, u, ps, {}) && tx in t.state.publishes && u.state.publishes == t.state.publishes - ps && tx !in ps
    ensures var v := Next(u, PublishExpired(tx, now));
            Marked(t, v, ps + {tx}, {}) && v.state == FinishPublish(u.state, tx)
  {
    assert Channels(t.state, ps + {tx}, {}) == Channels(t.state, ps, {}) + {t.state.publishes[tx].channel};
  }

  lemma MarkResolve(t: Trace, u: Trace, ps: set<U64>, rs: set<U64>, tx: U64, now: nat)
    requires Marked(t, u, ps, rs) && tx in t.state.resolves && u.state.resolves == t.state.resolves - rs && tx !in rs
    ensures var v := Next(u, ResolveExpired(tx, now));
            Marked(t, v, ps, rs + {tx}) && v.state == FinishResolve(u.state, tx)
  {
    assert Channels(t.state, ps, rs + {tx}) == Channels(t.state, ps, rs) + {t.state.resolves[tx].channel};
  }

  lemma NoneEnded(s: State)
    ensures Ended(s, s, {}, {})
  {
    assert s.publishes - {} == s.publishes && s.resolves - {} == s.resolves;
  }

  lemma {:induction false} ExpirePublishes(t: Trace, ps: set<U64>, now: nat) returns (events: seq<Event>)
    requires Consistent(t.state) && ps <= ExpiredPublishes(t.state, now)
    ensures Possible(t, events) && ExpiriesAt(events, now)
    ensures Ended(t.state, After(t, events).state, ps, {}) && Marked(t, After(t, events), ps, {})
    decreases ps
  {
    if ps == {} {
      events := [];
      NoneEnded(t.state);
      assert t.expired + Channels(t.state, {}, {}) == t.expired;
    } else {
      var tx :| tx in ps;
      var rest := ExpirePublishes(t, ps - {tx}, now);
      var u := After(t, rest);
      MarkPublish(t, u, ps - {tx}, tx, now);
      EndPublish(t.state, u.state, ps - {tx}, {}, tx);
      assert ps - {tx} + {tx} == ps;
      OneMore(t, rest, PublishExpired(tx, now), now);
      events := rest + [PublishExpired(tx, now)];
    }
  }

  lemma {:induction false} ExpireResolves(t: Trace, ps: set<U64>, rs: set<U64>, now: nat) returns (events: seq<Event>)
    requires Consistent(t.state) && ps <= ExpiredPublishes(t.state, now) && rs <= ExpiredResolves(t.state, now)
    ensures Possible(t, events) && ExpiriesAt(events, now)
    ensures Ended(t.state, After(t, events).state, ps, rs) && Marked(t, After(t, events), ps, rs)
    decreases rs
  {
    if rs == {} {
      events := ExpirePublishes(t, ps, now);
    } else {
      var tx :| tx in rs;
      var rest := ExpireResolves(t, ps, rs - {tx}, now);
      var u := After(t, rest);
      MarkResolve(t, u, ps, rs - {tx}, tx, now);
      EndResolve(t.state, u.state, ps, rs - {tx}, tx);
      assert rs - {tx} + {tx} == rs;
      OneMore(t, rest, ResolveExpired(tx, now), now);
      events := rest + [ResolveExpired(tx, now)];
    }
  }

  /** A flush is what the deadlines of a run do, one after the other, to exactly what is due. */
  lemma FlushIsARun(t: Trace, u: Trace, now: nat) returns (events: seq<Event>)
    requires Consistent(t.state) && FlushedTo(t, u, now)
    ensures Possible(t, events) && ExpiriesAt(events, now) && After(t, events) == u
  {
    var (ps, rs) := (ExpiredPublishes(t.state, now), ExpiredResolves(t.state, now));
    events := ExpireResolves(t, ps, rs, now);
    EndedDetermines(t.state, u.state, After(t, events).state, ps, rs);
  }

  lemma {:induction false} PossibleKeepsInv(t: Trace, events: seq<Event>)
    requires Inv(t) && Possible(t, events)
    ensures Inv(After(t, events))
  {
    if events != [] {
      PossibleKeepsInv(t, events[..|events| - 1]);
      NextKeepsInv(After(t, events[..|events| - 1]), events[|events| - 1]);
    }
  }

  // ----- The loop -----

  function DueAt(m: Moment, e: Event): map<Channel, nat> {
    if e.Commanded? then m.dueAt + (map c | c in Opened(e.command) :: e.deadline) else m.dueAt
  }

  /** A command, which gets the deadline of its moment, or a packet. */
  ghost predicate Takes(m: Moment, n: Moment, e: Event, timeout: nat) {
    && (e.Delivered? || (e.Commanded? && e.deadline == m.clock + timeout))
    && Enabled(m.trace, e)
    && n == m.(trace := Next(m.trace, e), dueAt := DueAt(m, e))
  }

  ghost predicate Flushes(m: Moment, n: Moment) {
    && (exists next: nat :: IsNextDeadline(m.trace.state, Some(next)) && next <= m.clock)
    && FlushedTo(m.trace, n.trace, m.clock)
    && n == m.(trace := n.trace)
  }

  /** Time passes, until at most `slack` after the timer is due. */
  ghost predicate Waits(m: Moment, n: Moment, slack: nat) {
    && m.clock <= n.clock && n == m.(clock := n.clock)
    && (exists next: Option<nat> ::
          IsNextDeadline(m.trace.state, next) && (next.Some? ==> n.clock <= next.value + slack))
  }

  ghost predicate Step(m: Moment, n: Moment, timeout: nat, slack: nat) {
    Flushes(m, n) || Waits(m, n, slack) || exists e :: Takes(m, n, e, timeout)
  }

  ghost predicate TimedAt(run: seq<Moment>, i: nat, timeout: nat, slack: nat) {
    i + 1 < |run| && Step(run[i], run[i + 1], timeout, slack)
  }

  ghost predicate TimedRun(run: seq<Moment>, timeout: nat, slack: nat) {
    && run != [] && run[0].trace == START && run[0].dueAt == map[]
    && (forall i {:trigger TimedAt(run, i, timeout, slack)} ::
          0 <= i < |run| - 1 ==> TimedAt(run, i, timeout, slack))
  }

  /** What is pending carries the deadline its command was given, and that is not long past. */
  ghost predicate OnTime(s: State, dueAt: map<Channel, nat>, clock: nat, slack: nat) {
    && (forall tx :: tx in s.publishes ==>
          && s.publishes[tx].channel in dueAt && dueAt[s.publishes[tx].channel] == s.publishes[tx].deadline
          && clock <= s.publishes[tx].deadline + slack)
    && (forall tx :: tx in s.resolves ==>
          && s.resolves[tx].channel in dueAt && dueAt[s.resolves[tx].channel] == s.resolves[tx].deadline
          && clock <= s.resolves[tx].deadline + slack)
  }

  ghost predicate MomentOk(m: Moment, slack: nat) {
    Inv(m.trace) && m.dueAt.Keys == m.trace.issued && OnTime(m.trace.state, m.dueAt, m.clock, slack)
  }

  /** A reply never moves a deadline or a channel. */
  ghost predicate KeepsDeadlines(s: State, r: State) {
    && (forall tx :: tx in r.publishes ==>
          && tx in s.publishes && r.publishes[tx].channel == s.publishes[tx].channel
          && r.publishes[tx].deadline == s.publishes[tx].deadline)
    && (forall tx :: tx in r.resolves ==>
          && tx in s.resolves && r.resolves[tx].channel == s.resolves[tx].channel
          && r.resolves[tx].deadline == s.resolves[tx].deadline)
  }

  lemma PreparedKeepsDeadlines(s: State, from: SocketAddr, tx: U64, addr: SocketAddr, token: Token)
    ensures KeepsDeadlines(s, OnPrepared(s, from, tx, addr, token))
  {
  }

  lemma StoredKeepsDeadlines(s: State, from: SocketAddr, tx: U64, addr: SocketAddr)
    ensures KeepsDeadlines(s, OnStored(s, from, tx, addr))
  {
  }

  lemma ValueKeepsDeadlines(s: State, from: SocketAddr, tx: U64, addr: SocketAddr, found: Option<Bytes>)
    ensures KeepsDeadlines(s, OnValue(s, from, tx, addr, found))
  {
  }

  lemma ReplyKeepsDeadlines(s: State, from: SocketAddr, response: Response)
    ensures KeepsDeadlines(s, OnResponse(s, from, response))
  {
    match response
    case Prepared(tx, addr, token) => PreparedKeepsDeadlines(s, from, tx, addr, token);
    case Stored(tx, addr) => StoredKeepsDeadlines(s, from, tx, addr);
    case Value(tx, addr, found) => ValueKeepsDeadlines(s, from, tx, addr, found);
  }

  lemma ReplyOnTime(m: Moment, from: SocketAddr, response: Response, slack: nat)
    requires OnTime(m.trace.state, m.dueAt, m.clock, slack)
    ensures var u := WithReply(m.trace, from, response);
            OnTime(u.state, m.dueAt, m.clock, slack) && u.issued == m.trace.issued
  {
    ReplyKeepsDeadlines(m.trace.state, from, response);
    ReplyRecords(m.trace, from, response);
  }

  /** A command adds at most one transaction, on its own channel and with its own deadline. */
  ghost predicate AddsOne(s: State, r: State, own: set<Channel>, tx: U64, deadline: nat) {
    && (|| r.publishes == s.publishes
        || exists p :: r.publishes == s.publishes[tx := p] && p.channel in own && p.deadline == deadline)
    && (|| r.resolves == s.resolves
        || exists p :: r.resolves == s.resolves[tx := p] && p.channel in own && p.deadline == deadline)
  }

  lemma CommandAddsOne(s: State, command: Command, tx: U64, deadline: nat)
    ensures AddsOne(s, OnCommand(s, command, tx, deadline), Opened(command), tx, deadline)
  {
  }

  lemma AddsOneOnTime(
      s: State, r: State, own: set<Channel>, tx: U64, dueAt: map<Channel, nat>, clock: nat, deadline: nat,
      slack: nat)
    requires OnTime(s, dueAt, clock, slack) && AddsOne(s, r, own, tx, deadline)
    requires clock <= deadline && own !! dueAt.Keys
    ensures OnTime(r, dueAt + (map c | c in own :: deadline), clock, slack)
  {
  }

  lemma TakesOnTime(m: Moment, n: Moment, e: Event, timeout: nat, slack: nat)
    requires OnTime(m.trace.state, m.dueAt, m.clock, slack) && m.dueAt.Keys == m.trace.issued
    requires Takes(m, n, e, timeout)
    ensures OnTime(n.trace.state, n.dueAt, n.clock, slack) && n.dueAt.Keys == n.trace.issued
  {
    match e
    case Delivered(from, data) =>
      if ResponseIn(data).Some? {
        ReplyOnTime(m, from, ResponseIn(data).value, slack);
      }
    case Commanded(command, tx, deadline) =>
      var s := m.trace.state;
      CommandAddsOne(s, command, tx, deadline);
      AddsOneOnTime(
        s, OnCommand(s, command, tx, deadline), Opened(command), tx, m.dueAt, m.clock, deadline, slack);
  }

  lemma TakesKeeps(m: Moment, n: Moment, e: Event, timeout: nat, slack: nat)
    requires MomentOk(m, slack) && Takes(m, n, e, timeout)
    ensures MomentOk(n, slack)
  {
    NextKeepsInv(m.trace, e);
    TakesOnTime(m, n, e, timeout, slack);
  }

  lemma FlushesKeeps(m: Moment, n: Moment, slack: nat)
    requires MomentOk(m, slack) && Flushes(m, n)
    ensures MomentOk(n, slack)
  {
    var events := FlushIsARun(m.trace, n.trace, m.clock);
    PossibleKeepsInv(m.trace, events);
  }

  lemma WaitsKeeps(m: Moment, n: Moment, slack: nat)
    requires MomentOk(m, slack) && Waits(m, n, slack)
    ensures MomentOk(n, slack)
  {
    var s := m.trace.state;
    assert forall tx :: tx in s.publishes ==> s.publishes[tx].deadline in Deadlines(s);
    assert forall tx :: tx in s.resolves ==> s.resolves[tx].deadline in Deadlines(s);
  }

  lemma StepKeeps(m: Moment, n: Moment, timeout: nat, slack: nat)
    requires MomentOk(m, slack) && Step(m, n, timeout, slack)
    ensures MomentOk(n, slack)
  {
    if Flushes(m, n) {
      FlushesKeeps(m, n, slack);
    } else if Waits(m, n, slack) {
      WaitsKeeps(m, n, slack);
    } else {
      var e :| Takes(m, n, e, timeout);
      TakesKeeps(m, n, e, timeout, slack);
    }
  }

  lemma {:induction false} TimedRunKeeps(run: seq<Moment>, timeout: nat, slack: nat, i: nat)
    requires TimedRun(run, timeout, slack) && i < |run|
    ensures MomentOk(run[i], slack)
  {
    if i == 0 {
      StartInv();
    } else {
      TimedRunKeeps(run, timeout, slack, i - 1);
      assert TimedAt(run, i - 1, timeout, slack);
      StepKeeps(run[i - 1], run[i], timeout, slack);
    }
  }

  // ----- What it promises -----

  /** Right after a flush every command that is due is answered; past all deadlines, that is every command. */
  lemma FlushAnswersAllDue(run: seq<Moment>, timeout: nat, slack: nat, i: nat)
    requires TimedRun(run, timeout, slack) && i + 1 < |run| && Flushes(run[i], run[i + 1])
    ensures var n := run[i + 1];
            && n.dueAt.Keys == n.trace.issued
            && (forall c :: c in n.dueAt && n.dueAt[c] <= n.clock ==> c in n.trace.state.answers)
            && ((forall c :: c in n.dueAt ==> n.dueAt[c] <= n.clock) ==>
                  n.trace.state.answers.Keys == n.trace.issued)
  {
    TimedRunKeeps(run, timeout, slack, i);
    TimedRunKeeps(run, timeout, slack, i + 1);
    var n := run[i + 1];
    forall c | c in n.dueAt && n.dueAt[c] <= n.clock ensures c in n.trace.state.answers {
      assert c in Accounted(n.trace.state);
    }
  }

  /** A flush is possible whenever the timer is due. */
  lemma TimerCanFlush(m: Moment, next: nat) returns (n: Moment)
    requires Inv(m.trace) && IsNextDeadline(m.trace.state, Some(next)) && next <= m.clock
    ensures Flushes(m, n)
  {
    var s := m.trace.state;
    var events := ExpireResolves(m.trace, ExpiredPublishes(s, m.clock), ExpiredResolves(s, m.clock), m.clock);
    n := m.(trace := After(m.trace, events));
  }

  /** The command `c` keeps its deadline, and its answer once it has one. */
  ghost predicate Stays(m: Moment, n: Moment, c: Channel) {
    && m.clock <= n.clock
    && (c in m.dueAt ==> c in n.dueAt && n.dueAt[c] == m.dueAt[c])
    && (c in m.dueAt && c in m.trace.state.answers ==>
          c in n.trace.state.answers && n.trace.state.answers[c] == m.trace.state.answers[c])
  }

  lemma StepStays(m: Moment, n: Moment, timeout: nat, slack: nat, c: Channel)
    requires MomentOk(m, slack) && Step(m, n, timeout, slack)
    ensures Stays(m, n, c)
  {
    if !Flushes(m, n) && !Waits(m, n, slack) {
      var e :| Takes(m, n, e, timeout);
      NextKeepsAnswers(m.trace, e);
    }
  }

  lemma StaysAt(run: seq<Moment>, timeout: nat, slack: nat, i: nat, c: Channel)
    requires TimedRun(run, timeout, slack) && i + 1 < |run|
    ensures Stays(run[i], run[i + 1], c)
  {
    TimedRunKeeps(run, timeout, slack, i);
    assert TimedAt(run, i, timeout, slack);
    StepStays(run[i], run[i + 1], timeout, slack, c);
  }

  lemma {:induction false} AnswersStayOn(run: seq<Moment>, timeout: nat, slack: nat, i: nat, j: nat, c: Channel)
    requires TimedRun(run, timeout, slack) && i <= j < |run|
    ensures Stays(run[i], run[j], c)
    decreases j
  {
    if i < j {
      AnswersStayOn(run, timeout, slack, i, j - 1, c);
      StaysAt(run, timeout, slack, j - 1, c);
    }
  }

  /** A pending transaction answers on `c`. */
  ghost predicate Owed(s: State, c: Channel) {
    || (exists tx :: tx in s.publishes && s.publishes[tx].channel == c)
    || (exists tx :: tx in s.resolves && s.resolves[tx].channel == c)
  }

  /**
   Every command is answered exactly once: until then one pending transaction
   owes its answer, once its deadline and the lateness of the timer have passed
   it has its answer, and no answer ever changes.
   */
  lemma AnsweredExactlyOnce(
      run: seq<Moment>, timeout: nat, slack: nat, i: nat, j: nat, k: nat, c: Channel)
    requires TimedRun(run, timeout, slack) && i <= j <= k < |run| && c in run[i].trace.issued
    ensures c in run[i].dueAt
    ensures c !in run[j].trace.state.answers <==> Owed(run[j].trace.state, c)
    ensures run[j].clock > run[i].dueAt[c] + slack ==> c in run[j].trace.state.answers
    ensures c in run[j].trace.state.answers ==>
              c in run[k].trace.state.answers && run[k].trace.state.answers[c] == run[j].trace.state.answers[c]
  {
    TimedRunKeeps(run, timeout, slack, i);
    AnswersStayOn(run, timeout, slack, i, j, c);
    AnswersStayOn(run, timeout, slack, j, k, c);
    OwedOrAnswered(run, timeout, slack, j, c);
  }

  lemma OwedOrAnswered(run: seq<Moment>, timeout: nat, slack: nat, j: nat, c: Channel)
    requires TimedRun(run, timeout, slack) && j < |run| && c in run[j].dueAt
    ensures c !in run[j].trace.state.answers <==> Owed(run[j].trace.state, c)
    ensures run[j].clock > run[j].dueAt[c] + slack ==> c in run[j].trace.state.answers
  {
    TimedRunKeeps(run, timeout, slack, j);
    var s := run[j].trace.state;
    assert c in Accounted(s);
    assert forall tx :: tx in s.publishes ==> s.publishes[tx].channel in PublishChannels(s.publishes);
    assert forall tx :: tx in s.resolves ==> s.resolves[tx].channel in ResolveChannels(s.resolves);
  }

  // ----- Every timed run is a run -----

  lemma {:induction false} Extended(traces: seq<Trace>, events: seq<Event>, more: seq<Event>)
    returns (longer: seq<Trace>)
    requires Run(traces, events) && Possible(traces[|events|], more)
    ensures Run(longer, events + more) && longer[|events + more|] == After(traces[|events|], more)
    decreases |more|
  {
    if more == [] {
      longer := traces;
      assert events + more == events;
    } else {
      var front := more[..|more| - 1];
      longer := Extended(traces, events, front);
      var u := After(traces[|events|], more);
      RunExtends(longer, events + front, more[|more| - 1], u);
      longer := longer + [u];
      assert events + more == events + front + [more[|more| - 1]];
    }
  }

  lemma StepIsARun(
      traces: seq<Trace>, events: seq<Event>, m: Moment, n: Moment, timeout: nat, slack: nat)
    returns (longer: seq<Trace>, more: seq<Event>)
    requires Run(traces, events) && traces[|events|] == m.trace && Consistent(m.trace.state)
    requires Step(m, n, timeout, slack)
    ensures Run(longer, more) && longer[|more|] == n.trace
  {
    if Flushes(m, n) {
      var expiries := FlushIsARun(m.trace, n.trace, m.clock);
      longer := Extended(traces, events, expiries);
      more := events + expiries;
    } else if Waits(m, n, slack) {
      longer, more := traces, events;
    } else {
      var e :| Takes(m, n, e, timeout);
      RunExtends(traces, events, e, n.trace);
      longer, more := traces + [n.trace], events + [e];
    }
  }

  lemma StepIsARunAt(
      run: seq<Moment>, timeout: nat, slack: nat, i: nat, traces: seq<Trace>, events: seq<Event>)
    returns (longer: seq<Trace>, more: seq<Event>)
    requires TimedRun(run, timeout, slack) && i + 1 < |run|
    requires Run(traces, events) && traces[|events|] == run[i].trace
    ensures Run(longer, more) && longer[|more|] == run[i + 1].trace
  {
    TimedRunKeeps(run, timeout, slack, i);
    assert TimedAt(run, i, timeout, slack);
    longer, more := StepIsARun(traces, events, run[i], run[i + 1], timeout, slack);
  }

  /** What holds in every run of the client therefore holds at every moment of the loop. */
  lemma {:induction false} TimedRunIsARun(run: seq<Moment>, timeout: nat, slack: nat, i: nat)
    returns (traces: seq<Trace>, events: seq<Event>)
    requires TimedRun(run, timeout, slack) && i < |run|
    ensures Run(traces, events) && traces[|events|] == run[i].trace
  {
    if i == 0 {
      traces, events := [START], [];
    } else {
      traces, events := TimedRunIsARun(run, timeout, slack, i - 1);
      traces, events := StepIsARunAt(run, timeout, slack, i - 1, traces, events);
    }
  }
}
