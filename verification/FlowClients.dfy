/** Many clients over one hub: what each of them sees is the replay of its own flow, whatever the others do. */
module FlowClients {
  import opened Options
  import opened RunFlow
  import opened FlowHub

  /** A client of one flow; it holds a handle while it is connected. */
  datatype Client = Client(flowId: FlowId, start: nat, conn: Conn, handle: Option<Handle>)

  datatype System = System(hub: HubState, logs: map<FlowId, seq<Event>>, clients: map<nat, Client>, nextListener: nat)

  /** Somebody emits an event of a flow, or one client's connection moves. */
  datatype Move = Publish(flowId: FlowId, payload: string, gap: nat) | Of(client: nat, step: Step)

  function LogOf(y: System, f: FlowId): seq<Event> { if f in y.logs then y.logs[f] else [] }

  /** A client's connection over the durable log of its flow. */
  function View(y: System, c: nat): Conn
    requires c in y.clients
  {
    y.clients[c].conn.(log := LogOf(y, y.clients[c].flowId))
  }

  /** What the listener of a connection does with an event. */
  function Heard(s: Conn, e: Event): Conn {
    if s.phase == Live then s.(wire := s.wire + [e]) else s.(liveBuffer := s.liveBuffer + [e])
  }

  predicate Listens(y: System, c: nat, f: FlowId)
    requires c in y.clients
  {
    y.clients[c].handle.Some? && y.clients[c].handle.value.listener in Reached(y.hub, f)
  }

  /** The event is logged, and handed to whomever the hub reaches. */
  function Published(y: System, f: FlowId, e: Event): System {
    y.(logs := y.logs[f := LogOf(y, f) + [e]],
       clients := map c | c in y.clients ::
         if Listens(y, c, f) then y.clients[c].(conn := Heard(y.clients[c].conn, e)) else y.clients[c])
  }

  function Moved(y: System, m: Move): System {
    match m
    case Publish(f, payload, gap) => Published(y, f, Event(Head(LogOf(y, f)) + 1 + gap, payload))
    case Of(c, step) =>
      if c !in y.clients || step.Emit? then y
      else
        var client := y.clients[c];
        var after := client.(conn := Next(client.start, View(y, c), step));
        match step
        case Connect =>
          if client.handle.Some? then y
          else
            var (hub, u) := Joined(y.hub, client.flowId, y.nextListener);
            y.(hub := hub, clients := y.clients[c := after.(handle := Some(u))], nextListener := y.nextListener + 1)
        case Disconnect =>
          y.(hub := if client.handle.Some? then Left(y.hub, client.handle.value) else y.hub,
             clients := y.clients[c := after.(handle := None)])
        case _ => y.(clients := y.clients[c := after])
  }

  function Run(y: System, moves: seq<Move>): System {
    if moves == [] then y else Moved(Run(y, moves[..|moves| - 1]), moves[|moves| - 1])
  }

  // ---- the hub and its clients ----

  function HandlesOf(clients: map<nat, Client>): set<Handle> {
    set c | c in clients && clients[c].handle.Some? :: clients[c].handle.value
  }

  /** A client holds a handle of its own, for its own flow, exactly while it is connected. */
  ghost predicate Holding(clients: map<nat, Client>, nextListener: nat) {
    && (forall c | c in clients :: clients[c].handle.Some? <==> clients[c].conn.phase != Detached)
    && (forall c | c in clients && clients[c].handle.Some? ::
          clients[c].handle.value.flowId == clients[c].flowId && clients[c].handle.value.listener < nextListener)
    && forall c, d | c in clients && d in clients && c != d && clients[c].handle.Some? && clients[d].handle.Some? ::
         clients[c].handle.value.listener != clients[d].handle.value.listener
  }

  ghost predicate Connected(y: System) { Agrees(y.hub, HandlesOf(y.clients)) && Holding(y.clients, y.nextListener) }

  /** A connected client hears its own flow and no other; one that is not hears nothing. */
  lemma HearsItsFlow(y: System, c: nat, f: FlowId)
    requires Connected(y) && c in y.clients
    ensures Listens(y, c, f) <==> f == y.clients[c].flowId && y.clients[c].conn.phase != Detached
  {
    var live := HandlesOf(y.clients);
    PublishReachesItsFlow(y.hub, live, f);
    if y.clients[c].handle.Some? {
      var u := y.clients[c].handle.value;
      assert u in live;
      assert forall v | v in live && v.listener == u.listener :: v == u;
      hide Agrees;
      assert u.flowId == f ==> u.listener in ListenersOf(live, f);
    }
  }

  lemma SameHandles(a: map<nat, Client>, b: map<nat, Client>)
    requires forall c :: c in a <==> c in b
    requires forall c | c in a :: a[c].handle == b[c].handle
    ensures HandlesOf(a) == HandlesOf(b)
  {
    forall u ensures u in HandlesOf(a) <==> u in HandlesOf(b) {
      if u in HandlesOf(a) {
        var c :| c in a && a[c].handle == Some(u);
        assert b[c].handle == Some(u);
      }
      if u in HandlesOf(b) {
        var c :| c in b && b[c].handle == Some(u);
        assert a[c].handle == Some(u);
      }
    }
  }

  lemma HandlesMore(clients: map<nat, Client>, c: nat, after: Client)
    requires c in clients && clients[c].handle.None? && after.handle.Some?
    ensures HandlesOf(clients[c := after]) == HandlesOf(clients) + {after.handle.value}
  {
    var next := clients[c := after];
    forall u ensures u in HandlesOf(next) <==> u in HandlesOf(clients) || after.handle == Some(u) {
      if u in HandlesOf(clients) {
        var d :| d in clients && clients[d].handle == Some(u);
        assert next[d].handle == Some(u);
      }
      if after.handle == Some(u) { assert next[c].handle == Some(u); }
    }
  }

  /** Who holds a handle of their own can give it up. */
  lemma HandlesLess(clients: map<nat, Client>, nextListener: nat, c: nat, after: Client)
    requires Holding(clients, nextListener) && c in clients && clients[c].handle.Some? && after.handle.None?
    ensures HandlesOf(clients[c := after]) == HandlesOf(clients) - {clients[c].handle.value}
  {
    var next := clients[c := after];
    forall u ensures u in HandlesOf(next) <==> u in HandlesOf(clients) && u != clients[c].handle.value {
      if u in HandlesOf(clients) && u != clients[c].handle.value {
        var d :| d in clients && clients[d].handle == Some(u);
        assert next[d].handle == Some(u);
      }
    }
  }

  lemma MoveKeepsConnected(y: System, m: Move)
    requires Connected(y)
    ensures Connected(Moved(y, m))
  {
    hide *;
    match m {
      case Publish(f, payload, gap) => PublishKeeps(y, f, payload, gap);
      case Of(c, Connect) => ConnectKeeps(y, c);
      case Of(c, Disconnect) => DisconnectKeeps(y, c);
      case Of(c, step) => LocalKeeps(y, c, step);
    }
  }

  lemma PublishKeeps(y: System, f: FlowId, payload: string, gap: nat)
    requires Connected(y)
    ensures Connected(Moved(y, Publish(f, payload, gap)))
  {
    hide Agrees, Listens, Head, HandlesOf;
    SameHandles(y.clients, Moved(y, Publish(f, payload, gap)).clients);
  }

  lemma ConnectKeeps(y: System, c: nat)
    requires Connected(y)
    ensures Connected(Moved(y, Of(c, Connect)))
  {
    if c in y.clients && y.clients[c].handle.None? {
      var flowId := y.clients[c].flowId;
      assert forall v | v in HandlesOf(y.clients) :: v.listener != y.nextListener;
      assert Joined(y.hub, flowId, y.nextListener).1.flowId == flowId && Joined(y.hub, flowId, y.nextListener).1.listener == y.nextListener;
      hide Agrees, HandlesOf, Joined, After, Head;
      SubscribingAgrees(y.hub, HandlesOf(y.clients), flowId, y.nextListener);
      HandlesMore(y.clients, c, Moved(y, Of(c, Connect)).clients[c]);
    }
  }

  lemma DisconnectKeeps(y: System, c: nat)
    requires Connected(y)
    ensures Connected(Moved(y, Of(c, Disconnect)))
  {
    if c in y.clients {
      var after := Moved(y, Of(c, Disconnect)).clients[c];
      assert after.handle.None? && after.conn.phase == Detached && after.flowId == y.clients[c].flowId;
      StillHolding(y.clients, y.nextListener, c, after);
      if y.clients[c].handle.Some? {
        assert y.clients[c].handle.value in HandlesOf(y.clients);
        hide Agrees, HandlesOf, Holding, Left, After, Head;
        UnsubscribingAgrees(y.hub, HandlesOf(y.clients), y.clients[c].handle.value);
        HandlesLess(y.clients, y.nextListener, c, after);
      } else {
        hide Agrees, HandlesOf, Holding, Left, After, Head;
        SameHandles(y.clients, Moved(y, Of(c, Disconnect)).clients);
      }
    }
  }

  lemma StillHolding(clients: map<nat, Client>, nextListener: nat, c: nat, after: Client)
    requires Holding(clients, nextListener) && c in clients
    requires after.handle.None? && after.conn.phase == Detached && after.flowId == clients[c].flowId
    ensures Holding(clients[c := after], nextListener)
  {
  }

  lemma LocalKeeps(y: System, c: nat, step: Step)
    requires Connected(y) && !step.Connect? && !step.Disconnect?
    ensures Connected(Moved(y, Of(c, step)))
  {
    var y' := Moved(y, Of(c, step));
    if c in y.clients && !step.Emit? {
      LocalPhase(y.clients[c].start, View(y, c), step);
      hide Agrees, HandlesOf, Next;
      SameHandles(y.clients, y'.clients);
    }
  }

  lemma LocalPhase(start: nat, s: Conn, step: Step)
    requires !step.Emit? && !step.Connect? && !step.Disconnect?
    ensures Next(start, s, step).phase == Detached <==> s.phase == Detached
  {
    hide After;
  }

  // ---- what one client sees ----

  /** A move as client `c` sees it: the events of its flow, and its own connection. */
  function Seen(y: System, m: Move, c: nat): seq<Step>
    requires c in y.clients
  {
    match m
    case Publish(f, payload, gap) => if f == y.clients[c].flowId then [Emit(payload, gap)] else []
    case Of(d, step) => if d == c && !step.Emit? then [step] else []
  }

  lemma MoveIsSeen(y: System, m: Move, c: nat)
    requires Connected(y) && c in y.clients
    ensures c in Moved(y, m).clients && Moved(y, m).clients[c].flowId == y.clients[c].flowId
    ensures Moved(y, m).clients[c].start == y.clients[c].start
    ensures View(Moved(y, m), c) == Steps(y.clients[c].start, View(y, c), Seen(y, m, c))
  {
    hide Connected, Moved, View, Next, Steps;
    OneStep(y.clients[c].start, View(y, c));
    match m {
      case Publish(f, payload, gap) => PublishIsSeen(y, f, payload, gap, c);
      case Of(d, step) => StepIsSeen(y, d, step, c);
    }
  }

  lemma OneStep(start: nat, s: Conn)
    ensures Steps(start, s, []) == s
    ensures forall step :: Steps(start, s, [step]) == Next(start, s, step)
  {
    hide Next;
    forall step ensures Steps(start, s, [step]) == Next(start, s, step) {
      assert Steps(start, Next(start, s, step), [step][1..]) == Next(start, s, step);
    }
  }

  lemma PublishIsSeen(y: System, f: FlowId, payload: string, gap: nat, c: nat)
    requires Connected(y) && c in y.clients
    ensures var y' := Moved(y, Publish(f, payload, gap));
      && c in y'.clients && y'.clients[c].flowId == y.clients[c].flowId && y'.clients[c].start == y.clients[c].start
      && View(y', c) == if f == y.clients[c].flowId then Next(y.clients[c].start, View(y, c), Emit(payload, gap)) else View(y, c)
  {
    HearsItsFlow(y, c, f);
    hide Connected, Listens, Head, After;
  }

  lemma StepIsSeen(y: System, d: nat, step: Step, c: nat)
    requires Connected(y) && c in y.clients
    ensures var y' := Moved(y, Of(d, step));
      && c in y'.clients && y'.clients[c].flowId == y.clients[c].flowId && y'.clients[c].start == y.clients[c].start
      && View(y', c) == if d == c && !step.Emit? then Next(y.clients[c].start, View(y, c), step) else View(y, c)
  {
    hide Agrees, HandlesOf, Joined, Left, Head, After, Cursor;
  }

  /** The steps a client sees of a run. */
  function Shown(y: System, moves: seq<Move>, c: nat): seq<Step> {
    if moves == [] || c !in y.clients then []
    else Shown(y, moves[..|moves| - 1], c) + Seen(y, moves[|moves| - 1], c)
  }

  lemma {:induction false} StepsAppend(start: nat, s: Conn, a: seq<Step>, b: seq<Step>)
    ensures Steps(start, s, a + b) == Steps(start, Steps(start, s, a), b)
    decreases |a|
  {
    hide Next;
    if a == [] {
      assert a + b == b;
    } else {
      assert (a + b)[1..] == a[1..] + b && (a + b)[0] == a[0];
      StepsAppend(start, Next(start, s, a[0]), a[1..], b);
    }
  }

  /** However many clients share the hub, each one's connection goes exactly the way of a connection alone with its flow. */
  lemma {:induction false} RunIsSeen(y: System, moves: seq<Move>, c: nat)
    requires Connected(y) && c in y.clients
    ensures Connected(Run(y, moves)) && c in Run(y, moves).clients
    ensures Run(y, moves).clients[c].flowId == y.clients[c].flowId && Run(y, moves).clients[c].start == y.clients[c].start
    ensures View(Run(y, moves), c) == Steps(y.clients[c].start, View(y, c), Shown(y, moves, c))
  {
    var start := y.clients[c].start;
    hide *;
    OneStep(start, View(y, c));
    RunLast(y, moves, c);
    if moves != [] {
      var n := |moves| - 1;
      var before := Run(y, moves[..n]);
      RunIsSeen(y, moves[..n], c);
      MoveKeepsConnected(before, moves[n]);
      MoveIsSeen(before, moves[n], c);
      SeenAlike(y, before, moves[n], c);
      StepsAppend(start, View(y, c), Shown(y, moves[..n], c), Seen(y, moves[n], c));
    }
  }

  lemma RunLast(y: System, moves: seq<Move>, c: nat)
    requires c in y.clients
    ensures moves == [] ==> Run(y, moves) == y && Shown(y, moves, c) == []
    ensures moves != [] ==> var n := |moves| - 1;
      Run(y, moves) == Moved(Run(y, moves[..n]), moves[n]) && Shown(y, moves, c) == Shown(y, moves[..n], c) + Seen(y, moves[n], c)
  {
    hide Moved, Seen;
  }

  lemma SeenAlike(y: System, z: System, m: Move, c: nat)
    requires c in y.clients && c in z.clients && y.clients[c].flowId == z.clients[c].flowId
    ensures Seen(y, m, c) == Seen(z, m, c)
  {
  }

  // ---- the promise, to every client at once ----

  /** Nobody's durable read fails, and every client has yet to connect, from within its flow's log. */
  ghost predicate Fair(y: System, moves: seq<Move>) {
    && Connected(y)
    && (forall c | c in y.clients :: var s := View(y, c);
          Increasing(s.log) && s.phase == Detached && s.received == [] && s.wire == [] && y.clients[c].start <= Head(s.log))
    && forall m | m in moves :: !(m.Of? && m.step == FailRead)
  }

  lemma {:induction false} ShownNeverFails(y: System, moves: seq<Move>, c: nat)
    requires c in y.clients && forall m | m in moves :: !(m.Of? && m.step == FailRead)
    ensures NeverFails(Shown(y, moves, c))
  {
    if moves != [] {
      var n := |moves| - 1;
      assert moves[n] in moves && forall m | m in moves[..n] :: m in moves;
      ShownNeverFails(y, moves[..n], c);
    }
  }

  /** Under any interleaving of publishes, connects and disconnects of any number of clients of any flows, every client has
      an in-order, gap-free, duplicate-free prefix of its own flow's events. */
  lemma EveryClientInOrder(y: System, moves: seq<Move>, c: nat)
    requires Fair(y, moves) && c in y.clients
    ensures c in Run(y, moves).clients && InOrder(y.clients[c].start, View(Run(y, moves), c))
    ensures Run(y, moves).clients[c].flowId == y.clients[c].flowId
  {
    var start, s := y.clients[c].start, View(y, c);
    assert Increasing(s.log) && s.phase == Detached && s.received == [] && s.wire == [] && start <= Head(s.log);
    hide *;
    FairIs(y, moves);
    RunIsSeen(y, moves, c);
    ShownNeverFails(y, moves, c);
    DetachedInStep(start, s);
    WithinTheLogIsSound(start, s, Shown(y, moves, c));
    SoundKeepsStep(start, s, Shown(y, moves, c));
    InStepMeans(start, View(Run(y, moves), c));
  }

  lemma FairIs(y: System, moves: seq<Move>)
    requires Fair(y, moves)
    ensures Connected(y) && forall m | m in moves :: !(m.Of? && m.step == FailRead)
  {
    hide Connected;
  }

  lemma DetachedInStep(start: nat, s: Conn)
    requires Increasing(s.log) && s.phase == Detached && s.received == [] && s.wire == []
    ensures InStep(start, s)
  {
    hide After, Increasing;
  }
}
