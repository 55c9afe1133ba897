/** Replaying a run flow's durable events to one client across disconnects. */
module RunFlow {
  import opened Options
  import opened Decimals

  /** A durable event; the store numbers a flow's events with positive, strictly increasing sequences. */
  datatype Event = Event(sequence: nat, payload: string)

  predicate Increasing(log: seq<Event>) {
    && (forall i | 0 <= i < |log| :: log[i].sequence > 0)
    && forall i, j | 0 <= i < j < |log| :: log[i].sequence < log[j].sequence
  }

  /** The events numbered above `n`, in order: what the durable read returns. */
  function After(log: seq<Event>, n: nat): seq<Event> {
    if log == [] then []
    else
      var last := log[|log| - 1];
      After(log[..|log| - 1], n) + if last.sequence > n then [last] else []
  }

  function Head(log: seq<Event>): nat { if log == [] then 0 else log[|log| - 1].sequence }

  lemma AfterSnoc(log: seq<Event>, e: Event, n: nat)
    ensures After(log + [e], n) == After(log, n) + if e.sequence > n then [e] else []
  {
    assert (log + [e])[..|log|] == log;
  }

  lemma {:induction false} AfterSome(log: seq<Event>, n: nat)
    ensures forall e | e in After(log, n) :: e in log && e.sequence > n
  {
    if log != [] { AfterSome(log[..|log| - 1], n); }
  }

  /** Exactly the events numbered above `n`; in a log in order, they are in order. */
  lemma {:induction false} AfterIs(log: seq<Event>, n: nat, e: Event)
    ensures e in After(log, n) <==> e in log && e.sequence > n
  {
    if log != [] {
      var k := |log| - 1;
      assert log == log[..k] + [log[k]];
      AfterIs(log[..k], n, e);
    }
  }

  lemma {:induction false} AfterNone(log: seq<Event>, n: nat)
    requires forall e | e in log :: e.sequence <= n
    ensures After(log, n) == []
  {
    if log != [] { AfterNone(log[..|log| - 1], n); }
  }

  lemma IncreasingFront(log: seq<Event>)
    requires Increasing(log) && log != []
    ensures Increasing(log[..|log| - 1])
    ensures forall e | e in log[..|log| - 1] :: e.sequence < Head(log)
  {
  }

  lemma IncreasingSnoc(log: seq<Event>, e: Event)
    requires Increasing(log) && e.sequence > Head(log)
    ensures Increasing(log + [e]) && Head(log + [e]) == e.sequence
  {
    HeadIsNewest(log);
  }

  lemma HeadIsNewest(log: seq<Event>)
    requires Increasing(log)
    ensures forall e | e in log :: e.sequence <= Head(log)
  {
  }

  lemma {:induction false} AfterIncreases(log: seq<Event>, n: nat)
    requires Increasing(log)
    ensures Increasing(After(log, n)) && Head(After(log, n)) <= Head(log)
    ensures Head(log) > n ==> After(log, n) != [] && Head(After(log, n)) == Head(log)
    ensures After(log, n) != [] ==> After(log, n)[0].sequence > n
  {
    if log != [] {
      var rest, last := log[..|log| - 1], log[|log| - 1];
      IncreasingFront(log);
      AfterIncreases(rest, n);
      AfterSome(log, n);
      HeadBefore(log);
      hide Increasing;
      if last.sequence > n { IncreasingSnoc(After(rest, n), last); } else { assert After(rest, n) + [] == After(rest, n); }
      assert After(log, n) != [] ==> After(log, n)[0] in After(log, n);
    }
  }

  lemma HeadBefore(log: seq<Event>)
    requires Increasing(log) && log != []
    ensures Head(log[..|log| - 1]) < Head(log)
  {
  }

  /** A client that has the first `a` of the events after `n` is owed exactly those after its newest one. */
  lemma {:induction false} AfterSplits(log: seq<Event>, n: nat, a: seq<Event>, b: seq<Event>)
    requires Increasing(log) && After(log, n) == a + b && a != []
    ensures After(log, Head(a)) == b
    decreases |log|
  {
    hide *;
    AfterSome(log, n);
    assert a[|a| - 1] in a + b;
    var rest, last := log[..|log| - 1], log[|log| - 1];
    assert log == rest + [last];
    IncreasingFront(log);
    HeadIsNewest(log);
    AfterSnoc(rest, last, n);
    AfterSnoc(rest, last, Head(a));
    HeadIs(a);
    HeadIs(log);
    if last.sequence <= n {
      AfterNone(log, n);
    } else if b == [] {
      AfterIncreases(log, n);
      assert a + b == a;
      AfterNone(log, Head(a));
    } else {
      var k := |b| - 1;
      LastOfConcat(After(rest, n), last, a, b);
      AfterSplits(rest, n, a, b[..k]);
      AfterSome(rest, n);
      assert a[|a| - 1] in a + b[..k];
    }
  }

  lemma HeadIs(log: seq<Event>)
    requires log != []
    ensures Head(log) == log[|log| - 1].sequence
  {
  }

  lemma LastOfConcat<T>(c: seq<T>, x: T, a: seq<T>, b: seq<T>)
    requires c + [x] == a + b && b != []
    ensures b[|b| - 1] == x && c == a + b[..|b| - 1] && b == b[..|b| - 1] + [x]
  {
    assert (c + [x])[|c|] == (a + b)[|a| + |b| - 1];
    assert (c + [x])[..|c|] == c && (a + b)[..|a| + |b| - 1] == a + b[..|b| - 1];
  }

  // ---- the cursor ----

  /** Last-Event-ID first, then `?after=`; nothing usable means no replay. */
  function ResolveReplayCursor(lastEventId: Option<string>, afterParam: Option<string>): Option<nat> {
    var fromHeader := if lastEventId.Some? && SkipBlanks(lastEventId.value) != "" then ParseInt(lastEventId.value) else None;
    var cursor := if fromHeader.Some? then fromHeader else if afterParam.Some? then ParseInt(afterParam.value) else None;
    if cursor.Some? && cursor.value >= 0 then Some(cursor.value as nat) else None
  }

  /** A reconnecting client is resumed at its newest event whatever its frozen URL says, and a first
      connection at its own `?after=`. */
  lemma CursorRoundTrip(newest: nat, start: nat, url: Option<string>)
    ensures ResolveReplayCursor(Some(Decimal(newest)), url) == Some(newest)
    ensures ResolveReplayCursor(None, Some(Decimal(start))) == Some(start)
  {
    ParsesBack(newest);
    ParsesBack(start);
    DecimalDigits(newest);
    assert SkipBlanks(Decimal(newest)) == Decimal(newest) by { assert IsDigit(Decimal(newest)[0]); }
  }

  // ---- one flow, one client, any interleaving ----

  datatype Phase = Detached | Subscribed | Backfilling | Live

  /** What the emitter, the server, the network and the client may do next. */
  datatype Step =
    | Emit(payload: string, gap: nat)
    | Connect
    | ReadBacklog
    | FailRead
    | WriteFrame
    | Flush
    | Deliver
    | Disconnect

  /** The durable log, one connection to it, and what its client has. */
  datatype Conn = Conn(log: seq<Event>, phase: Phase, received: seq<Event>, wire: seq<Event>, backlog: seq<Event>,
                       liveBuffer: seq<Event>, backfillTail: nat)

  function Cursor(received: seq<Event>, start: nat): nat { if received == [] then start else Head(received) }

  /** A step that does not apply in the current phase does nothing. */
  function Next(start: nat, s: Conn, step: Step): Conn {
    match step
    case Emit(payload, gap) =>
      var e := Event(Head(s.log) + 1 + gap, payload);
      s.(log := s.log + [e], wire := if s.phase == Live then s.wire + [e] else s.wire,
         liveBuffer := if s.phase == Subscribed || s.phase == Backfilling then s.liveBuffer + [e] else s.liveBuffer)
    case Connect =>
      if s.phase != Detached then s
      else s.(phase := Subscribed, backfillTail := Cursor(s.received, start), liveBuffer := [], backlog := [], wire := [])
    case ReadBacklog => if s.phase != Subscribed then s else s.(phase := Backfilling, backlog := After(s.log, s.backfillTail))
    case FailRead => if s.phase != Subscribed then s else s.(phase := Backfilling, backlog := [])
    case WriteFrame =>
      if s.phase != Backfilling || s.backlog == [] then s
      else
        var e := s.backlog[0];
        s.(wire := s.wire + [e], backlog := s.backlog[1..],
           backfillTail := if e.sequence > s.backfillTail then e.sequence else s.backfillTail)
    case Flush =>
      if s.phase != Backfilling || s.backlog != [] then s
      else s.(phase := Live, wire := s.wire + After(s.liveBuffer, s.backfillTail), liveBuffer := [])
    case Deliver =>
      if s.phase == Detached || s.wire == [] then s else s.(received := s.received + [s.wire[0]], wire := s.wire[1..])
    case Disconnect => s.(phase := Detached, wire := [], liveBuffer := [], backlog := [])
  }

  function Steps(start: nat, s: Conn, steps: seq<Step>): Conn
    decreases |steps|
  {
    if steps == [] then s else Steps(start, Next(start, s, steps[0]), steps[1..])
  }

  /** The promise: the client has a gap-free, duplicate-free, in-order prefix of the durable events after `start`. */
  predicate InOrder(start: nat, s: Conn) { s.received <= After(s.log, start) }

  /** The events the wire must still carry: written, to be replayed, and buffered beyond the replay's end. */
  function Owed(s: Conn): seq<Event> {
    s.wire + s.backlog + After(s.liveBuffer, if s.backlog == [] then s.backfillTail else Head(s.backlog))
  }

  /** Between the durable read and the flush: what the client has and what is owed make up all it asked for. */
  ghost predicate Replaying(start: nat, s: Conn) {
    && Increasing(s.backlog) && (s.backlog != [] ==> s.backfillTail < s.backlog[0].sequence)
    && s.backfillTail <= Head(s.log) && Head(s.backlog) <= Head(s.log)
    && After(s.log, start) == s.received + Owed(s)
  }

  /** The buffer is the newest end of the log. */
  predicate Newest(buffer: seq<Event>, log: seq<Event>) {
    |buffer| <= |log| && buffer == log[|log| - |buffer|..]
  }

  /** In step: the promise, and once live, what the client has and what is on the wire are all of them. */
  ghost predicate InStep(start: nat, s: Conn) {
    && Increasing(s.log) && InOrder(start, s) && (s.phase != Detached ==> start <= Head(s.log))
    && match s.phase
       case Detached => s.wire == []
       case Subscribed =>
         s.wire == [] && s.backlog == [] && s.backfillTail == Cursor(s.received, start) && Newest(s.liveBuffer, s.log)
       case Backfilling => Replaying(start, s)
       case Live => After(s.log, start) == s.received + s.wire
  }

  lemma EmitKeepsStep(start: nat, s: Conn, payload: string, gap: nat)
    requires InStep(start, s)
    ensures InStep(start, Next(start, s, Emit(payload, gap)))
  {
    hide *;
    match s.phase {
      case Detached => EmitWhileDetached(start, s, payload, gap);
      case Subscribed => EmitWhileSubscribed(start, s, payload, gap);
      case Backfilling => EmitWhileBackfilling(start, s, payload, gap);
      case Live => EmitWhileLive(start, s, payload, gap);
    }
  }

  /** What one event more makes of the log. */
  lemma OneMoreEvent(start: nat, log: seq<Event>, e: Event)
    requires Increasing(log) && e.sequence > Head(log)
    ensures Increasing(log + [e]) && Head(log + [e]) == e.sequence
    ensures After(log + [e], start) == After(log, start) + if e.sequence > start then [e] else []
    ensures After(log, start) <= After(log + [e], start)
  {
    hide After, Increasing;
    AfterSnoc(log, e, start);
    IncreasingSnoc(log, e);
  }

  /** A client in order stays so when the log grows. */
  lemma InOrderStill(start: nat, s: Conn, e: Event)
    requires Increasing(s.log) && e.sequence > Head(s.log) && InOrder(start, s)
    ensures forall t: Conn | t.log == s.log + [e] && t.received == s.received :: InOrder(start, t)
  {
    hide After, Increasing, Head;
    OneMoreEvent(start, s.log, e);
    PrefixTrans(s.received, After(s.log, start), After(s.log + [e], start));
  }

  lemma PrefixTrans<T>(a: seq<T>, b: seq<T>, c: seq<T>)
    requires a <= b <= c
    ensures a <= c
  {
  }

  lemma EmitWhileDetached(start: nat, s: Conn, payload: string, gap: nat)
    requires InStep(start, s) && s.phase == Detached
    ensures InStep(start, Next(start, s, Emit(payload, gap)))
  {
    hide After, Increasing, Head, InOrder, Replaying, Newest, Cursor;
    var e := Event(Head(s.log) + 1 + gap, payload);
    OneMoreEvent(start, s.log, e);
    InOrderStill(start, s, e);
  }

  lemma EmitWhileSubscribed(start: nat, s: Conn, payload: string, gap: nat)
    requires InStep(start, s) && s.phase == Subscribed
    ensures InStep(start, Next(start, s, Emit(payload, gap)))
  {
    hide After, Increasing, Head, InOrder, Replaying, Newest, Cursor;
    var e := Event(Head(s.log) + 1 + gap, payload);
    OneMoreEvent(start, s.log, e);
    InOrderStill(start, s, e);
    NewestGrows(s.liveBuffer, s.log, e);
  }

  lemma NewestGrows(buffer: seq<Event>, log: seq<Event>, e: Event)
    requires Newest(buffer, log)
    ensures Newest(buffer + [e], log + [e])
  {
    assert (log + [e])[|log| - |buffer|..] == buffer + [e];
  }

  lemma EmitWhileBackfilling(start: nat, s: Conn, payload: string, gap: nat)
    requires InStep(start, s) && s.phase == Backfilling
    ensures InStep(start, Next(start, s, Emit(payload, gap)))
  {
    hide After, Increasing, Head, InOrder, Replaying, Newest, Cursor;
    var e := Event(Head(s.log) + 1 + gap, payload);
    OneMoreEvent(start, s.log, e);
    InOrderStill(start, s, e);
    ReplayingGrows(start, s, e);
  }

  lemma ReplayingGrows(start: nat, s: Conn, e: Event)
    requires Increasing(s.log) && Replaying(start, s) && e.sequence > Head(s.log) >= start
    ensures Replaying(start, s.(log := s.log + [e], liveBuffer := s.liveBuffer + [e]))
  {
    hide After, Increasing, Head, Owed;
    OneMoreEvent(start, s.log, e);
    OwesOneMore(s, s.(log := s.log + [e], liveBuffer := s.liveBuffer + [e]), e);
    assert s.received + (Owed(s) + [e]) == (s.received + Owed(s)) + [e];
  }

  lemma OwesOneMore(s: Conn, t: Conn, e: Event)
    requires t.wire == s.wire && t.backlog == s.backlog && t.backfillTail == s.backfillTail && t.liveBuffer == s.liveBuffer + [e]
    requires e.sequence > s.backfillTail && e.sequence > Head(s.backlog)
    ensures Owed(t) == Owed(s) + [e]
  {
    hide After;
    AfterSnoc(s.liveBuffer, e, if s.backlog == [] then s.backfillTail else Head(s.backlog));
  }

  lemma EmitWhileLive(start: nat, s: Conn, payload: string, gap: nat)
    requires InStep(start, s) && s.phase == Live
    ensures InStep(start, Next(start, s, Emit(payload, gap)))
  {
    hide After, Increasing, Head, InOrder, Replaying, Newest, Cursor;
    var e := Event(Head(s.log) + 1 + gap, payload);
    OneMoreEvent(start, s.log, e);
    InOrderStill(start, s, e);
    assert (s.received + s.wire) + [e] == s.received + (s.wire + [e]);
  }

  /** A connect is sound when the client already has something, or asks for nothing beyond the log. */
  lemma ConnectKeepsStep(start: nat, s: Conn)
    requires InStep(start, s) && s.phase == Detached && (s.received != [] || start <= Head(s.log))
    ensures InStep(start, Next(start, s, Connect))
  {
    if s.received != [] { CursorInLog(s.log, start, s.received); }
    hide After, Increasing;
    assert s.log[|s.log|..] == [];
  }

  /** A client that has something asked for nothing beyond the log, and is resumed within it. */
  lemma CursorInLog(log: seq<Event>, start: nat, received: seq<Event>)
    requires Increasing(log) && received <= After(log, start) && received != []
    ensures start < Cursor(received, start) <= Head(log)
  {
    AfterSome(log, start);
    assert received[|received| - 1] in After(log, start);
    HeadIsNewest(log);
  }

  lemma ReadKeepsStep(start: nat, s: Conn)
    requires InStep(start, s) && s.phase == Subscribed
    ensures InStep(start, Next(start, s, ReadBacklog))
  {
    hide Increasing, After;
    var c := Cursor(s.received, start);
    var backlog := After(s.log, c);
    StillOwed(start, s.log, s.received);
    AfterIncreases(s.log, c);
    if s.received != [] { CursorInLog(s.log, start, s.received); }
    if Head(s.log) <= c {
      HeadIsNewest(s.log);
      AfterNone(s.log, c);
    }
    BufferIsOld(s.log, s.liveBuffer, if backlog == [] then c else Head(backlog));
    assert [] + backlog + [] == backlog;
  }

  /** What a client is still owed is what the durable read from its cursor returns. */
  lemma StillOwed(start: nat, log: seq<Event>, received: seq<Event>)
    requires Increasing(log) && received <= After(log, start)
    ensures After(log, start) == received + After(log, Cursor(received, start))
  {
    var owed := After(log, start)[|received|..];
    assert After(log, start) == received + owed;
    if received != [] { AfterSplits(log, start, received, owed); } else { assert received + owed == owed; }
  }

  lemma BufferIsOld(log: seq<Event>, buffer: seq<Event>, n: nat)
    requires Increasing(log) && Newest(buffer, log) && Head(log) <= n
    ensures After(buffer, n) == []
  {
    HeadIsNewest(log);
    hide Increasing;
    forall e | e in buffer ensures e.sequence <= n { assert e in log; }
    AfterNone(buffer, n);
  }

  lemma WriteKeepsStep(start: nat, s: Conn)
    requires InStep(start, s)
    ensures InStep(start, Next(start, s, WriteFrame))
  {
    if s.phase == Backfilling && s.backlog != [] {
      HeadIsNewest(s.backlog);
      hide After;
      assert s.backlog[0] in s.backlog;
      assert s.wire + s.backlog == (s.wire + [s.backlog[0]]) + s.backlog[1..];
    }
  }

  lemma FlushKeepsStep(start: nat, s: Conn)
    requires InStep(start, s)
    ensures InStep(start, Next(start, s, Flush))
  {
    hide After, Increasing;
    assert s.wire + [] == s.wire;
  }

  lemma DeliverKeepsStep(start: nat, s: Conn)
    requires InStep(start, s)
    ensures InStep(start, Next(start, s, Deliver))
  {
    hide After, Increasing;
    if s.phase != Detached && s.wire != [] {
      var e, rest := s.wire[0], s.wire[1..];
      assert s.wire == [e] + rest;
      if s.phase == Live {
        assert s.received + s.wire == (s.received + [e]) + rest;
      } else {
        var t := s.(wire := rest);
        assert Owed(s) == [e] + Owed(t);
        assert s.received + ([e] + Owed(t)) == (s.received + [e]) + Owed(t);
      }
    }
  }

  /** A failed durable read loses nothing: everything the client is owed has been buffered. */
  predicate Harmless(start: nat, s: Conn) { After(s.log, Cursor(s.received, start)) == After(s.liveBuffer, Cursor(s.received, start)) }

  lemma HarmlessFailureKeepsStep(start: nat, s: Conn)
    requires InStep(start, s) && s.phase == Subscribed && Harmless(start, s)
    ensures InStep(start, Next(start, s, FailRead))
  {
    StillOwed(start, s.log, s.received);
    if s.received != [] { CursorInLog(s.log, start, s.received); }
    hide Increasing, After;
    assert [] + [] + After(s.liveBuffer, s.backfillTail) == After(s.liveBuffer, s.backfillTail);
  }

  /** One step of a schedule that keeps the promise. */
  predicate SoundStep(start: nat, s: Conn, step: Step) {
    match step
    case Connect => s.phase == Detached && s.received == [] ==> start <= Head(s.log)
    case FailRead => s.phase == Subscribed ==> Harmless(start, s)
    case _ => true
  }

  predicate Sound(start: nat, s: Conn, steps: seq<Step>)
    decreases |steps|
  {
    steps == [] || (SoundStep(start, s, steps[0]) && Sound(start, Next(start, s, steps[0]), steps[1..]))
  }

  lemma StepKeepsStep(start: nat, s: Conn, step: Step)
    requires InStep(start, s) && SoundStep(start, s, step)
    ensures InStep(start, Next(start, s, step))
  {
    hide InStep, Harmless, Owed;
    match step {
      case Emit(payload, gap) => EmitKeepsStep(start, s, payload, gap);
      case Connect => if s.phase == Detached { ConnectKeepsStep(start, s); }
      case ReadBacklog => if s.phase == Subscribed { ReadKeepsStep(start, s); }
      case FailRead => if s.phase == Subscribed { HarmlessFailureKeepsStep(start, s); }
      case WriteFrame => WriteKeepsStep(start, s);
      case Flush => FlushKeepsStep(start, s);
      case Deliver => DeliverKeepsStep(start, s);
      case Disconnect => DropKeepsStep(start, s);
    }
  }

  lemma DropKeepsStep(start: nat, s: Conn)
    requires InStep(start, s)
    ensures InStep(start, Next(start, s, Disconnect))
  {
    hide After, Increasing;
  }

  /** Over every sound schedule the promise holds throughout. */
  lemma {:induction false} SoundKeepsStep(start: nat, s: Conn, steps: seq<Step>)
    requires InStep(start, s) && Sound(start, s, steps)
    ensures InStep(start, Steps(start, s, steps))
    decreases |steps|
  {
    if steps != [] {
      StepKeepsStep(start, s, steps[0]);
      hide InStep, Next, SoundStep;
      SoundKeepsStep(start, Next(start, s, steps[0]), steps[1..]);
    }
  }

  // ---- and exactly when ----

  predicate NeverFails(steps: seq<Step>) { forall step | step in steps :: step != FailRead }

  lemma LogGrows(start: nat, s: Conn, step: Step)
    ensures Head(s.log) <= Head(Next(start, s, step).log)
    ensures s.received == [] || Next(start, s, step).received != []
  {
    hide After;
  }

  lemma {:induction false} WithinTheLogIsSound(start: nat, s: Conn, steps: seq<Step>)
    requires NeverFails(steps) && start <= Head(s.log)
    ensures Sound(start, s, steps)
    decreases |steps|
  {
    if steps != [] {
      assert steps[0] in steps && forall step | step in steps[1..] :: step in steps;
      LogGrows(start, s, steps[0]);
      hide Next;
      WithinTheLogIsSound(start, Next(start, s, steps[0]), steps[1..]);
    }
  }

  lemma {:induction false} ResumedIsSound(start: nat, s: Conn, steps: seq<Step>)
    requires NeverFails(steps) && InStep(start, s) && s.phase != Detached
    ensures Sound(start, s, steps)
  {
    WithinTheLogIsSound(start, s, steps);
  }

  lemma StaysInOrder(start: nat, s: Conn)
    requires InStep(start, s) && s.phase != Detached
    ensures forall steps | NeverFails(steps) :: InOrder(start, Steps(start, s, steps))
  {
    hide InStep, Sound, InOrder, NeverFails, Steps;
    forall steps | NeverFails(steps) ensures InOrder(start, Steps(start, s, steps)) {
      ResumedIsSound(start, s, steps);
      SoundKeepsStep(start, s, steps);
      InStepMeans(start, Steps(start, s, steps));
    }
  }

  /** From the first connect on, no schedule without a failed read breaks the promise if and only if the client's start
      was not ahead of the log. */
  lemma InOrderExactlyWhen(start: nat, s: Conn)
    requires Increasing(s.log) && s.phase == Detached && s.received == [] && s.wire == []
    ensures (forall steps | NeverFails(steps) :: InOrder(start, Steps(start, Next(start, s, Connect), steps))) <==>
      start <= Head(s.log)
  {
    hide *;
    if start <= Head(s.log) {
      ConnectsInStep(start, s);
      StaysInOrder(start, Next(start, s, Connect));
    } else {
      AheadIsShownTooMuch(start, s);
    }
  }

  lemma ConnectsInStep(start: nat, s: Conn)
    requires Increasing(s.log) && s.phase == Detached && s.received == [] && s.wire == [] && start <= Head(s.log)
    ensures InStep(start, Next(start, s, Connect)) && Next(start, s, Connect).phase != Detached
  {
    hide After, Increasing;
    assert InStep(start, s);
    ConnectKeepsStep(start, s);
  }

  /** A live frame is written whatever its number. */
  lemma AheadIsShownTooMuch(start: nat, s: Conn)
    requires Increasing(s.log) && s.phase == Detached && s.received == [] && s.wire == [] && start > Head(s.log)
    ensures var steps := [ReadBacklog, Flush, Emit("", 0), Deliver];
      NeverFails(steps) && !InOrder(start, Steps(start, Next(start, s, Connect), steps))
  {
    hide *;
    var e, s0 := Event(Head(s.log) + 1, ""), Next(start, s, Connect);
    var s2 := Next(start, Next(start, s0, ReadBacklog), Flush);
    HeadIsNewest(s.log);
    AfterNone(s.log, start);
    AfterNone([], start);
    AfterSnoc(s.log, e, start);
    FourSteps(start, s0, ReadBacklog, Flush, Emit("", 0), Deliver);
    LiveWithNothing(start, s);
    FirstLiveFrame(start, s2);
    NeverFailing();
    InOrderIs(start, Next(start, Next(start, s2, Emit("", 0)), Deliver));
  }

  lemma NeverFailing()
    ensures NeverFails([ReadBacklog, Flush, Emit("", 0), Deliver])
  {
  }

  /** A client ahead of the log goes live with nothing replayed. */
  lemma LiveWithNothing(start: nat, s: Conn)
    requires s.phase == Detached && s.received == [] && After(s.log, start) == [] && After([], start) == []
    ensures var t := Next(start, Next(start, Next(start, s, Connect), ReadBacklog), Flush);
      t.phase == Live && t.wire == [] && t.log == s.log && t.received == []
  {
    hide After, Head;
    assert Cursor(s.received, start) == start;
  }

  /** Then it is sent whatever comes. */
  lemma FirstLiveFrame(start: nat, s: Conn)
    requires s.phase == Live && s.wire == [] && s.received == []
    ensures var e, t := Event(Head(s.log) + 1, ""), Next(start, Next(start, s, Emit("", 0)), Deliver);
      t.received == [e] && t.log == s.log + [e]
  {
    hide After, Head;
    assert ([] + [Event(Head(s.log) + 1, "")])[0] == Event(Head(s.log) + 1, "");
  }

  lemma FourSteps(start: nat, s: Conn, a: Step, b: Step, c: Step, d: Step)
    ensures Steps(start, s, [a, b, c, d]) == Next(start, Next(start, Next(start, Next(start, s, a), b), c), d)
  {
    hide Next;
    assert [a, b, c, d][1..] == [b, c, d] && [b, c, d][1..] == [c, d] && [c, d][1..] == [d] && [d][1..] == [];
    var s1 := Next(start, s, a);
    var s2 := Next(start, s1, b);
    var s3 := Next(start, s2, c);
    assert Steps(start, s3, [d]) == Steps(start, Next(start, s3, d), []);
    assert Steps(start, s2, [c, d]) == Steps(start, s3, [d]);
    assert Steps(start, s1, [b, c, d]) == Steps(start, s2, [c, d]);
  }

  /** After a failed durable read no later schedule leaves a gap if and only if all the client was owed had been
      buffered: with nothing buffered, if and only if it was owed nothing. */
  lemma FailedReadIsInOrderExactlyWhen(start: nat, s: Conn)
    requires InStep(start, s) && s.phase == Subscribed
    ensures (forall steps | NeverFails(steps) :: InOrder(start, Steps(start, Next(start, s, FailRead), steps))) <==>
      Harmless(start, s)
    ensures s.liveBuffer == [] ==> (Harmless(start, s) <==> After(s.log, Cursor(s.received, start)) == [])
  {
    NothingAfter(Cursor(s.received, start));
    hide After, Increasing, InStep, InOrder;
    if Harmless(start, s) {
      HarmlessFailureKeepsStep(start, s);
      StaysInOrder(start, Next(start, s, FailRead));
    } else {
      hide Next;
      GapIsShown(start, s);
    }
  }

  lemma NothingAfter(n: nat)
    ensures After([], n) == []
  {
  }

  /** What lies between the cursor and the buffer is skipped by the next frame. */
  lemma GapIsShown(start: nat, s: Conn)
    requires InStep(start, s) && s.phase == Subscribed && !Harmless(start, s)
    ensures var steps := [Flush, Emit("", 0), Deliver, Disconnect];
      NeverFails(steps) && !InOrder(start, Steps(start, Next(start, s, FailRead), steps))
  {
    hide *;
    var e, s1 := Event(Head(s.log) + 1, ""), Next(start, Next(start, s, FailRead), Flush);
    FourSteps(start, Next(start, s, FailRead), Flush, Emit("", 0), Deliver, Disconnect);
    FlushAfterFailure(start, s);
    EmitThenDeliver(start, s1);
    SkippedEvent(start, s, e);
    NoneFails();
    InOrderIs(start, Next(start, Next(start, Next(start, s1, Emit("", 0)), Deliver), Disconnect));
  }

  lemma InOrderIs(start: nat, s: Conn)
    ensures InOrder(start, s) <==> s.received <= After(s.log, start)
  {
  }

  lemma NoneFails()
    ensures NeverFails([Flush, Emit("", 0), Deliver, Disconnect])
  {
  }

  /** The flush after a failed read writes what was buffered. */
  lemma FlushAfterFailure(start: nat, s: Conn)
    requires InStep(start, s) && s.phase == Subscribed
    ensures var t := Next(start, Next(start, s, FailRead), Flush);
      t.phase == Live && t.wire == After(s.liveBuffer, Cursor(s.received, start)) && t.log == s.log && t.received == s.received
  {
    hide After, Increasing, Head, Cursor, Newest, InOrder;
    var buffered := After(s.liveBuffer, Cursor(s.received, start));
    assert [] + buffered == buffered;
  }

  lemma EmitThenDeliver(start: nat, s: Conn)
    requires s.phase == Live
    ensures var wire := s.wire + [Event(Head(s.log) + 1, "")];
      var t := Next(start, Next(start, Next(start, s, Emit("", 0)), Deliver), Disconnect);
      t.received == s.received + [wire[0]] && t.log == s.log + [Event(Head(s.log) + 1, "")]
  {
    hide After, Increasing, Head;
  }

  lemma SkippedEvent(start: nat, s: Conn, e: Event)
    requires InStep(start, s) && s.phase == Subscribed && !Harmless(start, s) && e.sequence > Head(s.log)
    ensures !(s.received + [(After(s.liveBuffer, Cursor(s.received, start)) + [e])[0]] <= After(s.log + [e], start))
  {
    hide After, Increasing;
    var c, k := Cursor(s.received, start), |s.log| - |s.liveBuffer|;
    var older, buffered := s.log[..k], After(s.liveBuffer, c);
    assert s.log == older + s.liveBuffer && s.log + [e] == older + (s.liveBuffer + [e]);
    if s.received != [] { CursorInLog(s.log, start, s.received); }
    AfterAppend(older, s.liveBuffer, c);
    var missed := After(older, c);
    assert missed != [] by { assert [] + buffered == buffered; }
    StillOwed(start, s.log, s.received);
    AfterSnoc(s.log, e, start);
    AfterSnoc(s.liveBuffer, e, c);
    IncreasingSnoc(s.log, e);
    FirstIsMissed(s.log + [e], older, s.liveBuffer + [e], c, missed);
    var f := (buffered + [e])[0];
    assert f in After(s.liveBuffer + [e], c);
    var due := After(s.log + [e], start);
    assert due == (s.received + (missed + buffered)) + [e];
    assert due[|s.received|] == missed[0] && (s.received + [f])[|s.received|] == f;
  }

  lemma FirstIsMissed(log: seq<Event>, a: seq<Event>, b: seq<Event>, c: nat, missed: seq<Event>)
    requires Increasing(log) && log == a + b && missed == After(a, c) != []
    ensures forall f | f in After(b, c) :: f != missed[0]
  {
    AfterSome(a, c);
    AfterSome(b, c);
    assert missed[0] in missed;
    InBothHalves(a, b, missed[0]);
  }

  lemma InBothHalves(a: seq<Event>, b: seq<Event>, e: Event)
    requires Increasing(a + b) && e in a
    ensures e !in b
  {
    var i :| 0 <= i < |a| && a[i] == e;
    forall j | 0 <= j < |b| ensures b[j] != e {
      assert (a + b)[i].sequence < (a + b)[|a| + j].sequence;
    }
  }

  lemma {:induction false} AfterAppend(a: seq<Event>, b: seq<Event>, n: nat)
    ensures After(a + b, n) == After(a, n) + After(b, n)
  {
    if b == [] {
      assert a + b == a && After(a, n) + [] == After(a, n);
    } else {
      var k := |b| - 1;
      assert b == b[..k] + [b[k]] && a + b == (a + b[..k]) + [b[k]];
      AfterAppend(a, b[..k], n);
      AfterSnoc(a + b[..k], b[k], n);
    }
  }

  /** The buffered events not already replayed. */
  method NewerThan(liveBuffer: seq<Event>, backfillTail: nat) returns (newer: seq<Event>)
    ensures newer == After(liveBuffer, backfillTail)
  {
    newer := [];
    var i := 0;
    while i < |liveBuffer|
      invariant 0 <= i <= |liveBuffer| && newer == After(liveBuffer[..i], backfillTail)
    {
      assert liveBuffer[..i + 1] == liveBuffer[..i] + [liveBuffer[i]];
      AfterSnoc(liveBuffer[..i], liveBuffer[i], backfillTail);
      if liveBuffer[i].sequence > backfillTail { newer := newer + [liveBuffer[i]]; }
      i := i + 1;
    }
    assert liveBuffer[..|liveBuffer|] == liveBuffer;
  }

  class Stream {
    const start: nat
    var log: seq<Event>
    var phase: Phase
    var backfillTail: nat
    var liveBuffer: seq<Event>
    var backlog: seq<Event>
    var wire: seq<Event>
    var received: seq<Event>

    function State(): Conn
      reads this
    {
      Conn(log, phase, received, wire, backlog, liveBuffer, backfillTail)
    }

    constructor (start: nat, log: seq<Event>)
      ensures this.start == start && State() == Conn(log, Detached, [], [], [], [], 0)
      ensures Increasing(log) ==> InStep(start, State())
    {
      this.start, this.log := start, log;
      phase, backfillTail, liveBuffer, backlog, wire, received := Detached, 0, [], [], [], [];
    }

    /** Append to the durable log, then publish to the listener, as one step. */
    method EmitEvent(payload: string, gap: nat)
      modifies this
      ensures State() == Next(start, old(State()), Emit(payload, gap))
    {
      var e := Event(Head(log) + 1 + gap, payload);
      log := log + [e];
      if phase == Subscribed || phase == Backfilling {
        liveBuffer := liveBuffer + [e];
      } else if phase == Live {
        wire := wire + [e];
      }
    }

    /** Connect: the listener goes in first, so nothing published from here on is missed. The client's cursor travels
        as text: the newest id it printed, or the parameter of its address. */
    method Subscribe()
      requires phase == Detached
      modifies this
      ensures State() == Next(start, old(State()), Connect)
    {
      hide After, Increasing, ResolveReplayCursor, Decimal;
      var header := if received == [] then None else Some(Decimal(Head(received)));
      CursorRoundTrip(Head(received), start, Some(Decimal(start)));
      var cursor := ResolveReplayCursor(header, Some(Decimal(start)));
      backfillTail := cursor.value;
      phase, liveBuffer, backlog, wire := Subscribed, [], [], [];
    }

    /** The durable read; when it fails the stream goes on with live events only. */
    method ReadDurable(fails: bool)
      requires phase == Subscribed
      modifies this
      ensures State() == Next(start, old(State()), if fails then FailRead else ReadBacklog)
    {
      backlog := if fails then [] else After(log, backfillTail);
      phase := Backfilling;
    }

    method WriteBacklogFrame()
      requires phase == Backfilling && backlog != []
      modifies this
      ensures State() == Next(start, old(State()), WriteFrame)
    {
      var e := backlog[0];
      wire, backlog := wire + [e], backlog[1..];
      if e.sequence > backfillTail { backfillTail := e.sequence; }
    }

    method FlushBuffer()
      requires phase == Backfilling && backlog == []
      modifies this
      ensures State() == Next(start, old(State()), Flush)
    {
      var flushed := NewerThan(liveBuffer, backfillTail);
      phase, wire, liveBuffer := Live, wire + flushed, [];
    }

    method DeliverFrame()
      requires phase != Detached && wire != []
      modifies this
      ensures State() == Next(start, old(State()), Deliver)
    {
      received, wire := received + [wire[0]], wire[1..];
    }

    /** Whatever is still on the wire is lost. */
    method Drop()
      modifies this
      ensures State() == Next(start, old(State()), Disconnect)
    {
      phase, wire, liveBuffer, backlog := Detached, [], [], [];
    }

    /** Any schedule at all, and what a sound one keeps. */
    method Run(steps: seq<Step>)
      modifies this
      ensures State() == Steps(start, old(State()), steps)
      ensures old(InStep(start, State())) && Sound(start, old(State()), steps) ==>
        InOrder(start, State()) && (phase == Live && wire == [] ==> received == After(log, start))
    {
      ghost var first := State();
      var i := 0;
      assert steps[0..] == steps;
      hide After, Increasing, InStep, Next;
      while i < |steps|
        invariant 0 <= i <= |steps| && Steps(start, State(), steps[i..]) == Steps(start, first, steps)
      {
        assert steps[i..][0] == steps[i] && steps[i..][1..] == steps[i + 1..];
        Idle(start, State(), steps[i]);
        match steps[i] {
          case Emit(payload, gap) => EmitEvent(payload, gap);
          case Connect => if phase == Detached { Subscribe(); }
          case ReadBacklog => if phase == Subscribed { ReadDurable(false); }
          case FailRead => if phase == Subscribed { ReadDurable(true); }
          case WriteFrame => if phase == Backfilling && backlog != [] { WriteBacklogFrame(); }
          case Flush => if phase == Backfilling && backlog == [] { FlushBuffer(); }
          case Deliver => if phase != Detached && wire != [] { DeliverFrame(); }
          case Disconnect => Drop();
        }
        i := i + 1;
      }
      assert steps[i..] == [];
      if InStep(start, first) && Sound(start, first, steps) {
        SoundKeepsStep(start, first, steps);
        InStepMeans(start, State());
      }
    }
  }

  lemma Idle(start: nat, s: Conn, step: Step)
    ensures step == Connect && s.phase != Detached ==> Next(start, s, step) == s
    ensures (step == ReadBacklog || step == FailRead) && s.phase != Subscribed ==> Next(start, s, step) == s
    ensures step == WriteFrame && (s.phase != Backfilling || s.backlog == []) ==> Next(start, s, step) == s
    ensures step == Flush && (s.phase != Backfilling || s.backlog != []) ==> Next(start, s, step) == s
    ensures step == Deliver && (s.phase == Detached || s.wire == []) ==> Next(start, s, step) == s
  {
    hide After;
  }

  lemma InStepMeans(start: nat, s: Conn)
    requires InStep(start, s)
    ensures InOrder(start, s) && (s.phase == Live && s.wire == [] ==> s.received == After(s.log, start))
  {
    hide After, Increasing;
    assert s.received + [] == s.received;
  }
}
