/** Polling streams over a lossy source: a bounded buffer of lines, and a capped read of an event log. */
module OutputStreams {
  import opened Sequences

  // ---- what was delivered and what was missed ----

  predicate Below(s: seq<nat>, n: nat) { forall i | 0 <= i < |s| :: s[i] < n }

  function Range(a: nat, b: nat): (s: seq<nat>)
    requires a <= b
    ensures |s| == b - a && forall i | 0 <= i < |s| :: s[i] == a + i
  {
    seq(b - a, i requires 0 <= i => a + i)
  }

  /** Of the first `cursor` items exactly those at `sent` went out, in order, and exactly those at `missed` did not. */
  ghost predicate Accounts(sent: seq<nat>, missed: seq<nat>, cursor: nat) {
    && Increasing(sent) && Increasing(missed) && |sent| + |missed| == cursor
    && Below(sent, cursor) && Below(missed, cursor)
    && forall p | 0 <= p < cursor :: p in sent <==> p !in missed
  }

  lemma InRange(a: nat, b: nat, p: nat)
    requires a <= b
    ensures p in Range(a, b) <==> a <= p < b
  {
    if a <= p < b { assert Range(a, b)[p - a] == p; }
  }

  lemma IncreasingAppend(s: seq<nat>, bound: nat, a: nat, b: nat)
    requires Increasing(s) && Below(s, bound) && bound <= a <= b
    ensures Increasing(s + Range(a, b)) && Below(s + Range(a, b), b)
  {
  }

  /** One poll: everything from `cursor` up to `lo` is lost, the rest up to `n` goes out. */
  lemma PollAccounts(sent: seq<nat>, missed: seq<nat>, cursor: nat, lo: nat, n: nat)
    requires Accounts(sent, missed, cursor) && cursor <= lo <= n
    ensures Accounts(sent + Range(lo, n), missed + Range(cursor, lo), n)
  {
    IncreasingAppend(sent, cursor, lo, n);
    IncreasingAppend(missed, cursor, cursor, lo);
    forall p | 0 <= p < n ensures p in sent + Range(lo, n) <==> p !in missed + Range(cursor, lo) {
      InRange(lo, n, p);
      InRange(cursor, lo, p);
    }
  }

  /** The items at some positions. */
  function At<T>(all: seq<T>, positions: seq<nat>): seq<T>
    requires Below(positions, |all|)
  {
    if positions == [] then [] else At(all, positions[..|positions| - 1]) + [all[positions[|positions| - 1]]]
  }

  lemma {:induction false} AtGrows<T>(all: seq<T>, more: seq<T>, positions: seq<nat>)
    requires Below(positions, |all|)
    ensures At(all + more, positions) == At(all, positions)
  {
    if positions != [] {
      AtGrows(all, more, positions[..|positions| - 1]);
    }
  }

  lemma {:induction false} AtRange<T>(all: seq<T>, positions: seq<nat>, lo: nat, n: nat)
    requires lo <= n <= |all| && Below(positions, |all|)
    ensures Below(positions + Range(lo, n), |all|)
    ensures At(all, positions + Range(lo, n)) == At(all, positions) + all[lo..n]
    decreases n - lo
  {
    hide *;
    RangeIs(lo, n);
    if lo < n {
      AtRange(all, positions, lo, n - 1);
      AtSnoc(all, positions + Range(lo, n - 1), n - 1);
      Regroup(positions, Range(lo, n - 1), n - 1);
      Regroup(At(all, positions), all[lo..n - 1], all[n - 1]);
      assert all[lo..n] == all[lo..n - 1] + [all[n - 1]];
    } else {
      assert positions + [] == positions && At(all, positions) + [] == At(all, positions) && all[lo..n] == [];
    }
  }

  lemma RangeIs(lo: nat, n: nat)
    requires lo <= n
    ensures Range(lo, n) == if lo < n then Range(lo, n - 1) + [n - 1] else []
  {
  }

  lemma Regroup<T>(a: seq<T>, b: seq<T>, x: T)
    ensures (a + b) + [x] == a + (b + [x])
  {
  }

  lemma AtSnoc<T>(all: seq<T>, positions: seq<nat>, p: nat)
    requires Below(positions, |all|) && p < |all|
    ensures Below(positions + [p], |all|) && At(all, positions + [p]) == At(all, positions) + [all[p]]
  {
    assert (positions + [p])[..|positions|] == positions;
  }

  /** The first position a poll can still deliver of `n` when only the last `capacity` are kept. */
  function First(cursor: nat, n: nat, capacity: nat): nat {
    if n > capacity && n - capacity > cursor then n - capacity else cursor
  }

  /** A stream that has dealt with the first `cursor` of `all`. */
  ghost predicate Streamed<T>(all: seq<T>, received: seq<T>, sent: seq<nat>, missed: seq<nat>, cursor: nat) {
    cursor <= |all| && Accounts(sent, missed, cursor) && received == At(all, sent)
  }

  /** One poll that delivers what a source of `capacity` still has. */
  lemma Advance<T>(all: seq<T>, received: seq<T>, sent: seq<nat>, missed: seq<nat>, cursor: nat, lo: nat)
    requires Streamed(all, received, sent, missed, cursor) && cursor <= lo <= |all|
    ensures Streamed(all, received + all[lo..], sent + Range(lo, |all|), missed + Range(cursor, lo), |all|)
  {
    PollAccounts(sent, missed, cursor, lo, |all|);
    AtRange(all, sent, lo, |all|);
    hide At;
    assert all[lo..|all|] == all[lo..];
  }

  lemma Grow<T>(all: seq<T>, more: seq<T>, received: seq<T>, sent: seq<nat>, missed: seq<nat>, cursor: nat)
    requires Streamed(all, received, sent, missed, cursor)
    ensures Streamed(all + more, received, sent, missed, cursor)
  {
    AtGrows(all, more, sent);
  }

  /** The last `n` items, as `slice(-n)` gives them for a positive `n`. */
  function LastOf<T>(s: seq<T>, n: nat): seq<T> { if n >= |s| then s else s[|s| - n..] }

  function Min(a: nat, b: nat): nat { if a < b then a else b }

  // ---- where a schedule leaves a stream ----

  /** How much has come, how much of it is dealt with, whether the worker is known, and how the connection stands. */
  datatype Stage = Stage(total: nat, cursor: nat, known: bool, closed: bool, done: bool)

  /** A schedule, `next` being what one operation does. */
  function Staged<O>(ops: seq<O>, s: Stage, next: (Stage, O) -> Stage): Stage {
    if ops == [] then s else next(Staged(ops[..|ops| - 1], s, next), ops[|ops| - 1])
  }

  /** The positions that one operation puts out of reach. */
  function Lost(s: Stage, s': Stage, capacity: nat): seq<nat> { Range(s.cursor, First(s.cursor, s'.cursor, capacity)) }

  function Skipped<O>(ops: seq<O>, s: Stage, next: (Stage, O) -> Stage, capacity: nat): seq<nat> {
    if ops == [] then []
    else
      var init := ops[..|ops| - 1];
      Skipped(init, s, next, capacity) + Lost(Staged(init, s, next), Staged(ops, s, next), capacity)
  }

  /** Operation `k` takes the cursor over more than `capacity`. */
  predicate Jumps<O>(ops: seq<O>, s: Stage, next: (Stage, O) -> Stage, capacity: nat, k: nat)
    requires k < |ops|
  {
    Staged(ops[..k + 1], s, next).cursor > Staged(ops[..k], s, next).cursor + capacity
  }

  /** Some operation does. */
  predicate Overruns<O>(ops: seq<O>, s: Stage, next: (Stage, O) -> Stage, capacity: nat) {
    exists k: nat :: k < |ops| && Jumps(ops, s, next, capacity, k)
  }

  lemma OneMore<O>(ops: seq<O>, s: Stage, next: (Stage, O) -> Stage, capacity: nat, i: nat)
    requires i < |ops|
    ensures Staged(ops[..i + 1], s, next) == next(Staged(ops[..i], s, next), ops[i])
    ensures Skipped(ops[..i + 1], s, next, capacity) ==
      Skipped(ops[..i], s, next, capacity) + Lost(Staged(ops[..i], s, next), Staged(ops[..i + 1], s, next), capacity)
  {
    hide Lost;
    assert ops[..i + 1][..i] == ops[..i];
  }

  lemma JumpsStill<O>(ops: seq<O>, s: Stage, next: (Stage, O) -> Stage, capacity: nat, n: nat, k: nat)
    requires k < n <= |ops|
    ensures Jumps(ops[..n], s, next, capacity, k) == Jumps(ops, s, next, capacity, k)
  {
    hide Staged;
    assert ops[..n][..k] == ops[..k] && ops[..n][..k + 1] == ops[..k + 1];
  }

  lemma OverrunsSnoc<O>(ops: seq<O>, s: Stage, next: (Stage, O) -> Stage, capacity: nat, i: nat)
    requires i < |ops|
    ensures Overruns(ops[..i + 1], s, next, capacity) <==>
      Overruns(ops[..i], s, next, capacity) || Jumps(ops, s, next, capacity, i)
  {
    forall k: nat | k <= i ensures Jumps(ops[..i + 1], s, next, capacity, k) == Jumps(ops, s, next, capacity, k) {
      JumpsStill(ops, s, next, capacity, i + 1, k);
    }
    forall k: nat | k < i ensures Jumps(ops[..i], s, next, capacity, k) == Jumps(ops, s, next, capacity, k) {
      JumpsStill(ops, s, next, capacity, i, k);
    }
    hide Jumps;
    if Overruns(ops[..i + 1], s, next, capacity) {
      var k: nat :| k <= i && Jumps(ops[..i + 1], s, next, capacity, k);
      assert k < i ==> Jumps(ops[..i], s, next, capacity, k);
    }
    if Overruns(ops[..i], s, next, capacity) {
      var k: nat :| k < i && Jumps(ops[..i], s, next, capacity, k);
      assert Jumps(ops[..i + 1], s, next, capacity, k);
    } else if Jumps(ops, s, next, capacity, i) {
      assert Jumps(ops[..i + 1], s, next, capacity, i);
    }
  }

  /** A schedule skips nothing exactly when no single operation takes the cursor over more than the capacity. */
  lemma {:induction false} SkipsNothingExactlyWhen<O>(ops: seq<O>, s: Stage, next: (Stage, O) -> Stage, capacity: nat)
    ensures Skipped(ops, s, next, capacity) == [] <==> !Overruns(ops, s, next, capacity)
  {
    if ops != [] {
      var i := |ops| - 1;
      assert ops[..i + 1] == ops;
      SkipsNothingExactlyWhen(ops[..i], s, next, capacity);
      OneMore(ops, s, next, capacity, i);
      OverrunsSnoc(ops, s, next, capacity, i);
      hide Overruns, Staged, Skipped;
    }
  }

  lemma NothingRun<O>(ops: seq<O>, s: Stage, next: (Stage, O) -> Stage, capacity: nat)
    ensures Staged(ops[..0], s, next) == s && Skipped(ops[..0], s, next, capacity) == []
  {
  }

  lemma JumpIs<O>(ops: seq<O>, s: Stage, next: (Stage, O) -> Stage, capacity: nat, i: nat)
    requires i < |ops|
    ensures var c, c' := Staged(ops[..i], s, next).cursor, Staged(ops[..i + 1], s, next).cursor;
      !Jumps(ops, s, next, capacity, i) && c <= c' ==> First(c, c', capacity) == c
  {
    hide Staged;
  }

  /** Two stretches of a sequence that has grown in between. */
  lemma Continues<T>(all: seq<T>, all': seq<T>, a: nat, b: nat, c: nat)
    requires all <= all' && a <= b <= |all| && b <= c <= |all'|
    ensures all[a..b] + all'[b..c] == all'[a..c]
  {
  }

  /** What was missed determines what was sent. */
  lemma SentIsTheRest(sent: seq<nat>, other: seq<nat>, missed: seq<nat>, cursor: nat)
    requires Accounts(sent, missed, cursor) && Accounts(other, missed, cursor)
    ensures sent == other
  {
    forall p ensures p in sent <==> p in other {
      assert p in sent ==> p < cursor;
      assert p in other ==> p < cursor;
    }
    ListingIsUnique(sent, other);
  }

  lemma NothingNew<T>(all: seq<T>, capacity: nat)
    ensures First(|all|, |all|, capacity) == |all| && all[|all|..] == [] && Range(|all|, |all|) == []
  {
  }

  // ---- lines through a ring buffer ----

  class CircularBuffer {
    var items: seq<string>
    var totalReceived: nat
    var totalDropped: nat
    const capacity: nat
    ghost var all: seq<string>

    ghost predicate Valid()
      reads this
    {
      && capacity > 0 && totalReceived == |all| && totalDropped == |all| - Min(|all|, capacity)
      && items == all[totalDropped..]
    }

    constructor (capacity: nat)
      requires capacity > 0
      ensures Valid() && all == [] && this.capacity == capacity
    {
      this.capacity, items, totalReceived, totalDropped, all := capacity, [], 0, 0, [];
    }

    method Push(entries: seq<string>)
      requires Valid()
      modifies this
      ensures Valid() && all == old(all) + entries
    {
      totalReceived := totalReceived + |entries|;
      items := items + entries;
      if |items| > capacity {
        var overflow := |items| - capacity;
        items := items[overflow..];
        totalDropped := totalDropped + overflow;
      }
      all := all + entries;
    }
  }

  class OutputStream {
    const buffer: CircularBuffer
    /** False until the collector knows the worker. */
    var registered: bool
    var sentLineCount: nat
    var closed: bool
    /** The lines of every frame written, and whether a `done` frame was. */
    var received: seq<string>
    var done: bool
    ghost var sent: seq<nat>
    ghost var missed: seq<nat>

    ghost predicate Valid()
      reads this, buffer
    {
      && buffer.Valid() && Streamed(buffer.all, received, sent, missed, sentLineCount) && sentLineCount <= |buffer.all|
      && (done ==> closed)
    }

    /** The opening snapshot. */
    constructor (buffer: CircularBuffer, registered: bool)
      requires buffer.Valid() && (!registered ==> buffer.all == [])
      ensures Valid() && fresh(this) && this.buffer == buffer && this.registered == registered && !closed
      ensures received == buffer.items && sentLineCount == |buffer.all| && |missed| == buffer.totalDropped
    {
      this.buffer, this.registered := buffer, registered;
      sentLineCount, received := if registered then buffer.totalReceived else 0, if registered then buffer.items else [];
      closed, done := false, false;
      sent, missed := Range(buffer.totalDropped, |buffer.all|), Range(0, buffer.totalDropped);
      new;
      Advance(buffer.all, [], [], [], 0, buffer.totalDropped);
      hide Streamed;
      assert [] + sent == sent && [] + missed == missed && [] + received == received;
    }

    method Cleanup()
      modifies this`closed
      ensures closed
    {
      closed := true;
    }

    /** One tick: `open` if the response still is, `writes` if a write now succeeds, `active` if the worker is collected. */
    method Poll(open: bool, writes: bool, active: bool)
      requires Valid()
      modifies this
      ensures Valid() && registered == old(registered)
      ensures var n := |buffer.all|; var lo := First(old(sentLineCount), n, buffer.capacity);
        if !old(closed) && open && registered && writes
        then received == old(received) + buffer.all[lo..] && sentLineCount == n
          && missed == old(missed) + Range(old(sentLineCount), lo)
        else received == old(received) && sentLineCount == old(sentLineCount) && missed == old(missed)
      ensures closed <==> old(closed) || !open || (registered && (!active || (!writes && |buffer.all| > sentLineCount)))
      ensures done <==> old(done) || (!old(closed) && open && registered && !active && writes)
    {
      assert buffer.totalReceived == |buffer.all|;
      hide Streamed, First, LastOf, buffer.Valid;
      NothingNew(buffer.all, buffer.capacity);
      if closed { return; }
      if !open {
        Cleanup();
        return;
      }
      if !registered { return; }
      if buffer.totalReceived > sentLineCount {
        var newLines := LastOf(buffer.items, buffer.totalReceived - sentLineCount);
        if writes {
          Deliver(newLines);
        } else {
          Cleanup();
        }
      }
      if !active {
        if !closed && writes { done := true; }
        Cleanup();
      }
    }

    method Deliver(newLines: seq<string>)
      requires Valid() && sentLineCount < |buffer.all|
      requires newLines == LastOf(buffer.items, |buffer.all| - sentLineCount)
      modifies this`received, this`sentLineCount, this`sent, this`missed
      ensures Valid() && sentLineCount == |buffer.all|
      ensures var lo := First(old(sentLineCount), |buffer.all|, buffer.capacity);
        received == old(received) + buffer.all[lo..] && missed == old(missed) + Range(old(sentLineCount), lo)
    {
      ghost var lo := First(sentLineCount, |buffer.all|, buffer.capacity);
      assert newLines == buffer.all[lo..];
      Advance(buffer.all, received, sent, missed, sentLineCount, lo);
      hide Streamed;
      sent, missed := sent + Range(lo, |buffer.all|), missed + Range(sentLineCount, lo);
      received := received + newLines;
      sentLineCount := buffer.totalReceived;
    }

    ghost function Now(): Stage
      reads this, buffer
    {
      Stage(|buffer.all|, sentLineCount, registered, closed, done)
    }

    /** Any schedule of output and ticks leaves the stream where `Staged` says, having missed exactly what its ticks
        skipped. With no overrun each line up to the cursor has gone out, and a tick that delivers takes the cursor to
        the end. */
    method Run(ops: seq<Op>)
      requires Valid()
      modifies this, buffer
      ensures Valid() && old(received) <= received && old(sentLineCount) <= sentLineCount <= |buffer.all|
      ensures Now() == Staged(ops, old(Now()), Next) && buffer.all == old(buffer.all) + Collected(ops, old(Now()))
      ensures missed == old(missed) + Skipped(ops, old(Now()), Next, buffer.capacity)
      ensures missed == old(missed) <==> !Overruns(ops, old(Now()), Next, buffer.capacity)
      ensures !Overruns(ops, old(Now()), Next, buffer.capacity) ==>
        received == old(received) + buffer.all[old(sentLineCount)..sentLineCount]
      ensures ops != [] && Delivers(Staged(ops[..|ops| - 1], old(Now()), Next), ops[|ops| - 1]) ==> sentLineCount == |buffer.all|
    {
      hide *;
      ghost var first, all, was := Now(), buffer.all, received;
      ghost var c, cap := sentLineCount, buffer.capacity;
      var i := 0;
      NothingRun(ops, first, Next, cap);
      NothingCollected(ops, first);
      InBounds();
      while i < |ops|
        invariant 0 <= i <= |ops| && Valid() && c <= sentLineCount <= |buffer.all| && Now() == Staged(ops[..i], first, Next)
        invariant was <= received && buffer.all == all + Collected(ops[..i], first)
        invariant missed == old(missed) + Skipped(ops[..i], first, Next, cap)
        invariant !Overruns(ops[..i], first, Next, cap) ==> received == was + buffer.all[c..sentLineCount]
      {
        ghost var before, lines := sentLineCount, buffer.all;
        InBounds();
        Step(ops[i]);
        InBounds();
        OneMore(ops, first, Next, cap, i);
        OverrunsSnoc(ops, first, Next, cap, i);
        CollectedOneMore(ops, first, i);
        JumpIs(ops, first, Next, cap, i);
        assert lines <= buffer.all;
        Continues(lines, buffer.all, c, before, sentLineCount);
        Associates(was, lines[c..before], buffer.all[before..sentLineCount]);
        Associates(all, Collected(ops[..i], first), LinesOf(ops[i], Staged(ops[..i], first, Next)));
        i := i + 1;
      }
      assert ops[..i] == ops;
      InBounds();
      SkipsNothingExactlyWhen(ops, first, Next, cap);
      if ops != [] && Delivers(Staged(ops[..|ops| - 1], first, Next), ops[|ops| - 1]) { CaughtUp(ops, first); }
    }

    lemma InBounds()
      requires Valid()
      ensures sentLineCount <= |buffer.all| && buffer.all[sentLineCount..sentLineCount] == []
      ensures Now().cursor == sentLineCount && Now().total == |buffer.all|
    {
    }

    method Step(op: Op)
      requires Valid()
      modifies this, buffer
      ensures Valid() && Now() == Next(old(Now()), op) && old(sentLineCount) <= sentLineCount <= |buffer.all|
      ensures buffer.all == old(buffer.all) + LinesOf(op, old(Now()))
      ensures missed == old(missed) + Lost(old(Now()), Now(), buffer.capacity)
      ensures received == old(received) + buffer.all[First(old(sentLineCount), sentLineCount, buffer.capacity)..sentLineCount]
    {
      hide Streamed;
      match op {
        case Register => registered := true;
        case Lines(lines) => if registered { Collect(lines); }
        case Tick(open, writes, active) => Poll(open, writes, active);
      }
    }

    method Collect(lines: seq<string>)
      requires Valid()
      modifies buffer
      ensures Valid() && buffer.all == old(buffer.all) + lines
    {
      Grow(buffer.all, lines, received, sent, missed, sentLineCount);
      hide Streamed;
      buffer.Push(lines);
    }
  }

  datatype Op = Register | Lines(lines: seq<string>) | Tick(open: bool, writes: bool, active: bool)

  /** A tick that writes what is waiting. */
  predicate Delivers(s: Stage, op: Op) { op.Tick? && op.open && op.writes && s.known && !s.closed }

  function Next(s: Stage, op: Op): Stage {
    match op
    case Register => s.(known := true)
    case Lines(_) => s.(total := s.total + |LinesOf(op, s)|)
    case Tick(open, writes, active) =>
      if s.closed then s
      else if !open then s.(closed := true)
      else if !s.known then s
      else s.(cursor := if Delivers(s, op) then s.total else s.cursor,
              closed := !active || (!writes && s.total > s.cursor), done := s.done || (!active && writes))
  }

  /** Nothing is collected of a worker not yet known. */
  function LinesOf(op: Op, s: Stage): seq<string> { if op.Lines? && s.known then op.lines else [] }

  /** All that is collected over a schedule. */
  function Collected(ops: seq<Op>, s: Stage): seq<string> {
    if ops == [] then []
    else var init := ops[..|ops| - 1]; Collected(init, s) + LinesOf(ops[|ops| - 1], Staged(init, s, Next))
  }

  lemma NothingCollected(ops: seq<Op>, s: Stage)
    ensures Collected(ops[..0], s) == []
  {
  }

  /** A last tick that delivers takes the cursor to the end. */
  lemma CaughtUp(ops: seq<Op>, s: Stage)
    requires ops != [] && Delivers(Staged(ops[..|ops| - 1], s, Next), ops[|ops| - 1])
    ensures Staged(ops, s, Next).cursor == Staged(ops, s, Next).total
  {
  }

  lemma CollectedOneMore(ops: seq<Op>, s: Stage, i: nat)
    requires i < |ops|
    ensures Collected(ops[..i + 1], s) == Collected(ops[..i], s) + LinesOf(ops[i], Staged(ops[..i], s, Next))
  {
    hide LinesOf, Staged;
    assert ops[..i + 1][..i] == ops[..i];
  }

  /** The tick that writes the `done` frame. */
  predicate Ends(s: Stage, op: Op) { Delivers(s, op) && !op.active }

  predicate DrainedAt(ops: seq<Op>, s: Stage, k: nat, cursor: nat)
    requires k < |ops|
  {
    var at := Staged(ops[..k], s, Next);
    Ends(at, ops[k]) && cursor == at.total
  }

  /** By its `done` frame a stream has dealt with all that had come. */
  lemma {:induction false} DoneIsDrained(ops: seq<Op>, s: Stage)
    requires !s.done && Staged(ops, s, Next).done
    ensures Staged(ops, s, Next).closed
    ensures exists k: nat :: k < |ops| && DrainedAt(ops, s, k, Staged(ops, s, Next).cursor)
  {
    var n := |ops| - 1;
    var before := Staged(ops[..n], s, Next);
    if before.done {
      DoneIsDrained(ops[..n], s);
      var k: nat :| k < n && DrainedAt(ops[..n], s, k, before.cursor);
      assert ops[..n][..k] == ops[..k];
      assert DrainedAt(ops, s, k, before.cursor);
    } else {
      assert DrainedAt(ops, s, n, before.total);
    }
  }

  // ---- events through a capped log read ----

  datatype LogEvent = LogEvent(number: int, text: string)

  const MAX_EVENTS: nat := 10000

  /** As its one writer numbers them: from one, strictly increasing. */
  predicate Numbered(events: seq<LogEvent>) {
    && (forall i | 0 <= i < |events| :: events[i].number > 0)
    && forall i, j | 0 <= i < j < |events| :: events[i].number < events[j].number
  }

  function Fresh(events: seq<LogEvent>, after: int): seq<LogEvent> {
    if events == [] then []
    else
      var n := |events| - 1;
      var rest := Fresh(events[..n], after);
      if events[n].number > after then rest + [events[n]] else rest
  }

  /** An event numbered zero or less never reaches any client. */
  lemma {:induction false} NeverBelowOne(events: seq<LogEvent>, after: int, e: LogEvent)
    requires after >= 0 && e.number <= 0
    ensures e !in Fresh(events, after)
  {
    if events != [] { NeverBelowOne(events[..|events| - 1], after, e); }
  }

  /** The number of the event before the cursor. */
  function Last(events: seq<LogEvent>, cursor: nat): int
    requires cursor <= |events|
  {
    if cursor == 0 then 0 else events[cursor - 1].number
  }

  lemma {:induction false} FreshIsTheRest(events: seq<LogEvent>, cursor: nat)
    requires Numbered(events) && cursor <= |events|
    ensures Fresh(events, Last(events, cursor)) == events[cursor..]
  {
    var n := |events| - 1;
    if cursor <= n {
      FreshIsTheRest(events[..n], cursor);
      assert events[cursor..] == events[..n][cursor..] + [events[n]];
    } else {
      FreshOfOld(events, Last(events, cursor));
    }
  }

  lemma {:induction false} FreshOfOld(events: seq<LogEvent>, after: int)
    requires forall i | 0 <= i < |events| :: events[i].number <= after
    ensures Fresh(events, after) == []
  {
    if events != [] { FreshOfOld(events[..|events| - 1], after); }
  }

  function MaxOf(events: seq<LogEvent>): int {
    if events == [] then 0
    else
      var n := |events| - 1;
      var max := MaxOf(events[..n]);
      if events[n].number > max then events[n].number else max
  }

  method MaxSeq(events: seq<LogEvent>) returns (max: int)
    ensures max == MaxOf(events)
    ensures max >= 0 && forall i | 0 <= i < |events| :: events[i].number <= max
    ensures max == 0 || exists i :: 0 <= i < |events| && events[i].number == max
  {
    max := 0;
    for i := 0 to |events|
      invariant max == MaxOf(events[..i])
      invariant max >= 0 && forall k | 0 <= k < i :: events[k].number <= max
      invariant max == 0 || exists k :: 0 <= k < i && events[k].number == max
    {
      assert events[..i + 1][..i] == events[..i];
      if events[i].number > max { max := events[i].number; }
    }
    assert events[..|events|] == events;
  }

  lemma {:induction false} MaxIsLast(events: seq<LogEvent>)
    requires Numbered(events)
    ensures MaxOf(events) == Last(events, |events|)
  {
    if events != [] { MaxIsLast(events[..|events| - 1]); }
  }

  lemma BatchIs(file: seq<LogEvent>, cursor: nat, batch: seq<LogEvent>)
    requires Numbered(file) && cursor <= |file| && batch == LastOf(Fresh(file, Last(file, cursor)), MAX_EVENTS)
    ensures batch == file[First(cursor, |file|, MAX_EVENTS)..]
    ensures batch == [] <==> cursor == |file|
    ensures batch != [] ==> MaxOf(batch) == Last(file, |file|)
  {
    FreshIsTheRest(file, cursor);
    hide Fresh;
    if cursor < |file| { MaxIsLast(batch); }
  }

  class LogStream {
    var file: seq<LogEvent>
    var lastSeq: int
    var everActive: bool
    var closed: bool
    var received: seq<LogEvent>
    var done: bool
    /** How much of the file has been sent or missed. */
    ghost var cursor: nat
    ghost var sent: seq<nat>
    ghost var missed: seq<nat>

    ghost predicate Valid()
      reads this
    {
      && Numbered(file) && cursor <= |file| && lastSeq == Last(file, cursor)
      && Streamed(file, received, sent, missed, cursor)
    }

    /** The opening backfill; an unreadable log reads as empty. */
    constructor (file: seq<LogEvent>, readable: bool, active: bool)
      requires Numbered(file)
      ensures Valid() && this.file == file && everActive == active && !closed && !done
      ensures if readable then received == file[First(0, |file|, MAX_EVENTS)..] && cursor == |file| && |missed| == First(0, |file|, MAX_EVENTS)
        else received == [] && cursor == 0 && missed == []
    {
      this.file, everActive, closed, done, lastSeq, received := file, active, false, false, 0, [];
      cursor, sent, missed := 0, [], [];
      new;
      var backfill := ReadLogEvents(0, readable);
      if readable { Deliver(backfill); }
    }

    method ReadLogEvents(afterSeq: int, readable: bool) returns (events: seq<LogEvent>)
      ensures events == if readable then LastOf(Fresh(file, afterSeq), MAX_EVENTS) else []
    {
      events := [];
      if !readable { return; }
      for i := 0 to |file|
        invariant events == Fresh(file[..i], afterSeq)
      {
        assert file[..i + 1][..i] == file[..i];
        if file[i].number > afterSeq { events := events + [file[i]]; }
      }
      assert file[..|file|] == file;
      if |events| > MAX_EVENTS { events := events[|events| - MAX_EVENTS..]; }
    }

    method Append(events: seq<LogEvent>)
      requires Valid() && Numbered(file + events)
      modifies this`file
      ensures Valid() && file == old(file) + events
    {
      Grow(file, events, received, sent, missed, cursor);
      hide Streamed;
      file := file + events;
    }

    method Deliver(batch: seq<LogEvent>)
      requires Valid() && batch == LastOf(Fresh(file, lastSeq), MAX_EVENTS)
      modifies this`received, this`lastSeq, this`cursor, this`sent, this`missed
      ensures Valid() && cursor == |file|
      ensures var lo := First(old(cursor), |file|, MAX_EVENTS);
        received == old(received) + file[lo..] && missed == old(missed) + Range(old(cursor), lo)
    {
      hide Streamed, Fresh, MaxOf, LastOf, Numbered, Range;
      ghost var lo := First(cursor, |file|, MAX_EVENTS);
      BatchIs(file, cursor, batch);
      Advance(file, received, sent, missed, cursor, lo);
      var max := MaxSeq(batch);
      if batch != [] { lastSeq := max; }
      received := received + batch;
      sent, missed, cursor := sent + Range(lo, |file|), missed + Range(cursor, lo), |file|;
    }

    /** One tick; `readable` says whether the log can be read now. */
    method Poll(open: bool, readable: bool, writes: bool, active: bool)
      requires Valid()
      modifies this
      ensures Valid() && file == old(file)
      ensures var lo := First(old(cursor), |file|, MAX_EVENTS);
        if !old(closed) && open && readable && writes
        then received == old(received) + file[lo..] && cursor == |file| && missed == old(missed) + Range(old(cursor), lo)
        else received == old(received) && cursor == old(cursor) && missed == old(missed)
      ensures var failed := readable && !writes && |file| > old(cursor);
        && (closed <==> old(closed) || !open || failed || (!active && old(everActive)))
        && (everActive <==> old(everActive) || (!old(closed) && open && !failed && active))
        && (done <==> old(done) || (!old(closed) && open && !failed && !active && old(everActive) && writes))
    {
      hide Streamed, Fresh, First, LastOf, Numbered;
      NothingNew(file, MAX_EVENTS);
      if closed { return; }
      if !open {
        closed := true;
        return;
      }
      var batch := ReadLogEvents(lastSeq, readable);
      if readable { BatchIs(file, cursor, batch); }
      if batch != [] {
        if !writes {
          closed := true;
          return;
        }
        Deliver(batch);
      }
      if active {
        everActive := true;
      } else if everActive {
        done := done || writes;
        closed := true;
      }
    }

    ghost function Now(): Stage
      reads this
    {
      Stage(|file|, cursor, everActive, closed, done)
    }

    /** Any schedule of appends and ticks on a log numbered as its writer numbers it leaves the stream where `Staged`
        says, having missed exactly what its ticks skipped. With no overrun each event up to the cursor has gone out, and
        a tick that delivers takes the cursor to the end. */
    method Run(ops: seq<LogOp>)
      requires Valid() && Numbered(file + Appended(ops))
      modifies this
      ensures Valid() && file == old(file) + Appended(ops) && old(received) <= received && old(cursor) <= cursor <= |file|
      ensures Now() == Staged(ops, old(Now()), LogNext)
      ensures missed == old(missed) + Skipped(ops, old(Now()), LogNext, MAX_EVENTS)
      ensures missed == old(missed) <==> !Overruns(ops, old(Now()), LogNext, MAX_EVENTS)
      ensures !Overruns(ops, old(Now()), LogNext, MAX_EVENTS) ==> received == old(received) + file[old(cursor)..cursor]
      ensures ops != [] && LogDelivers(Staged(ops[..|ops| - 1], old(Now()), LogNext), ops[|ops| - 1]) ==> cursor == |file|
    {
      hide *;
      ghost var first, start, was := Now(), file, received;
      ghost var c, cap := cursor, MAX_EVENTS;
      var i := 0;
      NothingRun(ops, first, LogNext, cap);
      NothingAppended(ops);
      InBounds();
      while i < |ops|
        invariant 0 <= i <= |ops| && Valid() && c <= cursor <= |file| && Now() == Staged(ops[..i], first, LogNext)
        invariant was <= received && file == start + Appended(ops[..i])
        invariant missed == old(missed) + Skipped(ops[..i], first, LogNext, cap)
        invariant !Overruns(ops[..i], first, LogNext, cap) ==> received == was + file[c..cursor]
      {
        ghost var before, events := cursor, file;
        AppendedOneMore(start, ops, i);
        InBounds();
        Step(ops[i]);
        InBounds();
        OneMore(ops, first, LogNext, cap, i);
        OverrunsSnoc(ops, first, LogNext, cap, i);
        JumpIs(ops, first, LogNext, cap, i);
        assert events <= file;
        Continues(events, file, c, before, cursor);
        Associates(was, events[c..before], file[before..cursor]);
        i := i + 1;
      }
      assert ops[..i] == ops;
      InBounds();
      SkipsNothingExactlyWhen(ops, first, LogNext, cap);
      if ops != [] && LogDelivers(Staged(ops[..|ops| - 1], first, LogNext), ops[|ops| - 1]) { LogCaughtUp(ops, first); }
    }

    lemma InBounds()
      requires Valid()
      ensures cursor <= |file| && file[cursor..cursor] == []
      ensures Now().cursor == cursor && Now().total == |file|
    {
    }

    method Step(op: LogOp)
      requires Valid() && Numbered(file + EventsOf(op))
      modifies this
      ensures Valid() && Now() == LogNext(old(Now()), op) && old(cursor) <= cursor <= |file|
      ensures file == old(file) + EventsOf(op)
      ensures missed == old(missed) + Lost(old(Now()), Now(), MAX_EVENTS)
      ensures received == old(received) + file[First(old(cursor), cursor, MAX_EVENTS)..cursor]
    {
      hide Streamed, Numbered;
      match op {
        case Write(events) => Append(events);
        case Check(open, readable, writes, active) => Poll(open, readable, writes, active);
      }
    }
  }

  datatype LogOp = Write(events: seq<LogEvent>) | Check(open: bool, readable: bool, writes: bool, active: bool)

  function EventsOf(op: LogOp): seq<LogEvent> { if op.Write? then op.events else [] }

  /** All that is appended over a schedule. */
  function Appended(ops: seq<LogOp>): seq<LogEvent> {
    if ops == [] then [] else Appended(ops[..|ops| - 1]) + EventsOf(ops[|ops| - 1])
  }

  lemma {:induction false} AppendedOneMore(start: seq<LogEvent>, ops: seq<LogOp>, i: nat)
    requires i < |ops| && Numbered(start + Appended(ops))
    ensures Appended(ops[..i + 1]) == Appended(ops[..i]) + EventsOf(ops[i])
    ensures Numbered((start + Appended(ops[..i])) + EventsOf(ops[i]))
    ensures (start + Appended(ops[..i])) + EventsOf(ops[i]) == start + Appended(ops[..i + 1])
    decreases |ops|
  {
    hide Numbered, EventsOf;
    assert ops[..i + 1][..i] == ops[..i];
    var n := |ops| - 1;
    if i < n {
      assert ops[..n][..i + 1] == ops[..i + 1] && ops[..n][..i] == ops[..i];
      assert start + Appended(ops) == (start + Appended(ops[..n])) + EventsOf(ops[n]);
      NumberedPrefix(start + Appended(ops[..n]), EventsOf(ops[n]));
      AppendedOneMore(start, ops[..n], i);
    } else {
      assert ops[..i + 1] == ops;
      assert start + Appended(ops) == (start + Appended(ops[..i])) + EventsOf(ops[i]);
    }
  }

  lemma NothingAppended(ops: seq<LogOp>)
    ensures Appended(ops[..0]) == []
  {
  }

  /** A last check that delivers takes the cursor to the end. */
  lemma LogCaughtUp(ops: seq<LogOp>, s: Stage)
    requires ops != [] && LogDelivers(Staged(ops[..|ops| - 1], s, LogNext), ops[|ops| - 1])
    ensures Staged(ops, s, LogNext).cursor == Staged(ops, s, LogNext).total
  {
  }

  lemma NumberedPrefix(a: seq<LogEvent>, b: seq<LogEvent>)
    requires Numbered(a + b)
    ensures Numbered(a)
  {
    assert forall i | 0 <= i < |a| :: a[i] == (a + b)[i];
  }

  /** A check that reads the log and writes what is waiting. */
  predicate LogDelivers(s: Stage, op: LogOp) { op.Check? && op.open && op.readable && op.writes && !s.closed }

  /** A check that reads events and cannot write them. */
  predicate LogBreaks(s: Stage, op: LogOp) { op.Check? && op.readable && !op.writes && s.total > s.cursor }

  function LogNext(s: Stage, op: LogOp): Stage {
    match op
    case Write(events) => s.(total := s.total + |events|)
    case Check(open, readable, writes, active) =>
      if s.closed then s
      else if !open || LogBreaks(s, op) then s.(closed := true)
      else Stage(s.total, if LogDelivers(s, op) then s.total else s.cursor, s.known || active,
                 s.known && !active, s.done || (s.known && !active && writes))
  }

  /** The check that writes the `done` frame. */
  predicate LogEnds(s: Stage, op: LogOp) { op.Check? && op.open && op.writes && s.known && !op.active && !s.closed }

  /** Check `k` ends the stream, at `cursor`: the end of what had come, unless its read failed with events waiting. */
  predicate LogEndedAt(ops: seq<LogOp>, s: Stage, k: nat, cursor: nat)
    requires k < |ops|
  {
    var at := Staged(ops[..k], s, LogNext);
    LogEnds(at, ops[k]) && (cursor == at.total <==> ops[k].readable || at.cursor == at.total)
  }

  /** The `done` frame comes with everything dealt with, unless the last read failed with events waiting; and exactly then. */
  lemma {:induction false} LogDoneIsDrainedExactlyWhen(ops: seq<LogOp>, s: Stage)
    requires !s.done && Staged(ops, s, LogNext).done
    ensures Staged(ops, s, LogNext).closed
    ensures exists k: nat :: k < |ops| && LogEndedAt(ops, s, k, Staged(ops, s, LogNext).cursor)
  {
    var n := |ops| - 1;
    var before := Staged(ops[..n], s, LogNext);
    if before.done {
      LogDoneIsDrainedExactlyWhen(ops[..n], s);
      var k: nat :| k < n && LogEndedAt(ops[..n], s, k, before.cursor);
      assert ops[..n][..k] == ops[..k];
      assert LogEndedAt(ops, s, k, before.cursor);
    } else {
      assert LogEndedAt(ops, s, n, Staged(ops, s, LogNext).cursor);
    }
  }

  /** Such a `done` frame: the one event appended is never sent. */
  lemma DoneLeavesEvents(e: LogEvent)
    ensures var end := Staged([Write([e]), Check(true, false, true, false)], Stage(0, 0, true, false, false), LogNext);
      end.done && end.closed && end.cursor == 0 < end.total
  {
    var ops, start := [Write([e]), Check(true, false, true, false)], Stage(0, 0, true, false, false);
    NothingRun(ops, start, LogNext, MAX_EVENTS);
    OneMore(ops, start, LogNext, MAX_EVENTS, 0);
    OneMore(ops, start, LogNext, MAX_EVENTS, 1);
    assert ops[..2] == ops;
    hide Staged;
  }
}
