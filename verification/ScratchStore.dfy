/** The checkpoint directory of one session: atomic publication, a sequence resumed from disk, retention of five.
    Any file operation may be the last one to succeed; the caller then goes on, or a new process reopens. */
module ScratchStores {
  import opened Options
  import opened Sequences

  const RETENTION: nat := 5

  /** A file is torn from its creation until it is written out. */
  datatype Content = Torn | Whole(body: string)

  datatype Payload = Malformed | Payload(body: string)

  datatype Checkpoint = Checkpoint(index: nat, content: Content)

  /** The name of a temporary file; the checksum in it is that of `body`. */
  datatype Temp = Temp(index: nat, body: string, pid: nat)

  datatype ReadResult = Empty | Ok(index: nat, body: string) | Corrupt(index: nat)

  /** Strictly increasing indices. */
  predicate Ordered(log: seq<Checkpoint>) { forall i, j | 0 <= i < j < |log| :: log[i].index < log[j].index }

  function Indices(log: seq<Checkpoint>): (s: seq<nat>)
    ensures |s| == |log|
  {
    if log == [] then [] else Indices(log[..|log| - 1]) + [log[|log| - 1].index]
  }

  function OnDisk(log: seq<Checkpoint>): map<nat, Content> {
    if log == [] then map[] else OnDisk(log[..|log| - 1])[log[|log| - 1].index := log[|log| - 1].content]
  }

  lemma {:induction false} IndicesAre(log: seq<Checkpoint>)
    ensures forall i | 0 <= i < |log| :: Indices(log)[i] == log[i].index
    ensures forall i :: i in Indices(log) <==> i in OnDisk(log)
    ensures Ordered(log) ==> Increasing(Indices(log))
  {
    if log != [] {
      IndicesAre(log[..|log| - 1]);
    }
  }

  lemma {:induction false} OnDiskHolds(log: seq<Checkpoint>, k: nat)
    requires Ordered(log) && k < |log|
    ensures log[k].index in OnDisk(log) && OnDisk(log)[log[k].index] == log[k].content
  {
    if k < |log| - 1 { OnDiskHolds(log[..|log| - 1], k); }
  }

  /** Removing the oldest file. */
  lemma {:induction false} WithoutOldest(log: seq<Checkpoint>)
    requires Ordered(log) && log != []
    ensures OnDisk(log) - {log[0].index} == OnDisk(log[1..])
  {
    var n := |log| - 1;
    if n > 0 {
      WithoutOldest(log[..n]);
      assert log[..n][1..] == log[1..][..n - 1];
      assert log[0].index < log[n].index;
    }
  }

  function Insert(s: seq<nat>, x: nat): seq<nat> {
    if s == [] || s[|s| - 1] < x then s + [x] else Insert(s[..|s| - 1], x) + [s[|s| - 1]]
  }

  lemma {:induction false} InsertIs(s: seq<nat>, x: nat)
    requires Increasing(s) && x !in s
    ensures Increasing(Insert(s, x)) && forall i :: i in Insert(s, x) <==> i in s || i == x
  {
    if s == [] || s[|s| - 1] < x {
      assert Insert(s, x) == s + [x];
    } else {
      var n := |s| - 1;
      assert Insert(s, x) == Insert(s[..n], x) + [s[n]];
      LastIsGreatest(s);
      hide *;
      InsertIs(s[..n], x);
      GreaterGoesLast(Insert(s[..n], x), s[n]);
    }
  }

  lemma GreaterGoesLast(s: seq<nat>, x: nat)
    requires Increasing(s) && forall i | i in s :: i < x
    ensures Increasing(s + [x])
  {
    assert forall i | 0 <= i < |s| :: s[i] in s;
  }

  /** What a directory holds, as published before this run. */
  function Found(names: seq<nat>, disk: map<nat, Content>): seq<Checkpoint>
    requires forall i | i in names :: i in disk
  {
    if names == [] then []
    else var n := |names| - 1; Found(names[..n], disk) + [Checkpoint(names[n], disk[names[n]])]
  }

  lemma {:induction false} FoundIs(names: seq<nat>, disk: map<nat, Content>)
    requires Increasing(names) && forall i | i in names :: i in disk
    ensures |Found(names, disk)| == |names|
    ensures forall i | 0 <= i < |names| :: Found(names, disk)[i] == Checkpoint(names[i], disk[names[i]])
  {
    if names != [] { FoundIs(names[..|names| - 1], disk); }
  }

  // ---- the directory holds a suffix of everything ever published ----

  ghost predicate Kept(log: seq<Checkpoint>, gone: nat, disk: map<nat, Content>) {
    && Ordered(log) && gone <= |log| && disk == OnDisk(log[gone..]) && (gone > 0 ==> |log| - gone >= RETENTION)
  }

  lemma {:induction false} FoundOnDisk(names: seq<nat>, disk: map<nat, Content>)
    requires Increasing(names) && forall i | i in names :: i in disk
    ensures OnDisk(Found(names, disk)) == map i | i in disk && i in names :: disk[i]
  {
    if names != [] {
      var n := |names| - 1;
      FoundLast(names, disk);
      assert forall i | i in names[..n] :: i in names;
      FoundOnDisk(names[..n], disk);
      OnDiskSnoc(Found(names[..n], disk), Checkpoint(names[n], disk[names[n]]));
      hide *;
      OneMoreName(names, disk);
    }
  }

  lemma FoundLast(names: seq<nat>, disk: map<nat, Content>)
    requires Increasing(names) && names != [] && forall i | i in names :: i in disk
    ensures var n := |names| - 1;
      && Increasing(names[..n]) && (forall i | i in names[..n] :: i in disk)
      && Found(names, disk) == Found(names[..n], disk) + [Checkpoint(names[n], disk[names[n]])]
  {
  }

  lemma OneMoreName(names: seq<nat>, disk: map<nat, Content>)
    requires names != [] && forall i | i in names :: i in disk
    ensures var n := |names| - 1;
      (map i | i in disk && i in names :: disk[i]) == (map i | i in disk && i in names[..n] :: disk[i])[names[n] := disk[names[n]]]
  {
    var n := |names| - 1;
    assert names == names[..n] + [names[n]];
  }

  lemma FoundIsKept(names: seq<nat>, disk: map<nat, Content>)
    requires Increasing(names) && forall i :: i in names <==> i in disk
    ensures Kept(Found(names, disk), 0, disk) && |Found(names, disk)| == |names|
    ensures names != [] ==> Found(names, disk)[|names| - 1].index == names[|names| - 1]
  {
    FoundIs(names, disk);
    FoundOnDisk(names, disk);
    var log := Found(names, disk);
    hide Found, OnDisk, Indices;
    assert log[0..] == log;
    assert disk == map i | i in disk && i in names :: disk[i];
  }

  lemma OnDiskSnoc(log: seq<Checkpoint>, c: Checkpoint)
    ensures OnDisk(log + [c]) == OnDisk(log)[c.index := c.content]
  {
    assert (log + [c])[..|log|] == log;
  }

  lemma Listing(log: seq<Checkpoint>, gone: nat, disk: map<nat, Content>, names: seq<nat>)
    requires Kept(log, gone, disk) && Increasing(names) && forall i :: i in names <==> i in disk
    ensures |names| == |log| - gone && Excess(|log|) == gone + Excess(|names|)
    ensures forall k | 0 <= k < |names| :: names[k] == log[gone + k].index
  {
    IndicesAre(log[gone..]);
    hide OnDisk, Indices;
    ListingIsUnique(names, Indices(log[gone..]));
  }

  /** The last listed file is the last published checkpoint. */
  lemma Newest(log: seq<Checkpoint>, gone: nat, disk: map<nat, Content>, names: seq<nat>)
    requires Kept(log, gone, disk) && Increasing(names) && forall i :: i in names <==> i in disk
    ensures names == [] <==> log == []
    ensures names != [] ==> var c := log[|log| - 1]; names[|names| - 1] == c.index && c.index in disk && disk[c.index] == c.content
  {
    hide OnDisk;
    Listing(log, gone, disk, names);
    if log != [] { OnDiskHolds(log[gone..], |log| - gone - 1); }
  }

  lemma Publish(log: seq<Checkpoint>, gone: nat, disk: map<nat, Content>, c: Checkpoint)
    requires Kept(log, gone, disk) && (log != [] ==> log[|log| - 1].index < c.index)
    ensures Kept(log + [c], gone, disk[c.index := c.content])
  {
    hide OnDisk;
    assert (log + [c])[gone..] == log[gone..] + [c];
    OnDiskSnoc(log[gone..], c);
  }

  lemma RemoveOldest(log: seq<Checkpoint>, gone: nat, disk: map<nat, Content>)
    requires Kept(log, gone, disk) && |log| - gone > RETENTION
    ensures Kept(log, gone + 1, disk - {log[gone].index})
  {
    hide OnDisk;
    WithoutOldest(log[gone..]);
    assert log[gone..][1..] == log[gone + 1..];
  }

  function Excess(n: int): nat { if n > RETENTION then n - RETENTION else 0 }

  /** A reader checks the checksum, which a torn file fails. */
  function Read(c: Checkpoint): ReadResult {
    if c.content.Whole? then Ok(c.index, c.content.body) else Corrupt(c.index)
  }

  /** A write that some operation may cut short, or the end of one process and the start of the next. */
  datatype Op = Write(payload: Payload, lives: nat) | Restart(pid: nat)

  // ---- what operations do, without the store ----

  /** Every checkpoint ever published, oldest first, of which the first `gone` have been removed; and the rest a store
      goes by. */
  datatype State = State(log: seq<Checkpoint>, gone: nat, temporaries: map<Temp, Content>, sequence: nat, pid: nat)

  function LastIndex(log: seq<Checkpoint>): nat { if log == [] then 0 else log[|log| - 1].index }

  function NextTemp(s: State, body: string): Temp { Temp(s.sequence + 1, body, s.pid) }

  /** A write that gets past its rename: creating the temporary file, which must not exist, writing it out, renaming it. */
  predicate Publishes(s: State, op: Op) {
    op.Write? && op.payload.Payload? && op.lives >= 3 && NextTemp(s, op.payload.body) !in s.temporaries
  }

  function Published(s: State, op: Op): Checkpoint
    requires op.Write? && op.payload.Payload?
  {
    Checkpoint(s.sequence + 1, Whole(op.payload.body))
  }

  /** How many of the oldest files a write removes: what its mode change leaves of its operations, and no more than are
      over the number. */
  function Removals(lives: nat, excess: nat): nat { if lives < 4 then 0 else if lives - 4 < excess then lives - 4 else excess }

  function After(s: State, op: Op): State {
    match op
    case Restart(pid) => s.(sequence := LastIndex(s.log), pid := pid)
    case Write(payload, lives) =>
      if payload.Malformed? then s
      else if Publishes(s, op) then
        s.(log := s.log + [Published(s, op)], sequence := s.sequence + 1,
           gone := s.gone + Removals(lives, Excess(|s.log| + 1 - s.gone)))
      else if NextTemp(s, payload.body) in s.temporaries || lives == 0 then s.(sequence := s.sequence + 1)
      else
        s.(sequence := s.sequence + 1,
           temporaries := s.temporaries[NextTemp(s, payload.body) := if lives == 1 then Torn else Whole(payload.body)])
  }

  /** A receipt is given when nothing failed. */
  function ReceiptOf(s: State, op: Op): Option<nat> {
    if Publishes(s, op) && op.lives >= 4 + Excess(|s.log| + 1 - s.gone) then Some(s.sequence + 1) else None
  }

  /** What a reader finds. */
  function Latest(s: State): ReadResult { if s.log == [] then Empty else Read(s.log[|s.log| - 1]) }

  function Steps(s: State, ops: seq<Op>): State {
    if ops == [] then s else After(Steps(s, ops[..|ops| - 1]), ops[|ops| - 1])
  }

  function Receipts(s: State, ops: seq<Op>): (receipts: seq<Option<nat>>)
    ensures |receipts| == |ops|
  {
    if ops == [] then []
    else var n := |ops| - 1; Receipts(s, ops[..n]) + [ReceiptOf(Steps(s, ops[..n]), ops[n])]
  }

  class ScratchStore {
    var checkpoints: map<nat, Content>
    var temporaries: map<Temp, Content>
    var sequence: nat
    var pid: nat
    /** Every checkpoint ever published here, oldest first, of which the first `gone` have been removed. */
    ghost var log: seq<Checkpoint>
    ghost var gone: nat

    ghost function Now(): State
      reads this
    {
      State(log, gone, temporaries, sequence, pid)
    }

    ghost predicate Valid()
      reads this
    {
      Kept(log, gone, checkpoints) && LastIndex(log) <= sequence
    }

    /** Opened on whatever the directory holds. */
    constructor (checkpoints: map<nat, Content>, temporaries: map<Temp, Content>, pid: nat)
      ensures Valid() && this.checkpoints == checkpoints && this.temporaries == temporaries && this.pid == pid
        && gone == 0
      ensures sequence == LastIndex(log)
    {
      this.checkpoints, this.temporaries, this.pid := checkpoints, temporaries, pid;
      sequence, log, gone := 0, [], 0;
      new;
      hide Kept, Found;
      var names := Files();
      FoundIsKept(names, checkpoints);
      log := Found(names, checkpoints);
      sequence := if names == [] then 0 else names[|names| - 1];
    }

    /** The listing of the directory, by index. */
    method Files() returns (names: seq<nat>)
      ensures Increasing(names) && forall i :: i in names <==> i in checkpoints
    {
      names := [];
      var left := checkpoints.Keys;
      while left != {}
        invariant Increasing(names) && left <= checkpoints.Keys
        invariant forall i :: i in names <==> i in checkpoints && i !in left
        decreases |left|
      {
        var i :| i in left;
        InsertIs(names, i);
        names, left := Insert(names, i), left - {i};
      }
    }

    /** A new process resumes the sequence from what is published. */
    method Reopen(pid: nat)
      requires Valid()
      modifies this`sequence, this`pid
      ensures Valid() && Now() == After(old(Now()), Restart(pid))
    {
      var names := Files();
      hide Kept;
      Newest(log, gone, checkpoints, names);
      this.pid := pid;
      sequence := if names == [] then 0 else names[|names| - 1];
    }

    /** Publish a checkpoint; `lives` file operations succeed before one fails: creating the temporary file,
        writing it, renaming it, restricting its mode, and each removal. */
    method WriteCheckpoint(payload: Payload, lives: nat) returns (receipt: Option<nat>)
      requires Valid()
      modifies this
      ensures Valid() && Now() == After(old(Now()), Write(payload, lives))
      ensures receipt == ReceiptOf(old(Now()), Write(payload, lives))
    {
      hide Kept, LastIndex;
      if payload.Malformed? { return None; }
      sequence := sequence + 1;
      var temporary := Temp(sequence, payload.body, pid);
      if lives == 0 || temporary in temporaries { return None; }
      temporaries := temporaries[temporary := Torn];
      if lives == 1 { return None; }
      temporaries := temporaries[temporary := Whole(payload.body)];
      if lives == 2 { return None; }
      Rename(temporary);
      var removed := RemoveStale(lives - 3);
      receipt := if removed then Some(sequence) else None;
    }

    method Rename(temporary: Temp)
      requires Valid() && temporary in temporaries && temporary.index == sequence
      requires LastIndex(log) < sequence
      modifies this`checkpoints, this`temporaries, this`log
      ensures Valid() && log == old(log) + [Checkpoint(sequence, old(temporaries)[temporary])]
      ensures temporaries == old(temporaries) - {temporary}
    {
      hide Kept;
      var content := temporaries[temporary];
      Publish(log, gone, checkpoints, Checkpoint(sequence, content));
      checkpoints := checkpoints[sequence := content];
      temporaries := temporaries - {temporary};
      log := log + [Checkpoint(sequence, content)];
    }

    /** Restrict the new file's mode, then remove all but the newest five, oldest first. */
    method RemoveStale(lives: nat) returns (removed: bool)
      requires Valid() && log != []
      modifies this`checkpoints, this`gone
      ensures Valid() && gone <= |log| && gone == old(gone) + Removals(lives + 3, Excess(|log| - old(gone)))
      ensures removed <==> lives > Excess(|log| - old(gone))
    {
      assert gone <= |log|;
      hide Kept;
      if lives == 0 { return false; }
      var names := Files();
      Listing(log, gone, checkpoints, names);
      var stale := Excess(|names|);
      var i := 0;
      while i < stale
        invariant 0 <= i <= stale && i < lives && Valid() && gone == old(gone) + i
      {
        if lives - 1 <= i { return false; }
        Remove(names[i]);
        i := i + 1;
      }
      return true;
    }

    method Remove(index: nat)
      requires Valid() && |log| - gone > RETENTION && index == log[gone].index
      modifies this`checkpoints, this`gone
      ensures Valid() && gone == old(gone) + 1
    {
      hide Kept;
      RemoveOldest(log, gone, checkpoints);
      checkpoints := checkpoints - {index};
      gone := gone + 1;
    }

    method ReadLatestCheckpoint() returns (latest: ReadResult)
      requires Valid()
      ensures latest == Latest(Now())
    {
      var names := Files();
      hide Kept;
      Newest(log, gone, checkpoints, names);
      if names == [] { return Empty; }
      var index := names[|names| - 1];
      latest := Read(Checkpoint(index, checkpoints[index]));
    }

    /** Any run of writes, failures at any point of them, and restarts. */
    method Run(ops: seq<Op>) returns (receipts: seq<Option<nat>>)
      requires Valid()
      modifies this
      ensures Valid() && Now() == Steps(old(Now()), ops) && receipts == Receipts(old(Now()), ops)
    {
      hide *;
      receipts := [];
      NothingYet(Now(), ops);
      while |receipts| < |ops|
        invariant |receipts| <= |ops| && Valid()
        invariant Now() == Steps(old(Now()), ops[..|receipts|]) && receipts == Receipts(old(Now()), ops[..|receipts|])
      {
        var i, receipt := |receipts|, None;
        OneMoreOp(old(Now()), ops, i);
        NoReceipt(Now(), ops[i]);
        match ops[i] {
          case Write(payload, lives) => receipt := WriteCheckpoint(payload, lives);
          case Restart(pid) => Reopen(pid);
        }
        receipts := receipts + [receipt];
      }
      assert ops[..|ops|] == ops;
    }
  }

  lemma NoReceipt(s: State, op: Op)
    ensures op.Restart? ==> ReceiptOf(s, op) == None
  {
  }

  // ---- what a whole run leaves ----

  /** Increasing indices, none beyond the sequence, and never fewer left than the number to keep. */
  predicate Sane(s: State) {
    Ordered(s.log) && LastIndex(s.log) <= s.sequence && s.gone <= |s.log| && (s.gone > 0 ==> |s.log| - s.gone >= RETENTION)
  }

  lemma AfterIsSane(s: State, op: Op)
    requires Sane(s)
    ensures Sane(After(s, op))
  {
    hide NextTemp;
  }

  lemma {:induction false} StepsAreSane(s: State, ops: seq<Op>)
    requires Sane(s)
    ensures Sane(Steps(s, ops))
  {
    if ops != [] {
      StepsAreSane(s, ops[..|ops| - 1]);
      AfterIsSane(Steps(s, ops[..|ops| - 1]), ops[|ops| - 1]);
    }
  }

  /** Write `i` of the run got past its rename. */
  predicate PublishesAt(s: State, ops: seq<Op>, i: nat)
    requires i < |ops|
  {
    Publishes(Steps(s, ops[..i]), ops[i])
  }

  /** The writes of a run that did, in order. */
  function Wrote(s: State, ops: seq<Op>): seq<nat> {
    if ops == [] then []
    else var n := |ops| - 1; Wrote(s, ops[..n]) + if Publishes(Steps(s, ops[..n]), ops[n]) then [n] else []
  }

  lemma NothingYet(s: State, ops: seq<Op>)
    ensures Steps(s, ops[..0]) == s && Receipts(s, ops[..0]) == [] && Wrote(s, ops[..0]) == []
  {
  }

  lemma OneMoreOp(s: State, ops: seq<Op>, i: nat)
    requires i < |ops|
    ensures Steps(s, ops[..i + 1]) == After(Steps(s, ops[..i]), ops[i])
    ensures Receipts(s, ops[..i + 1]) == Receipts(s, ops[..i]) + [ReceiptOf(Steps(s, ops[..i]), ops[i])]
    ensures Wrote(s, ops[..i + 1]) == Wrote(s, ops[..i]) + if PublishesAt(s, ops, i) then [i] else []
  {
    assert ops[..i + 1][..i] == ops[..i];
    hide After, ReceiptOf, Publishes;
  }

  /** The first `n` operations: exactly the writes past their rename, in order. */
  lemma {:induction false} WroteIs(s: State, ops: seq<Op>, n: nat)
    requires n <= |ops|
    ensures Increasing(Wrote(s, ops[..n])) && forall i: nat :: i in Wrote(s, ops[..n]) <==> i < n && PublishesAt(s, ops, i)
  {
    hide *;
    NothingYet(s, ops);
    if n == 0 {
      IncreasingSnoc([], 0);
    } else {
      WroteIs(s, ops, n - 1);
      OneMoreOp(s, ops, n - 1);
      IncreasingSnoc(Wrote(s, ops[..n - 1]), n - 1);
    }
  }

  lemma IncreasingSnoc(s: seq<nat>, x: nat)
    ensures Increasing(s) && (forall i | i in s :: i < x) ==> Increasing(s + [x])
    ensures Increasing([]) && s + [] == s
  {
    if forall i | i in s :: i < x { assert forall k | 0 <= k < |s| :: s[k] in s; }
  }

  /** And what has been published is what was there and one checkpoint for each of them. */
  lemma {:induction false} LogIs(s: State, ops: seq<Op>, n: nat, k: nat)
    requires n <= |ops|
    ensures var log, wrote := Steps(s, ops[..n]).log, Wrote(s, ops[..n]);
      && s.log <= log && |log| == |s.log| + |wrote|
      && (k < |wrote| ==>
            && wrote[k] < |ops| && PublishesAt(s, ops, wrote[k])
            && ops[wrote[k]].Write? && ops[wrote[k]].payload.Payload?
            && log[|s.log| + k] == Published(Steps(s, ops[..wrote[k]]), ops[wrote[k]]))
  {
    hide *;
    NothingYet(s, ops);
    if n > 0 {
      LogIs(s, ops, n - 1, k);
      OneMoreOp(s, ops, n - 1);
      OneMorePublished(Steps(s, ops[..n - 1]), ops[n - 1]);
      PublishingIs(s, ops, n - 1);
    }
  }

  lemma PublishingIs(s: State, ops: seq<Op>, i: nat)
    requires i < |ops|
    ensures PublishesAt(s, ops, i) <==> Publishes(Steps(s, ops[..i]), ops[i])
    ensures PublishesAt(s, ops, i) ==> ops[i].Write? && ops[i].payload.Payload?
  {
    hide Steps;
  }

  lemma OneMorePublished(s: State, op: Op)
    ensures After(s, op).log == if Publishes(s, op) then s.log + [Published(s, op)] else s.log
  {
  }

  lemma {:induction false} ReceiptIs(s: State, ops: seq<Op>, i: nat)
    requires i < |ops|
    ensures Receipts(s, ops)[i] == ReceiptOf(Steps(s, ops[..i]), ops[i])
  {
    if i < |ops| - 1 {
      ReceiptIs(s, ops[..|ops| - 1], i);
      assert ops[..|ops| - 1][..i] == ops[..i];
    }
  }

  /** A receipt means that its checkpoint is the newest, whole, and that exactly the newest five, or all there are, are
      left. */
  lemma ReceiptLeavesTheNewest(s: State, ops: seq<Op>, i: nat)
    requires Sane(s) && i < |ops| && Receipts(s, ops)[i].Some?
    ensures var t := Steps(s, ops[..i + 1]);
      && Publishes(Steps(s, ops[..i]), ops[i])
      && Latest(t) == Ok(Receipts(s, ops)[i].value, ops[i].payload.body)
      && |t.log| - t.gone == if |t.log| < RETENTION then |t.log| else RETENTION
  {
    ReceiptIs(s, ops, i);
    StepsAreSane(s, ops[..i]);
    assert ops[..i + 1][..i] == ops[..i];
    hide Ordered, NextTemp, Steps;
    assert Steps(s, ops[..i + 1]) == After(Steps(s, ops[..i]), ops[i]);
  }

  /** The newest readable checkpoint is that of the last write that got past its rename, whole, or the newest there was. */
  lemma NewestIsTheLastWritten(s: State, ops: seq<Op>)
    ensures var wrote := Wrote(s, ops);
      if wrote == [] then Latest(Steps(s, ops)) == Latest(s)
      else
        var last := wrote[|wrote| - 1];
        && last < |ops| && PublishesAt(s, ops, last) && (forall i | last < i < |ops| :: !PublishesAt(s, ops, i))
        && ops[last].Write? && ops[last].payload.Payload?
        && Latest(Steps(s, ops)) == Ok(Steps(s, ops[..last]).sequence + 1, ops[last].payload.body)
  {
    hide *;
    var wrote, k := Wrote(s, ops), |Wrote(s, ops)| - 1;
    assert ops[..|ops|] == ops;
    WroteIs(s, ops, |ops|);
    LogIs(s, ops, |ops|, if k < 0 then 0 else k);
    LatestIs(s);
    LatestIs(Steps(s, ops));
    if wrote != [] {
      ReadsBack(Steps(s, ops[..wrote[k]]), ops[wrote[k]]);
      LastOfIncreasing(wrote);
      forall i | wrote[k] < i < |ops| ensures !PublishesAt(s, ops, i) { assert i !in wrote; }
    }
  }

  lemma LatestIs(s: State)
    ensures Latest(s) == if s.log == [] then Empty else Read(s.log[|s.log| - 1])
  {
    hide Read;
  }

  lemma ReadsBack(s: State, op: Op)
    requires op.Write? && op.payload.Payload?
    ensures Read(Published(s, op)) == Ok(s.sequence + 1, op.payload.body)
    ensures Published(s, op).index == s.sequence + 1
  {
  }

  lemma LastOfIncreasing(s: seq<nat>)
    requires Increasing(s) && s != []
    ensures forall i | i in s :: i <= s[|s| - 1]
  {
  }

  /** A receipt is for a write past its rename, and names what it published. */
  lemma ReceiptIsWritten(s: State, ops: seq<Op>, i: nat) returns (k: nat)
    requires i < |ops| && Receipts(s, ops)[i].Some?
    ensures var wrote, log := Wrote(s, ops), Steps(s, ops).log;
      && k < |wrote| && wrote[k] == i && |log| == |s.log| + |wrote| && Increasing(wrote)
      && log[|s.log| + k].index == Receipts(s, ops)[i].value
  {
    hide *;
    assert ops[..|ops|] == ops;
    ReceiptIs(s, ops, i);
    ReceiptMeans(s, ops, i);
    WroteIs(s, ops, |ops|);
    k :| 0 <= k < |Wrote(s, ops)| && Wrote(s, ops)[k] == i;
    LogIs(s, ops, |ops|, k);
    ReadsBack(Steps(s, ops[..i]), ops[i]);
  }

  lemma ReceiptMeans(s: State, ops: seq<Op>, i: nat)
    requires i < |ops|
    ensures var r := ReceiptOf(Steps(s, ops[..i]), ops[i]);
      r.Some? ==> PublishesAt(s, ops, i) && r.value == Steps(s, ops[..i]).sequence + 1
  {
    hide Steps;
  }

  /** A later receipt has the greater index. */
  lemma ReceiptsIncrease(s: State, ops: seq<Op>, i: nat, j: nat)
    requires Sane(s) && i < j < |ops| && Receipts(s, ops)[i].Some? && Receipts(s, ops)[j].Some?
    ensures Receipts(s, ops)[i].value < Receipts(s, ops)[j].value
  {
    hide *;
    StepsAreSane(s, ops);
    var k := ReceiptIsWritten(s, ops, i);
    var l := ReceiptIsWritten(s, ops, j);
    InOrder(Steps(s, ops), |s.log|, Wrote(s, ops), k, l);
  }

  /** The newest readable checkpoint is no older than any receipt. */
  lemma NewestIsNoOlder(s: State, ops: seq<Op>, i: nat)
    requires Sane(s) && i < |ops| && Receipts(s, ops)[i].Some?
    ensures Latest(Steps(s, ops)).Ok? && Receipts(s, ops)[i].value <= Latest(Steps(s, ops)).index
  {
    hide *;
    StepsAreSane(s, ops);
    var k := ReceiptIsWritten(s, ops, i);
    NewestIsWhole(s, ops);
    InOrder(Steps(s, ops), |s.log|, Wrote(s, ops), k, k);
  }

  lemma InOrder(t: State, base: nat, wrote: seq<nat>, k: nat, l: nat)
    requires Sane(t) && Increasing(wrote) && |t.log| == base + |wrote| && k < |wrote| && l < |wrote|
    ensures wrote[k] < wrote[l] ==> t.log[base + k].index < t.log[base + l].index
    ensures t.log[base + l].index <= t.log[|t.log| - 1].index
  {
    hide *;
    IncreasingAt(wrote, l, k);
    OrderedAt(t, base + k, base + l);
    OrderedAt(t, base + l, |t.log| - 1);
  }

  lemma NewestIsWhole(s: State, ops: seq<Op>)
    requires Wrote(s, ops) != []
    ensures var t := Steps(s, ops); t.log != [] && Latest(t).Ok? && Latest(t).index == t.log[|t.log| - 1].index
  {
    hide *;
    assert ops[..|ops|] == ops;
    NewestIsTheLastWritten(s, ops);
    LogIs(s, ops, |ops|, 0);
    LatestIs(Steps(s, ops));
    if Steps(s, ops).log != [] { ReadIndex(Steps(s, ops).log[|Steps(s, ops).log| - 1]); }
  }

  lemma ReadIndex(c: Checkpoint)
    ensures Read(c).Ok? || Read(c).Corrupt?
    ensures Read(c).index == c.index
  {
  }

  lemma IncreasingAt(s: seq<nat>, k: nat, l: nat)
    requires Increasing(s) && k < |s| && l < |s|
    ensures k < l ==> s[k] < s[l]
  {
  }

  lemma OrderedAt(s: State, k: nat, l: nat)
    requires Sane(s) && k < |s.log| && l < |s.log|
    ensures k < l ==> s.log[k].index < s.log[l].index
  {
  }
}
