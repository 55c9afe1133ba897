/** Maintenance of the trace store: lossless compaction, and retention that survives a crash anywhere. */
module TraceRecorder {
  import opened Options
  import opened Sequences
  import WorkerLogs

  // ---- JSONL ----

  function SplitJsonl(raw: string): seq<string> { NonEmpty(WorkerLogs.Split(raw)) }

  function JoinJsonl(lines: seq<string>): string {
    if lines == [] then "" else lines[0] + "\n" + JoinJsonl(lines[1..])
  }

  /** Whatever lines were written come back. */
  lemma {:induction false} JsonlRoundTrip(lines: seq<string>)
    requires forall l | l in lines :: l != "" && '\n' !in l
    ensures SplitJsonl(JoinJsonl(lines)) == lines
  {
    if lines == [] {
      assert WorkerLogs.Split("") == [""];
      assert NonEmpty([""]) == NonEmpty([""][..0]) + [];
    } else {
      assert lines[0] in lines && forall l | l in lines[1..] :: l in lines;
      JsonlRoundTrip(lines[1..]);
      SplitFirstLine(lines[0], JoinJsonl(lines[1..]));
    }
  }

  lemma SplitFirstLine(l: string, rest: string)
    requires l != "" && '\n' !in l
    ensures SplitJsonl(l + "\n" + rest) == [l] + SplitJsonl(rest)
  {
    hide *;
    WorkerLogs.FirstNewlineOfLine(l);
    WorkerLogs.FirstLineOfAppend(l + "\n", rest);
    NonEmptyAppend([l], WorkerLogs.Split(rest));
    assert (l + "\n")[..|l|] == l && (l + "\n")[|l| + 1..] + rest == rest;
    NonEmptyOne(l);
    LinesOfSplit(l + "\n" + rest);
    LinesOfSplit(rest);
  }

  lemma LinesOfSplit(raw: string)
    ensures SplitJsonl(raw) == NonEmpty(WorkerLogs.Split(raw))
  {
  }

  lemma NonEmptyOne(l: string)
    requires l != ""
    ensures NonEmpty([l]) == [l]
  {
    assert [l][..0] == [] && NonEmpty([]) == [];
  }

  // ---- manifest ----

  /** A timestamp as the store uses it: its place in string order, and its instant if it parses. */
  datatype Ts = Ts(order: int, instant: Option<int>)

  datatype Delta = Delta(sprintId: string, file: string, recordId: string, ts: Ts)

  /** One line of a file; `delta` is what it parses to, if it does. */
  datatype Line = Line(text: string, delta: Option<Delta>)

  datatype Entry = Entry(sprintId: string, file: string, recordCount: nat, firstTs: Ts, lastTs: Ts)

  function Counted(e: Entry, ts: Ts): Entry {
    e.(recordCount := e.recordCount + 1,
       firstTs := if ts.order < e.firstTs.order then ts else e.firstTs,
       lastTs := if ts.order > e.lastTs.order then ts else e.lastTs)
  }

  /** Count one delta into its sprint's entry, in place; a new sprint goes last. */
  function Tally(entries: seq<Entry>, d: Delta): seq<Entry> {
    if entries == [] then [Entry(d.sprintId, d.file, 1, d.ts, d.ts)]
    else if entries[0].sprintId == d.sprintId then [Counted(entries[0], d.ts)] + entries[1..]
    else [entries[0]] + Tally(entries[1..], d)
  }

  function Fold(lines: seq<Line>): seq<Entry> {
    if lines == [] then []
    else
      var n := |lines| - 1;
      if lines[n].delta.Some? then Tally(Fold(lines[..n]), lines[n].delta.value) else Fold(lines[..n])
  }

  predicate Gone(line: Line, sprints: set<string>) { line.delta.Some? && line.delta.value.sprintId in sprints }

  /** Every line but the deltas of `sprints`, in order. */
  function Keep(lines: seq<Line>, sprints: set<string>): seq<Line> {
    if lines == [] then []
    else var n := |lines| - 1; Keep(lines[..n], sprints) + if Gone(lines[n], sprints) then [] else [lines[n]]
  }

  function Survivors(entries: seq<Entry>, sprints: set<string>): seq<Entry> {
    if entries == [] then []
    else (if entries[0].sprintId in sprints then [] else [entries[0]]) + Survivors(entries[1..], sprints)
  }

  lemma {:induction false} TallyOutside(entries: seq<Entry>, d: Delta, sprints: set<string>)
    ensures Survivors(Tally(entries, d), sprints) ==
      if d.sprintId in sprints then Survivors(entries, sprints) else Tally(Survivors(entries, sprints), d)
  {
    hide *;
    NoneSurvive(d, sprints);
    if entries != [] {
      var first, rest := entries[0], entries[1..];
      assert entries == [first] + rest;
      SurvivorsFirst(first, rest, sprints);
      TallyFirst(first, rest, d);
      TallyFirst(first, Survivors(rest, sprints), d);
      if first.sprintId == d.sprintId {
        SurvivorsFirst(Counted(first, d.ts), rest, sprints);
        CountedIs(first, d.ts);
      } else {
        TallyOutside(rest, d, sprints);
        SurvivorsFirst(first, Tally(rest, d), sprints);
      }
    }
  }

  lemma NoneSurvive(d: Delta, sprints: set<string>)
    ensures Survivors([], sprints) == [] && Tally([], d) == [Entry(d.sprintId, d.file, 1, d.ts, d.ts)]
    ensures Survivors(Tally([], d), sprints) == if d.sprintId in sprints then [] else Tally([], d)
  {
  }

  lemma SurvivorsFirst(e: Entry, rest: seq<Entry>, sprints: set<string>)
    ensures Survivors([e] + rest, sprints) == if e.sprintId in sprints then Survivors(rest, sprints) else [e] + Survivors(rest, sprints)
  {
    assert ([e] + rest)[1..] == rest;
  }

  lemma TallyFirst(e: Entry, rest: seq<Entry>, d: Delta)
    ensures Tally([e] + rest, d) == if e.sprintId == d.sprintId then [Counted(e, d.ts)] + rest else [e] + Tally(rest, d)
  {
    assert ([e] + rest)[1..] == rest;
  }

  lemma CountedIs(e: Entry, ts: Ts)
    ensures Counted(e, ts).sprintId == e.sprintId && Counted(e, ts).file == e.file
  {
  }

  /** Dropping a sprint's deltas drops exactly its entry; every other entry is what it was. */
  lemma {:induction false} FoldOfKeep(lines: seq<Line>, sprints: set<string>)
    ensures Fold(Keep(lines, sprints)) == Survivors(Fold(lines), sprints)
  {
    if lines != [] {
      var n := |lines| - 1;
      var kept := Keep(lines[..n], sprints);
      FoldOfKeep(lines[..n], sprints);
      if lines[n].delta.Some? { TallyOutside(Fold(lines[..n]), lines[n].delta.value, sprints); }
      assert (kept + [lines[n]])[..|kept|] == kept;
      assert kept + [] == kept;
    }
  }

  predicate OnePerSprint(entries: seq<Entry>) {
    forall i, j | 0 <= i < j < |entries| :: entries[i].sprintId != entries[j].sprintId
  }

  lemma {:induction false} TallyOnePerSprint(entries: seq<Entry>, d: Delta)
    requires OnePerSprint(entries)
    ensures OnePerSprint(Tally(entries, d))
    ensures forall e | e in Tally(entries, d) :: e.sprintId == d.sprintId || e in entries
  {
    if entries != [] && entries[0].sprintId != d.sprintId { TallyOnePerSprint(entries[1..], d); }
  }

  lemma {:induction false} FoldOnePerSprint(lines: seq<Line>)
    ensures OnePerSprint(Fold(lines))
  {
    if lines != [] {
      var n := |lines| - 1;
      FoldOnePerSprint(lines[..n]);
      if lines[n].delta.Some? { TallyOnePerSprint(Fold(lines[..n]), lines[n].delta.value); }
    }
  }

  /** The deltas of one sprint, in order. */
  function Of(lines: seq<Line>, sprintId: string): seq<Delta> {
    if lines == [] then []
    else
      var last := lines[|lines| - 1];
      Of(lines[..|lines| - 1], sprintId) + if last.delta.Some? && last.delta.value.sprintId == sprintId then [last.delta.value] else []
  }

  /** The entry is the account of these deltas: how many, the file of the first, and the first and last instants. */
  predicate Sums(e: Entry, ds: seq<Delta>) {
    && ds != [] && e.recordCount == |ds| && e.file == ds[0].file
    && (forall d | d in ds :: e.firstTs.order <= d.ts.order <= e.lastTs.order)
    && (exists d | d in ds :: d.ts == e.firstTs) && exists d | d in ds :: d.ts == e.lastTs
  }

  /** One entry for every sprint there is, each the account of exactly its sprint's deltas. */
  lemma {:induction false} FoldSums(lines: seq<Line>, sprintId: string)
    ensures forall e | e in Fold(lines) && e.sprintId == sprintId :: Sums(e, Of(lines, sprintId))
    ensures (exists e :: e in Fold(lines) && e.sprintId == sprintId) <==> Of(lines, sprintId) != []
  {
    hide Sums, Tally;
    if lines != [] {
      var n := |lines| - 1;
      FoldSums(lines[..n], sprintId);
      if lines[n].delta.Some? {
        FoldOnePerSprint(lines[..n]);
        TallySums(Fold(lines[..n]), lines[n].delta.value, sprintId, Of(lines[..n], sprintId));
      } else {
        assert Of(lines[..n], sprintId) + [] == Of(lines[..n], sprintId);
      }
    }
  }

  lemma {:induction false} TallySums(entries: seq<Entry>, d: Delta, sprintId: string, ds: seq<Delta>)
    requires OnePerSprint(entries)
    requires forall e | e in entries && e.sprintId == sprintId :: Sums(e, ds)
    requires (exists e :: e in entries && e.sprintId == sprintId) <==> ds != []
    ensures var ds' := ds + if d.sprintId == sprintId then [d] else [];
      && (forall e | e in Tally(entries, d) && e.sprintId == sprintId :: Sums(e, ds'))
      && ((exists e :: e in Tally(entries, d) && e.sprintId == sprintId) <==> ds' != [])
  {
    hide Sums;
    if d.sprintId != sprintId {
      assert ds + [] == ds;
      TallyOthers(entries, d, sprintId);
    } else {
      TallyOwn(entries, d, ds);
    }
  }

  lemma {:induction false} TallyOthers(entries: seq<Entry>, d: Delta, sprintId: string)
    requires d.sprintId != sprintId
    ensures forall e: Entry | e.sprintId == sprintId :: e in Tally(entries, d) <==> e in entries
  {
    if entries != [] {
      assert entries == [entries[0]] + entries[1..];
      if entries[0].sprintId != d.sprintId { TallyOthers(entries[1..], d, sprintId); }
    }
  }

  lemma {:induction false} TallyOwn(entries: seq<Entry>, d: Delta, ds: seq<Delta>)
    requires OnePerSprint(entries)
    requires forall e | e in entries && e.sprintId == d.sprintId :: Sums(e, ds)
    requires (exists e :: e in entries && e.sprintId == d.sprintId) <==> ds != []
    ensures forall e | e in Tally(entries, d) && e.sprintId == d.sprintId :: Sums(e, ds + [d])
    ensures exists e :: e in Tally(entries, d) && e.sprintId == d.sprintId
  {
    hide Sums;
    if entries == [] {
      var e := Entry(d.sprintId, d.file, 1, d.ts, d.ts);
      SumsFirst(d);
      assert ds + [d] == [d] && e in Tally(entries, d);
    } else {
      var first, rest := entries[0], entries[1..];
      assert entries == [first] + rest;
      if first.sprintId == d.sprintId {
        SumsMore(first, ds, d);
        assert Tally(entries, d)[0] == Counted(first, d.ts);
      } else {
        TallyOwn(rest, d, ds);
        var e :| e in Tally(rest, d) && e.sprintId == d.sprintId;
        assert e in [first] + Tally(rest, d);
      }
    }
  }

  lemma SumsFirst(d: Delta)
    ensures Sums(Entry(d.sprintId, d.file, 1, d.ts, d.ts), [d])
  {
  }

  lemma SumsMore(e: Entry, ds: seq<Delta>, d: Delta)
    requires Sums(e, ds)
    ensures Sums(Counted(e, d.ts), ds + [d])
  {
    var all := ds + [d];
    var first :| first in ds && first.ts == e.firstTs;
    var last :| last in ds && last.ts == e.lastTs;
    assert first in all && last in all && d in all;
  }

  // ---- planning ----

  datatype Policy = Policy(maxSegments: Option<nat>, maxAgeMs: Option<int>, now: int)

  /** Stable: an entry goes after those that are not newer. */
  function Insert(sorted: seq<Entry>, e: Entry): seq<Entry> {
    if sorted == [] then [e]
    else
      var n := |sorted| - 1;
      if sorted[n].lastTs.order <= e.lastTs.order then sorted + [e] else Insert(sorted[..n], e) + [sorted[n]]
  }

  function SortByLastTs(entries: seq<Entry>): seq<Entry> {
    if entries == [] then [] else Insert(SortByLastTs(entries[..|entries| - 1]), entries[|entries| - 1])
  }

  predicate Sorted(entries: seq<Entry>) {
    forall i, j | 0 <= i < j < |entries| :: entries[i].lastTs.order <= entries[j].lastTs.order
  }

  lemma {:induction false} InsertIs(sorted: seq<Entry>, e: Entry)
    ensures |Insert(sorted, e)| == |sorted| + 1
    ensures forall x :: x in Insert(sorted, e) <==> x in sorted || x == e
    ensures Sorted(sorted) ==> Sorted(Insert(sorted, e))
  {
    if sorted != [] {
      var n := |sorted| - 1;
      assert sorted == sorted[..n] + [sorted[n]];
      InsertIs(sorted[..n], e);
      if Sorted(sorted) && sorted[n].lastTs.order > e.lastTs.order {
        var front := Insert(sorted[..n], e);
        forall i | 0 <= i < |front| ensures front[i].lastTs.order <= sorted[n].lastTs.order { assert front[i] in front; }
      }
    }
  }

  lemma {:induction false} SortIs(entries: seq<Entry>)
    ensures |SortByLastTs(entries)| == |entries| && Sorted(SortByLastTs(entries))
    ensures forall x :: x in SortByLastTs(entries) <==> x in entries
  {
    if entries != [] {
      var n := |entries| - 1;
      SortIs(entries[..n]);
      InsertIs(SortByLastTs(entries[..n]), entries[n]);
      assert entries == entries[..n] + [entries[n]];
    }
  }

  predicate Aged(e: Entry, p: Policy) {
    p.maxAgeMs.Some? && e.lastTs.instant.Some? && e.lastTs.instant.value < p.now - p.maxAgeMs.value
  }

  /** How many of the oldest are over the count. */
  function Excess(n: nat, p: Policy): nat { if p.maxSegments.Some? && n > p.maxSegments.value then n - p.maxSegments.value else 0 }

  /** The doomed of the first `n` sorted entries. */
  function Doomed(sorted: seq<Entry>, p: Policy, n: nat): seq<Entry>
    requires n <= |sorted|
  {
    if n == 0 then []
    else Doomed(sorted, p, n - 1) + if Aged(sorted[n - 1], p) || n - 1 < Excess(|sorted|, p) then [sorted[n - 1]] else []
  }

  function Selected(entries: seq<Entry>, p: Policy): seq<Entry> {
    var sorted := SortByLastTs(entries); Doomed(sorted, p, |sorted|)
  }

  ghost predicate OldestFirst(sorted: seq<Entry>, entries: seq<Entry>) {
    && |sorted| == |entries| && (forall x :: x in sorted <==> x in entries)
    && forall i, j | 0 <= i < j < |sorted| :: sorted[i].lastTs.order <= sorted[j].lastTs.order
  }

  /** Entry `i` is last of a time before the age allows, or has as many after it as may stay. */
  predicate Over(sorted: seq<Entry>, p: Policy, i: int, e: Entry) {
    && 0 <= i < |sorted| && sorted[i] == e
    && (|| (p.maxAgeMs.Some? && e.lastTs.instant.Some? && e.lastTs.instant.value + p.maxAgeMs.value < p.now)
        || (p.maxSegments.Some? && i + p.maxSegments.value < |sorted|))
  }

  lemma {:induction false} DoomedExactly(sorted: seq<Entry>, p: Policy, n: nat, e: Entry)
    requires n <= |sorted|
    ensures e in Doomed(sorted, p, n) <==> exists i :: i < n && Over(sorted, p, i, e)
    ensures n == |sorted| ==> (e in Doomed(sorted, p, n) <==> exists i :: Over(sorted, p, i, e))
  {
    if n > 0 {
      DoomedExactly(sorted, p, n - 1, e);
      assert Aged(sorted[n - 1], p) || n - 1 < Excess(|sorted|, p) <==> Over(sorted, p, n - 1, sorted[n - 1]);
      hide Aged, Excess;
      if Over(sorted, p, n - 1, e) { assert sorted[n - 1] == e; }
    }
  }

  method SelectSegmentsForDeletion(entries: seq<Entry>, p: Policy) returns (chosen: seq<Entry>)
    ensures chosen == Selected(entries, p)
    ensures exists sorted :: OldestFirst(sorted, entries) && forall e :: e in chosen <==> exists i :: Over(sorted, p, i, e)
  {
    var sorted := SortByLastTs(entries);
    SortIs(entries);
    forall e ensures e in Selected(entries, p) <==> exists i :: Over(sorted, p, i, e) { DoomedExactly(sorted, p, |sorted|, e); }
    assert OldestFirst(sorted, entries);
    hide Over, OldestFirst;
    chosen := [];
    if p.maxSegments.None? && p.maxAgeMs.None? {
      NothingDoomed(sorted, p, |sorted|);
      assert chosen == Selected(entries, p);
      return;
    }
    var i := 0;
    while i < |sorted|
      invariant 0 <= i <= |sorted| && chosen == Doomed(sorted, p, i)
    {
      if Aged(sorted[i], p) || i < Excess(|sorted|, p) { chosen := chosen + [sorted[i]]; }
      i := i + 1;
    }
  }

  lemma {:induction false} NothingDoomed(sorted: seq<Entry>, p: Policy, n: nat)
    requires n <= |sorted| && Excess(|sorted|, p) == 0 && forall e | e in sorted :: !Aged(e, p)
    ensures Doomed(sorted, p, n) == []
  {
    if n > 0 { NothingDoomed(sorted, p, n - 1); }
  }

  lemma {:induction false} DoomedIs(sorted: seq<Entry>, p: Policy, n: nat)
    requires n <= |sorted|
    ensures forall i | 0 <= i < n && (Aged(sorted[i], p) || i < Excess(|sorted|, p)) :: sorted[i] in Doomed(sorted, p, n)
    ensures forall e | e in Doomed(sorted, p, n) :: e in sorted
  {
    if n > 0 { DoomedIs(sorted, p, n - 1); }
  }

  function SprintsOf(entries: seq<Entry>): set<string> { set e | e in entries :: e.sprintId }
  function FilesOf(entries: seq<Entry>): set<string> { set e | e in entries :: e.file }

  lemma {:induction false} SurvivorsIs(entries: seq<Entry>, sprints: set<string>)
    ensures forall e :: e in Survivors(entries, sprints) <==> e in entries && e.sprintId !in sprints
    ensures OnePerSprint(entries) ==> OnePerSprint(Survivors(entries, sprints))
  {
    if entries != [] { SurvivorsIs(entries[1..], sprints); }
  }

  /** Distinct entries that all lie in a sequence are no more than it has. */
  lemma {:induction false} FewerThan(some: seq<Entry>, all: seq<Entry>)
    requires OnePerSprint(some) && forall e | e in some :: e in all
    ensures |some| <= |all|
    decreases |some|
  {
    if some != [] {
      var n := |some| - 1;
      assert some[n] in some;
      var k :| 0 <= k < |all| && all[k] == some[n];
      var rest := all[..k] + all[k + 1..];
      assert all == all[..k] + [all[k]] + all[k + 1..];
      forall e | e in some[..n] ensures e in rest { assert e in all && e != some[n]; }
      FewerThan(some[..n], rest);
    }
  }

  /** What survives a pass is within the policy: a second pass selects nothing. */
  lemma PassSettles(entries: seq<Entry>, p: Policy)
    requires OnePerSprint(entries)
    ensures var left := Survivors(entries, SprintsOf(Selected(entries, p)));
      (p.maxSegments.Some? ==> |left| <= p.maxSegments.value) && Selected(left, p) == []
  {
    hide *;
    var sorted, chosen := SortByLastTs(entries), Selected(entries, p);
    var left := Survivors(entries, SprintsOf(chosen));
    SortIs(entries);
    SurvivorsIs(entries, SprintsOf(chosen));
    ExcessIs(|sorted|, p);
    forall e | e in left ensures e in sorted[Excess(|sorted|, p)..] && !Aged(e, p) { SparedIs(entries, p, e); }
    FewerThan(left, sorted[Excess(|sorted|, p)..]);
    SortIs(left);
    ExcessIs(|left|, p);
    NothingDoomed(SortByLastTs(left), p, |left|);
    SelectedIs(left, p);
  }

  lemma ExcessIs(n: nat, p: Policy)
    ensures Excess(n, p) <= n
    ensures if p.maxSegments.Some? then Excess(n, p) == 0 <==> n <= p.maxSegments.value else Excess(n, p) == 0
    ensures p.maxSegments.Some? ==> n - Excess(n, p) <= p.maxSegments.value
  {
  }

  lemma SelectedIs(entries: seq<Entry>, p: Policy)
    ensures Selected(entries, p) == Doomed(SortByLastTs(entries), p, |SortByLastTs(entries)|)
  {
  }

  /** An entry whose sprint was not chosen is neither aged nor among the excess oldest. */
  lemma SparedIs(entries: seq<Entry>, p: Policy, e: Entry)
    requires e in entries && e.sprintId !in SprintsOf(Selected(entries, p))
    ensures var sorted := SortByLastTs(entries);
      Excess(|sorted|, p) <= |sorted| && e in sorted[Excess(|sorted|, p)..] && !Aged(e, p)
  {
    var sorted := SortByLastTs(entries);
    SortIs(entries);
    DoomedIs(sorted, p, |sorted|);
    var i :| 0 <= i < |sorted| && sorted[i] == e;
    assert e !in Selected(entries, p);
    hide Aged, SortByLastTs, Doomed;
    assert i >= Excess(|sorted|, p) && sorted[Excess(|sorted|, p)..][i - Excess(|sorted|, p)] == e;
  }

  // ---- the pass, one file operation at a time ----

  datatype Record = Record(sprintId: string, file: string, recordCount: nat, firstTs: Ts, lastTs: Ts, deletedAt: int)

  /** `stuck` files cannot be removed; the pass does not notice. */
  datatype Disk = Disk(files: set<string>, stuck: set<string>, journal: seq<Record>, manifest: seq<Line>, staged: Option<seq<Line>>)

  datatype FileOp = AppendJournal(record: Record) | Unlink(file: string) | Stage(lines: seq<Line>) | Rename

  function Apply(d: Disk, op: FileOp): Disk {
    match op
    case AppendJournal(r) => d.(journal := d.journal + [r])
    case Unlink(f) => if f in d.stuck then d else d.(files := d.files - {f})
    case Stage(lines) => d.(staged := Some(lines))
    case Rename => if d.staged.Some? then d.(manifest := d.staged.value, staged := None) else d
  }

  function RunOps(d: Disk, ops: seq<FileOp>): Disk {
    if ops == [] then d else Apply(RunOps(d, ops[..|ops| - 1]), ops[|ops| - 1])
  }

  function RecordOf(e: Entry, p: Policy): Record {
    Record(e.sprintId, e.file, e.recordCount, e.firstTs, e.lastTs, p.now)
  }

  function Records(chosen: seq<Entry>, p: Policy): seq<Record> {
    if chosen == [] then [] else Records(chosen[..|chosen| - 1], p) + [RecordOf(chosen[|chosen| - 1], p)]
  }

  /** One record for each deletion, in order, telling all there was of it. */
  lemma {:induction false} RecordsTell(chosen: seq<Entry>, p: Policy)
    ensures |Records(chosen, p)| == |chosen|
    ensures forall i | 0 <= i < |chosen| :: var e := chosen[i];
      Records(chosen, p)[i] == Record(e.sprintId, e.file, e.recordCount, e.firstTs, e.lastTs, p.now)
  {
    if chosen != [] { RecordsTell(chosen[..|chosen| - 1], p); }
  }

  /** Journal, then unlink, segment by segment. */
  function Deletions(chosen: seq<Entry>, p: Policy): seq<FileOp> {
    if chosen == [] then []
    else
      var n := |chosen| - 1;
      Deletions(chosen[..n], p) + [AppendJournal(RecordOf(chosen[n], p))] + [Unlink(chosen[n].file)]
  }

  /** The whole pass as planned from the manifest it finds. */
  function Pass(manifest: seq<Line>, p: Policy): seq<FileOp> {
    var chosen := Selected(Fold(manifest), p);
    if chosen == [] then []
    else Deletions(chosen, p) + [Stage(Keep(manifest, SprintsOf(chosen)))] + [Rename]
  }

  /** A pass that a crash cuts off after `k` operations, or does not. */
  function Interrupted(d: Disk, p: Policy, k: nat): Disk {
    var ops := Pass(d.manifest, p); RunOps(d, if k < |ops| then ops[..k] else ops)
  }

  function Full(d: Disk, p: Policy): Disk { RunOps(d, Pass(d.manifest, p)) }

  class TraceStore {
    var disk: Disk

    constructor (disk: Disk)
      ensures this.disk == disk
    {
      this.disk := disk;
    }

    /** One file operation, unless the crash comes first. */
    method Do(op: FileOp, left: nat) returns (rest: nat, crashed: bool)
      modifies this
      ensures crashed <==> left == 0
      ensures crashed ==> rest == 0 && disk == old(disk)
      ensures !crashed ==> rest == left - 1 && disk == Apply(old(disk), op)
    {
      if left == 0 { return 0, true; }
      disk := Apply(disk, op);
      rest, crashed := left - 1, false;
    }

    /** Journal and unlink every doomed segment; `done` is how far a crash let it get. */
    method Delete(doomed: seq<Entry>, p: Policy, lives: nat)
      returns (deleted: seq<Record>, left: nat, crashed: bool, ghost done: seq<FileOp>)
      modifies this
      ensures disk == RunOps(old(disk), done) && |done| + left == lives
      ensures if crashed then left == 0 && done < Deletions(doomed, p) else done == Deletions(doomed, p)
      ensures !crashed ==> deleted == Records(doomed, p)
    {
      deleted, left, crashed, done := [], lives, false, [];
      var i := 0;
      assert doomed[..0] == [] && Deletions([], p) == [] && Records([], p) == [] && RunOps(disk, []) == disk;
      hide Deletions, Records, RunOps;
      while i < |doomed|
        invariant 0 <= i <= |doomed| && |done| + left == lives && !crashed
        invariant done == Deletions(doomed[..i], p) && disk == RunOps(old(disk), done)
          && deleted == Records(doomed[..i], p)
      {
        var record, file := RecordOf(doomed[i], p), doomed[i].file;
        DeletionsStep(doomed, p, i);
        left, crashed := Do(AppendJournal(record), left);
        if crashed { return; }
        RunSnoc(old(disk), done, AppendJournal(record));
        done := done + [AppendJournal(record)];
        left, crashed := Do(Unlink(file), left);
        if crashed { return; }
        RunSnoc(old(disk), done, Unlink(file));
        done := done + [Unlink(file)];
        deleted := deleted + [record];
        i := i + 1;
      }
      assert doomed[..|doomed|] == doomed;
    }

    /** Apply retention; the process survives `lives` file operations. */
    method ApplyRetention(p: Policy, lives: nat) returns (deleted: seq<Record>, crashed: bool)
      modifies this
      ensures disk == Interrupted(old(disk), p, lives)
      ensures crashed <==> lives < |Pass(old(disk).manifest, p)|
      ensures !crashed ==> deleted == Records(Selected(Fold(old(disk).manifest), p), p)
    {
      var manifest := disk.manifest;
      var doomed := SelectSegmentsForDeletion(Fold(manifest), p);
      if doomed == [] { return [], false; }
      hide Selected, Fold, Keep, SprintsOf, Deletions, RunOps, Records;
      var left;
      ghost var done;
      deleted, left, crashed, done := Delete(doomed, p, lives);
      var stage := Stage(Keep(manifest, SprintsOf(doomed)));
      if !crashed {
        left, crashed := Do(stage, left);
        RunSnoc(old(disk), done, stage);
        if !crashed {
          done := done + [stage];
          left, crashed := Do(Rename, left);
          RunSnoc(old(disk), done, Rename);
          if !crashed { done := done + [Rename]; }
        }
      }
      assert done == if lives < |Pass(manifest, p)| then Pass(manifest, p)[..lives] else Pass(manifest, p);
    }
  }

  lemma DeletionsStep(chosen: seq<Entry>, p: Policy, i: nat)
    requires i < |chosen|
    ensures Deletions(chosen[..i + 1], p) ==
      Deletions(chosen[..i], p) + [AppendJournal(RecordOf(chosen[i], p))] + [Unlink(chosen[i].file)]
    ensures Deletions(chosen[..i + 1], p) <= Deletions(chosen, p)
    ensures Records(chosen[..i + 1], p) == Records(chosen[..i], p) + [RecordOf(chosen[i], p)]
  {
    assert chosen[..i + 1][..i] == chosen[..i];
    DeletionsPrefix(chosen, p, i + 1);
  }

  lemma RunSnoc(d: Disk, ops: seq<FileOp>, op: FileOp)
    ensures RunOps(d, ops + [op]) == Apply(RunOps(d, ops), op)
  {
    assert (ops + [op])[..|ops|] == ops;
  }

  lemma {:induction false} DeletionsPrefix(chosen: seq<Entry>, p: Policy, i: nat)
    requires i <= |chosen|
    ensures Deletions(chosen[..i], p) <= Deletions(chosen, p)
  {
    if i < |chosen| {
      var n := |chosen| - 1;
      DeletionsPrefix(chosen[..n], p, i);
      assert chosen[..n][..i] == chosen[..i];
    } else {
      assert chosen[..i] == chosen;
    }
  }

  // ---- what a crash leaves, and what a rerun makes of it ----

  /** Part-way through the deletions: the manifest untouched, and whatever is missing journaled. */
  ghost predicate Midway(d: Disk, d': Disk, chosen: seq<Entry>) {
    && d'.manifest == d.manifest && d'.stuck == d.stuck && d.journal <= d'.journal
    && d'.files <= d.files && d.files - d'.files <= FilesOf(chosen) - d.stuck
    && Journaled(d, d')
  }

  /** Every segment file that has gone missing is on record. */
  ghost predicate Journaled(d: Disk, d': Disk) {
    forall f | f in d.files - d'.files :: exists r :: r in d'.journal && r.file == f
  }

  lemma {:induction false} DeletionsLeave(d: Disk, chosen: seq<Entry>, p: Policy, ops: seq<FileOp>)
    requires ops <= Deletions(chosen, p)
    ensures Midway(d, RunOps(d, ops), chosen)
    ensures ops == Deletions(chosen, p) ==>
      RunOps(d, ops).files == d.files - (FilesOf(chosen) - d.stuck) && RunOps(d, ops).journal == d.journal + Records(chosen, p)
  {
    if chosen == [] {
      assert ops == [] && FilesOf(chosen) == {} && d.journal + [] == d.journal;
    } else {
      var n := |chosen| - 1;
      var init := Deletions(chosen[..n], p);
      var journal, unlink := AppendJournal(RecordOf(chosen[n], p)), Unlink(chosen[n].file);
      assert Deletions(chosen, p) == init + [journal] + [unlink];
      assert Records(chosen, p) == Records(chosen[..n], p) + [journal.record];
      hide *;
      if |ops| <= |init| {
        assert ops <= init;
        DeletionsLeave(d, chosen[..n], p, ops);
        MidwayGrows(d, RunOps(d, ops), chosen);
      } else {
        DeletionsLeave(d, chosen[..n], p, init);
        RunSnoc(d, init, journal);
        RunSnoc(d, init + [journal], unlink);
        JournalThenUnlink(d, RunOps(d, init), chosen, p);
        assert ops == init + [journal] || ops == init + [journal] + [unlink];
        assert (d.journal + Records(chosen[..n], p)) + [journal.record] == d.journal + (Records(chosen[..n], p) + [journal.record]);
      }
    }
  }

  lemma FilesGrow(chosen: seq<Entry>)
    requires chosen != []
    ensures FilesOf(chosen) == FilesOf(chosen[..|chosen| - 1]) + {chosen[|chosen| - 1].file}
  {
    var n := |chosen| - 1;
    assert chosen == chosen[..n] + [chosen[n]];
  }

  lemma MidwayGrows(d: Disk, d': Disk, chosen: seq<Entry>)
    requires chosen != [] && Midway(d, d', chosen[..|chosen| - 1])
    ensures Midway(d, d', chosen)
  {
    FilesGrow(chosen);
    hide Journaled, FilesOf;
  }

  lemma JournaledGrows(d: Disk, d1: Disk, d2: Disk)
    requires Journaled(d, d1) && d1.journal <= d2.journal
    requires forall f | f in d1.files - d2.files :: exists r :: r in d2.journal && r.file == f
    ensures Journaled(d, d2)
  {
    forall f | f in d.files - d2.files ensures exists r :: r in d2.journal && r.file == f {
      if f in d1.files {
        assert f in d1.files - d2.files;
      } else {
        assert f in d.files - d1.files;
        var r :| r in d1.journal && r.file == f;
        assert r in d2.journal;
      }
    }
  }

  lemma JournalThenUnlink(d: Disk, d0: Disk, chosen: seq<Entry>, p: Policy)
    requires chosen != [] && Midway(d, d0, chosen[..|chosen| - 1])
    ensures var e := chosen[|chosen| - 1]; Midway(d, Apply(d0, AppendJournal(RecordOf(e, p))), chosen)
    ensures var e := chosen[|chosen| - 1]; Midway(d, Apply(Apply(d0, AppendJournal(RecordOf(e, p))), Unlink(e.file)), chosen)
    ensures var e := chosen[|chosen| - 1]; d0.files == d.files - (FilesOf(chosen[..|chosen| - 1]) - d.stuck) ==>
      Apply(Apply(d0, AppendJournal(RecordOf(e, p))), Unlink(e.file)).files == d.files - (FilesOf(chosen) - d.stuck)
    ensures var e := chosen[|chosen| - 1];
      Apply(Apply(d0, AppendJournal(RecordOf(e, p))), Unlink(e.file)).journal == d0.journal + [RecordOf(e, p)]
  {
    var e := chosen[|chosen| - 1];
    var r := RecordOf(e, p);
    var d1 := Apply(d0, AppendJournal(r));
    var d2 := Apply(d1, Unlink(e.file));
    FilesGrow(chosen);
    assert r.file == e.file && r in d1.journal && d2.journal == d1.journal;
    hide FilesOf, RecordOf;
    JournaledGrows(d, d0, d1);
    JournaledGrows(d, d1, d2);
    hide Journaled;
  }

  lemma {:induction false} KeepAll(lines: seq<Line>)
    ensures Keep(lines, {}) == lines
  {
    hide *;
    if lines == [] {
      KeepNone();
    } else {
      KeepAll(lines[..|lines| - 1]);
      KeepLast(lines);
      assert lines == lines[..|lines| - 1] + [lines[|lines| - 1]];
    }
  }

  lemma KeepNone()
    ensures Keep([], {}) == []
  {
  }

  lemma KeepLast(lines: seq<Line>)
    requires lines != []
    ensures Keep(lines, {}) == Keep(lines[..|lines| - 1], {}) + [lines[|lines| - 1]]
  {
  }

  /** An uninterrupted pass removes exactly the chosen segments' files, as far as they can be removed, and the chosen sprints'
      deltas. */
  lemma FullIs(d: Disk, p: Policy)
    ensures var chosen := Selected(Fold(d.manifest), p);
      && Full(d, p).files == d.files - (FilesOf(chosen) - d.stuck) && Full(d, p).stuck == d.stuck
      && Full(d, p).manifest == Keep(d.manifest, SprintsOf(chosen))
      && Full(d, p).journal == d.journal + Records(chosen, p) && Journaled(d, Full(d, p))
  {
    var chosen := Selected(Fold(d.manifest), p);
    if chosen == [] {
      KeepAll(d.manifest);
      assert SprintsOf(chosen) == {} && FilesOf(chosen) == {} && d.journal + [] == d.journal;
    } else {
      var ops, kept := Deletions(chosen, p), Keep(d.manifest, SprintsOf(chosen));
      DeletionsLeave(d, chosen, p, ops);
      RunSnoc(d, ops, Stage(kept));
      RunSnoc(d, ops + [Stage(kept)], Rename);
      hide RunOps, Deletions, Keep, Selected, Fold;
      assert Pass(d.manifest, p) == ops + [Stage(kept)] + [Rename];
      var d1 := RunOps(d, ops);
      assert Full(d, p) == d1.(manifest := kept, staged := None);
    }
  }

  /** What a pass cut off anywhere leaves: either all of it happened, or the manifest still names everything
      and some of the chosen files are gone, each of them journaled. */
  lemma InterruptedIs(d: Disk, p: Policy, k: nat)
    ensures var chosen := Selected(Fold(d.manifest), p); var d' := Interrupted(d, p, k);
      if k < |Pass(d.manifest, p)| then Midway(d, d', chosen) else d' == Full(d, p)
  {
    var chosen := Selected(Fold(d.manifest), p);
    var ops, kept, pass := Deletions(chosen, p), Keep(d.manifest, SprintsOf(chosen)), Pass(d.manifest, p);
    hide RunOps, Deletions, Keep, Selected, Fold;
    if k < |pass| {
      if k <= |ops| {
        assert pass[..k] == ops[..k];
        DeletionsLeave(d, chosen, p, ops[..k]);
      } else {
        assert pass[..k] == ops + [Stage(kept)];
        DeletionsLeave(d, chosen, p, ops);
        RunSnoc(d, ops, Stage(kept));
      }
    }
  }

  /** A second pass over a finished one finds nothing to do, and no more than the policy's count survives. */
  lemma FullIsFinal(d: Disk, p: Policy)
    ensures Full(Full(d, p), p) == Full(d, p)
    ensures p.maxSegments.Some? ==> |Fold(Full(d, p).manifest)| <= p.maxSegments.value
  {
    FullIs(d, p);
    FoldOfKeep(d.manifest, SprintsOf(Selected(Fold(d.manifest), p)));
    FoldOnePerSprint(d.manifest);
    PassSettles(Fold(d.manifest), p);
    hide Selected, Fold, Keep, Survivors;
    assert Pass(Full(d, p).manifest, p) == [];
  }

  lemma RerunAfterOneCrash(d: Disk, p: Policy, k: nat)
    ensures var d' := Interrupted(d, p, k);
      && Full(d', p).files == Full(d, p).files && Full(d', p).manifest == Full(d, p).manifest
      && Journaled(d, d') && d.journal <= d'.journal && d'.files <= d.files
  {
    InterruptedIs(d, p, k);
    FullIs(d, p);
    FullIs(Interrupted(d, p, k), p);
    FullIsFinal(d, p);
    hide Selected, Fold, Keep, Pass, Interrupted, Full;
  }

  /** The passes of a process that keeps dying: pass `i` survives `ks[i]` operations. */
  function AfterCrashes(d: Disk, p: Policy, ks: seq<nat>): Disk {
    if ks == [] then d else Interrupted(AfterCrashes(d, p, ks[..|ks| - 1]), p, ks[|ks| - 1])
  }

  /** Retention is crash-safe: in every state any number of crashed passes can reach, each missing segment
      is journaled, and one finished pass from there reaches the segments and manifest of one from the start. */
  lemma {:induction false} RetentionIsCrashSafe(d: Disk, p: Policy, ks: seq<nat>)
    ensures Journaled(d, AfterCrashes(d, p, ks)) && d.journal <= AfterCrashes(d, p, ks).journal
    ensures Full(AfterCrashes(d, p, ks), p).files == Full(d, p).files
    ensures Full(AfterCrashes(d, p, ks), p).manifest == Full(d, p).manifest
  {
    if ks != [] {
      var d1 := AfterCrashes(d, p, ks[..|ks| - 1]);
      RetentionIsCrashSafe(d, p, ks[..|ks| - 1]);
      RerunAfterOneCrash(d1, p, ks[|ks| - 1]);
      hide Interrupted, Full;
      JournaledGrows(d, d1, Interrupted(d1, p, ks[|ks| - 1]));
      hide Journaled;
    }
  }

  // ---- whose records a pass takes along ----

  predicate Portable(c: char) {
    'A' <= c <= 'Z' || 'a' <= c <= 'z' || '0' <= c <= '9' || c == '.' || c == '_' || c == '-'
  }

  function Ported(id: string): string {
    if id == "" then "" else [if Portable(id[0]) then id[0] else '_'] + Ported(id[1..])
  }

  function WithoutLeadingDashes(s: string): string {
    if s != "" && s[0] == '-' then WithoutLeadingDashes(s[1..]) else s
  }

  function WithoutTrailingDashes(s: string): string {
    if s != "" && s[|s| - 1] == '-' then WithoutTrailingDashes(s[..|s| - 1]) else s
  }

  /** The segment file of a sprint. */
  function SegmentFile(sprintId: string): string {
    var safe := WithoutTrailingDashes(WithoutLeadingDashes(Ported(sprintId)));
    var name := if safe == "" then "unknown" else safe;
    (if "sprint-" <= name then name else "sprint-" + name) + ".jsonl"
  }

  /** Every entry that outlives a pass keeps the file it had exactly when no chosen entry shares that file, or it is stuck. */
  lemma SurvivorsKeepTheirFilesExactlyWhen(d: Disk, p: Policy)
    ensures var chosen := Selected(Fold(d.manifest), p);
      (forall e | e in Fold(Full(d, p).manifest) && e.file in d.files :: e.file in Full(d, p).files) <==>
      (forall e | e in Fold(d.manifest) && e.file in d.files && e.sprintId !in SprintsOf(chosen) ::
        e.file !in FilesOf(chosen) || e.file in d.stuck)
  {
    var entries := Fold(d.manifest);
    var chosen := Selected(entries, p);
    FullIs(d, p);
    FoldOfKeep(d.manifest, SprintsOf(chosen));
    SurvivorsIs(entries, SprintsOf(chosen));
    hide Fold, Selected, Full, Survivors, SprintsOf, FilesOf;
  }

  /** Nothing that outlives the pass loses its file. */
  predicate Spares(d: Disk, p: Policy) {
    forall e | e in Fold(Full(d, p).manifest) && e.file in d.files :: e.file in Full(d, p).files
  }

  /** No file that is there and can be removed belongs to two sprints. */
  predicate NoSharedFiles(d: Disk) {
    forall e, f | e in Fold(d.manifest) && f in Fold(d.manifest) && e.sprintId != f.sprintId && e.file in d.files - d.stuck ::
      e.file != f.file
  }

  lemma {:induction false} InsertOnePerSprint(sorted: seq<Entry>, e: Entry)
    requires OnePerSprint(sorted) && forall x | x in sorted :: x.sprintId != e.sprintId
    ensures OnePerSprint(Insert(sorted, e))
  {
    if sorted == [] || sorted[|sorted| - 1].lastTs.order <= e.lastTs.order {
      OneMoreSprint(sorted, e);
    } else {
      var n := |sorted| - 1;
      assert sorted == sorted[..n] + [sorted[n]];
      LastIsAlone(sorted);
      hide OnePerSprint;
      InsertOnePerSprint(sorted[..n], e);
      InsertIs(sorted[..n], e);
      OneMoreSprint(Insert(sorted[..n], e), sorted[n]);
    }
  }

  lemma OneMoreSprint(front: seq<Entry>, e: Entry)
    requires OnePerSprint(front) && forall x | x in front :: x.sprintId != e.sprintId
    ensures OnePerSprint(front + [e])
  {
    assert forall i | 0 <= i < |front| :: front[i] in front;
  }

  lemma LastIsAlone(entries: seq<Entry>)
    requires OnePerSprint(entries) && entries != []
    ensures var n := |entries| - 1;
      OnePerSprint(entries[..n]) && forall x | x in entries[..n] :: x.sprintId != entries[n].sprintId
  {
  }

  lemma {:induction false} SortOnePerSprint(entries: seq<Entry>)
    requires OnePerSprint(entries)
    ensures OnePerSprint(SortByLastTs(entries))
  {
    if entries != [] {
      var n := |entries| - 1;
      SortOnePerSprint(entries[..n]);
      SortIs(entries[..n]);
      InsertOnePerSprint(SortByLastTs(entries[..n]), entries[n]);
    }
  }

  /** A policy that keeps all but the `k` oldest. */
  function AllBut(k: nat, entries: seq<Entry>): Policy
    requires k <= |entries|
  {
    Policy(Some(|entries| - k), None, 0)
  }

  lemma {:induction false} DoomedByCount(sorted: seq<Entry>, p: Policy, n: nat, e: Entry)
    requires n <= |sorted| && p.maxAgeMs.None? && e in Doomed(sorted, p, n)
    ensures exists i :: 0 <= i < n && i < Excess(|sorted|, p) && sorted[i] == e
  {
    if !(n - 1 < Excess(|sorted|, p) && sorted[n - 1] == e) {
      DoomedByCount(sorted, p, n - 1, e);
    }
  }

  /** Of two sprints, one can be deleted without the other. */
  lemma OneGoesOneStays(entries: seq<Entry>, e: Entry, f: Entry) returns (p: Policy)
    requires OnePerSprint(entries) && e in entries && f in entries && e.sprintId != f.sprintId
    ensures var chosen := SprintsOf(Selected(entries, p)); (e.sprintId in chosen) != (f.sprintId in chosen)
  {
    var sorted := SortByLastTs(entries);
    SortIs(entries);
    SortOnePerSprint(entries);
    var i :| 0 <= i < |sorted| && sorted[i] == e;
    var j :| 0 <= j < |sorted| && sorted[j] == f;
    var k := if i < j then i + 1 else j + 1;
    p := AllBut(k, sorted);
    assert Excess(|sorted|, p) == k;
    hide SortByLastTs, Excess;
    GoesByCount(entries, p, if i < j then i else j);
    StaysByCount(entries, p, if i < j then j else i);
  }

  lemma GoesByCount(entries: seq<Entry>, p: Policy, i: nat)
    requires i < |SortByLastTs(entries)| && i < Excess(|SortByLastTs(entries)|, p)
    ensures SortByLastTs(entries)[i].sprintId in SprintsOf(Selected(entries, p))
  {
    var sorted := SortByLastTs(entries);
    DoomedIs(sorted, p, |sorted|);
    hide Doomed, SortByLastTs;
  }

  lemma StaysByCount(entries: seq<Entry>, p: Policy, j: nat)
    requires OnePerSprint(SortByLastTs(entries)) && p.maxAgeMs.None?
    requires Excess(|SortByLastTs(entries)|, p) <= j < |SortByLastTs(entries)|
    ensures SortByLastTs(entries)[j].sprintId !in SprintsOf(Selected(entries, p))
  {
    var sorted := SortByLastTs(entries);
    forall e | e in Selected(entries, p) ensures e.sprintId != sorted[j].sprintId {
      DoomedByCount(sorted, p, |sorted|, e);
    }
    hide Doomed, SortByLastTs, Excess;
  }

  /** No policy ever takes records of a sprint that stays along if and only if no two sprints share a file. */
  lemma RetentionSparesExactlyWhen(d: Disk)
    ensures (forall p :: Spares(d, p)) <==> NoSharedFiles(d)
  {
    FoldOnePerSprint(d.manifest);
    hide Fold, Selected, Full, SprintsOf, FilesOf, OnePerSprint;
    if NoSharedFiles(d) {
      forall p ensures Spares(d, p) { SparedWithoutSharing(d, p); }
    } else {
      var e, f :| e in Fold(d.manifest) && f in Fold(d.manifest) && e.sprintId != f.sprintId && e.file in d.files - d.stuck && e.file == f.file;
      var p := OneGoesOneStays(Fold(d.manifest), e, f);
      if e.sprintId in SprintsOf(Selected(Fold(d.manifest), p)) { SharedIsLost(d, p, e, f); } else { SharedIsLost(d, p, f, e); }
    }
  }

  lemma SparedWithoutSharing(d: Disk, p: Policy)
    requires NoSharedFiles(d)
    ensures Spares(d, p)
  {
    SurvivorsKeepTheirFilesExactlyWhen(d, p);
    var entries := Fold(d.manifest);
    var chosen := Selected(entries, p);
    SelectedAreEntries(entries, p);
    hide Fold, Full, Selected;
    forall e | e in entries && e.file in d.files && e.sprintId !in SprintsOf(chosen)
      ensures e.file !in FilesOf(chosen) || e.file in d.stuck
    {
      assert forall f | f in chosen :: f in entries && f.sprintId in SprintsOf(chosen);
    }
  }

  lemma SelectedAreEntries(entries: seq<Entry>, p: Policy)
    ensures forall e | e in Selected(entries, p) :: e in entries
  {
    SortIs(entries);
    DoomedIs(SortByLastTs(entries), p, |SortByLastTs(entries)|);
  }

  lemma SharedIsLost(d: Disk, p: Policy, e: Entry, f: Entry)
    requires e in Fold(d.manifest) && f in Fold(d.manifest) && e.file == f.file && e.file in d.files - d.stuck
    requires var chosen := SprintsOf(Selected(Fold(d.manifest), p)); e.sprintId in chosen && f.sprintId !in chosen
    ensures !Spares(d, p)
  {
    SurvivorsKeepTheirFilesExactlyWhen(d, p);
    FoldOnePerSprint(d.manifest);
    SelectedAreEntries(Fold(d.manifest), p);
    ChosenIs(Fold(d.manifest), Selected(Fold(d.manifest), p), e);
    hide Fold, Full, Selected, SprintsOf, OnePerSprint;
  }

  lemma ChosenIs(entries: seq<Entry>, chosen: seq<Entry>, e: Entry)
    requires OnePerSprint(entries) && e in entries && e.sprintId in SprintsOf(chosen) && forall x | x in chosen :: x in entries
    ensures e in chosen && e.file in FilesOf(chosen)
  {
    var x :| x in chosen && x.sprintId == e.sprintId;
    assert x in entries;
  }

  // ---- what a pass cannot remove ----

  /** A segment file that the manifest named before the pass and no longer names after it. */
  predicate Orphaned(d: Disk, p: Policy, file: string) {
    && file in Full(d, p).files && (exists e :: e in Fold(d.manifest) && e.file == file)
    && forall e | e in Fold(Full(d, p).manifest) :: e.file != file
  }

  /** No policy ever orphans a segment file if and only if every one that the manifest names and that is there can be removed. */
  lemma RetentionOrphansExactlyWhen(d: Disk)
    ensures (exists p, file :: Orphaned(d, p, file)) <==> exists e :: e in Fold(d.manifest) && e.file in d.files && e.file in d.stuck
  {
    hide Fold, Full;
    if p, file :| Orphaned(d, p, file) {
      OrphanIsStuck(d, p, file);
    }
    if e :| e in Fold(d.manifest) && e.file in d.files && e.file in d.stuck {
      NothingStays(d);
      FullIs(d, KeepNothing());
      assert Orphaned(d, KeepNothing(), e.file);
    }
  }

  lemma OrphanIsStuck(d: Disk, p: Policy, file: string)
    requires Orphaned(d, p, file)
    ensures exists e :: e in Fold(d.manifest) && e.file in d.files && e.file in d.stuck
  {
    var entries := Fold(d.manifest);
    var chosen := Selected(entries, p);
    FullIs(d, p);
    FoldOfKeep(d.manifest, SprintsOf(chosen));
    SurvivorsIs(entries, SprintsOf(chosen));
    FoldOnePerSprint(d.manifest);
    SelectedAreEntries(entries, p);
    hide Fold, Selected, Full, Survivors, SprintsOf, FilesOf, OnePerSprint;
    var e :| e in entries && e.file == file;
    ChosenIs(entries, chosen, e);
  }

  function KeepNothing(): Policy { Policy(Some(0), None, 0) }

  lemma NothingStays(d: Disk)
    ensures Fold(Full(d, KeepNothing()).manifest) == []
  {
    FullIsFinal(d, KeepNothing());
    hide Fold, Full;
  }

  // ---- whose file is whose ----

  predicate Ordinary(id: string) {
    id != "" && id[0] != '-' && id[|id| - 1] != '-' && forall i | 0 <= i < |id| :: Portable(id[i])
  }

  /** Sprints do share files: an id with the prefix and the same id without it do. */
  lemma PrefixedIdSharesTheFile(id: string)
    requires Ordinary(id) && !("sprint-" <= id)
    ensures SegmentFile("sprint-" + id) == SegmentFile(id)
  {
    var long := "sprint-" + id;
    PrefixIsPortable("sprint-", id);
    OrdinaryFile(id);
    OrdinaryFile(long);
    assert "sprint-" <= long;
    hide SegmentFile, Ordinary;
  }

  lemma PrefixIsPortable(prefix: string, id: string)
    requires Ordinary(id) && prefix == "sprint-"
    ensures Ordinary(prefix + id)
  {
    var long := prefix + id;
    assert forall i | 0 <= i < |prefix| :: Portable(prefix[i]);
    assert long[0] == prefix[0] && long[|long| - 1] == id[|id| - 1];
    forall i | 0 <= i < |long| ensures Portable(long[i]) {
      if i >= |prefix| { assert long[i] == id[i - |prefix|]; }
    }
  }

  lemma OrdinaryFile(id: string)
    requires Ordinary(id)
    ensures SegmentFile(id) == (if "sprint-" <= id then id else "sprint-" + id) + ".jsonl"
  {
    PortedSame(id);
    NothingTrimmed(id);
    hide Ported, Portable, WithoutTrailingDashes, WithoutLeadingDashes, Ordinary;
    assert id != "" by { NotEmpty(id); }
  }

  lemma NotEmpty(id: string)
    requires Ordinary(id)
    ensures id != ""
  {
  }

  lemma NothingTrimmed(id: string)
    requires Ordinary(id)
    ensures WithoutTrailingDashes(WithoutLeadingDashes(id)) == id
  {
    hide Portable;
    assert WithoutLeadingDashes(id) == id;
  }

  /** As an append writes them: each record goes to the segment file of its sprint. */
  predicate Appended(lines: seq<Line>) {
    forall l | l in lines && l.delta.Some? :: l.delta.value.file == SegmentFile(l.delta.value.sprintId)
  }

  lemma {:induction false} TallyNames(entries: seq<Entry>, d: Delta)
    requires d.file == SegmentFile(d.sprintId) && forall e | e in entries :: e.file == SegmentFile(e.sprintId)
    ensures forall e | e in Tally(entries, d) :: e.file == SegmentFile(e.sprintId)
    ensures SprintsOf(Tally(entries, d)) == SprintsOf(entries) + {d.sprintId}
  {
    hide SegmentFile, SprintsOf;
    if entries == [] {
      var e := Tally(entries, d)[0];
      assert Tally(entries, d) == [e] + [];
      SprintsOfFirst(e, []);
      NoSprints();
    } else {
      var first, rest := entries[0], entries[1..];
      assert first in entries && forall e | e in rest :: e in entries;
      assert entries == [first] + rest;
      SprintsOfFirst(first, rest);
      if first.sprintId == d.sprintId {
        SprintsOfFirst(Counted(first, d.ts), rest);
      } else {
        TallyNames(rest, d);
        SprintsOfFirst(first, Tally(rest, d));
      }
    }
  }

  lemma SprintsOfFirst(e: Entry, rest: seq<Entry>)
    ensures SprintsOf([e] + rest) == {e.sprintId} + SprintsOf(rest)
  {
    assert e in [e] + rest;
  }

  lemma NoSprints()
    ensures SprintsOf([]) == {}
  {
  }

  /** The manifest then names, for every sprint it has records of, that sprint's segment file. */
  lemma {:induction false} FoldNames(lines: seq<Line>)
    requires Appended(lines)
    ensures forall e | e in Fold(lines) :: e.file == SegmentFile(e.sprintId)
    ensures forall l | l in lines && l.delta.Some? :: l.delta.value.sprintId in SprintsOf(Fold(lines))
  {
    hide SegmentFile, SprintsOf;
    if lines != [] {
      var n := |lines| - 1;
      assert lines == lines[..n] + [lines[n]];
      FoldNames(lines[..n]);
      if lines[n].delta.Some? { TallyNames(Fold(lines[..n]), lines[n].delta.value); }
    }
  }

  lemma SprintHasEntry(entries: seq<Entry>, sprintId: string) returns (e: Entry)
    requires sprintId in SprintsOf(entries)
    ensures e in entries && e.sprintId == sprintId
  {
    e :| e in entries && e.sprintId == sprintId;
  }

  /** The manifest after one record of each of two sprints. */
  function TwoRecords(a: string, b: string, ts: Ts): seq<Line> {
    [Line("", Some(Delta(a, SegmentFile(a), "", ts))), Line("", Some(Delta(b, SegmentFile(b), "", ts)))]
  }

  lemma TwoRecordsAre(a: string, b: string, ts: Ts)
    ensures var lines := TwoRecords(a, b, ts);
      && Appended(lines) && (forall l | l in lines :: l.delta.Some?)
      && lines[0] in lines && lines[0].delta.value.sprintId == a && lines[1] in lines && lines[1].delta.value.sprintId == b
  {
    hide SegmentFile;
  }

  /** One record of a sprint and one of the sprint whose id has the prefix as well: some retention policy takes the records
      of one along with those of the other. */
  lemma RetentionTakesAnothersRecords(id: string, ts: Ts)
    requires Ordinary(id) && !("sprint-" <= id)
    ensures var lines := TwoRecords(id, "sprint-" + id, ts);
      Appended(lines) && !(forall p :: Spares(Disk({SegmentFile(id)}, {}, [], lines, None), p))
  {
    var other := "sprint-" + id;
    assert |other| > |id|;
    hide *;
    var lines := TwoRecords(id, other, ts);
    var d := Disk({SegmentFile(id)}, {}, [], lines, None);
    PrefixedIdSharesTheFile(id);
    TwoRecordsAre(id, other, ts);
    FoldNames(lines);
    var e := SprintHasEntry(Fold(lines), id);
    var f := SprintHasEntry(Fold(lines), other);
    SharingIs(d, e, f);
    RetentionSparesExactlyWhen(d);
  }

  lemma SharingIs(d: Disk, e: Entry, f: Entry)
    requires e in Fold(d.manifest) && f in Fold(d.manifest) && e.sprintId != f.sprintId && e.file in d.files - d.stuck && e.file == f.file
    ensures !NoSharedFiles(d)
  {
    hide Fold;
  }

  lemma {:induction false} PortedSame(id: string)
    requires forall i | 0 <= i < |id| :: Portable(id[i])
    ensures Ported(id) == id
  {
    if id != "" { PortedSame(id[1..]); }
  }

  // ---- compaction ----

  /** In scope: any line, or with a sprint given only that sprint's parsed deltas. */
  predicate InScope(line: Line, sprint: Option<string>) {
    sprint.None? || (line.delta.Some? && line.delta.value.sprintId == sprint.value)
  }

  /** First occurrences of in-scope lines, and every line out of scope, in order. */
  function Collapsed(lines: seq<Line>, sprint: Option<string>): seq<Line> {
    if lines == [] then []
    else
      var n := |lines| - 1;
      var kept := Collapsed(lines[..n], sprint);
      if InScope(lines[n], sprint) && lines[n] in lines[..n] then kept else kept + [lines[n]]
  }

  /** What collapsing drops. */
  function Repeats(lines: seq<Line>, sprint: Option<string>): seq<Line> {
    if lines == [] then []
    else
      var n := |lines| - 1;
      var dropped := Repeats(lines[..n], sprint);
      if InScope(lines[n], sprint) && lines[n] in lines[..n] then dropped + [lines[n]] else dropped
  }

  function SeenIn(lines: seq<Line>, sprint: Option<string>): set<Line> { set l | l in lines && InScope(l, sprint) }

  method CollapseIdenticalLines(lines: seq<Line>, sprint: Option<string>) returns (kept: seq<Line>, dropped: seq<Line>)
    ensures kept == Collapsed(lines, sprint) && dropped == Repeats(lines, sprint)
  {
    hide Collapsed, Repeats, SeenIn, InScope;
    kept, dropped := [], [];
    var seen: set<Line> := {};
    var i := 0;
    NothingCollapsed(sprint);
    assert lines[..0] == [];
    while i < |lines|
      invariant 0 <= i <= |lines| && seen == SeenIn(lines[..i], sprint)
      invariant kept == Collapsed(lines[..i], sprint) && dropped == Repeats(lines[..i], sprint)
    {
      CollapseStep(lines, sprint, i);
      var line := lines[i];
      i := i + 1;
      if InScope(line, sprint) {
        if line in seen {
          dropped := dropped + [line];
          continue;
        }
        seen := seen + {line};
      }
      kept := kept + [line];
    }
    assert lines[..|lines|] == lines;
  }

  lemma NothingCollapsed(sprint: Option<string>)
    ensures Collapsed([], sprint) == [] && Repeats([], sprint) == [] && SeenIn([], sprint) == {}
  {
  }

  lemma CollapseStep(lines: seq<Line>, sprint: Option<string>, i: nat)
    requires i < |lines|
    ensures lines[i] in SeenIn(lines[..i], sprint) <==> InScope(lines[i], sprint) && lines[i] in lines[..i]
    ensures SeenIn(lines[..i + 1], sprint) == SeenIn(lines[..i], sprint) + if InScope(lines[i], sprint) then {lines[i]} else {}
    ensures var repeat := InScope(lines[i], sprint) && lines[i] in lines[..i];
      && Collapsed(lines[..i + 1], sprint) == (if repeat then Collapsed(lines[..i], sprint) else Collapsed(lines[..i], sprint) + [lines[i]])
      && Repeats(lines[..i + 1], sprint) == (if repeat then Repeats(lines[..i], sprint) + [lines[i]] else Repeats(lines[..i], sprint))
  {
    assert lines[..i + 1] == lines[..i] + [lines[i]];
    assert lines[..i + 1][..i] == lines[..i];
    hide InScope;
  }

  lemma MultisetAppend(kept: seq<Line>, dropped: seq<Line>, all: seq<Line>, l: Line)
    requires multiset(kept) + multiset(dropped) == multiset(all)
    ensures multiset(kept + [l]) + multiset(dropped) == multiset(all + [l])
    ensures multiset(kept) + multiset(dropped + [l]) == multiset(all + [l])
  {
  }

  /** Every line is kept or dropped, once. */
  lemma {:induction false} CollapseConserves(lines: seq<Line>, sprint: Option<string>)
    ensures multiset(Collapsed(lines, sprint)) + multiset(Repeats(lines, sprint)) == multiset(lines)
  {
    if lines != [] {
      var n := |lines| - 1;
      var kept, dropped, l := Collapsed(lines[..n], sprint), Repeats(lines[..n], sprint), lines[n];
      assert lines == lines[..n] + [l];
      CollapseConserves(lines[..n], sprint);
      MultisetAppend(kept, dropped, lines[..n], l);
    }
  }

  /** Only an in-scope line of which a copy is kept is ever dropped. */
  lemma {:induction false} RepeatsAreKept(lines: seq<Line>, sprint: Option<string>)
    ensures forall l | l in Repeats(lines, sprint) :: l in Collapsed(lines, sprint) && InScope(l, sprint)
  {
    if lines != [] {
      RepeatsAreKept(lines[..|lines| - 1], sprint);
      CollapsedKeeps(lines[..|lines| - 1], sprint);
    }
  }

  /** No distinct line is ever lost. */
  lemma {:induction false} CollapsedKeeps(lines: seq<Line>, sprint: Option<string>)
    ensures forall l :: l in Collapsed(lines, sprint) <==> l in lines
  {
    if lines != [] {
      var n := |lines| - 1;
      CollapsedKeeps(lines[..n], sprint);
      assert lines == lines[..n] + [lines[n]];
    }
  }

  /** Compacting what is compact changes nothing, so a rerun after a crash at any point agrees. */
  lemma {:induction false} CompactionIsIdempotent(lines: seq<Line>, sprint: Option<string>)
    ensures Collapsed(Collapsed(lines, sprint), sprint) == Collapsed(lines, sprint)
  {
    if lines != [] {
      var n := |lines| - 1;
      var front := Collapsed(lines[..n], sprint);
      CompactionIsIdempotent(lines[..n], sprint);
      CollapsedKeeps(lines[..n], sprint);
      assert (front + [lines[n]])[..|front|] == front;
    }
  }

  /** Compacting one sprint's deltas leaves every other line where it was. */
  lemma {:induction false} CompactionSparesOthers(lines: seq<Line>, sprint: string)
    ensures Keep(Collapsed(lines, Some(sprint)), {sprint}) == Keep(lines, {sprint})
  {
    if lines != [] {
      var n := |lines| - 1;
      var front := Collapsed(lines[..n], Some(sprint));
      CompactionSparesOthers(lines[..n], sprint);
      assert (front + [lines[n]])[..|front|] == front;
      assert Keep(lines[..n], {sprint}) + [] == Keep(lines[..n], {sprint});
    }
  }
}
