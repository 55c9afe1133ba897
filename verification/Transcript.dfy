/** The session's own message store: appended to, evicted after every append, replaced at an epoch. */
module Transcripts {
  import opened Options
  import opened Messages
  import opened Pairing
  import opened ContextBudget
  import opened Lineage

  datatype Origin = FromUser | FromReplay | FromSystem
  /** SHA-256 taken as collision-free: two digests are equal exactly when the texts are. */
  datatype Digest = Sha256(text: string)
  datatype Metadata = Metadata(turnId: string, origin: Origin)
  datatype Entry = Entry(message: Message, turnId: string, origin: Origin, contentHash: Digest)
  datatype AppendStatus = Appended | Duplicate

  /** A limit that is zero or negative is off. */
  ghost predicate Within(ms: seq<Message>, u: nat, maxTokens: int, maxMessages: int)
    requires u <= |ms|
  {
    && (maxTokens > 0 ==> SuffixCost(ms, u) <= maxTokens)
    && (maxMessages > 0 ==> |ms| - u <= maxMessages)
  }

  /** The retained window of a whole history, read off the history alone: the longest suffix that opens on
      a user message and is within both limits, or the turn in flight when none is. */
  ghost predicate IsWindow(ms: seq<Message>, maxTokens: int, maxMessages: int, s: nat) {
    && s < |ms| && ms[s].User?
    && s <= LastUser(ms)
    && (s < LastUser(ms) ==> Within(ms, s, maxTokens, maxMessages))
    && forall u {:trigger Within(ms, u, maxTokens, maxMessages)} | 0 <= u < s && ms[u].User? ::
         !Within(ms, u, maxTokens, maxMessages)
  }

  /** The same window, searched for from the front. */
  ghost function WindowFrom(ms: seq<Message>, maxTokens: int, maxMessages: int, u: nat): (s: nat)
    ensures s == u || s <= LastUser(ms)
    decreases LastUser(ms) - u
  {
    if u >= LastUser(ms) || (ms[u].User? && Within(ms, u, maxTokens, maxMessages)) then u
    else WindowFrom(ms, maxTokens, maxMessages, u + 1)
  }

  ghost function WindowStart(ms: seq<Message>, maxTokens: int, maxMessages: int): nat {
    WindowFrom(ms, maxTokens, maxMessages, 0)
  }

  lemma {:induction false} WindowFromIs(ms: seq<Message>, maxTokens: int, maxMessages: int, u: nat)
    requires OpensOnUser(ms) && u <= LastUser(ms)
    requires forall v {:trigger Within(ms, v, maxTokens, maxMessages)} | 0 <= v < u && ms[v].User? ::
      !Within(ms, v, maxTokens, maxMessages)
    ensures IsWindow(ms, maxTokens, maxMessages, WindowFrom(ms, maxTokens, maxMessages, u))
    decreases LastUser(ms) - u
  {
    LastUserIs(ms);
    if u < LastUser(ms) && !(ms[u].User? && Within(ms, u, maxTokens, maxMessages)) {
      WindowFromIs(ms, maxTokens, maxMessages, u + 1);
    }
  }

  /** The declarative window and the searched one are the same. */
  lemma WindowStartIsTheWindow(ms: seq<Message>, maxTokens: int, maxMessages: int, s: nat)
    requires OpensOnUser(ms)
    ensures IsWindow(ms, maxTokens, maxMessages, s) <==> s == WindowStart(ms, maxTokens, maxMessages)
  {
    var t := WindowStart(ms, maxTokens, maxMessages);
    WindowFromIs(ms, maxTokens, maxMessages, 0);
    assert IsWindow(ms, maxTokens, maxMessages, t);
  }

  /** The count axis, stated like `IsFit`. */
  ghost predicate IsCut(ms: seq<Message>, maxMessages: nat, s: nat) {
    && s <= LastUser(ms)
    && (s == 0 ==> LastUser(ms) == 0)
    && (s > 0 ==> ms[s].User?)
    && (s < LastUser(ms) ==> |ms| - s <= maxMessages)
    && forall u | 0 <= u < s && ms[u].User? :: |ms| - u > maxMessages
  }

  /** One token fit of a whole history, then one count cut of what that keeps, is its window. */
  lemma FitThenCutIsWindow(ms: seq<Message>, maxTokens: int, maxMessages: int, f: nat, c: nat)
    requires OpensOnUser(ms)
    requires IsFit(ms, maxTokens, f)
    requires if 0 < maxMessages < |ms| - f then IsCut(ms[f..], maxMessages, c) else c == 0
    ensures IsWindow(ms, maxTokens, maxMessages, f + c)
  {
    var kept, s := ms[f..], f + c;
    assert ms[0..] == ms && kept[c..] == ms[s..];
    LastUserOfSuffix(ms, f);
    if s < LastUser(ms) && maxTokens > 0 {
      assert SuffixCost(ms, f) <= maxTokens;
      CostSuffix(ms, f, s);
    }
    forall u | 0 <= u < s && ms[u].User? ensures !Within(ms, u, maxTokens, maxMessages) {
      if u < f {
        assert SuffixCost(ms, u) > maxTokens;
      } else {
        assert kept[u - f].User?;
      }
    }
  }

  lemma LastUserOfSuffix(ms: seq<Message>, s: nat)
    requires s <= LastUser(ms) && s < |ms| && (s > 0 || ms[0].User?)
    ensures LastUser(ms[s..]) == LastUser(ms) - s
  {
    LastUserIs(ms);
    LastUserIs(ms[s..]);
    assert ms[s..][LastUser(ms) - s] == ms[LastUser(ms)];
  }

  /** Windows only move forward: the window of a window's suffix plus one message is the window of the
      whole history plus that message. */
  lemma WindowOfWindow(h: seq<Message>, m: Message, maxTokens: int, maxMessages: int, s: nat, t: nat)
    requires s <= |h| && (s == 0 || IsWindow(h, maxTokens, maxMessages, s))
    requires OpensOnUser(h + [m])
    requires IsWindow(h[s..] + [m], maxTokens, maxMessages, t)
    ensures IsWindow(h + [m], maxTokens, maxMessages, s + t)
  {
    hide LastUser, Within, Cost;
    var full, w := h + [m], h[s..] + [m];
    assert w == full[s..];
    LastUserOfAppend(h, m);
    assert s <= |h| && full[0..] == full;
    LastUserOfSuffix(full, s);
    SameWithin(full, s, t, maxTokens, maxMessages);
    forall u | 0 <= u < s + t && full[u].User? ensures !Within(full, u, maxTokens, maxMessages) {
      if u < s {
        OverStaysOver(h, m, u, maxTokens, maxMessages);
      } else {
        SameWithin(full, s, u - s, maxTokens, maxMessages);
        assert w[u - s] == full[u];
      }
    }
  }

  /** A suffix is judged by itself. */
  lemma SameWithin(full: seq<Message>, s: nat, u: nat, maxTokens: int, maxMessages: int)
    requires s + u <= |full|
    ensures Within(full[s..], u, maxTokens, maxMessages) <==> Within(full, s + u, maxTokens, maxMessages)
  {
    assert full[s..][u..] == full[s + u..];
  }

  /** What was over a limit is over it with one message more. */
  lemma OverStaysOver(h: seq<Message>, m: Message, u: nat, maxTokens: int, maxMessages: int)
    requires u < |h| && !Within(h, u, maxTokens, maxMessages)
    ensures !Within(h + [m], u, maxTokens, maxMessages)
  {
    assert (h + [m])[u..] == h[u..] + [m];
    CostAppend(h[u..], [m]);
    hide Cost;
  }

  lemma LastUserOfAppend(h: seq<Message>, m: Message)
    ensures m.User? ==> LastUser(h + [m]) == |h|
    ensures !m.User? && OpensOnUser(h) ==> LastUser(h + [m]) == LastUser(h)
  {
    var full := h + [m];
    LastUserIs(h);
    LastUserIs(full);
    assert full[|h|] == m;
    if !m.User? && OpensOnUser(h) {
      assert full[LastUser(h)] == h[LastUser(h)];
      assert full[0].User?;
    }
  }

  lemma RetainedOpensOnUser(ms: seq<Message>, maxTokens: int, maxMessages: int, f: nat, c: nat)
    requires ms != [] && IsFit(ms, maxTokens, f)
    requires if 0 < maxMessages < |ms| - f then IsCut(ms[f..], maxMessages, c) else c == 0
    ensures f + c <= LastUser(ms)
    ensures f + c > 0 ==> ms[f + c].User?
  {
    if f > 0 || ms[0].User? {
      LastUserOfSuffix(ms, f);
    } else {
      assert ms[f..] == ms;
    }
    assert c > 0 ==> ms[f..][c] == ms[f + c];
  }

  lemma EverythingFits(ms: seq<Message>, maxTokens: int)
    ensures maxTokens <= 0 ==> IsFit(ms, maxTokens, 0)
    ensures ms[0..] == ms
  {
  }

  lemma FitStays(ms: seq<Message>, maxTokens: int, f: nat)
    requires IsFit(ms, maxTokens, f)
    ensures f <= |ms|
  {
  }

  lemma CutStays(ms: seq<Message>, maxMessages: nat, c: nat)
    requires IsCut(ms, maxMessages, c)
    ensures c <= |ms|
  {
  }

  lemma CutOfCut<T>(s: seq<T>, f: nat, c: nat)
    requires f + c <= |s|
    ensures s[f..][c..] == s[f + c..] && s[f..][0..] == s[f..]
  {
  }

  /** The part of eviction that only reads: one token fit, then one count cut. */
  method Retain(ms: seq<Message>, maxTokens: int, maxMessages: int) returns (kept: seq<Message>, ghost s: nat)
    requires ms != []
    ensures s <= LastUser(ms) && kept == ms[s..]
    ensures s > 0 ==> ms[s].User?
    ensures OpensOnUser(ms) ==> s == WindowStart(ms, maxTokens, maxMessages)
    ensures OpensOnUser(ms) ==> WindowStart(ms, maxTokens, maxMessages) <= |ms| && kept == ms[WindowStart(ms, maxTokens, maxMessages)..]
  {
    hide *;
    EverythingFits(ms, maxTokens);
    ghost var f, c := 0, 0;
    kept := ms;
    if maxTokens > 0 {
      var dropped, estimated;
      kept, dropped, estimated := FitMessagesToBudget(ms, maxTokens);
      f := dropped;
    }
    FitStays(ms, maxTokens, f);
    if maxMessages > 0 && |kept| > maxMessages {
      var dropped;
      kept, dropped := CutByCount(kept, maxMessages);
      CutStays(ms[f..], maxMessages, dropped);
      c := dropped;
    }
    s := f + c;
    CutOfCut(ms, f, c);
    RetainedOpensOnUser(ms, maxTokens, maxMessages, f, c);
    if OpensOnUser(ms) {
      FitThenCutIsWindow(ms, maxTokens, maxMessages, f, c);
      WindowStartIsTheWindow(ms, maxTokens, maxMessages, s);
    }
  }

  /** What an append keeps of the pairing, whatever whole turns eviction then drops. */
  lemma AppendKeepsPairing(before: seq<Message>, message: Message, s: nat, kept: seq<Message>)
    requires s <= |before| && (s > 0 ==> (before + [message])[s].User?) && kept == (before + [message])[s..]
    ensures Step(Read(before), message).Owes? ==> Read(kept) == Step(Read(before), message)
    ensures DistinctGroups(before) && (message.Assistant? ==> IdSet(message.calls) !! CallIds(before)) ==> DistinctGroups(kept)
    ensures CallIds(kept) <= CallIds(before) + (if message.Assistant? then IdSet(message.calls) else {})
    ensures OpensOnUser(before) || (before == [] && message.User?) ==> OpensOnUser(kept)
  {
    var full := before + [message];
    ReadSnoc(before, message);
    GroupsAppend(before, [message]);
    assert [message][1..] == [];
    assert full[0..] == full;
    if Read(full).Owes? && s > 0 { CutAtUser(full, s); }
    GroupsSuffix(full, s);
  }

  /** The history of one context epoch: everything appended since it opened, its `opening` messages first; `start` of them
      have been evicted. It is clean if no epoch so far opened on a stray result. */
  datatype Epoch = Epoch(history: seq<Message>, opening: nat, start: nat, clean: bool)

  /** `messages` is what is left of the epoch's history; once something was appended to the opening messages
      it is the window of that whole history. */
  ghost predicate Windowed(e: Epoch, messages: seq<Message>, maxTokens: int, maxMessages: int) {
    && e.start <= |e.history| && messages == e.history[e.start..]
    && (e.start > 0 ==> OpensOnUser(messages))
    && (|e.history| > e.opening && OpensOnUser(e.history) ==> e.start == WindowStart(e.history, maxTokens, maxMessages))
    && (|e.history| <= e.opening ==> e.start == 0)
  }

  lemma WindowedShows(e: Epoch, messages: seq<Message>, maxTokens: int, maxMessages: int)
    requires Windowed(e, messages, maxTokens, maxMessages) && |e.history| > e.opening
    ensures OpensOnUser(e.history) ==> messages == e.history[WindowStart(e.history, maxTokens, maxMessages)..]
  {
  }

  /** All that later turns depend on: what the epoch was given, its opening messages first; the turn of its newest entry;
      and whether it is clean. */
  datatype Past = Past(history: seq<Message>, opening: nat, turn: string, clean: bool)

  /** What is held of it: everything at the opening, and from the first append on the window. */
  ghost function Held(p: Past, maxTokens: int, maxMessages: int): seq<Message> {
    if |p.history| <= p.opening then p.history else p.history[WindowStart(p.history, maxTokens, maxMessages)..]
  }

  /** After any append, what is held is the longest end of the epoch's messages that opens on a user message and is within both
      limits, if a turn before the one in flight is held at all. */
  lemma HeldWithinLimits(p: Past, maxTokens: int, maxMessages: int)
    requires OpensOnUser(p.history) && |p.history| > p.opening
    ensures var ms := Held(p, maxTokens, maxMessages); var n := |p.history| - |ms|;
      && 0 <= n && ms == p.history[n..] && OpensOnUser(ms)
      && ((exists i :: 0 < i < |ms| && ms[i].User?) ==>
            (maxTokens > 0 ==> Cost(ms) <= maxTokens) && (maxMessages > 0 ==> |ms| <= maxMessages))
      && forall u: nat | u < n && p.history[u].User? ::
           (maxTokens > 0 && Cost(p.history[u..]) > maxTokens) || (maxMessages > 0 && |p.history| - u > maxMessages)
  {
    var s := WindowStart(p.history, maxTokens, maxMessages);
    WindowStartIsTheWindow(p.history, maxTokens, maxMessages, s);
    LastUserIs(p.history);
    hide WindowStart, LastUser;
    forall u: nat | u < s && p.history[u].User?
      ensures (maxTokens > 0 && Cost(p.history[u..]) > maxTokens) || (maxMessages > 0 && |p.history| - u > maxMessages)
    {
      assert !Within(p.history, u, maxTokens, maxMessages);
    }
    var ms := p.history[s..];
    if i :| 0 < i < |ms| && ms[i].User? {
      assert p.history[s + i].User?;
      assert Within(p.history, s, maxTokens, maxMessages);
    }
  }

  /** Online eviction is the offline window: cutting after every append stays in step with cutting once. */
  lemma EvictionStaysWindowed(e: Epoch, messages: seq<Message>, message: Message, maxTokens: int, maxMessages: int,
      s: nat)
    requires Windowed(e, messages, maxTokens, maxMessages) && e.opening <= |e.history|
    requires s <= LastUser(messages + [message])
    requires s > 0 ==> (messages + [message])[s].User?
    requires OpensOnUser(messages + [message]) ==> s == WindowStart(messages + [message], maxTokens, maxMessages)
    ensures Windowed(e.(history := e.history + [message], start := e.start + s), (messages + [message])[s..], maxTokens, maxMessages)
  {
    hide *;
    var full, history := messages + [message], e.history + [message];
    WindowedMeans(e, messages, maxTokens, maxMessages);
    LastUserIs(full);
    CutOfAppend(e.history, message, e.start, s);
    StillOpens(e.history, message);
    StillOpens(messages, message);
    OpensOnFirst(full[s..]);
    if OpensOnUser(history) {
      if e.start > 0 { WindowStartIsTheWindow(e.history, maxTokens, maxMessages, e.start); }
      WindowStartIsTheWindow(full, maxTokens, maxMessages, s);
      WindowOfWindow(e.history, message, maxTokens, maxMessages, e.start, s);
      WindowStartIsTheWindow(history, maxTokens, maxMessages, e.start + s);
    }
    WindowedMeans(e.(history := history, start := e.start + s), full[s..], maxTokens, maxMessages);
  }

  lemma WindowedMeans(e: Epoch, messages: seq<Message>, maxTokens: int, maxMessages: int)
    ensures Windowed(e, messages, maxTokens, maxMessages) <==>
      e.start <= |e.history| && messages == e.history[e.start..] &&
      (e.start > 0 ==> OpensOnUser(messages)) &&
      (|e.history| > e.opening && OpensOnUser(e.history) ==> e.start == WindowStart(e.history, maxTokens, maxMessages)) &&
      (|e.history| <= e.opening ==> e.start == 0)
  {
    hide OpensOnUser, WindowStart;
  }

  lemma CutOfAppend<T>(h: seq<T>, x: T, start: nat, s: nat)
    requires start <= |h| && s <= |h| + 1 - start
    ensures h[start..] + [x] == (h + [x])[start..] && (h[start..] + [x])[s..] == (h + [x])[start + s..]
  {
  }

  lemma StillOpens(messages: seq<Message>, message: Message)
    ensures OpensOnUser(messages) ==> OpensOnUser(messages + [message])
    ensures messages != [] ==> (OpensOnUser(messages) <==> OpensOnUser(messages + [message]))
  {
  }

  lemma OpensOnFirst(messages: seq<Message>)
    ensures OpensOnUser(messages) <==> messages != [] && messages[0].User?
  {
  }

  ghost predicate InStep(entries: seq<Entry>, messages: seq<Message>) {
    |entries| == |messages| && forall i | 0 <= i < |messages| ::
      entries[i].message == messages[i] && entries[i].contentHash == Sha256(messages[i].content)
  }

  lemma StaysAsLong(entries: seq<Entry>, messages: seq<Message>)
    requires InStep(entries, messages)
    ensures |entries| == |messages|
  {
  }

  lemma StaysInStep(entries: seq<Entry>, messages: seq<Message>, e: Entry, cut: nat)
    requires InStep(entries, messages) && cut <= |messages| && e.contentHash == Sha256(e.message.content)
    ensures InStep((entries + [e])[cut..], (messages + [e.message])[cut..])
  {
  }

  /** The metadata a user turn was stamped with, if any. */
  function Explicit(given: Option<Metadata>, next: Option<Metadata>): Option<Metadata> {
    if given.Some? then given else next
  }

  /** A stamped user turn repeats the newest entry: same turn, same text. */
  predicate Replays(entries: seq<Entry>, explicit: Option<Metadata>, content: string) {
    && explicit.Some? && entries != []
    && var previous := entries[|entries| - 1];
       previous.message.User? && previous.turnId == explicit.value.turnId && previous.contentHash == Sha256(content)
  }

  /** Exactly when the newest message is that very text, and of this turn. */
  lemma ReplaysTheNewest(entries: seq<Entry>, messages: seq<Message>, metadata: Metadata, content: string)
    requires InStep(entries, messages)
    ensures Replays(entries, Some(metadata), content) <==>
      messages != [] && messages[|messages| - 1] == User(content) && entries[|entries| - 1].turnId == metadata.turnId
  {
  }

  function UserEntry(content: string, explicit: Option<Metadata>): Entry {
    var metadata := if explicit.Some? then explicit.value else Metadata("legacy", FromUser);
    Entry(User(content), metadata.turnId, metadata.origin, Sha256(content))
  }

  class Transcript {
    var messages: seq<Message>
    var entries: seq<Entry>
    const maxTokens: int
    const maxMessages: int
    var droppedCount: nat
    var nextUserMetadata: Option<Metadata>

    ghost var epoch: Epoch
    /** `droppedCount` when the epoch opened. */
    ghost var droppedBefore: nat

    ghost predicate Valid()
      reads this
    {
      && InStep(entries, messages)
      && Windowed(epoch, messages, maxTokens, maxMessages)
      && epoch.opening <= |epoch.history|
      && droppedCount == droppedBefore + epoch.start
    }

    constructor (maxTokens: int, maxMessages: int)
      ensures Valid() && messages == [] && epoch == Epoch([], 0, 0, true) && droppedCount == 0 && nextUserMetadata == None
      ensures this.maxTokens == maxTokens && this.maxMessages == maxMessages
    {
      this.maxTokens, this.maxMessages := maxTokens, maxMessages;
      messages, entries, droppedCount, nextUserMetadata := [], [], 0, None;
      epoch, droppedBefore := Epoch([], 0, 0, true), 0;
    }

    method SetNextUserMetadata(metadata: Metadata)
      requires Valid()
      modifies this`nextUserMetadata
      ensures Valid() && nextUserMetadata == Some(metadata)
    {
      nextUserMetadata := Some(metadata);
    }

    ghost function PastNow(): Past
      reads this
    {
      Past(epoch.history, epoch.opening, CurrentTurnId(), epoch.clean)
    }

    /** What is held now. */
    ghost function HeldNow(p: Past): seq<Message> { Held(p, maxTokens, maxMessages) }

    lemma HoldsTheWindow()
      requires Valid() && (messages == [] || OpensOnUser(epoch.history))
      ensures messages == HeldNow(PastNow())
    {
      if messages != [] { assert epoch.history[0..] == epoch.history; }
    }

    function CurrentTurnId(): string
      reads this
    {
      if entries == [] then "legacy" else entries[|entries| - 1].turnId
    }

    /** Drop old turns until both limits hold again; the turn in flight always stays. */
    method Evict() returns (ghost s: nat)
      requires |entries| == |messages| > 0
      modifies this`messages, this`entries, this`droppedCount
      ensures s <= LastUser(old(messages))
      ensures messages == old(messages)[s..] && entries == old(entries)[s..]
      ensures droppedCount == old(droppedCount) + s
      ensures s > 0 ==> old(messages)[s].User?
      ensures OpensOnUser(old(messages)) ==> s == WindowStart(old(messages), maxTokens, maxMessages)
    {
      var kept;
      kept, s := Retain(messages, maxTokens, maxMessages);
      var dropped := |messages| - |kept|;
      if dropped <= 0 { return; }
      droppedCount := droppedCount + dropped;
      messages := messages[dropped..];
      entries := entries[dropped..];
    }

    /** Common part of every append. */
    method Push(message: Message, turnId: string, origin: Origin) returns (ghost cut: nat)
      requires Valid()
      modifies this
      ensures Valid()
      ensures epoch == old(epoch).(history := old(epoch.history) + [message], start := old(epoch.start) + cut)
        && droppedBefore == old(droppedBefore)
      ensures entries != [] && entries[|entries| - 1] == Entry(message, turnId, origin, Sha256(message.content))
      ensures nextUserMetadata == old(nextUserMetadata)
      ensures cut <= |old(messages)| && messages == (old(messages) + [message])[cut..]
      ensures cut > 0 ==> (old(messages) + [message])[cut].User?
    {
      hide *;
      ValidMeans();
      StaysAsLong(entries, messages);
      ghost var before := messages;
      messages := messages + [message];
      entries := entries + [Entry(message, turnId, origin, Sha256(message.content))];
      cut := Evict();
      StaysInStep(old(entries), before, Entry(message, turnId, origin, Sha256(message.content)), cut);
      EvictionStaysWindowed(epoch, before, message, maxTokens, maxMessages, cut);
      epoch := epoch.(history := epoch.history + [message], start := epoch.start + cut);
      ValidMeans();
    }

    lemma ValidMeans()
      ensures Valid() <==>
        InStep(entries, messages) && Windowed(epoch, messages, maxTokens, maxMessages) && epoch.opening <= |epoch.history| &&
        droppedCount == droppedBefore + epoch.start
    {
      hide InStep, Windowed;
    }

    method AppendUser(content: string, metadata: Option<Metadata>) returns (status: AppendStatus)
      requires Valid()
      modifies this
      ensures Valid() && nextUserMetadata == None
      ensures status == Duplicate <==> Replays(old(entries), Explicit(metadata, old(nextUserMetadata)), content)
      ensures status == Appended ==>
        entries != [] && entries[|entries| - 1] == UserEntry(content, Explicit(metadata, old(nextUserMetadata)))
      ensures status == Appended && metadata.Some? ==> entries[|entries| - 1].turnId == metadata.value.turnId
      ensures status == Appended && metadata.None? && old(nextUserMetadata).Some? ==>
        entries[|entries| - 1].turnId == old(nextUserMetadata).value.turnId
      ensures status == Duplicate ==>
        unchanged(`messages, `entries, `epoch, `droppedBefore, `droppedCount)
      ensures status == Appended ==>
        && PastNow() == old(PastNow()).(history := old(epoch.history) + [User(content)], turn := entries[|entries| - 1].turnId)
        && droppedBefore == old(droppedBefore)
        && (OpensOnUser(epoch.history) ==> messages == epoch.history[WindowStart(epoch.history, maxTokens, maxMessages)..])
      ensures Read(old(messages)) == Owes([]) ==> Read(messages) == Owes([])
      ensures OpensOnUser(old(messages)) || old(messages) == [] ==> OpensOnUser(messages)
      ensures DistinctGroups(old(messages)) ==> DistinctGroups(messages)
      ensures CallIds(messages) <= CallIds(old(messages))
    {
      hide Windowed, WindowStart, CallIds, DistinctGroups;
      var explicit := Explicit(metadata, nextUserMetadata);
      nextUserMetadata := None;
      if Replays(entries, explicit, content) {
        return Duplicate;
      }
      var entry := UserEntry(content, explicit);
      ghost var before := messages;
      ghost var cut := Push(User(content), entry.turnId, entry.origin);
      AppendKeepsPairing(before, User(content), cut, messages);
      WindowedShows(epoch, messages, maxTokens, maxMessages);
      status := Appended;
    }

    method AppendAssistant(content: string, calls: seq<ToolCall>)
      requires Valid()
      modifies this
      ensures Valid()
      ensures PastNow() == old(PastNow()).(history := old(epoch.history) + [Assistant(content, calls)])
      ensures entries != [] && droppedBefore == old(droppedBefore)
      ensures OpensOnUser(epoch.history) ==> messages == epoch.history[WindowStart(epoch.history, maxTokens, maxMessages)..]
      ensures entries[|entries| - 1] == Entry(Assistant(content, calls), old(CurrentTurnId()), FromSystem, Sha256(content))
      ensures nextUserMetadata == old(nextUserMetadata)
      ensures Read(old(messages)) == Owes([]) ==> Read(messages) == Owes(Ids(calls))
      ensures DistinctGroups(old(messages)) && IdSet(calls) !! CallIds(old(messages)) ==> DistinctGroups(messages)
      ensures CallIds(messages) <= CallIds(old(messages)) + IdSet(calls)
      ensures OpensOnUser(old(messages)) ==> OpensOnUser(messages)
    {
      hide Windowed, WindowStart, CallIds, DistinctGroups;
      ghost var before := messages;
      ghost var cut := Push(Assistant(content, calls), CurrentTurnId(), FromSystem);
      AppendKeepsPairing(before, Assistant(content, calls), cut, messages);
      WindowedShows(epoch, messages, maxTokens, maxMessages);
    }

    method AppendToolResult(callId: string, output: string)
      requires Valid()
      modifies this
      ensures Valid()
      ensures PastNow() == old(PastNow()).(history := old(epoch.history) + [Tool(callId, output)])
      ensures entries != [] && droppedBefore == old(droppedBefore)
      ensures OpensOnUser(epoch.history) ==> messages == epoch.history[WindowStart(epoch.history, maxTokens, maxMessages)..]
      ensures entries[|entries| - 1] == Entry(Tool(callId, output), old(CurrentTurnId()), FromSystem, Sha256(output))
      ensures nextUserMetadata == old(nextUserMetadata)
      ensures Read(old(messages)).Owes? && Read(old(messages)).ids != [] && Read(old(messages)).ids[0] == callId ==>
        Read(messages) == Owes(Read(old(messages)).ids[1..])
      ensures DistinctGroups(old(messages)) ==> DistinctGroups(messages)
      ensures CallIds(messages) <= CallIds(old(messages))
      ensures OpensOnUser(old(messages)) ==> OpensOnUser(messages)
    {
      hide Windowed, WindowStart, CallIds, DistinctGroups;
      ghost var before := messages;
      ghost var cut := Push(Tool(callId, output), CurrentTurnId(), FromSystem);
      AppendKeepsPairing(before, Tool(callId, output), cut, messages);
      WindowedShows(epoch, messages, maxTokens, maxMessages);
    }

    method ReplaceForContextEpoch(replacement: seq<Message>, turnId: string, ghost clean: bool)
      requires Valid()
      modifies this
      ensures Valid()
      ensures messages == replacement && epoch == Epoch(replacement, |replacement|, 0, clean) && |entries| == |replacement|
      ensures forall i | 0 <= i < |replacement| ::
        entries[i] == Entry(replacement[i], turnId, FromSystem, Sha256(replacement[i].content))
      ensures droppedCount == old(droppedCount) && nextUserMetadata == old(nextUserMetadata)
    {
      messages := replacement;
      entries := seq(|replacement|, i requires 0 <= i < |replacement| =>
        Entry(replacement[i], turnId, FromSystem, Sha256(replacement[i].content)));
      epoch, droppedBefore := Epoch(replacement, |replacement|, 0, clean), droppedCount;
    }

    method CompactForContextEpoch(objective: string, checkpoint: string, turnId: string, lineageLimit: int := EPOCH_LIMIT)
      requires Valid()
      modifies this
      ensures Valid()
      ensures messages ==
        [User(objective), User(checkpoint)] + PairingSafeLineage(old(messages), lineageLimit)
      ensures PastNow() == Past(messages, |messages|, turnId, old(epoch.clean) && LeadsNowhere(old(messages), lineageLimit))
      ensures droppedCount == old(droppedCount) && nextUserMetadata == old(nextUserMetadata)
      ensures PairingComplete(old(messages)) ==> (PairingComplete(messages) <==> LeadsNowhere(old(messages), lineageLimit))
      ensures PairingComplete(old(messages)) && DistinctGroups(old(messages)) ==>
        PairingComplete(messages) && DistinctGroups(messages)
      ensures PairingComplete(old(messages)) ==> CarriesNewest(messages[2..], old(messages), lineageLimit)
      ensures PairingComplete(messages) && PairingComplete(old(messages)) ==>
        NewestRun(messages[2..], Exchanges(old(messages)), lineageLimit)
    {
      hide CarriesNewest, NewestRun, Exchanges, LeadsNowhere, PairingSafeLineage, DistinctGroups, PairingComplete;
      var lineage := ComputeLineage(messages, lineageLimit);
      ghost var before, clean := messages, epoch.clean && LeadsNowhere(messages, lineageLimit);
      PreambleKeepsPairing(objective, checkpoint, lineage);
      if PairingComplete(before) {
        LineageIsCompleteExactlyWhen(before, lineageLimit);
        LineageCarriesNewest(before, lineageLimit);
        if DistinctGroups(before) { LineageIsPairingComplete(before, lineageLimit); }
      }
      assert ([User(objective), User(checkpoint)] + lineage)[2..] == lineage;
      ReplaceForContextEpoch([User(objective), User(checkpoint)] + lineage, turnId, clean);
    }
  }

  /** Two user messages in front change nothing. */
  lemma PreambleKeepsPairing(objective: string, checkpoint: string, lineage: seq<Message>)
    ensures PairingComplete([User(objective), User(checkpoint)] + lineage) <==> PairingComplete(lineage)
    ensures DistinctGroups([User(objective), User(checkpoint)] + lineage) <==> DistinctGroups(lineage)
    ensures CallIds([User(objective), User(checkpoint)] + lineage) == CallIds(lineage)
  {
    var preamble := [User(objective), User(checkpoint)];
    ReaderIsGrammar(lineage);
    RunAppend(Owes([]), preamble, lineage);
    assert preamble[1..] == [User(checkpoint)] && preamble[1..][1..] == [];
    assert Read(preamble) == Run(Step(Owes([]), preamble[0]), preamble[1..]) == Run(Step(Owes([]), preamble[1]), []);
    ReaderIsGrammar(preamble + lineage);
    GroupsAppend(preamble, lineage);
    assert CallIds([User(checkpoint)]) == {} && DistinctGroups([User(checkpoint)]);
  }

  method CutByCount(ms: seq<Message>, maxMessages: nat) returns (kept: seq<Message>, start: nat)
    requires 0 < maxMessages < |ms|
    ensures IsCut(ms, maxMessages, start) && kept == ms[start..]
  {
    var boundary := LastUser(ms);
    LastUserIs(ms);
    var low := if |ms| - maxMessages <= boundary then |ms| - maxMessages else boundary;
    start := low;
    while start < boundary && !ms[start].User?
      invariant low <= start <= boundary
      invariant forall u | low <= u < start :: !ms[u].User?
    {
      start := start + 1;
    }
    kept := ms[start..];
  }
}
