/** The recent tool exchanges carried into a fresh context epoch. */
module Lineage {
  import opened Messages
  import opened Pairing

  /** The ids of some calls; an empty id is no id. */
  function IdSet(calls: seq<ToolCall>): set<string> { set c | c in calls && c.id != "" :: c.id }

  /** Every id some assistant message of `ms` has called. */
  function CallIds(ms: seq<Message>): set<string> {
    if ms == [] then {} else (if ms[0].Assistant? then IdSet(ms[0].calls) else {}) + CallIds(ms[1..])
  }

  /** The same with the empty id in it, as the final filter collects them. */
  function AllIds(ms: seq<Message>): set<string> {
    if ms == [] then {} else (if ms[0].Assistant? then set c | c in ms[0].calls :: c.id else {}) + AllIds(ms[1..])
  }

  lemma {:induction false} AllIdsNamed(ms: seq<Message>, x: string)
    requires x != ""
    ensures x in AllIds(ms) <==> x in CallIds(ms)
  {
    if ms != [] { AllIdsNamed(ms[1..], x); }
  }

  lemma {:induction false} AllIdsAppend(a: seq<Message>, b: seq<Message>)
    ensures AllIds(a + b) == AllIds(a) + AllIds(b)
  {
    if a == [] {
      assert a + b == b;
    } else {
      assert (a + b)[1..] == a[1..] + b;
      AllIdsAppend(a[1..], b);
    }
  }

  /** No two assistant messages call the same id. */
  predicate DistinctGroups(ms: seq<Message>) {
    ms == [] || (DistinctGroups(ms[1..]) && (ms[0].Assistant? ==> IdSet(ms[0].calls) !! CallIds(ms[1..])))
  }

  lemma {:induction false} GroupsAppend(a: seq<Message>, b: seq<Message>)
    ensures CallIds(a + b) == CallIds(a) + CallIds(b)
    ensures DistinctGroups(a + b) <==> DistinctGroups(a) && DistinctGroups(b) && CallIds(a) !! CallIds(b)
  {
    if a == [] {
      assert a + b == b;
    } else {
      assert (a + b)[1..] == a[1..] + b;
      GroupsAppend(a[1..], b);
    }
  }

  lemma GroupsSuffix(ms: seq<Message>, s: nat)
    requires s <= |ms|
    ensures CallIds(ms[s..]) <= CallIds(ms)
    ensures DistinctGroups(ms) ==> DistinctGroups(ms[s..])
  {
    assert ms == ms[..s] + ms[s..];
    GroupsAppend(ms[..s], ms[s..]);
  }

  function WithIdIn(calls: seq<ToolCall>, ids: set<string>): (r: seq<ToolCall>)
    ensures forall c | c in r :: c in calls && c.id in ids
  {
    if calls == [] then []
    else (if calls[0].id in ids then [calls[0]] else []) + WithIdIn(calls[1..], ids)
  }

  /** The newest-first selection: results that carry an id, and assistants one of whose calls was answered. */
  function Pick(ms: seq<Message>, limit: int, sel: seq<Message>, ids: set<string>): seq<Message>
    decreases |ms|
  {
    if ms == [] || |sel| >= limit then sel
    else
      var front, m := ms[..|ms| - 1], ms[|ms| - 1];
      if m.Tool? && m.callId != "" then Pick(front, limit, [m] + sel, ids + {m.callId})
      else if m.Assistant? && WithIdIn(m.calls, ids) != [] then
        Pick(front, limit, [Assistant(m.content, WithIdIn(m.calls, ids))] + sel, ids)
      else Pick(front, limit, sel, ids)
  }

  function DropUnpaired(ms: seq<Message>, paired: set<string>): seq<Message> {
    if ms == [] then []
    else (if ms[0].Tool? && ms[0].callId !in paired then [] else [ms[0]]) + DropUnpaired(ms[1..], paired)
  }

  function PairingSafeLineage(ms: seq<Message>, limit: int): seq<Message> {
    if limit <= 0 then []
    else
      var sel := Pick(ms, limit, [], {});
      DropUnpaired(sel, AllIds(sel))
  }

  method ComputeLineage(ms: seq<Message>, limit: int) returns (kept: seq<Message>)
    ensures kept == PairingSafeLineage(ms, limit)
    ensures PairingComplete(ms) ==> CarriesNewest(kept, ms, limit)
  {
    if PairingComplete(ms) { LineageCarriesNewest(ms, limit); }
    hide CarriesNewest, PairingComplete;
    if limit <= 0 { return []; }
    var selected: seq<Message> := [];
    var resultIds: set<string> := {};
    var i := |ms| - 1;
    assert ms[..|ms|] == ms;
    while i >= 0 && |selected| < limit
      invariant -1 <= i < |ms|
      invariant Pick(ms[..i + 1], limit, selected, resultIds) == Pick(ms, limit, [], {})
    {
      var message := ms[i];
      assert ms[..i + 1][..i] == ms[..i];
      i := i - 1;
      if message.Tool? && message.callId != "" {
        resultIds := resultIds + {message.callId};
        selected := [message] + selected;
        continue;
      }
      if message.Assistant? {
        var answered := WithIdIn(message.calls, resultIds);
        if answered != [] { selected := [Assistant(message.content, answered)] + selected; }
      }
    }
    kept := DropUnpaired(selected, AllIds(selected));
  }

  // ---- why the selection is pairing-complete ----

  /** Owed ids that can be matched at all: the scan treats an empty id as no id. */
  function Named(ids: seq<string>): (r: seq<string>)
    ensures forall x :: x in r <==> x in ids && x != ""
  {
    if ids == [] then [] else (if ids[0] == "" then [] else [ids[0]]) + Named(ids[1..])
  }

  lemma {:induction false} AnsweredCallsAreTheNamedOnes(calls: seq<ToolCall>, ids: set<string>)
    requires "" !in ids && forall c | c in calls && c.id != "" :: c.id in ids
    ensures Ids(WithIdIn(calls, ids)) == Named(Ids(calls))
  {
    if calls != [] {
      var rest := WithIdIn(calls[1..], ids);
      assert calls[0] in calls;
      AnsweredCallsAreTheNamedOnes(calls[1..], ids);
      assert Ids(calls)[1..] == Ids(calls[1..]);
      assert ([calls[0]] + rest)[1..] == rest && [] + rest == rest;
    }
  }

  /** What is owed was called. */
  lemma {:induction false} OwedWasCalled(o: Owing, ms: seq<Message>)
    requires o.Owes? && Run(o, ms).Owes?
    ensures forall x | x in Run(o, ms).ids :: x in o.ids || x in AllIds(ms)
    ensures forall m | m in ms && m.Tool? :: m.callId in o.ids || m.callId in AllIds(ms)
    decreases |ms|
  {
    if ms != [] {
      RunBroken(ms[1..]);
      OwedWasCalled(Step(o, ms[0]), ms[1..]);
      if ms[0].Assistant? {
        forall x | x in Ids(ms[0].calls) ensures x in AllIds(ms) {
          var i :| 0 <= i < |ms[0].calls| && Ids(ms[0].calls)[i] == x;
          assert ms[0].calls[i].id == x;
        }
      }
    }
  }

  /** The state of the scan: what is selected settles the named results still owed by the unread front. */
  ghost predicate Scanning(front: seq<Message>, back: seq<Message>, sel: seq<Message>, ids: set<string>) {
    && Read(front).Owes?
    && Run(Owes(Named(Read(front).ids)), sel) == Owes([])
    && "" !in ids && (forall x | x in Named(Read(front).ids) :: x in ids)
    && CallIds(sel) <= CallIds(back) && (DistinctGroups(back) ==> DistinctGroups(sel))
  }

  /** Results alone, that carry ids, of calls made in `front`. */
  predicate Fragment(ms: seq<Message>, front: seq<Message>) {
    forall m | m in ms :: m.Tool? && m.callId != "" && m.callId in CallIds(front)
  }

  /** Where the scan stops, the selection opens with results whose assistant was not reached. */
  lemma StopSplits(front: seq<Message>, back: seq<Message>, sel: seq<Message>, ids: set<string>)
    returns (fragment: seq<Message>, whole: seq<Message>)
    requires Scanning(front, back, sel, ids)
    ensures sel == fragment + whole && Fragment(fragment, front)
    ensures PairingComplete(whole) && CallIds(whole) <= CallIds(back) && (DistinctGroups(back) ==> DistinctGroups(whole))
  {
    var owed := Named(Read(front).ids);
    RunResults(owed, sel);
    fragment, whole := sel[..|owed|], sel[|owed|..];
    ReaderIsGrammar(whole);
    GroupsSuffix(sel, |owed|);
    OwedWasCalled(Owes([]), front);
    forall m | m in fragment ensures m.Tool? && m.callId != "" && m.callId in CallIds(front) {
      var j :| 0 <= j < |owed| && m == sel[j];
      assert m.callId in owed;
      AllIdsNamed(front, m.callId);
    }
  }

  /** One step of the scan over the message `m` just before `back`. */
  lemma ScanStep(front: seq<Message>, m: Message, back: seq<Message>, sel: seq<Message>, ids: set<string>)
    requires Scanning(front + [m], back, sel, ids)
    ensures m.Tool? && m.callId != "" ==> Scanning(front, [m] + back, [m] + sel, ids + {m.callId})
    ensures m.Assistant? && WithIdIn(m.calls, ids) != [] ==>
      Scanning(front, [m] + back, [Assistant(m.content, WithIdIn(m.calls, ids))] + sel, ids)
    ensures m.User? || (m.Tool? && m.callId == "") || (m.Assistant? && WithIdIn(m.calls, ids) == []) ==>
      Scanning(front, [m] + back, sel, ids)
  {
    match m
    case User(_) => ScanUser(front, m, back, sel, ids);
    case Tool(_, _) => ScanTool(front, m, back, sel, ids);
    case Assistant(_, _) => ScanCalls(front, m, back, sel, ids);
  }

  lemma IdsOfFirst(m: Message, ms: seq<Message>)
    ensures CallIds([m] + ms) == (if m.Assistant? then IdSet(m.calls) else {}) + CallIds(ms)
    ensures DistinctGroups([m] + ms) <==> DistinctGroups(ms) && (m.Assistant? ==> IdSet(m.calls) !! CallIds(ms))
    ensures CallIds([m]) == if m.Assistant? then IdSet(m.calls) else {}
  {
    assert ([m] + ms)[1..] == ms && [m][1..] == [];
  }

  /** Reading a message is a step of the reader; then the rest is read. */
  lemma ReadFirst(o: Owing, m: Message, ms: seq<Message>)
    ensures Run(o, [m] + ms) == Run(Step(o, m), ms)
  {
    assert ([m] + ms)[1..] == ms;
  }

  lemma ScanUser(front: seq<Message>, m: Message, back: seq<Message>, sel: seq<Message>, ids: set<string>)
    requires Scanning(front + [m], back, sel, ids) && m.User?
    ensures Scanning(front, [m] + back, sel, ids)
  {
    ReadSnoc(front, m);
    IdsOfFirst(m, back);
    hide Run, Read, CallIds, DistinctGroups, Named;
  }

  lemma NamedFirst(id: string, ids: seq<string>)
    ensures Named([id] + ids) == (if id == "" then [] else [id]) + Named(ids)
    ensures [] + Named(ids) == Named(ids)
  {
    assert ([id] + ids)[1..] == ids;
  }

  lemma ScanTool(front: seq<Message>, m: Message, back: seq<Message>, sel: seq<Message>, ids: set<string>)
    requires Scanning(front + [m], back, sel, ids) && m.Tool?
    ensures if m.callId != "" then Scanning(front, [m] + back, [m] + sel, ids + {m.callId}) else Scanning(front, [m] + back, sel, ids)
  {
    var owed := Read(front + [m]).ids;
    ReadSnoc(front, m);
    assert Read(front).ids == [m.callId] + owed;
    NamedFirst(m.callId, owed);
    ReadFirst(Owes([m.callId] + Named(owed)), m, sel);
    assert ([m.callId] + Named(owed))[1..] == Named(owed);
    IdsOfFirst(m, back);
    IdsOfFirst(m, sel);
    hide Run, Read, CallIds, DistinctGroups, Named;
  }

  lemma ScanCalls(front: seq<Message>, m: Message, back: seq<Message>, sel: seq<Message>, ids: set<string>)
    requires Scanning(front + [m], back, sel, ids) && m.Assistant?
    ensures if WithIdIn(m.calls, ids) != []
      then Scanning(front, [m] + back, [Assistant(m.content, WithIdIn(m.calls, ids))] + sel, ids)
      else Scanning(front, [m] + back, sel, ids)
  {
    var picked := Assistant(m.content, WithIdIn(m.calls, ids));
    ReadSnoc(front, m);
    ScanAssistant(m, ids);
    ReadFirst(Owes([]), picked, sel);
    assert Named([]) == [];
    IdsOfFirst(m, back);
    IdsOfFirst(picked, sel);
    hide Run, Read, CallIds, DistinctGroups, Named;
  }

  /** The scan ends, wherever it stops, with a fragment of results whose calls it did not reach before a complete part. */
  lemma {:induction false} PickSplits(front: seq<Message>, back: seq<Message>, limit: int, sel: seq<Message>, ids: set<string>)
    returns (fragment: seq<Message>, whole: seq<Message>, stop: nat)
    requires Scanning(front, back, sel, ids)
    ensures Pick(front, limit, sel, ids) == fragment + whole
    ensures stop <= |front| && Fragment(fragment, front[..stop])
    ensures PairingComplete(whole) && CallIds(whole) <= CallIds(front[stop..] + back)
    ensures DistinctGroups(front[stop..] + back) ==> DistinctGroups(whole)
    decreases |front|
  {
    hide *;
    if front == [] || |sel| >= limit {
      PickStops(front, limit, sel, ids);
      fragment, whole := StopSplits(front, back, sel, ids);
      stop := |front|;
      assert front[..stop] == front && front[stop..] + back == back;
    } else {
      var rest, m := front[..|front| - 1], front[|front| - 1];
      assert front == rest + [m];
      var sel', ids' := PickStep(rest, m, back, limit, sel, ids);
      fragment, whole, stop := PickSplits(rest, [m] + back, limit, sel', ids');
      assert front[..stop] == rest[..stop] && front[stop..] + back == rest[stop..] + ([m] + back);
    }
  }

  /** One step of the selection. */
  lemma PickStep(rest: seq<Message>, m: Message, back: seq<Message>, limit: int, sel: seq<Message>, ids: set<string>)
    returns (sel': seq<Message>, ids': set<string>)
    requires Scanning(rest + [m], back, sel, ids) && |sel| < limit
    ensures Scanning(rest, [m] + back, sel', ids') && Pick(rest + [m], limit, sel, ids) == Pick(rest, limit, sel', ids')
  {
    hide *;
    ScanStep(rest, m, back, sel, ids);
    PickLast(rest, m, limit, sel, ids);
    sel', ids' := sel, ids;
    if m.Tool? && m.callId != "" {
      sel', ids' := [m] + sel, ids + {m.callId};
    } else if m.Assistant? && WithIdIn(m.calls, ids) != [] {
      sel' := [Assistant(m.content, WithIdIn(m.calls, ids))] + sel;
    }
  }

  lemma PickStops(front: seq<Message>, limit: int, sel: seq<Message>, ids: set<string>)
    requires front == [] || |sel| >= limit
    ensures Pick(front, limit, sel, ids) == sel
  {
  }

  /** When the scan reaches an assistant message, exactly its named calls have been answered. */
  lemma ScanAssistant(m: Message, ids: set<string>)
    requires m.Assistant? && "" !in ids && forall x | x in Named(Ids(m.calls)) :: x in ids
    ensures Ids(WithIdIn(m.calls, ids)) == Named(Ids(m.calls))
    ensures IdSet(WithIdIn(m.calls, ids)) <= IdSet(m.calls)
  {
    forall c | c in m.calls && c.id != "" ensures c.id in ids {
      var i :| 0 <= i < |m.calls| && m.calls[i] == c;
      assert Ids(m.calls)[i] == c.id;
    }
    AnsweredCallsAreTheNamedOnes(m.calls, ids);
  }

  lemma {:induction false} DropUnpairedSplits(a: seq<Message>, b: seq<Message>, paired: set<string>)
    requires forall m | m in a :: m.Tool? && m.callId !in paired
    requires forall m | m in b && m.Tool? :: m.callId in paired
    ensures DropUnpaired(a + b, paired) == b
  {
    if a != [] {
      assert (a + b)[1..] == a[1..] + b;
      DropUnpairedSplits(a[1..], b, paired);
    } else if b != [] {
      assert a + b == b && b[1..] == [] + b[1..];
      DropUnpairedSplits([], b[1..], paired);
    } else {
      assert a + b == [];
    }
  }

  lemma SplitSelection(ms: seq<Message>, limit: int) returns (fragment: seq<Message>, whole: seq<Message>, stop: nat)
    requires PairingComplete(ms)
    ensures Pick(ms, limit, [], {}) == fragment + whole
    ensures stop <= |ms| && Fragment(fragment, ms[..stop])
    ensures PairingComplete(whole) && CallIds(whole) <= CallIds(ms[stop..])
    ensures DistinctGroups(ms[stop..]) ==> DistinctGroups(whole)
  {
    ReaderIsGrammar(ms);
    fragment, whole, stop := PickSplits(ms, [], limit, [], {});
    assert ms[stop..] + [] == ms[stop..];
  }

  /** The final filter drops a fragment none of whose ids is called. */
  lemma FilterKeepsTheWhole(fragment: seq<Message>, whole: seq<Message>)
    requires PairingComplete(whole)
    requires forall m | m in fragment :: m.Tool? && m.callId !in AllIds(fragment + whole)
    ensures DropUnpaired(fragment + whole, AllIds(fragment + whole)) == whole
  {
    FragmentCallsNothing(fragment);
    AllIdsAppend(fragment, whole);
    ReaderIsGrammar(whole);
    OwedWasCalled(Owes([]), whole);
    hide PairingComplete, Run, DropUnpaired, CallIds, AllIds;
    assert AllIds(fragment + whole) == AllIds(whole);
    DropUnpairedSplits(fragment, whole, AllIds(whole));
  }

  /** For every limit, the lineage of a pairing-complete transcript whose assistants call distinct ids
      is itself pairing-complete. */
  lemma LineageIsPairingComplete(ms: seq<Message>, limit: int)
    requires PairingComplete(ms) && DistinctGroups(ms)
    ensures PairingComplete(PairingSafeLineage(ms, limit))
    ensures DistinctGroups(PairingSafeLineage(ms, limit))
    ensures CallIds(PairingSafeLineage(ms, limit)) <= CallIds(ms)
  {
    if limit > 0 {
      var fragment, whole, stop := SplitSelection(ms, limit);
      assert ms == ms[..stop] + ms[stop..];
      GroupsAppend(ms[..stop], ms[stop..]);
      CalledElsewhere(fragment, whole, ms[..stop], ms[stop..]);
      hide PairingComplete, CallIds, DistinctGroups, Pick;
      FilterKeepsTheWhole(fragment, whole);
    }
  }

  lemma CalledElsewhere(fragment: seq<Message>, whole: seq<Message>, front: seq<Message>, back: seq<Message>)
    requires Fragment(fragment, front) && CallIds(whole) <= CallIds(back) && CallIds(front) !! CallIds(back)
    ensures forall m | m in fragment :: m.Tool? && m.callId !in AllIds(fragment + whole)
  {
    FragmentCallsNothing(fragment);
    AllIdsAppend(fragment, whole);
    hide CallIds, AllIds;
    forall m | m in fragment ensures m.callId !in AllIds(fragment + whole) { AllIdsNamed(whole, m.callId); }
  }

  lemma {:induction false} FragmentCallsNothing(ms: seq<Message>)
    requires forall m | m in ms :: m.Tool?
    ensures CallIds(ms) == {} && AllIds(ms) == {}
  {
    if ms != [] {
      assert ms[0] in ms;
      FragmentCallsNothing(ms[1..]);
    }
  }

  // ---- and exactly when, for one limit ----

  /** The results a selection opens with. */
  function Lead(sel: seq<Message>): (lead: seq<Message>)
    ensures forall m | m in lead :: m.Tool?
  {
    if sel != [] && sel[0].Tool? then [sel[0]] + Lead(sel[1..]) else []
  }

  /** No result the selection opens with is taken for that of another call. */
  predicate LeadsNowhere(ms: seq<Message>, limit: int) {
    limit > 0 ==> var sel := Pick(ms, limit, [], {}); forall m | m in Lead(sel) :: m.callId !in AllIds(sel)
  }

  lemma {:induction false} LeadIs(fragment: seq<Message>, whole: seq<Message>)
    requires (forall m | m in fragment :: m.Tool?) && (whole == [] || !whole[0].Tool?)
    ensures Lead(fragment + whole) == fragment
  {
    if fragment == [] {
      assert fragment + whole == whole;
    } else {
      assert fragment[0] in fragment && (fragment + whole)[1..] == fragment[1..] + whole;
      LeadIs(fragment[1..], whole);
    }
  }

  lemma {:induction false} DropUnpairedAppend(a: seq<Message>, b: seq<Message>, paired: set<string>)
    ensures DropUnpaired(a + b, paired) == DropUnpaired(a, paired) + DropUnpaired(b, paired)
  {
    hide *;
    DropFirst(a, paired);
    DropFirst(a + b, paired);
    if a == [] {
      assert a + b == b;
    } else {
      assert (a + b)[1..] == a[1..] + b;
      DropUnpairedAppend(a[1..], b, paired);
    }
  }

  lemma DropFirst(ms: seq<Message>, paired: set<string>)
    ensures DropUnpaired(ms, paired) ==
      if ms == [] then [] else (if ms[0].Tool? && ms[0].callId !in paired then [] else [ms[0]]) + DropUnpaired(ms[1..], paired)
  {
  }

  lemma {:induction false} StrayStays(fragment: seq<Message>, paired: set<string>, m: Message)
    requires (forall x | x in fragment :: x.Tool?) && m in fragment && m.callId in paired
    ensures DropUnpaired(fragment, paired) != [] && DropUnpaired(fragment, paired)[0].Tool?
  {
    assert fragment[0] in fragment;
    if fragment[0].callId !in paired {
      assert m in fragment[1..];
      StrayStays(fragment[1..], paired, m);
    }
  }

  lemma OpensOnResult(ms: seq<Message>)
    requires PairingComplete(ms)
    ensures ms == [] || !ms[0].Tool?
  {
  }

  /** At any one limit, the lineage of a complete transcript is complete if and only if the selection leads nowhere. */
  lemma LineageIsCompleteExactlyWhen(ms: seq<Message>, limit: int)
    requires PairingComplete(ms)
    ensures PairingComplete(PairingSafeLineage(ms, limit)) <==> LeadsNowhere(ms, limit)
  {
    if limit > 0 {
      var fragment, whole, stop := SplitSelection(ms, limit);
      var sel := fragment + whole;
      OpensOnResult(whole);
      LeadIs(fragment, whole);
      hide Pick, AllIds, DropUnpaired, PairingComplete, CallIds, DistinctGroups;
      if LeadsNowhere(ms, limit) {
        FilterKeepsTheWhole(fragment, whole);
      } else {
        var m :| m in fragment && m.callId in AllIds(sel);
        StrayStays(fragment, AllIds(sel), m);
        DropUnpairedAppend(fragment, whole, AllIds(sel));
        var lineage := PairingSafeLineage(ms, limit);
        assert lineage[0].Tool?;
        if PairingComplete(lineage) { OpensOnResult(lineage); }
      }
    }
  }

  lemma DistinctLeadsNowhere(ms: seq<Message>, limit: int)
    requires PairingComplete(ms) && DistinctGroups(ms)
    ensures LeadsNowhere(ms, limit)
  {
    LineageIsPairingComplete(ms, limit);
    LineageIsCompleteExactlyWhen(ms, limit);
    hide *;
  }

  // ---- what a lineage carries ----

  lemma {:induction false} PickIsShort(ms: seq<Message>, limit: int, sel: seq<Message>, ids: set<string>)
    requires |sel| <= limit
    ensures |Pick(ms, limit, sel, ids)| <= limit
    decreases |ms|
  {
    if ms != [] && |sel| < limit {
      var front, m := ms[..|ms| - 1], ms[|ms| - 1];
      PickIsShort(front, limit, [m] + sel, ids + if m.Tool? then {m.callId} else {});
      if m.Assistant? { PickIsShort(front, limit, [Assistant(m.content, WithIdIn(m.calls, ids))] + sel, ids); }
      PickIsShort(front, limit, sel, ids);
    }
  }

  function NamedCalls(calls: seq<ToolCall>): seq<ToolCall> {
    if calls == [] then [] else (if calls[0].id == "" then [] else [calls[0]]) + NamedCalls(calls[1..])
  }

  /** What a message is in a tool exchange: a result of a call with an id, or an assistant message with such calls. */
  function Exchanged(m: Message): seq<Message> {
    match m
    case User(_) => []
    case Tool(id, _) => if id == "" then [] else [m]
    case Assistant(text, calls) => if NamedCalls(calls) == [] then [] else [Assistant(text, NamedCalls(calls))]
  }

  /** The tool exchanges of a transcript, in order. */
  function Exchanges(ms: seq<Message>): seq<Message> {
    if ms == [] then [] else Exchanges(ms[..|ms| - 1]) + Exchanged(ms[|ms| - 1])
  }

  /** The longest stretch of the newest of these messages that is no longer than the limit and does not open on a result. */
  ghost predicate NewestRun(run: seq<Message>, all: seq<Message>, limit: int) {
    && |run| <= |all| && run == all[|all| - |run|..] && (run != [] ==> |run| <= limit && !run[0].Tool?)
    && forall p | 0 <= p < |all| - |run| && |all| - p <= limit :: all[p].Tool?
  }

  /** The newest run of the exchanges, and before it nothing but results whose ids its calls also use. */
  ghost predicate CarriesNewest(lineage: seq<Message>, ms: seq<Message>, limit: int) {
    exists strays: seq<Message>, run: seq<Message> ::
      lineage == strays + run && NewestRun(run, Exchanges(ms), limit) && |lineage| <= (if limit > 0 then limit else 0)
      && forall m | m in strays :: m.Tool? && m.callId in AllIds(run)
  }

  lemma {:induction false} NamedAreThose(calls: seq<ToolCall>, ids: set<string>)
    requires "" !in ids && forall c | c in calls && c.id != "" :: c.id in ids
    ensures WithIdIn(calls, ids) == NamedCalls(calls)
  {
    if calls != [] {
      assert calls[0] in calls && forall c | c in calls[1..] :: c in calls;
      NamedAreThose(calls[1..], ids);
    }
  }

  /** One step of the scan takes exactly what the message is in an exchange. */
  lemma PickTakes(front: seq<Message>, m: Message, back: seq<Message>, limit: int, sel: seq<Message>, ids: set<string>)
    returns (ids': set<string>)
    requires Scanning(front + [m], back, sel, ids) && |sel| < limit
    ensures Scanning(front, [m] + back, Exchanged(m) + sel, ids')
    ensures Pick(front + [m], limit, sel, ids) == Pick(front, limit, Exchanged(m) + sel, ids')
  {
    if m.Assistant? { CallsAreNamed(front, m, back, sel, ids); }
    hide Scanning, Pick, WithIdIn, NamedCalls;
    ScanStep(front, m, back, sel, ids);
    PickLast(front, m, limit, sel, ids);
    ids' := if m.Tool? && m.callId != "" then ids + {m.callId} else ids;
    assert [] + sel == sel;
  }

  lemma CallsAreNamed(front: seq<Message>, m: Message, back: seq<Message>, sel: seq<Message>, ids: set<string>)
    requires Scanning(front + [m], back, sel, ids) && m.Assistant?
    ensures WithIdIn(m.calls, ids) == NamedCalls(m.calls)
  {
    ReadSnoc(front, m);
    assert Read(front + [m]).ids == Ids(m.calls) && "" !in ids && forall x | x in Named(Ids(m.calls)) :: x in ids;
    hide Scanning, Read, Named, CallIds, DistinctGroups;
    forall c | c in m.calls && c.id != "" ensures c.id in ids {
      var i :| 0 <= i < |m.calls| && m.calls[i] == c;
      assert Ids(m.calls)[i] == c.id;
    }
    NamedAreThose(m.calls, ids);
  }

  function Newest(s: seq<Message>, n: int): seq<Message> { if n <= 0 then [] else if n >= |s| then s else s[|s| - n..] }

  lemma ExchangesSnoc(front: seq<Message>, m: Message)
    ensures Exchanges(front + [m]) == Exchanges(front) + Exchanged(m)
    ensures |Exchanged(m)| <= 1
  {
    assert (front + [m])[..|front|] == front;
  }

  /** The scan selects the newest messages of the exchanges, as many as the limit allows. */
  lemma {:induction false} PickIsNewest(front: seq<Message>, back: seq<Message>, limit: int, sel: seq<Message>, ids: set<string>)
    requires Scanning(front, back, sel, ids) && |sel| <= limit
    ensures Pick(front, limit, sel, ids) == Newest(Exchanges(front), limit - |sel|) + sel
    decreases |front|
  {
    hide *;
    if front == [] || |sel| >= limit {
      PickStops(front, limit, sel, ids);
      NothingMore(front, limit - |sel|, sel);
    } else {
      var rest, m := front[..|front| - 1], front[|front| - 1];
      assert front == rest + [m];
      var ids' := PickTakes(rest, m, back, limit, sel, ids);
      ExchangesSnoc(rest, m);
      PickIsNewest(rest, [m] + back, limit, Exchanged(m) + sel, ids');
      OneMoreNewest(Exchanges(rest), Exchanged(m), limit - |sel|, sel);
    }
  }

  lemma NothingMore(front: seq<Message>, n: int, sel: seq<Message>)
    requires front == [] || n <= 0
    ensures Newest(Exchanges(front), n) + sel == sel
  {
  }

  lemma OneMoreNewest(s: seq<Message>, x: seq<Message>, n: int, sel: seq<Message>)
    requires |x| <= 1 && n > 0
    ensures Newest(s, n - |x|) + (x + sel) == Newest(s + x, n) + sel
  {
    assert Newest(s, n - |x|) + x == Newest(s + x, n);
    assert Newest(s, n - |x|) + (x + sel) == (Newest(s, n - |x|) + x) + sel;
  }

  /** Stray results in front of a complete part: the part is the newest run of what they come from. */
  lemma SplitIsNewest(all: seq<Message>, limit: int, fragment: seq<Message>, whole: seq<Message>)
    requires limit > 0 && Newest(all, limit) == fragment + whole
    requires (forall m | m in fragment :: m.Tool?) && (whole == [] || !whole[0].Tool?)
    ensures NewestRun(whole, all, limit)
  {
    var sel := fragment + whole;
    assert sel == all[|all| - |sel|..];
    assert whole == sel[|fragment|..] == all[|all| - |whole|..];
    forall p | 0 <= p < |all| - |whole| && |all| - p <= limit ensures all[p].Tool? {
      var i := p - (|all| - |sel|);
      assert all[p] == sel[i] == fragment[i] && fragment[i] in fragment;
    }
  }

  lemma {:induction false} DropsFrom(ms: seq<Message>, paired: set<string>)
    ensures |DropUnpaired(ms, paired)| <= |ms|
    ensures forall m | m in DropUnpaired(ms, paired) :: m in ms && (m.Tool? ==> m.callId in paired)
  {
    if ms != [] { DropsFrom(ms[1..], paired); }
  }

  /** What the lineage of a complete transcript carries over, at every limit: the newest run of its tool exchanges, unchanged,
      with no message added but stray results of ids that run also uses; without those, exactly that run. */
  lemma LineageCarriesNewest(ms: seq<Message>, limit: int)
    requires PairingComplete(ms)
    ensures CarriesNewest(PairingSafeLineage(ms, limit), ms, limit)
    ensures LeadsNowhere(ms, limit) ==> NewestRun(PairingSafeLineage(ms, limit), Exchanges(ms), limit)
  {
    if limit <= 0 {
      assert NewestRun([], Exchanges(ms), limit) && [] + [] == PairingSafeLineage(ms, limit);
    } else {
      var strays, run := LineageSplits(ms, limit);
      hide PairingSafeLineage, Exchanges, NewestRun, AllIds, LeadsNowhere;
      assert [] + run == run;
    }
  }

  lemma LineageSplits(ms: seq<Message>, limit: int) returns (strays: seq<Message>, run: seq<Message>)
    requires PairingComplete(ms) && limit > 0
    ensures PairingSafeLineage(ms, limit) == strays + run && |strays + run| <= limit
    ensures NewestRun(run, Exchanges(ms), limit) && PairingComplete(run)
    ensures forall m | m in strays :: m.Tool? && m.callId in AllIds(run)
    ensures LeadsNowhere(ms, limit) ==> strays == []
  {
    hide *;
    var fragment, whole, stop := SplitSelection(ms, limit);
    var sel := fragment + whole;
    var paired := AllIds(sel);
    SelectionIsNewest(ms, limit);
    OpensOnResult(whole);
    FragmentIsResults(fragment, ms[..stop]);
    SplitIsNewest(Exchanges(ms), limit, fragment, whole);
    FragmentCallsNothing(fragment);
    AllIdsAppend(fragment, whole);
    DropUnpairedAppend(fragment, whole, paired);
    WholeStays(fragment, whole);
    DropsFrom(fragment, paired);
    strays, run := DropUnpaired(fragment, paired), whole;
    LineageIs(ms, limit, sel);
    if LeadsNowhere(ms, limit) {
      LeadIs(fragment, whole);
      LeadIsElsewhere(ms, limit, sel);
      FilterKeepsTheWhole(fragment, whole);
      assert strays + whole == whole;
    }
  }

  lemma FragmentIsResults(fragment: seq<Message>, front: seq<Message>)
    requires Fragment(fragment, front)
    ensures forall m | m in fragment :: m.Tool?
  {
  }

  lemma LineageIs(ms: seq<Message>, limit: int, sel: seq<Message>)
    requires limit > 0 && sel == Pick(ms, limit, [], {})
    ensures PairingSafeLineage(ms, limit) == DropUnpaired(sel, AllIds(sel))
  {
  }

  lemma LeadIsElsewhere(ms: seq<Message>, limit: int, sel: seq<Message>)
    requires limit > 0 && sel == Pick(ms, limit, [], {}) && LeadsNowhere(ms, limit)
    ensures forall m | m in Lead(sel) :: m.callId !in AllIds(sel)
  {
  }

  lemma SelectionIsNewest(ms: seq<Message>, limit: int)
    requires PairingComplete(ms) && limit > 0
    ensures Pick(ms, limit, [], {}) == Newest(Exchanges(ms), limit)
    ensures |Pick(ms, limit, [], {})| <= limit
  {
    ReaderIsGrammar(ms);
    hide Pick, Exchanges, PairingComplete;
    PickIsNewest(ms, [], limit, [], {});
  }

  lemma WholeStays(fragment: seq<Message>, whole: seq<Message>)
    requires PairingComplete(whole) && forall m | m in fragment :: m.Tool?
    ensures DropUnpaired(whole, AllIds(fragment + whole)) == whole
  {
    hide PairingComplete, Run, DropUnpaired, CallIds, AllIds;
    FragmentCallsNothing(fragment);
    AllIdsAppend(fragment, whole);
    ReaderIsGrammar(whole);
    OwedWasCalled(Owes([]), whole);
    assert AllIds(fragment + whole) == AllIds(whole) && [] + whole == whole;
    DropUnpairedSplits([], whole, AllIds(whole));
  }

  lemma {:induction false} NamedCallIsKept(calls: seq<ToolCall>, c: ToolCall)
    requires c in calls && c.id != ""
    ensures c in NamedCalls(calls)
  {
    if calls[0] != c { NamedCallIsKept(calls[1..], c); }
  }

  lemma {:induction false} SomeExchange(ms: seq<Message>, i: nat)
    requires i < |ms| && Exchanged(ms[i]) != []
    ensures Exchanges(ms) != []
  {
    if i < |ms| - 1 { SomeExchange(ms[..|ms| - 1], i); }
  }

  lemma {:induction false} ExchangesAppend(a: seq<Message>, b: seq<Message>)
    ensures Exchanges(a + b) == Exchanges(a) + Exchanges(b)
  {
    hide Exchanged;
    if b == [] {
      assert a + b == a && Exchanges(a) + [] == Exchanges(a);
    } else {
      var n := |b| - 1;
      assert a + b == (a + b[..n]) + [b[n]] && b == b[..n] + [b[n]];
      ExchangesAppend(a, b[..n]);
      ExchangesSnoc(a + b[..n], b[n]);
      ExchangesSnoc(b[..n], b[n]);
    }
  }

  /** The exchanges of a complete transcript open on an assistant message. */
  lemma {:induction false} ExchangesOpen(ms: seq<Message>, n: nat)
    requires PairingComplete(ms) && n <= |ms|
    ensures Exchanges(ms[..n]) == [] || Exchanges(ms[..n])[0].Assistant?
  {
    hide *;
    if n > 0 {
      var m := ms[n - 1];
      ExchangesOpen(ms, n - 1);
      assert ms[..n] == ms[..n - 1] + [m];
      ExchangesSnoc(ms[..n - 1], m);
      if m.Tool? && m.callId != "" { CalledBefore(ms, n - 1); }
      OpensAs(m);
    } else {
      NoExchange(ms);
    }
  }

  lemma NoExchange(ms: seq<Message>)
    ensures Exchanges(ms[..0]) == []
  {
  }

  lemma OpensAs(m: Message)
    ensures Exchanged(m) == [] || Exchanged(m)[0].Assistant? || (m.Tool? && m.callId != "")
  {
    hide NamedCalls;
  }

  lemma CalledBefore(ms: seq<Message>, k: nat)
    requires PairingComplete(ms) && k < |ms| && ms[k].Tool? && ms[k].callId != ""
    ensures Exchanges(ms[..k]) != []
  {
    hide Exchanges, NamedCalls;
    var i: nat :| Owns(ms, i, k);
    assert Answered(ms, i);
    NamedCallIsKept(ms[i].calls, ms[i].calls[k - i - 1]);
    SomeExchange(ms[..k], i);
  }

  predicate EndsIn(ms: seq<Message>, tail: seq<Message>) { |tail| <= |ms| && ms[|ms| - |tail|..] == tail }

  /** Whatever newest part of a transcript is complete by itself: its exchanges are carried over whole if they are within the
      limit. */
  lemma NewestExchangesAreCarried(front: seq<Message>, tail: seq<Message>, limit: int)
    requires PairingComplete(front + tail) && PairingComplete(tail) && |Exchanges(tail)| <= limit
    ensures EndsIn(PairingSafeLineage(front + tail, limit), Exchanges(tail))
  {
    hide *;
    var ms, x := front + tail, Exchanges(tail);
    ExchangesAppend(front, tail);
    ExchangesOpen(tail, |tail|);
    assert tail[..|tail|] == tail;
    if limit > 0 {
      var strays, run := LineageSplits(ms, limit);
      RunEndsIn(strays, run, Exchanges(front), x, limit);
    } else {
      NothingCarried(PairingSafeLineage(ms, limit));
    }
  }

  lemma NothingCarried(ms: seq<Message>)
    ensures EndsIn(ms, [])
  {
  }

  lemma RunEndsIn(strays: seq<Message>, run: seq<Message>, before: seq<Message>, x: seq<Message>, limit: int)
    requires NewestRun(run, before + x, limit) && |x| <= limit && (x == [] || x[0].Assistant?)
    ensures EndsIn(strays + run, x)
  {
    var all := before + x;
    assert x != [] ==> all[|before|] == x[0];
    assert |run| >= |x|;
    assert all[|all| - |x|..] == x;
    assert (strays + run)[|strays + run| - |x|..] == run[|run| - |x|..] == all[|all| - |x|..];
  }

  /** One result per call, in order. */
  function Answers(calls: seq<ToolCall>, outputs: seq<string>): (ms: seq<Message>)
    requires |calls| == |outputs|
    ensures |ms| == |calls| && forall i | 0 <= i < |ms| :: ms[i] == Tool(calls[i].id, outputs[i])
  {
    seq(|calls|, i requires 0 <= i < |calls| => Tool(calls[i].id, outputs[i]))
  }

  lemma {:induction false} AllNamed(calls: seq<ToolCall>)
    requires forall c | c in calls :: c.id != ""
    ensures NamedCalls(calls) == calls
  {
    if calls != [] { AllNamed(calls[1..]); }
  }

  lemma {:induction false} ExchangeIsItself(ms: seq<Message>)
    requires forall m | m in ms :: (m.Tool? && m.callId != "") || (m.Assistant? && m.calls != [] && forall c | c in m.calls :: c.id != "")
    ensures Exchanges(ms) == ms
  {
    if ms != [] {
      var n := |ms| - 1;
      assert ms == ms[..n] + [ms[n]];
      ExchangeIsItself(ms[..n]);
      if ms[n].Assistant? { AllNamed(ms[n].calls); }
    }
  }

  /** An epoch's lineage ends in the newest exchange, word for word, if it fits: what the assistant said, its calls, and what
      they gave. */
  lemma LastExchangeIsCarried(front: seq<Message>, text: string, calls: seq<ToolCall>, outputs: seq<string>, limit: int)
    requires |calls| == |outputs| && calls != [] && (forall c | c in calls :: c.id != "") && |calls| + 1 <= limit
    requires PairingComplete(front + ([Assistant(text, calls)] + Answers(calls, outputs)))
    ensures EndsIn(PairingSafeLineage(front + ([Assistant(text, calls)] + Answers(calls, outputs)), limit),
      [Assistant(text, calls)] + Answers(calls, outputs))
  {
    var exchange := [Assistant(text, calls)] + Answers(calls, outputs);
    forall m | m in exchange
      ensures (m.Tool? && m.callId != "") || (m.Assistant? && m.calls != [] && forall c | c in m.calls :: c.id != "")
    {
      var i :| 0 <= i < |exchange| && exchange[i] == m;
      assert i > 0 ==> calls[i - 1] in calls;
    }
    hide PairingSafeLineage, PairingComplete, Exchanges, Answers;
    ExchangeIsItself(exchange);
    ExchangeIsComplete(text, calls, outputs);
    NewestExchangesAreCarried(front, exchange, limit);
  }

  lemma ExchangeIsComplete(text: string, calls: seq<ToolCall>, outputs: seq<string>)
    requires |calls| == |outputs|
    ensures PairingComplete([Assistant(text, calls)] + Answers(calls, outputs))
  {
    var exchange := [Assistant(text, calls)] + Answers(calls, outputs);
    assert Answered(exchange, 0);
    forall k | 0 <= k < |exchange| && exchange[k].Tool? ensures exists i: nat :: Owns(exchange, i, k) { assert Owns(exchange, 0, k); }
  }

  // ---- and for every limit ----

  /** The whole of the scan, with nothing to stop it. */
  function Scan(ms: seq<Message>): (seq<Message>, set<string>) {
    if ms == [] then ([], {})
    else
      var (sel, ids) := Scan(ms[1..]);
      var m := ms[0];
      if m.Tool? && m.callId != "" then ([m] + sel, ids + {m.callId})
      else if m.Assistant? && WithIdIn(m.calls, ids) != [] then ([Assistant(m.content, WithIdIn(m.calls, ids))] + sel, ids)
      else (sel, ids)
  }

  /** A limit that is not reached before the first message of `back` lets the scan read all of it. */
  lemma {:induction false} PickReads(front: seq<Message>, back: seq<Message>, limit: int)
    requires back != [] ==> |Scan(back[1..]).0| < limit
    ensures Pick(front + back, limit, [], {}) == Pick(front, limit, Scan(back).0, Scan(back).1)
    decreases |back|
  {
    if back == [] {
      assert front + back == front;
    } else {
      var m, rest := back[0], back[1..];
      var (sel, ids) := Scan(rest);
      if rest != [] { ScanGrows(rest); }
      assert front + back == (front + [m]) + rest;
      PickReads(front + [m], rest, limit);
      PickLast(front, m, limit, sel, ids);
    }
  }

  lemma ScanGrows(ms: seq<Message>)
    requires ms != []
    ensures |Scan(ms[1..]).0| <= |Scan(ms).0|
  {
  }

  lemma {:induction false} ResultIsScanned(ms: seq<Message>, q: nat)
    requires q < |ms| && ms[q].Tool? && ms[q].callId != ""
    ensures ms[q].callId in Scan(ms).1
  {
    if q > 0 { ResultIsScanned(ms[1..], q - 1); }
  }

  lemma {:induction false} AnsweredCallIsKept(calls: seq<ToolCall>, ids: set<string>, c: ToolCall)
    requires c in calls && c.id in ids
    ensures c in WithIdIn(calls, ids)
  {
    if calls[0] != c { AnsweredCallIsKept(calls[1..], ids, c); }
  }

  /** A call that is answered later on is among the calls of what an unlimited scan selects. */
  lemma {:induction false} AnsweredCallIsScanned(ms: seq<Message>, p: nat, q: nat, c: ToolCall)
    requires p < q < |ms| && ms[p].Assistant? && c in ms[p].calls && c.id != "" && ms[q].Tool? && ms[q].callId == c.id
    ensures c.id in AllIds(Scan(ms).0)
  {
    var (sel, ids) := Scan(ms[1..]);
    if p > 0 {
      AnsweredCallIsScanned(ms[1..], p - 1, q - 1, c);
      assert Scan(ms).0 == sel || Scan(ms).0[1..] == sel;
    } else {
      ResultIsScanned(ms[1..], q - 1);
      AnsweredCallIsKept(ms[0].calls, ids, c);
      assert c in Scan(ms).0[0].calls;
    }
  }

  /** Stopped right at the older call's result, with the newer call already selected, the scan leaves that
      result at the head of the lineage. */
  lemma StrayResult(ms: seq<Message>, k: nat, p: nat, q: nat, c: ToolCall)
    requires k < p < q < |ms| && ms[k].Tool? && ms[k].callId == c.id && c.id != ""
    requires ms[p].Assistant? && c in ms[p].calls && ms[q].Tool? && ms[q].callId == c.id
    ensures !PairingComplete(PairingSafeLineage(ms, |Scan(ms[k..]).0|))
  {
    var back := ms[k..];
    var (sel, ids) := Scan(back);
    assert ms == ms[..k] + back && back[0] == ms[k] && back[p - k] == ms[p] && back[q - k] == ms[q];
    AnsweredCallIsScanned(back, p - k, q - k, c);
    assert sel[0] == ms[k] && |Scan(back[1..]).0| < |sel|;
    hide Scan;
    PickReads(ms[..k], back, |sel|);
    var lineage := PairingSafeLineage(ms, |sel|);
    assert lineage == DropUnpaired(sel, AllIds(sel)) && lineage[0] == ms[k];
  }

  lemma {:induction false} CallerOf(ms: seq<Message>, x: string) returns (p: nat)
    requires x in CallIds(ms)
    ensures p < |ms| && ms[p].Assistant? && x in IdSet(ms[p].calls)
  {
    if ms[0].Assistant? && x in IdSet(ms[0].calls) {
      p := 0;
    } else {
      p := CallerOf(ms[1..], x);
      p := p + 1;
    }
  }

  lemma {:induction false} SharedBy(ms: seq<Message>) returns (i: nat, j: nat, x: string)
    requires !DistinctGroups(ms)
    ensures i < j < |ms| && ms[i].Assistant? && ms[j].Assistant? && x in IdSet(ms[i].calls) && x in IdSet(ms[j].calls)
  {
    if DistinctGroups(ms[1..]) {
      x :| x in IdSet(ms[0].calls) && x in CallIds(ms[1..]);
      j := CallerOf(ms[1..], x);
      i, j := 0, j + 1;
    } else {
      i, j, x := SharedBy(ms[1..]);
      i, j := i + 1, j + 1;
    }
  }

  /** In a complete transcript each call has its result in the group that follows. */
  lemma ResultOf(ms: seq<Message>, i: nat, x: string) returns (k: nat, c: ToolCall)
    requires PairingComplete(ms) && i < |ms| && ms[i].Assistant? && x in IdSet(ms[i].calls)
    ensures i < k < |ms| && ms[k].Tool? && ms[k].callId == x && c in ms[i].calls && c.id == x
    ensures k <= i + |ms[i].calls|
  {
    assert Answered(ms, i);
    c :| c in ms[i].calls && c.id == x;
    var n :| 0 <= n < |ms[i].calls| && ms[i].calls[n] == c;
    k := i + 1 + n;
  }

  /** The exact condition: every lineage of a complete transcript is complete if and only if no two of its assistant
      messages call the same id. */
  lemma LineageIsSafeExactlyWhen(ms: seq<Message>)
    requires PairingComplete(ms)
    ensures (forall limit: int :: PairingComplete(PairingSafeLineage(ms, limit))) <==> DistinctGroups(ms)
  {
    if DistinctGroups(ms) {
      forall limit: int ensures PairingComplete(PairingSafeLineage(ms, limit)) { LineageIsPairingComplete(ms, limit); }
    } else {
      var i, j, x := SharedBy(ms);
      var k, c := ResultOf(ms, i, x);
      var q, d := ResultOf(ms, j, x);
      assert k < j by {
        assert Answered(ms, i) && ms[j].Assistant?;
      }
      StrayResult(ms, k, j, q, d);
    }
  }

  /** One unfolding of `Pick`, as one step of the unlimited scan. */
  lemma PickLast(front: seq<Message>, m: Message, limit: int, sel: seq<Message>, ids: set<string>)
    requires |sel| < limit
    ensures Pick(front + [m], limit, sel, ids) ==
      if m.Tool? && m.callId != "" then Pick(front, limit, [m] + sel, ids + {m.callId})
      else if m.Assistant? && WithIdIn(m.calls, ids) != [] then
        Pick(front, limit, [Assistant(m.content, WithIdIn(m.calls, ids))] + sel, ids)
      else Pick(front, limit, sel, ids)
  {
    assert (front + [m])[..|front|] == front;
  }

  // ---- the limit of an epoch ----

  /** What an epoch carries over at most. */
  const EPOCH_LIMIT: int := 8

  lemma ScanTakes(m: Message, rest: seq<Message>)
    ensures m.Tool? && m.callId != "" ==> |Scan([m] + rest).0| == 1 + |Scan(rest).0|
    ensures m.Assistant? && (exists c :: c in m.calls && c.id in Scan(rest).1) ==> |Scan([m] + rest).0| == 1 + |Scan(rest).0|
  {
    assert ([m] + rest)[1..] == rest;
    if m.Assistant? && exists c :: c in m.calls && c.id in Scan(rest).1 {
      var c :| c in m.calls && c.id in Scan(rest).1;
      AnsweredCallIsKept(m.calls, Scan(rest).1, c);
    }
  }

  lemma {:induction false} ResultsScanned(ids: seq<string>, rest: seq<Message>)
    requires forall i | 0 <= i < |ids| :: ids[i] != ""
    ensures |Scan(Results(ids) + rest).0| == |ids| + |Scan(rest).0|
  {
    if ids == [] {
      assert Results(ids) + rest == rest;
    } else {
      ResultsScanned(ids[1..], rest);
      assert Results(ids) + rest == [Tool(ids[0], "")] + (Results(ids[1..]) + rest);
      ScanTakes(Tool(ids[0], ""), Results(ids[1..]) + rest);
    }
  }

  function Results(ids: seq<string>): (ms: seq<Message>)
    ensures |ms| == |ids| && forall i | 0 <= i < |ids| :: ms[i] == Tool(ids[i], "")
  {
    if ids == [] then [] else [Tool(ids[0], "")] + Results(ids[1..])
  }

  /** A user's request, four calls answered, and then the first three ids again. */
  function Repeating(request: string, a: ToolCall, b: ToolCall, d: ToolCall, e: ToolCall): seq<Message> {
    [User(request), Assistant("", [a, b, d, e])] +
    (Results([a.id, b.id, d.id, e.id]) + ([Assistant("", [a, b, d])] + Results([a.id, b.id, d.id])))
  }

  /** Such a transcript is complete, and the epoch it leaves is not. */
  lemma EpochOpensOnAStray(request: string, a: ToolCall, b: ToolCall, d: ToolCall, e: ToolCall)
    requires a.id != "" && b.id != "" && d.id != "" && e.id != ""
    ensures PairingComplete(Repeating(request, a, b, d, e))
    ensures !PairingComplete(PairingSafeLineage(Repeating(request, a, b, d, e), EPOCH_LIMIT))
    ensures !LeadsNowhere(Repeating(request, a, b, d, e), EPOCH_LIMIT)
  {
    var ms := Repeating(request, a, b, d, e);
    assert ms[2] == Tool(a.id, "") && ms[6] == Assistant("", [a, b, d]) && ms[7] == Tool(a.id, "");
    assert EPOCH_LIMIT == 8 && a in [a, b, d];
    hide *;
    RepeatingIsComplete(request, a, b, d, e);
    RepeatingIsScanned(request, a, b, d, e);
    StrayResult(ms, 2, 6, 7, a);
    LineageIsCompleteExactlyWhen(ms, EPOCH_LIMIT);
  }

  lemma RepeatingIsScanned(request: string, a: ToolCall, b: ToolCall, d: ToolCall, e: ToolCall)
    requires a.id != "" && b.id != "" && d.id != "" && e.id != ""
    ensures |Scan(Repeating(request, a, b, d, e)[2..]).0| == 8
  {
    var three := Results([a.id, b.id, d.id]);
    var second := Assistant("", [a, b, d]);
    assert Repeating(request, a, b, d, e)[2..] == Results([a.id, b.id, d.id, e.id]) + ([second] + three);
    assert three + [] == three && |Scan([]).0| == 0 && three[0] == Tool(a.id, "") && a in [a, b, d];
    hide *;
    ResultsScanned([a.id, b.id, d.id], []);
    ResultIsScanned(three, 0);
    ScanTakes(second, three);
    ResultsScanned([a.id, b.id, d.id, e.id], [second] + three);
  }

  lemma RepeatingIsComplete(request: string, a: ToolCall, b: ToolCall, d: ToolCall, e: ToolCall)
    ensures PairingComplete(Repeating(request, a, b, d, e))
  {
    var ms := Repeating(request, a, b, d, e);
    assert ms[0].User?;
    CallsAreAnswered(ms[1..], a, b, d, e) by { assert ms[1..] == [ms[1]] + ms[2..]; }
    hide Repeating, PairingComplete;
    PeelTurn(ms, 0);
  }

  lemma CallsAreAnswered(ms: seq<Message>, a: ToolCall, b: ToolCall, d: ToolCall, e: ToolCall)
    requires ms == [Assistant("", [a, b, d, e])] +
      (Results([a.id, b.id, d.id, e.id]) + ([Assistant("", [a, b, d])] + Results([a.id, b.id, d.id])))
    ensures PairingComplete(ms)
  {
    var four, three := Results([a.id, b.id, d.id, e.id]), Results([a.id, b.id, d.id]);
    var second := [Assistant("", [a, b, d])] + three;
    assert Ids([a, b, d, e]) == [a.id, b.id, d.id, e.id] && Ids([a, b, d]) == [a.id, b.id, d.id];
    assert (four + second)[4..] == second && three[3..] == [] && second[1..] == three && ms[1..] == four + second;
    hide Results, Ids, PairingComplete;
    RunResults(Ids([a, b, d]), three);
    RunResults(Ids([a, b, d, e]), four + second);
    ReaderIsGrammar(ms);
  }
}
