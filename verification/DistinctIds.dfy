/** A provider that never calls an id twice: then no epoch opens on a stray result, and every request is complete. */
module DistinctIds {
  import opened Options
  import opened Messages
  import opened Pairing
  import opened Lineage
  import opened Transcripts
  import opened Generation
  import opened ToolBatch
  import opened AgentLoop
  import opened Session

  function SegmentIds(segments: seq<Segment>): set<string> {
    set s, c | s in segments && c in CallsOf(s.events) && c.id != "" :: c.id
  }

  /** The ids round `r` may call; an empty id is no id. */
  function RoundIds(envs: seq<RoundEnv>, r: nat): set<string> { SegmentIds(EnvOf(envs, r).segments) }

  /** No id is called in two rounds, nor one of `used` in any. */
  ghost predicate NeverTwice(envs: seq<RoundEnv>, used: set<string>) {
    && (forall q: nat, r: nat | q < r :: RoundIds(envs, q) !! RoundIds(envs, r))
    && forall q: nat :: RoundIds(envs, q) !! used
  }

  /** What has been called before round `n`. */
  function UsedBefore(envs: seq<RoundEnv>, used: set<string>, n: nat): set<string> {
    if n == 0 then used else UsedBefore(envs, used, n - 1) + RoundIds(envs, n - 1)
  }

  lemma {:induction false} NewInRound(envs: seq<RoundEnv>, used: set<string>, n: nat, r: nat)
    requires NeverTwice(envs, used) && n <= r
    ensures UsedBefore(envs, used, n) !! RoundIds(envs, r)
  {
    hide RoundIds;
    if n > 0 { NewInRound(envs, used, n - 1, r); }
  }

  /** A past that is complete and clean, and called no id twice. */
  ghost predicate Orderly(p: Past, used: set<string>) {
    && p.clean && PairingComplete(p.history) && (p.history == [] || OpensOnUser(p.history))
    && DistinctGroups(p.history) && CallIds(p.history) <= used
  }

  /** So is what is held of it. */
  lemma HeldIsOrderly(l: Limits, p: Past, used: set<string>)
    requires Orderly(p, used)
    ensures var ms := Holds(l, p); PairingComplete(ms) && DistinctGroups(ms) && CallIds(ms) <= used
  {
    var h := p.history;
    if |h| > p.opening && h != [] {
      var s := WindowStart(h, l.maxTokens, l.maxMessages);
      WindowStartIsTheWindow(h, l.maxTokens, l.maxMessages, s);
      assert s < |h| && h[s].User?;
      hide *;
      SuffixIsOrderly(h, s);
      HeldIs(l, p);
    } else {
      assert h == [] ==> h[WindowStart(h, l.maxTokens, l.maxMessages)..] == [];
      hide PairingComplete, DistinctGroups, CallIds, WindowStart;
    }
  }

  lemma HeldIs(l: Limits, p: Past)
    requires |p.history| > p.opening
    ensures WindowStart(p.history, l.maxTokens, l.maxMessages) <= |p.history| ==>
      Holds(l, p) == p.history[WindowStart(p.history, l.maxTokens, l.maxMessages)..]
  {
    hide WindowStart;
  }

  lemma SuffixIsOrderly(ms: seq<Message>, s: nat)
    requires PairingComplete(ms) && s < |ms| && ms[s].User?
    ensures PairingComplete(ms[s..]) && CallIds(ms[s..]) <= CallIds(ms) && (DistinctGroups(ms) ==> DistinctGroups(ms[s..]))
  {
    hide *;
    ReaderIsGrammar(ms);
    CutAtUser(ms, s);
    ReaderIsGrammar(ms[s..]);
    GroupsSuffix(ms, s);
  }

  lemma CompactedIsOrderly(l: Limits, p: Past, c: Option<Compaction>, used: set<string>)
    requires Orderly(p, used)
    ensures Orderly(Compacted(l, p, c), used)
  {
    if c.Some? {
      HeldIsOrderly(l, p, used);
      var held := Holds(l, p);
      hide Holds, PairingSafeLineage, LeadsNowhere, PairingComplete, DistinctGroups, CallIds;
      LineageIsPairingComplete(held, EPOCH_LIMIT);
      DistinctLeadsNowhere(held, EPOCH_LIMIT);
      PreambleKeepsPairing(c.value.objective, c.value.checkpoint, PairingSafeLineage(held, EPOCH_LIMIT));
    }
  }

  lemma FedIsOrderly(l: Limits, config: Config, env: RoundEnv, p: Past, used: set<string>)
    requires Orderly(p, used)
    ensures Orderly(Fed(l, config, env, p), used)
  {
    var q := if config.native.Some? && env.verdict == Checkpoint then Compacted(l, p, env.atCheckpoint) else p;
    CompactedIsOrderly(l, p, env.atCheckpoint, used);
    CompactedIsOrderly(l, q, env.atPressure, used);
    hide Orderly, Compacted, FitsAtOnce;
  }

  /** An assistant message and its results, in order. */
  lemma {:induction false} ResultsRead(calls: seq<ToolCall>, outcomes: seq<Outcome>)
    requires |outcomes| == |calls|
    ensures Run(Owes(Ids(calls)), ResultsOf(calls, outcomes)) == Owes([])
    ensures CallIds(ResultsOf(calls, outcomes)) == {} && DistinctGroups(ResultsOf(calls, outcomes))
  {
    ResultsAre(calls, outcomes);
    var results := ResultsOf(calls, outcomes);
    hide ResultsOf;
    assert results[|Ids(calls)|..] == [];
    RunResults(Ids(calls), results);
    CallNothing(results);
  }

  lemma {:induction false} ResultsAre(calls: seq<ToolCall>, outcomes: seq<Outcome>)
    requires |outcomes| == |calls|
    ensures |ResultsOf(calls, outcomes)| == |calls|
    ensures forall j | 0 <= j < |calls| :: ResultsOf(calls, outcomes)[j].Tool? && ResultsOf(calls, outcomes)[j].callId == calls[j].id
  {
    hide OutputOf;
    if calls != [] { ResultsAre(calls[..|calls| - 1], outcomes[..|calls| - 1]); }
  }

  lemma {:induction false} CallNothing(ms: seq<Message>)
    requires forall m | m in ms :: m.Tool?
    ensures CallIds(ms) == {} && DistinctGroups(ms)
  {
    if ms != [] {
      assert ms[0] in ms;
      CallNothing(ms[1..]);
    }
  }

  /** A committed round: its message and the results of its calls. */
  lemma GroupIsOrderly(p: Past, used: set<string>, text: string, calls: seq<ToolCall>, outcomes: seq<Outcome>)
    requires Orderly(p, used) && p.history != [] && |outcomes| == |calls| && IdSet(calls) !! used
    ensures Orderly(Extended(p, [Assistant(text, calls)] + ResultsOf(calls, outcomes)), used + IdSet(calls))
  {
    var m, results := Assistant(text, calls), ResultsOf(calls, outcomes);
    var group := [m] + results;
    assert group[1..] == results && (p.history + group)[0] == p.history[0];
    ResultsRead(calls, outcomes);
    ReaderIsGrammar(p.history);
    ReaderIsGrammar(p.history + group);
    RunAppend(Owes([]), p.history, group);
    GroupsAppend(p.history, group);
    hide PairingComplete, ResultsOf, IdSet, Ids;
    assert CallIds(group) == IdSet(calls) && DistinctGroups(group);
    assert Run(Owes([]), group) == Run(Step(Owes([]), m), results);
  }

  lemma UserIsOrderly(p: Past, used: set<string>, input: string, turnId: string)
    requires Orderly(p, used)
    ensures Orderly(p.(history := p.history + [User(input)], turn := turnId), used)
  {
    ReaderIsGrammar(p.history);
    ReaderIsGrammar(p.history + [User(input)]);
    ReadSnoc(p.history, User(input));
    GroupsAppend(p.history, [User(input)]);
    assert CallIds([User(input)]) == {} && DistinctGroups([User(input)]) by { assert [User(input)][1..] == []; }
    hide PairingComplete, Read;
  }

  lemma OrderlyStill(p: Past, used: set<string>, used': set<string>)
    requires Orderly(p, used) && used <= used'
    ensures Orderly(p, used')
  {
    hide PairingComplete, DistinctGroups, CallIds;
  }

  /** A round of a turn leaves its past orderly, if its ids are new. */
  lemma RoundIsOrderly(config: Config, env: RoundEnv, source: seq<Message>, clean: bool, rules: Permission.Rules, r: Round, p: Past,
                       used: set<string>)
    requires Orderly(p, used) && p.history != [] && RoundOk(config, env, source, clean, rules, r) && SegmentIds(env.segments) !! used
    ensures Orderly(Extended(p, RoundMessages(r)), used + SegmentIds(env.segments))
  {
    if r.result.Committed? {
      assert r.fit.Some? && r.result.calls == CallsOf(SegmentAt(env.segments, r.last).events);
      CallsOfSegment(env.segments, r.last);
    }
    hide RoundOk, Orderly, IdSet, SegmentIds;
    ExtendedTwice(p, [], []);
    if r.result.Committed? && (r.result.text != "" || r.result.calls != []) && |r.outcomes| == |r.result.calls| {
      GroupIsOrderly(p, used, r.result.text, r.result.calls, r.outcomes);
      OrderlyStill(Extended(p, RoundMessages(r)), used + IdSet(r.result.calls), used + SegmentIds(env.segments));
    } else {
      OrderlyStill(p, used, used + SegmentIds(env.segments));
    }
  }

  lemma CallsOfSegment(segments: seq<Segment>, n: nat)
    ensures IdSet(CallsOf(SegmentAt(segments, n).events)) <= SegmentIds(segments)
  {
    hide CallsOf;
    if n >= |segments| { NoCallsInSilence(); }
  }

  lemma NoCallsInSilence()
    ensures CallsOf([]) == []
  {
  }

  // ---- turns and sessions ----

  lemma FedIsThere(l: Limits, config: Config, env: RoundEnv, p: Past)
    ensures p.history != [] ==> Fed(l, config, env, p).history != []
  {
    hide FitsAtOnce, PairingSafeLineage, LeadsNowhere, Holds;
  }

  lemma NextIsOrderly(config: Config, envs: seq<RoundEnv>, from: nat, start: Start, before: seq<Round>, r: Round, goOn: bool,
                      used: set<string>)
    requires NeverTwice(envs, used) && Follows(config, envs, from, start, before, r, goOn)
    requires var p := PastOf(config, envs, from, start, before);
      Orderly(p, UsedBefore(envs, used, from + |before|)) && p.history != []
    ensures var q := PastAfter(start.limits, config, EnvOf(envs, from + |before|), PastOf(config, envs, from, start, before), r);
      Orderly(q, UsedBefore(envs, used, from + |before| + 1)) && q.history != []
  {
    hide *;
    var n, env, l, p := from + |before|, EnvOf(envs, from + |before|), start.limits, PastOf(config, envs, from, start, before);
    var fed, rules := Fed(l, config, env, p), RulesOf(config, envs, from, start, before);
    var now := UsedBefore(envs, used, n);
    FollowsMeans(config, envs, from, start, before, r, goOn);
    OneMoreUsed(envs, used, n);
    NewInRound(envs, used, n, n);
    FedIsOrderly(l, config, env, p, now);
    FedIsThere(l, config, env, p);
    RoundIsOrderly(config, env, Holds(l, fed), fed.clean, rules, r, fed, now);
    OrderlyStill(p, now, now + SegmentIds(env.segments));
    PastOfRound(l, config, env, p, r);
    NothingLost(fed, RoundMessages(r));
  }

  lemma FollowsMeans(config: Config, envs: seq<RoundEnv>, from: nat, start: Start, before: seq<Round>, r: Round, goOn: bool)
    requires Follows(config, envs, from, start, before, r, goOn)
    ensures var env := EnvOf(envs, from + |before|);
      var p := Fed(start.limits, config, env, PastOf(config, envs, from, start, before));
      RoundOk(config, env, Holds(start.limits, p), p.clean, RulesOf(config, envs, from, start, before), r)
  {
    hide RoundOk, EnvOf, Fed, PastOf, RulesOf, Holds, Skipped, GoesOn, EndsTurn;
  }

  lemma OneMoreUsed(envs: seq<RoundEnv>, used: set<string>, n: nat)
    ensures UsedBefore(envs, used, n + 1) == UsedBefore(envs, used, n) + SegmentIds(EnvOf(envs, n).segments)
    ensures RoundIds(envs, n) == SegmentIds(EnvOf(envs, n).segments)
  {
    hide SegmentIds, EnvOf;
  }

  lemma NothingLost(p: Past, more: seq<Message>)
    ensures p.history != [] ==> Extended(p, more).history != []
  {
  }

  lemma {:induction false} TurnIsOrderly(config: Config, envs: seq<RoundEnv>, from: nat, start: Start, rounds: seq<Round>, goOn: bool,
                                         used: set<string>)
    requires NeverTwice(envs, used) && TurnOk(config, envs, from, start, rounds, goOn)
    requires Orderly(start.past, UsedBefore(envs, used, from)) && start.past.history != []
    ensures var p := PastOf(config, envs, from, start, rounds);
      Orderly(p, UsedBefore(envs, used, from + |rounds|)) && p.history != []
    decreases |rounds|
  {
    hide *;
    NoRounds(config, envs, from, start);
    if rounds != [] {
      var n := |rounds| - 1;
      var init, r := rounds[..n], rounds[n];
      assert rounds == init + [r];
      LastRound(config, envs, from, start, rounds, goOn);
      OneMoreRound(config, envs, from, start, init, r, goOn);
      TurnIsOrderly(config, envs, from, start, init, true, used);
      NextIsOrderly(config, envs, from, start, init, r, goOn, used);
    }
  }

  lemma StartIsOrderly(l: Limits, at: Point, turnId: string, input: string, used: set<string>)
    requires Orderly(at.past, used)
    ensures var p := TurnStart(l, at, turnId, input).past; Orderly(p, used) && p.history != []
  {
    UserIsOrderly(at.past, used, input, turnId);
    if at.past.history == [] { HoldsNothing(l, at.past); }
    hide Orderly, Holds;
  }

  lemma HoldsNothing(l: Limits, p: Past)
    requires p.history == []
    ensures Holds(l, p) == []
  {
    hide WindowStart;
    assert |p.history| <= p.opening;
  }

  lemma AttemptIsOrderly(config: Config, l: Limits, envs: seq<RoundEnv>, from: nat, before: Point, turnId: string, input: string,
                         rounds: seq<Round>, after: Point, used: set<string>)
    requires NeverTwice(envs, used) && Attempted(config, l, envs, from, before, turnId, input, rounds, after)
    requires Orderly(before.past, UsedBefore(envs, used, from))
    ensures Orderly(after.past, UsedBefore(envs, used, from + |rounds|))
  {
    var start := TurnStart(l, before, turnId, input);
    StartIsOrderly(l, before, turnId, input, UsedBefore(envs, used, from));
    hide Orderly, TurnStart, TurnOk, PastOf, RulesOf, UsedOf, NeverTwice, UsedBefore;
    TurnIsOrderly(config, envs, from, start, rounds, false, used);
  }

  lemma TookIsOrderly(config: Config, l: Limits, envs: seq<RoundEnv>, op: Op, from: nat, before: Point, after: Point, c: Course,
                      used: set<string>)
    requires op.Send? && NeverTwice(envs, used) && Took(config, l, envs, op, from, before, after, c)
    requires Orderly(before.past, UsedBefore(envs, used, from))
    ensures Orderly(after.past, UsedBefore(envs, used, from + |c.first + c.second|))
  {
    hide Orderly, Attempted, Refused, Compacted, NeverTwice, UsedBefore;
    var begun := before.(past := Compacted(l, before.past, op.refresh));
    CompactedIsOrderly(l, before.past, op.refresh, UsedBefore(envs, used, from));
    AttemptIsOrderly(config, l, envs, from, begun, op.turnId, op.payload, c.first, c.between, used);
    if op.retryFits && Refused(config, c.first) {
      AttemptIsOrderly(config, l, envs, from + |c.first|, c.between, op.turnId, op.retryInput, c.second, after, used);
    }
  }

  lemma DidIsOrderly(config: Config, l: Limits, envs: seq<RoundEnv>, op: Op, rounds: seq<Round>, m: Mark, m': Mark, used: set<string>)
    requires NeverTwice(envs, used) && Did(config, l, envs, op, rounds, m, m')
    requires Orderly(m.at.past, UsedBefore(envs, used, m.rounds))
    ensures Orderly(m'.at.past, UsedBefore(envs, used, m'.rounds))
  {
    hide Orderly, Took, Exhausts, Compacted, NeverTwice, UsedBefore;
    match op
    case Send(_, _, _, _, _) =>
      if !m.exhausted {
        var c: Course :| c.first + c.second == rounds[m.rounds..m'.rounds] && Took(config, l, envs, op, m.rounds, m.at, m'.at, c);
        TookIsOrderly(config, l, envs, op, m.rounds, m.at, m'.at, c, used);
      }
    case CompactNow(epoch) => CompactedIsOrderly(l, m.at.past, epoch, UsedBefore(envs, used, m.rounds));
    case RenewBudget =>
  }

  lemma {:induction false} SessionIsOrderly(config: Config, l: Limits, envs: seq<RoundEnv>, ops: seq<Op>, rounds: seq<Round>,
                                            marks: seq<Mark>, k: nat, used: set<string>)
    requires NeverTwice(envs, used) && Performed(config, l, envs, ops, rounds, marks) && k <= |ops|
    requires Orderly(marks[0].at.past, used)
    ensures Orderly(marks[k].at.past, UsedBefore(envs, used, marks[k].rounds))
  {
    hide Orderly, Did, NeverTwice;
    if k > 0 {
      SessionIsOrderly(config, l, envs, ops, rounds, marks, k - 1, used);
      DidIsOrderly(config, l, envs, ops[k - 1], rounds, marks[k - 1], marks[k], used);
    }
  }

  /** Epochs or not, a session whose provider never calls an id twice sends complete requests only. */
  lemma DistinctSessionIsPaired(config: Config, l: Limits, envs: seq<RoundEnv>, ops: seq<Op>, rounds: seq<Round>,
                                marks: seq<Mark>, used: set<string>)
    requires NeverTwice(envs, used) && Performed(config, l, envs, ops, rounds, marks) && Orderly(marks[0].at.past, used)
    ensures Paired(rounds, |rounds|) && forall k | 0 <= k <= |ops| :: marks[k].at.past.clean
  {
    hide Did, NeverTwice, Paired, PairingComplete, DistinctGroups, CallIds;
    forall k | 0 <= k <= |ops| ensures marks[k].at.past.clean { SessionIsOrderly(config, l, envs, ops, rounds, marks, k, used); }
    PairedWhileClean(config, l, envs, ops, rounds, marks, |ops|);
  }
}
