/** One agent turn: rounds of fitting, admission, generation and tools over the session's transcript. */
module AgentLoop {
  import opened Options
  import opened Messages
  import opened Pairing
  import opened ContextBudget
  import opened Lineage
  import opened Transcripts
  import opened Permission
  import opened Generation
  import opened ToolBatch

  datatype NativeBudget = NativeBudget(maxModelRounds: nat, outputReserve: nat, safetyReserve: nat)
  datatype Config = Config(system: string, native: Option<NativeBudget>, maxIterations: nat, policy: Policy)

  /** What the session does while the turn waits at a checkpoint request: nothing, or a new context epoch. */
  datatype Compaction = Compaction(objective: string, checkpoint: string, turnId: string)

  datatype Verdict = Proceed | Checkpoint | Terminate

  /** Everything outside the loop that one round meets. */
  datatype RoundEnv = RoundEnv(cancelled: bool, verdict: Verdict, atCheckpoint: Option<Compaction>,
                               schemaChars: nat, window: Option<int>, atPressure: Option<Compaction>,
                               segments: seq<Segment>, cancelledBeforeCommit: bool, calls: seq<CallEnv>)

  /** A script that has run out: a provider that says nothing, and nothing else happens. */
  function EnvOf(envs: seq<RoundEnv>, r: nat): RoundEnv {
    if r < |envs| then envs[r]
    else RoundEnv(false, Proceed, None, 0, None, None, [], false, [])
  }

  predicate NoEpoch(env: RoundEnv) { env.atCheckpoint.None? && env.atPressure.None? }

  // ---- admission ----

  /** The last fit of a round: what was fitted, where the kept suffix starts, and the sizes that judged it. */
  datatype Fit = Fit(source: seq<Message>, start: nat, window: Option<int>, overhead: nat)

  function Overhead(config: Config, env: RoundEnv): nat {
    CharTokens(|config.system|) + CharTokens(env.schemaChars) +
    (if config.native.Some? then config.native.value.outputReserve + config.native.value.safetyReserve else 0)
  }

  function Bounded(window: Option<int>): bool { window.Some? && window.value > 0 }

  /** The request fits its window, or nothing known bounds it. */
  predicate Admits(config: Config, fit: Fit)
    requires fit.start <= |fit.source|
  {
    config.native.Some? && Bounded(fit.window) ==> fit.overhead + Cost(fit.source[fit.start..]) <= fit.window.value
  }

  ghost predicate Fitted(fit: Fit) {
    && fit.start <= |fit.source|
    && IsFit(fit.source, if Bounded(fit.window) then RoundBudget(fit.window.value, fit.overhead) else 0, fit.start)
  }

  method FitRequest(config: Config, env: RoundEnv, source: seq<Message>) returns (fit: Fit, messages: seq<Message>, required: nat)
    ensures Fitted(fit) && fit.source == source && fit.window == env.window && fit.overhead == Overhead(config, env)
    ensures messages == source[fit.start..] && required == fit.overhead + Cost(messages)
  {
    var overhead := Overhead(config, env);
    var start, kept := 0, Cost(source);
    messages := source;
    assert source[0..] == source;
    if Bounded(env.window) {
      messages, start, kept := FitMessagesToBudget(source, RoundBudget(env.window.value, overhead));
    }
    fit := Fit(source, start, env.window, overhead);
    required := overhead + kept;
  }

  /** A fitted request is as complete as its source. */
  lemma FittedIsPairingComplete(fit: Fit)
    requires Fitted(fit) && PairingComplete(fit.source)
    ensures PairingComplete(fit.source[fit.start..])
  {
    ReaderIsGrammar(fit.source);
    ReaderIsGrammar(fit.source[fit.start..]);
    if fit.start > 0 { CutAtUser(fit.source, fit.start); } else { assert fit.source[0..] == fit.source; }
  }

  // ---- the turn ----

  /** The session-wide round counter of the native budget. */
  class BudgetState {
    var rounds: nat

    constructor ()
      ensures rounds == 0
    {
      rounds := 0;
    }
  }

  /** One round as observed from outside; `last` is the segment its generation stopped on. */
  datatype Round = Round(fit: Option<Fit>, last: nat, out: seq<Output>, result: Generated, acts: seq<Act>, outcomes: seq<Outcome>)

  /** What every round promises, whatever its environment did, of the messages and the rules it meets; they are complete if
      its past is `clean`. */
  ghost predicate RoundOk(config: Config, env: RoundEnv, source: seq<Message>, clean: bool, rules: Rules, r: Round) {
    && (clean ==> SendsPaired(r.out))
    && (r.fit.None? ==>
          Requests(r.out) == [] && r.result == Ended && Errors(r.out) == if env.cancelled then [] else [BudgetExhausted])
    && (r.fit.Some? ==>
          && FittedTo(config, env, source, r.fit.value)
          && (if Admits(config, r.fit.value)
              then
                && RoundSpeaks(source[r.fit.value.start..], env.segments, r.last, r.result, r.out)
                && Settled(env.segments, env.cancelledBeforeCommit, r.last, r.result)
                && Errors(r.out) == Complaint(SegmentAt(env.segments, r.last)) + Emptiness(r.result)
              else Requests(r.out) == [] && r.result == Ended && Errors(r.out) == [AdmissionDenied]))
    && (match r.result
        case Ended => r.acts == [] && r.outcomes == []
        case Committed(_, calls) =>
          BatchAccount(calls, env.calls, config.policy, rules, r.outcomes, r.acts, RulesAfterRound(config, env, rules, r)))
  }

  /** A committed round without text and calls is reported. */
  function Emptiness(result: Generated): seq<ErrorCode> {
    if result == Committed("", []) then [EmptyResponse] else []
  }

  /** The one fit of the messages in this environment. */
  ghost predicate FittedTo(config: Config, env: RoundEnv, source: seq<Message>, fit: Fit) {
    Fitted(fit) && fit.source == source && fit.window == env.window && fit.overhead == Overhead(config, env)
  }

  /** The rules a round leaves. */
  function RulesAfterRound(config: Config, env: RoundEnv, rules: Rules, r: Round): Rules {
    if r.result.Ended? then rules
    else
      var calls := r.result.calls;
      RulesAt(calls, env.calls, config.policy, rules, CancelPoint(env.calls, |calls|, 0))
  }

  /** Whether the turn goes on after a round: it committed calls, and no cancel was seen among them. */
  predicate GoesOn(r: Round) { r.result.Committed? && r.result.calls != [] && Outcome.Cancelled !in r.outcomes }

  /** What a round adds to the transcript: nothing, or its assistant message and one result per call. */
  function RoundMessages(r: Round): seq<Message> {
    if r.result.Committed? && (r.result.text != "" || r.result.calls != []) && |r.outcomes| == |r.result.calls| then
      [Assistant(r.result.text, r.result.calls)] + ResultsOf(r.result.calls, r.outcomes)
    else []
  }

  /** What a round's admission comes to, of the messages it meets: nothing above a known window is ever sent first,
      the turn in flight is never cut to fit, and while the overhead leaves the quarter floor alone, the round is sent
      exactly when the overhead and the turn in flight fit the window. */
  lemma AdmissionIsExact(config: Config, env: RoundEnv, source: seq<Message>, clean: bool, rules: Rules, r: Round)
    requires RoundOk(config, env, source, clean, rules, r) && r.fit.Some? && config.native.Some? && Bounded(env.window)
    ensures r.fit.value.start <= LastUser(source)
      && |source| >= r.fit.value.start
      && (Requests(r.out) != [] ==>
            && Requests(r.out)[0] == source[r.fit.value.start..]
            && Overhead(config, env) + Cost(source[r.fit.value.start..]) <= env.window.value)
      && (Overhead(config, env) + Quarter(env.window.value) <= env.window.value ==>
            (Requests(r.out) != [] <==> Overhead(config, env) + Cost(source[LastUser(source)..]) <= env.window.value))
  {
    if Admits(config, r.fit.value) {
      FirstRequestIs(source[r.fit.value.start..], env.segments, r.last, r.result, r.out) by {
        hide SendsPaired, BatchAccount, RoundSpeaks, Settled, Requests;
      }
    }
    hide Overhead, SendsPaired, BatchAccount, Requests, RoundSpeaks, Settled;
    AdmissionIsTailFits(source, env.window.value, Overhead(config, env), r.fit.value.start);
  }

  lemma FirstRequestIs(messages: seq<Message>, segments: seq<Segment>, last: nat, result: Generated, out: seq<Output>)
    requires RoundSpeaks(messages, segments, last, result, out)
    ensures Requests(out) != [] && Requests(out)[0] == messages
  {
    hide Requests, Shown, ProposedCalls, CallsOf, JoinedText, FirstCut;
  }

  /** Every handler a round starts is of a call that ran, under its effective tier, and a floor call's only after a
      prompt for that very call that was not rejected. */
  lemma RoundRunsPrompted(config: Config, env: RoundEnv, source: seq<Message>, clean: bool, rules: Rules, r: Round, a: Act)
    requires RoundOk(config, env, source, clean, rules, r) && r.result.Committed? && a.Executing?
    ensures FloorPrompted(r.acts, config.policy)
    ensures a in r.acts <==> exists i ::
      0 <= i < CancelPoint(env.calls, |r.result.calls|, 0) &&
      ExecutedAt(r.result.calls, env.calls, config.policy, rules, i, a)
  {
    var calls := r.result.calls;
    var stop := CancelPoint(env.calls, |calls|, 0);
    assert r.acts == BatchActs(calls, env.calls, config.policy, rules, stop) by {
      hide SendsPaired, FittedTo, RoundSpeaks, Settled, Requests, BatchActs, RulesAt, OutcomeAt, RulesAfterRound, CancelPoint;
    }
    hide *;
    BatchFloorPrompted(calls, env.calls, config.policy, rules, stop);
    BatchExecutes(calls, env.calls, config.policy, rules, stop, a);
  }

  /** What a committed round tells the model: the text it showed and the calls it proposed, then one result per call, each
      telling how that call ended; and every handler it starts is started for a reason. */
  lemma RoundTells(config: Config, env: RoundEnv, source: seq<Message>, clean: bool, rules: Rules, r: Round)
    requires RoundOk(config, env, source, clean, rules, r) && r.result.Committed?
    ensures r.result.text == Shown(r.out) && r.result.calls == ProposedCalls(r.out)
    ensures RoundMessages(r) == [] <==> Shown(r.out) == "" && ProposedCalls(r.out) == []
    ensures RoundMessages(r) != [] ==> RoundMessages(r)[0] == Assistant(Shown(r.out), ProposedCalls(r.out))
    ensures RoundMessages(r) != [] ==> ToldInOrder(RoundMessages(r)[1..], ProposedCalls(r.out), r.outcomes)
    ensures EndAsRun(env.calls, r.outcomes, CancelPoint(env.calls, |r.result.calls|, 0))
    ensures AllWarranted(r.result.calls, env.calls, config.policy, rules, r.acts)
  {
    var calls := r.result.calls;
    assert r.fit.Some? && BatchAccount(calls, env.calls, config.policy, rules, r.outcomes, r.acts, RulesAfterRound(config, env, rules, r));
    assert RoundSpeaks(source[r.fit.value.start..], env.segments, r.last, r.result, r.out);
    hide RoundOk, BatchAccount, ToldInOrder, EndAsRun, AllWarranted, RulesAfterRound;
    CommittedIs(source[r.fit.value.start..], env.segments, r.last, r.result, r.out);
    hide RoundSpeaks, Shown, ProposedCalls, CallsOf;
    AccountOutcomes(calls, env.calls, config.policy, rules, r.outcomes, r.acts, RulesAfterRound(config, env, rules, r));
    AccountEnds(calls, env.calls, config.policy, rules, r.outcomes, r.acts, RulesAfterRound(config, env, rules, r));
    ResultsTell(calls, r.outcomes);
  }

  // ---- admission, in characters ----

  /** The characters of some messages as they are counted: contents, and the names and arguments of calls. */
  function Chars(ms: seq<Message>): nat {
    if ms == [] then 0
    else |ms[0].content| + (if ms[0].Assistant? then CallChars(ms[0].calls) else 0) + Chars(ms[1..])
  }

  lemma {:induction false} CostInChars(ms: seq<Message>)
    ensures Chars(ms) + 16 * |ms| <= 4 * Cost(ms) <= Chars(ms) + 19 * |ms|
  {
    if ms != [] { CostInChars(ms[1..]); }
  }

  /** What is sent under a known window, in characters: the system prompt, the tool schemas, the messages and four tokens for
      each of them, and the reserves all fit; and no older turn that would still have fitted was left out. */
  lemma AdmittedInChars(config: Config, env: RoundEnv, source: seq<Message>, clean: bool, rules: Rules, r: Round)
    requires RoundOk(config, env, source, clean, rules, r) && config.native.Some? && Bounded(env.window) && Requests(r.out) != []
    ensures var sent := Requests(r.out)[0]; var native := config.native.value;
      && |config.system| + env.schemaChars + 4 * (native.outputReserve + native.safetyReserve) + Chars(sent) + 16 * |sent|
           <= 4 * env.window.value
      && forall u: nat | u < |source| && source[u].User? && |source| - u > |sent| ::
           |config.system| + env.schemaChars + 4 * (native.outputReserve + native.safetyReserve)
             + Chars(source[u..]) + 19 * (|source| - u) + 6 > 4 * env.window.value
  {
    var fit := r.fit.value;
    assert r.fit.Some? && FittedTo(config, env, source, fit) && Admits(config, fit);
    assert RoundSpeaks(source[fit.start..], env.segments, r.last, r.result, r.out);
    hide RoundOk, RoundSpeaks, Requests;
    FirstRequestIs(source[fit.start..], env.segments, r.last, r.result, r.out);
    CostInChars(source[fit.start..]);
    forall u: nat | u < |source| && source[u].User? && u < fit.start
      ensures |config.system| + env.schemaChars + 4 * (config.native.value.outputReserve + config.native.value.safetyReserve)
        + Chars(source[u..]) + 19 * (|source| - u) + 6 > 4 * env.window.value
    {
      CostInChars(source[u..]);
      assert SuffixCost(source, u) > RoundBudget(env.window.value, fit.overhead);
    }
  }

  // ---- what a transcript holds, round by round ----

  /** The transcript between rounds: complete, unless an epoch opened on a stray result. */
  ghost predicate Whole(transcript: Transcript)
    reads transcript
  {
    && transcript.Valid() && OpensOnUser(transcript.messages) && OpensOnUser(transcript.epoch.history)
    && (transcript.epoch.clean ==> PairingComplete(transcript.messages))
  }

  /** A transcript between turns: whole, or not yet begun. */
  ghost predicate Ready(transcript: Transcript)
    reads transcript
  {
    transcript.Valid() && (transcript.messages == [] || Whole(transcript))
  }

  /** The transcript's own limits. */
  datatype Limits = Limits(maxTokens: int, maxMessages: int)

  function LimitsOf(transcript: Transcript): Limits { Limits(transcript.maxTokens, transcript.maxMessages) }

  ghost function Holds(l: Limits, p: Past): seq<Message> { Held(p, l.maxTokens, l.maxMessages) }

  lemma WholeHolds(transcript: Transcript)
    requires Ready(transcript)
    ensures transcript.messages == Holds(LimitsOf(transcript), transcript.PastNow())
  {
    transcript.HoldsTheWindow();
  }

  /** A new epoch: objective, checkpoint, and a lineage of at most eight of what was held. It stays clean exactly when that
      selection leads nowhere. */
  ghost function Compacted(l: Limits, p: Past, c: Option<Compaction>): Past {
    if c.None? then p
    else
      var ms := [User(c.value.objective), User(c.value.checkpoint)] + PairingSafeLineage(Holds(l, p), EPOCH_LIMIT);
      Past(ms, |ms|, c.value.turnId, p.clean && LeadsNowhere(Holds(l, p), EPOCH_LIMIT))
  }

  ghost predicate FitsAtOnce(config: Config, env: RoundEnv, ms: seq<Message>) {
    exists fit: Fit :: FittedTo(config, env, ms, fit) && Admits(config, fit)
  }

  /** The past a round's request is read from: an epoch may open on the guards' verdict, and another one when the first
      fit is over the window. */
  ghost function Fed(l: Limits, config: Config, env: RoundEnv, p: Past): Past {
    Pressed(l, config, env, if config.native.Some? && env.verdict == Checkpoint then Compacted(l, p, env.atCheckpoint) else p)
  }

  ghost function Pressed(l: Limits, config: Config, env: RoundEnv, p: Past): Past {
    if FitsAtOnce(config, env, Holds(l, p)) then p else Compacted(l, p, env.atPressure)
  }

  ghost function PastAfter(l: Limits, config: Config, env: RoundEnv, p: Past, r: Round): Past {
    if r.fit.None? then p else Extended(Fed(l, config, env, p), RoundMessages(r))
  }

  method Compact(transcript: Transcript, c: Option<Compaction>)
    requires Ready(transcript)
    modifies transcript
    ensures Ready(transcript)
    ensures old(Whole(transcript)) ==> Whole(transcript)
    ensures transcript.PastNow() == Compacted(LimitsOf(transcript), old(transcript.PastNow()), c)
    ensures c.None? ==> unchanged(transcript)
  {
    hide *;
    EpochIs(LimitsOf(transcript), transcript.PastNow(), c);
    if c.Some? {
      ReadyMeets(transcript);
      transcript.CompactForContextEpoch(c.value.objective, c.value.checkpoint, c.value.turnId, EPOCH_LIMIT);
      NewEpochIsWhole(transcript, c.value.objective);
    }
  }

  lemma ReadyMeets(transcript: Transcript)
    requires Ready(transcript)
    ensures transcript.Valid() && transcript.messages == Holds(LimitsOf(transcript), transcript.PastNow())
    ensures transcript.PastNow().clean == transcript.epoch.clean
    ensures transcript.epoch.clean ==> PairingComplete(transcript.messages)
  {
    WholeHolds(transcript);
    if transcript.messages == [] { NothingIsComplete(); }
    hide PairingComplete, Held, Windowed, InStep;
  }

  lemma NothingIsComplete()
    ensures PairingComplete([])
  {
  }

  /** What an epoch makes of a past. */
  lemma EpochIs(l: Limits, p: Past, c: Option<Compaction>)
    ensures c.None? ==> Compacted(l, p, c) == p
    ensures c.Some? ==>
      var ms := [User(c.value.objective), User(c.value.checkpoint)] + PairingSafeLineage(Holds(l, p), EPOCH_LIMIT);
      Compacted(l, p, c) == Past(ms, |ms|, c.value.turnId, p.clean && LeadsNowhere(Holds(l, p), EPOCH_LIMIT))
  {
    hide Holds, PairingSafeLineage, LeadsNowhere;
  }

  lemma NewEpochIsWhole(transcript: Transcript, objective: string)
    requires transcript.Valid() && transcript.messages != [] && transcript.messages[0] == User(objective)
    requires transcript.PastNow().history == transcript.messages
    requires transcript.PastNow().clean ==> PairingComplete(transcript.messages)
    ensures Whole(transcript) && Ready(transcript)
  {
    hide PairingComplete, Windowed, InStep;
  }

  // ---- a round ----

  /** Fit, and when the request is over the window ask for a checkpoint once and fit again. */
  method Admit(config: Config, env: RoundEnv, transcript: Transcript) returns (fit: Fit, admitted: bool, messages: seq<Message>)
    requires Whole(transcript)
    modifies transcript
    ensures Whole(transcript)
    ensures transcript.PastNow() == Pressed(LimitsOf(transcript), config, env, old(transcript.PastNow()))
    ensures FittedTo(config, env, transcript.messages, fit)
    ensures messages == fit.source[fit.start..] && admitted == Admits(config, fit)
  {
    var required;
    WholeHolds(transcript);
    ghost var first := transcript.messages;
    hide Whole, IsFit, Overhead, Held, Fitted, Compacted;
    fit, messages, required := FitRequest(config, env, transcript.messages);
    admitted := !(config.native.Some? && Bounded(env.window) && required > env.window.value);
    FirstFitDecides(config, env, first, fit);
    if !admitted {
      WholeIsReady(transcript);
      Compact(transcript, env.atPressure);
      fit, messages, required := FitRequest(config, env, transcript.messages);
      admitted := !(config.native.Some? && Bounded(env.window) && required > env.window.value);
    }
  }

  lemma WholeIsReady(transcript: Transcript)
    requires Whole(transcript)
    ensures Ready(transcript)
  {
  }

  /** There is one fit, so the first one decides. */
  lemma FirstFitDecides(config: Config, env: RoundEnv, ms: seq<Message>, fit: Fit)
    requires FittedTo(config, env, ms, fit)
    ensures FitsAtOnce(config, env, ms) <==> Admits(config, fit)
  {
    hide IsFit, Overhead;
    forall other: Fit | FittedTo(config, env, ms, other) ensures other == fit {
      FitIsUnique(ms, if Bounded(env.window) then RoundBudget(env.window.value, Overhead(config, env)) else 0, other.start, fit.start);
    }
  }

  /** Commit the assistant message of a round, if there is anything to commit. */
  method Commit(transcript: Transcript, text: string, calls: seq<ToolCall>)
    requires Whole(transcript)
    modifies transcript
    ensures Awaits(transcript, calls, transcript.epoch.clean)
    ensures transcript.PastNow() ==
      Extended(old(transcript.PastNow()), if text != "" || calls != [] then [Assistant(text, calls)] else [])
  {
    hide CallIds, DistinctGroups, Windowed, WindowStart, IdSet;
    ReaderIsGrammar(transcript.messages);
    ExtendedTwice(transcript.PastNow(), [], []);
    if text != "" || calls != [] { transcript.AppendAssistant(text, calls); }
  }

  lemma AllAnswered(transcript: Transcript)
    requires Awaits(transcript, [], transcript.epoch.clean)
    ensures Whole(transcript)
  {
    ReaderIsGrammar(transcript.messages);
  }

  /** What is said after the generation changes nothing it promised. */
  lemma SpeaksOn(messages: seq<Message>, segments: seq<Segment>, last: nat, result: Generated, out: seq<Output>,
      out': seq<Output>)
    requires RoundSpeaks(messages, segments, last, result, out)
    requires Shown(out') == Shown(out) && ProposedCalls(out') == ProposedCalls(out) && Requests(out') == Requests(out)
    requires out <= out'
    ensures RoundSpeaks(messages, segments, last, result, out')
  {
    StillCarryShown(messages, out, out') by {
      hide Shown, ProposedCalls, Requests, AreRequests, CallsOf, JoinedText, FirstCut, CutByLength, AllCarryShown;
    }
    hide Shown, ProposedCalls, Requests, AreRequests, CallsOf, JoinedText, FirstCut, CutByLength, AllCarryShown;
  }

  /** How a round that goes no further closes. */
  method CloseRound(out0: seq<Output>, empty: bool) returns (out: seq<Output>)
    ensures Shown(out) == Shown(out0) && ProposedCalls(out) == ProposedCalls(out0) && Requests(out) == Requests(out0)
    ensures Errors(out) == if empty then Errors(out0) + [EmptyResponse] else Errors(out0)
    ensures out0 <= out && EndsTurn(out)
  {
    hide Shown, ProposedCalls, Requests, EndsTurn, Errors;
    out := out0;
    if empty { out := Emit(out, Recovery(false)); }
    out := Close(out, if empty then Some(EmptyResponse) else None);
  }

  /** The messages a committed round appends, in two steps. */
  lemma RoundHistory(p: Past, text: string, calls: seq<ToolCall>, outcomes: seq<Outcome>, r: Round)
    requires r.result == Committed(text, calls) && r.outcomes == outcomes && |outcomes| == |calls|
    ensures Extended(Extended(p, if text != "" || calls != [] then [Assistant(text, calls)] else []), ResultsOf(calls, outcomes))
      == Extended(p, RoundMessages(r))
  {
    ExtendedTwice(p, if text != "" || calls != [] then [Assistant(text, calls)] else [], ResultsOf(calls, outcomes));
    if text == "" && calls == [] { assert ResultsOf(calls, outcomes) == [] && [] + ResultsOf(calls, outcomes) == []; }
  }

  lemma NoBatch(envs: seq<CallEnv>, policy: Policy, rules: Rules)
    ensures BatchAccount([], envs, policy, rules, [], [], rules) && ResultsOf([], []) == []
  {
  }

  lemma AccountOutcomes(calls: seq<ToolCall>, envs: seq<CallEnv>, policy: Policy, rules: Rules, outcomes: seq<Outcome>,
      acts: seq<Act>, after: Rules)
    requires BatchAccount(calls, envs, policy, rules, outcomes, acts, after)
    ensures |outcomes| == |calls|
    ensures CancelPoint(envs, |calls|, 0) == |calls| <==> Outcome.Cancelled !in outcomes
    ensures after == RulesAt(calls, envs, policy, rules, CancelPoint(envs, |calls|, 0))
  {
    hide RulesAt, BatchActs, OutcomeOf, CancelPoint;
    var stop := CancelPoint(envs, |calls|, 0);
    if stop < |calls| {
      assert outcomes[stop] == OutcomeAt(calls, envs, policy, rules, stop);
      assert outcomes[stop] in outcomes;
    } else {
      forall i | 0 <= i < |calls| ensures outcomes[i] != Outcome.Cancelled { NotCancelled(calls[i], EnvAt(envs, i), RulesAt(calls, envs, policy, rules, i), policy); }
    }
  }

  lemma NotCancelled(call: ToolCall, env: CallEnv, rules: Rules, policy: Policy)
    ensures OutcomeOf(call, env, rules, policy) != Outcome.Cancelled
  {
  }

  /** Run the calls a round committed, if any. */
  method RunCalls(config: Config, env: RoundEnv, transcript: Transcript, store: RuleStore, calls: seq<ToolCall>)
    returns (outcomes: seq<Outcome>, acts: seq<Act>, whole: bool)
    requires Awaits(transcript, calls, transcript.epoch.clean)
    modifies transcript, store
    ensures Whole(transcript) && |outcomes| == |calls|
    ensures BatchAccount(calls, env.calls, config.policy, old(store.rules), outcomes, acts, store.rules)
    ensures whole <==> Outcome.Cancelled !in outcomes
    ensures transcript.PastNow() == Extended(old(transcript.PastNow()), ResultsOf(calls, outcomes))
  {
    hide BatchAccount, ResultsOf, Awaits, CancelPoint;
    outcomes, acts, whole := [], [], true;
    ghost var rules, past := store.rules, transcript.PastNow();
    NoBatch(env.calls, config.policy, rules);
    ExtendedTwice(past, [], []);
    if calls != [] {
      var stop;
      outcomes, acts, stop := RunBatch(calls, env.calls, config.policy, store, transcript, past.clean);
      AccountOutcomes(calls, env.calls, config.policy, rules, outcomes, acts, store.rules);
      whole := stop == |calls|;
    }
    AllAnswered(transcript);
  }

  /** What a committed round says last. */
  method SpeakLast(env: RoundEnv, ghost messages: seq<Message>, last: nat, text: string, calls: seq<ToolCall>, whole: bool,
                   out0: seq<Output>)
    returns (out: seq<Output>, goOn: bool)
    requires RoundSpeaks(messages, env.segments, last, Committed(text, calls), out0)
    requires Errors(out0) == Complaint(SegmentAt(env.segments, last))
    ensures RoundSpeaks(messages, env.segments, last, Committed(text, calls), out)
    ensures Errors(out) == Complaint(SegmentAt(env.segments, last)) + Emptiness(Committed(text, calls))
    ensures (goOn <==> calls != [] && whole) && (!goOn ==> EndsTurn(out))
  {
    hide *;
    goOn := calls != [] && whole;
    out := out0;
    Reported(env.segments, last, text, calls);
    if !goOn {
      out := CloseRound(out, calls == [] && text == "");
      SpeaksOn(messages, env.segments, last, Committed(text, calls), out0, out);
    }
  }

  /** From the commit of a round to the last of its tool results. */
  method FinishRound(config: Config, env: RoundEnv, transcript: Transcript, store: RuleStore, fit: Fit, last: nat,
                     out0: seq<Output>, text: string, calls: seq<ToolCall>)
    returns (round: Round, goOn: bool)
    requires Whole(transcript) && FittedTo(config, env, transcript.messages, fit) && Admits(config, fit)
    requires RoundSpeaks(fit.source[fit.start..], env.segments, last, Committed(text, calls), out0)
    requires Settled(env.segments, env.cancelledBeforeCommit, last, Committed(text, calls))
    requires Errors(out0) == Complaint(SegmentAt(env.segments, last))
    modifies transcript, store
    ensures Whole(transcript)
    ensures RoundOk(config, env, fit.source, old(transcript.epoch.clean), old(store.rules), round) && round.fit == Some(fit)
    ensures store.rules == RulesAfterRound(config, env, old(store.rules), round)
    ensures (goOn <==> GoesOn(round)) && (!goOn ==> EndsTurn(round.out))
    ensures transcript.PastNow() == Extended(old(transcript.PastNow()), RoundMessages(round))
  {
    ghost var messages, past, rules := fit.source[fit.start..], transcript.PastNow(), store.rules;
    hide *;
    Meets(transcript);
    Commit(transcript, text, calls);
    var outcomes, acts, whole := RunCalls(config, env, transcript, store, calls);
    var out;
    out, goOn := SpeakLast(env, messages, last, text, calls, whole, out0);
    round := Round(Some(fit), last, out, Committed(text, calls), acts, outcomes);
    CommittedRoundIsOk(config, env, past.clean, fit, rules, store.rules, round);
    RoundHistory(past, text, calls, outcomes, round);
    GoesOnIs(round);
  }

  /** What a round finds. */
  lemma Meets(transcript: Transcript)
    requires Whole(transcript)
    ensures transcript.messages == Holds(LimitsOf(transcript), transcript.PastNow())
    ensures transcript.PastNow().clean ==> PairingComplete(transcript.messages)
  {
    WholeHolds(transcript);
  }

  lemma Reported(segments: seq<Segment>, last: nat, text: string, calls: seq<ToolCall>)
    ensures var errors := Complaint(SegmentAt(segments, last));
      errors + Emptiness(Committed(text, calls)) == if text == "" && calls == [] then errors + [EmptyResponse] else errors
  {
    hide Complaint, SegmentAt;
  }

  lemma GoesOnIs(r: Round)
    ensures GoesOn(r) <==> r.result.Committed? && r.result.calls != [] && Outcome.Cancelled !in r.outcomes
  {
  }

  /** A round that spoke under an admitted fit keeps every promise of `RoundOk`. */
  lemma CommittedRoundIsOk(config: Config, env: RoundEnv, clean: bool, fit: Fit, rules: Rules, after: Rules, r: Round)
    requires clean ==> PairingComplete(fit.source)
    requires r.fit == Some(fit) && r.result.Committed? && FittedTo(config, env, fit.source, fit) && Admits(config, fit)
    requires RoundSpeaks(fit.source[fit.start..], env.segments, r.last, r.result, r.out)
    requires Settled(env.segments, env.cancelledBeforeCommit, r.last, r.result)
    requires Errors(r.out) == Complaint(SegmentAt(env.segments, r.last)) + Emptiness(r.result)
    requires BatchAccount(r.result.calls, env.calls, config.policy, rules, r.outcomes, r.acts, after)
    ensures RoundOk(config, env, fit.source, clean, rules, r) && after == RulesAfterRound(config, env, rules, r)
  {
    assert clean ==> SendsPaired(r.out) by {
      hide *;
      StartWithin(config, env, fit.source, fit);
      if clean { RoundIsPaired(fit, env.segments, r); }
    }
    hide RoundSpeaks, Settled, BatchAccount, RulesAt, CancelPoint, PairingComplete, FittedTo, Admits, SendsPaired, Requests,
      Errors, Complaint, Emptiness, SegmentAt;
    AccountOutcomes(r.result.calls, env.calls, config.policy, rules, r.outcomes, r.acts, after);
  }

  /** Fitted from complete messages, every request of a round is complete. */
  lemma RoundIsPaired(fit: Fit, segments: seq<Segment>, r: Round)
    requires Fitted(fit) && PairingComplete(fit.source)
    requires RoundSpeaks(fit.source[fit.start..], segments, r.last, r.result, r.out)
    ensures SendsPaired(r.out)
  {
    FittedIsPairingComplete(fit);
    hide Fitted, PairingComplete, Requests, Shown, ProposedCalls, CallsOf, JoinedText, FirstCut;
    RequestsArePaired(Requests(r.out), fit.source[fit.start..], segments, r.last + 1);
  }

  lemma EndedRoundIsOk(config: Config, env: RoundEnv, clean: bool, fit: Fit, rules: Rules, r: Round)
    requires clean ==> PairingComplete(fit.source)
    requires r.fit == Some(fit) && r.result.Ended? && FittedTo(config, env, fit.source, fit) && r.acts == [] && r.outcomes == []
    requires if Admits(config, fit)
      then RoundSpeaks(fit.source[fit.start..], env.segments, r.last, r.result, r.out)
        && Settled(env.segments, env.cancelledBeforeCommit, r.last, r.result)
        && Errors(r.out) == Complaint(SegmentAt(env.segments, r.last))
      else Requests(r.out) == [] && Errors(r.out) == [AdmissionDenied]
    ensures RoundOk(config, env, fit.source, clean, rules, r) && rules == RulesAfterRound(config, env, rules, r)
    ensures !GoesOn(r) && RoundMessages(r) == []
  {
    assert clean ==> SendsPaired(r.out) by {
      hide *;
      StartWithin(config, env, fit.source, fit);
      if clean && Admits(config, fit) { RoundIsPaired(fit, env.segments, r); } else { NothingSent(r.out); }
    }
    hide RoundSpeaks, Settled, PairingComplete, FittedTo, Admits, SendsPaired, Requests, Errors, Complaint, SegmentAt;
    assert Complaint(SegmentAt(env.segments, r.last)) + [] == Complaint(SegmentAt(env.segments, r.last));
  }

  lemma {:induction false} ReportsIn(out: seq<Output>, code: ErrorCode)
    ensures Error(code) in out <==> code in Errors(out)
  {
    if out != [] {
      var n := |out| - 1;
      assert out == out[..n] + [out[n]];
      ReportsIn(out[..n], code);
    }
  }

  lemma NothingSent(out: seq<Output>)
    ensures Requests(out) == [] ==> SendsPaired(out)
  {
  }

  method CloseSilent(code: ErrorCode) returns (out: seq<Output>)
    ensures Requests(out) == [] && Errors(out) == [code] && EndsTurn(out)
  {
    out := Close([], Some(code));
  }

  method RunRound(config: Config, env: RoundEnv, transcript: Transcript, store: RuleStore) returns (round: Round, goOn: bool)
    requires Whole(transcript)
    modifies transcript, store
    ensures Whole(transcript)
    ensures round.fit.Some? && var p := Pressed(LimitsOf(transcript), config, env, old(transcript.PastNow()));
      && RoundOk(config, env, Holds(LimitsOf(transcript), p), p.clean, old(store.rules), round)
      && transcript.PastNow() == Extended(p, RoundMessages(round))
    ensures store.rules == RulesAfterRound(config, env, old(store.rules), round)
    ensures (goOn <==> GoesOn(round)) && (!goOn ==> EndsTurn(round.out))
  {
    ghost var rules := store.rules;
    hide *;
    var fit, admitted, messages := Admit(config, env, transcript);
    ghost var p := transcript.PastNow();
    Meets(transcript);
    StartWithin(config, env, transcript.messages, fit);
    ExtendedTwice(p, [], []);
    if !admitted {
      var out := CloseSilent(AdmissionDenied);
      round, goOn := Round(Some(fit), 0, out, Ended, [], []), false;
      EndedRoundIsOk(config, env, p.clean, fit, rules, round);
      return;
    }
    var result, out, last := Generate(messages, env.segments, env.cancelledBeforeCommit);
    if result.Ended? {
      round, goOn := Round(Some(fit), last, out, Ended, [], []), false;
      EndedRoundIsOk(config, env, p.clean, fit, rules, round);
      return;
    }
    round, goOn := FinishRound(config, env, transcript, store, fit, last, out, result.text, result.calls);
  }

  lemma StartWithin(config: Config, env: RoundEnv, source: seq<Message>, fit: Fit)
    requires FittedTo(config, env, source, fit)
    ensures fit.source == source && fit.start <= |fit.source| && Fitted(fit)
  {
    hide IsFit;
  }

  /** A round that ends before anything is fitted. */
  method SkippedRound(code: Option<ErrorCode>) returns (round: Round)
    ensures round.fit.None? && round.result == Ended && round.acts == [] && round.outcomes == []
    ensures Requests(round.out) == [] && EndsTurn(round.out)
    ensures Errors(round.out) == if code.Some? then [code.value] else []
  {
    var out := Close([], code);
    round := Round(None, 0, out, Ended, [], []);
  }

  // ---- a turn ----

  /** Round `i` of a turn is not even fitted: cancelled, or out of rounds. `used` is how many native rounds the
      session had spent before the turn. */
  predicate Skipped(config: Config, env: RoundEnv, i: nat, used: nat) {
    || env.cancelled
    || match config.native
       case None => i + 1 > config.maxIterations
       case Some(native) => used + i + 1 > native.maxModelRounds || env.verdict == Terminate
  }

  /** What a turn knows that began on a past, with rules, and with native rounds used. */
  datatype Start = Start(limits: Limits, past: Past, rules: Rules, used: nat)

  /** What is held after some rounds of a turn; round `i` met `EnvOf(envs, from + i)`. */
  ghost function PastOf(config: Config, envs: seq<RoundEnv>, from: nat, start: Start, rounds: seq<Round>): Past {
    if rounds == [] then start.past
    else
      var n := |rounds| - 1;
      PastAfter(start.limits, config, EnvOf(envs, from + n), PastOf(config, envs, from, start, rounds[..n]), rounds[n])
  }

  ghost function RulesOf(config: Config, envs: seq<RoundEnv>, from: nat, start: Start, rounds: seq<Round>): Rules {
    if rounds == [] then start.rules
    else
      var n := |rounds| - 1;
      RulesAfterRound(config, EnvOf(envs, from + n), RulesOf(config, envs, from, start, rounds[..n]), rounds[n])
  }

  /** The native rounds spent: one for each round that was not cancelled before it began. */
  function UsedOf(config: Config, envs: seq<RoundEnv>, from: nat, used: nat, rounds: seq<Round>): nat {
    if rounds == [] then used
    else
      var n := |rounds| - 1;
      UsedOf(config, envs, from, used, rounds[..n]) + if config.native.Some? && !EnvOf(envs, from + n).cancelled then 1 else 0
  }

  /** A round of a turn, after the rounds `before`. */
  ghost predicate Follows(config: Config, envs: seq<RoundEnv>, from: nat, start: Start, before: seq<Round>, r: Round, goOn: bool) {
    var env := EnvOf(envs, from + |before|);
    var p := Fed(start.limits, config, env, PastOf(config, envs, from, start, before));
    && RoundOk(config, env, Holds(start.limits, p), p.clean, RulesOf(config, envs, from, start, before), r)
    && (r.fit.None? <==> Skipped(config, env, |before|, start.used))
    && (goOn <==> GoesOn(r)) && (!goOn ==> EndsTurn(r.out))
  }

  /** The rounds of a turn: each keeps its promises of what the rounds before it left, is skipped exactly when it must
      be, and leads to the next exactly when it goes on. */
  ghost predicate TurnOk(config: Config, envs: seq<RoundEnv>, from: nat, start: Start, rounds: seq<Round>, goOn: bool) {
    if rounds == [] then goOn
    else
      var n := |rounds| - 1;
      TurnOk(config, envs, from, start, rounds[..n], true) && Follows(config, envs, from, start, rounds[..n], rounds[n], goOn)
  }

  /** Where a fit and a window cut: at the front, or at a user message. */
  lemma FitCuts(fit: Fit)
    requires Fitted(fit)
    ensures fit.start <= |fit.source| && (fit.start > 0 ==> fit.start < |fit.source| && fit.source[fit.start].User?)
  {
    LastUserIs(fit.source);
  }

  lemma WindowCuts(l: Limits, p: Past) returns (w: nat)
    requires OpensOnUser(p.history)
    ensures w < |p.history| && p.history[w].User? && Holds(l, p) == p.history[w..]
  {
    w := 0;
    if |p.history| > p.opening {
      w := WindowStart(p.history, l.maxTokens, l.maxMessages);
      WindowStartIsTheWindow(p.history, l.maxTokens, l.maxMessages, w);
    }
  }

  lemma FirstOfRound(config: Config, env: RoundEnv, source: seq<Message>, clean: bool, rules: Rules, r: Round)
    requires RoundOk(config, env, source, clean, rules, r) && Requests(r.out) != []
    ensures r.fit.Some? && Fitted(r.fit.value) && r.fit.value.source == source
    ensures r.fit.value.start <= |source| && Requests(r.out)[0] == source[r.fit.value.start..]
  {
    hide SendsPaired, Settled, BatchAccount, Requests, RoundSpeaks, Errors, Complaint, Emptiness, SegmentAt, RulesAfterRound, Fitted, Overhead, Admits;
    assert r.fit.Some? && FittedTo(config, env, source, r.fit.value);
    StartWithin(config, env, source, r.fit.value);
    FirstRequestIs(source[r.fit.value.start..], env.segments, r.last, r.result, r.out);
  }

  /** Without an epoch of its own, the first round of a turn is fitted from what the turn began with. */
  lemma FirstRound(config: Config, envs: seq<RoundEnv>, from: nat, start: Start, rounds: seq<Round>)
    requires TurnOk(config, envs, from, start, rounds, false) && rounds != [] && NoEpoch(EnvOf(envs, from))
    ensures RoundOk(config, EnvOf(envs, from), Holds(start.limits, start.past), start.past.clean, start.rules, rounds[0])
  {
    hide *;
    TurnRound(config, envs, from, start, rounds, false, 0);
    assert rounds[..0] == [];
    NoRounds(config, envs, from, start);
    NoEpochFed(start.limits, config, EnvOf(envs, from), start.past, rounds[0]);
    FollowsOk(config, envs, from, start, [], rounds[0], if 0 == |rounds| - 1 then false else true);
  }

  /** What a fresh epoch holds: the objective, the checkpoint, and at most eight messages. */
  predicate OpensEpoch(ms: seq<Message>, c: Compaction) {
    2 <= |ms| <= 10 && ms[0] == User(c.objective) && ms[1] == User(c.checkpoint)
  }

  lemma EpochOpens(l: Limits, p: Past, c: Compaction)
    ensures OpensEpoch(Holds(l, Compacted(l, p, Some(c))), c)
  {
    var ms := PairingSafeLineage(Holds(l, p), EPOCH_LIMIT);
    LineageIsShort(Holds(l, p));
    EpochIs(l, p, Some(c));
    HoldsOpening(l, Compacted(l, p, Some(c)));
    hide Compacted, Holds, PairingSafeLineage;
    assert ([User(c.objective), User(c.checkpoint)] + ms)[0] == User(c.objective);
  }

  lemma HoldsOpening(l: Limits, p: Past)
    requires |p.history| == p.opening
    ensures Holds(l, p) == p.history
  {
  }

  lemma LineageIsShort(ms: seq<Message>)
    ensures |PairingSafeLineage(ms, EPOCH_LIMIT)| <= 8
  {
    PickIsShort(ms, EPOCH_LIMIT, [], {});
    var sel := Pick(ms, EPOCH_LIMIT, [], {});
    DropsFrom(sel, AllIds(sel));
  }

  /** A round is refused only after the epoch it was offered, if it was: then nothing but that epoch was fitted, and what the
      guards ask for is taken before a round is fitted. */
  lemma FittedAfterEpoch(config: Config, envs: seq<RoundEnv>, from: nat, start: Start, before: seq<Round>, r: Round, goOn: bool)
    requires Follows(config, envs, from, start, before, r, goOn) && r.fit.Some?
    ensures var env := EnvOf(envs, from + |before|);
      && (env.atPressure.Some? && Error(AdmissionDenied) in r.out ==> OpensEpoch(r.fit.value.source, env.atPressure.value))
      && (config.native.Some? && env.verdict == Checkpoint && env.atCheckpoint.Some? && env.atPressure.None? ==>
            OpensEpoch(r.fit.value.source, env.atCheckpoint.value))
  {
    var env, l, p := EnvOf(envs, from + |before|), start.limits, PastOf(config, envs, from, start, before);
    var fed := Fed(l, config, env, p);
    hide *;
    FollowsOk(config, envs, from, start, before, r, goOn);
    EpochsOf(l, config, env, p);
    RefusedIs(config, env, Holds(l, fed), fed.clean, RulesOf(config, envs, from, start, before), r);
    var met := if config.native.Some? && env.verdict == Checkpoint then Compacted(l, p, env.atCheckpoint) else p;
    PressedIs(l, config, env, met);
    FirstFitDecides(config, env, Holds(l, fed), r.fit.value);
    if env.atPressure.Some? { EpochOpens(l, met, env.atPressure.value); }
    if env.atCheckpoint.Some? { EpochOpens(l, p, env.atCheckpoint.value); }
    EpochIs(l, met, env.atPressure);
  }

  lemma PressedIs(l: Limits, config: Config, env: RoundEnv, p: Past)
    ensures Pressed(l, config, env, p) == if FitsAtOnce(config, env, Holds(l, p)) then p else Compacted(l, p, env.atPressure)
  {
    hide Holds, Compacted, FitsAtOnce;
  }

  lemma RefusedIs(config: Config, env: RoundEnv, source: seq<Message>, clean: bool, rules: Rules, r: Round)
    requires RoundOk(config, env, source, clean, rules, r) && r.fit.Some?
    ensures FittedTo(config, env, source, r.fit.value) && r.fit.value.source == source && r.fit.value.start <= |source|
    ensures Error(AdmissionDenied) in r.out <==> !Admits(config, r.fit.value)
  {
    ReportsIn(r.out, AdmissionDenied);
    StartWithin(config, env, source, r.fit.value) by {
      hide Errors, Requests, SendsPaired, RoundSpeaks, Settled, Admits, BatchAccount, SegmentAt, RulesAfterRound, Complaint;
    }
    hide Errors, Requests, SendsPaired, RoundSpeaks, Settled, FittedTo, Admits, BatchAccount, SegmentAt, RulesAfterRound, OverCeiling, CutByLength;
  }

  lemma {:induction false} TurnRound(config: Config, envs: seq<RoundEnv>, from: nat, start: Start, rounds: seq<Round>, goOn: bool, i: nat)
    requires TurnOk(config, envs, from, start, rounds, goOn) && i < |rounds|
    ensures Follows(config, envs, from, start, rounds[..i], rounds[i], if i == |rounds| - 1 then goOn else true)
    ensures TurnOk(config, envs, from, start, rounds[..i], true)
    decreases |rounds|
  {
    hide *;
    var n := |rounds| - 1;
    LastRound(config, envs, from, start, rounds, goOn);
    if i < n {
      TurnRound(config, envs, from, start, rounds[..n], true, i);
      assert rounds[..n][..i] == rounds[..i];
    }
  }

  lemma LastRound(config: Config, envs: seq<RoundEnv>, from: nat, start: Start, rounds: seq<Round>, goOn: bool)
    requires TurnOk(config, envs, from, start, rounds, goOn) && rounds != []
    ensures var n := |rounds| - 1;
      TurnOk(config, envs, from, start, rounds[..n], true) && Follows(config, envs, from, start, rounds[..n], rounds[n], goOn)
  {
    hide Follows;
  }

  lemma LastMessages(rounds: seq<Round>)
    ensures rounds == [] ==> TurnMessages(rounds) == []
    ensures rounds != [] ==> var n := |rounds| - 1; TurnMessages(rounds) == TurnMessages(rounds[..n]) + RoundMessages(rounds[n])
  {
    hide RoundMessages;
  }

  /** The messages of some rounds. */
  function TurnMessages(rounds: seq<Round>): seq<Message> {
    if rounds == [] then [] else TurnMessages(rounds[..|rounds| - 1]) + RoundMessages(rounds[|rounds| - 1])
  }

  /** As long as no epoch opens, a turn's past is what it began with and the messages of its rounds, and the next
      request is read from the window of exactly those. */
  lemma {:induction false} TurnWithoutEpochs(config: Config, envs: seq<RoundEnv>, from: nat, start: Start, rounds: seq<Round>,
      goOn: bool)
    requires TurnOk(config, envs, from, start, rounds, goOn)
    requires forall q: nat | from <= q <= from + |rounds| :: NoEpoch(EnvOf(envs, q))
    ensures PastOf(config, envs, from, start, rounds) == Extended(start.past, TurnMessages(rounds))
    ensures Fed(start.limits, config, EnvOf(envs, from + |rounds|), PastOf(config, envs, from, start, rounds))
      == Extended(start.past, TurnMessages(rounds))
  {
    hide *;
    NoRounds(config, envs, from, start);
    ExtendedTwice(start.past, [], []);
    LastMessages(rounds);
    if rounds != [] {
      var n := |rounds| - 1;
      var init, r := rounds[..n], rounds[n];
      assert rounds == init + [r];
      LastRound(config, envs, from, start, rounds, goOn);
      SkippedAddsNothing(config, envs, from, start, init, r, goOn);
      TurnWithoutEpochs(config, envs, from, start, init, true);
      OneMoreRound(config, envs, from, start, init, r, goOn);
      NoEpochFed(start.limits, config, EnvOf(envs, from + n), PastOf(config, envs, from, start, init), r);
      ExtendedTwice(start.past, TurnMessages(init), RoundMessages(r));
      ExtendedTwice(Extended(start.past, TurnMessages(init)), [], []);
    }
    NoEpochFed(start.limits, config, EnvOf(envs, from + |rounds|), PastOf(config, envs, from, start, rounds),
      Round(None, 0, [], Ended, [], []));
  }

  lemma NoEpochFed(l: Limits, config: Config, env: RoundEnv, p: Past, r: Round)
    requires NoEpoch(env)
    ensures Fed(l, config, env, p) == p
    ensures r.fit.Some? ==> PastAfter(l, config, env, p, r) == Extended(p, RoundMessages(r))
    ensures r.fit.None? ==> PastAfter(l, config, env, p, r) == p
  {
    hide RoundMessages, FitsAtOnce, Held;
  }

  /** An epoch never makes a past clean again. */
  lemma StaysClean(l: Limits, p: Past, c: Option<Compaction>)
    ensures Compacted(l, p, c).clean ==> p.clean
  {
    hide PairingSafeLineage, LeadsNowhere, Holds;
  }

  /** A turn that leaves a clean past began with one, and sent complete requests only. */
  lemma {:induction false} TurnIsPaired(config: Config, envs: seq<RoundEnv>, from: nat, start: Start, rounds: seq<Round>, goOn: bool)
    requires TurnOk(config, envs, from, start, rounds, goOn) && PastOf(config, envs, from, start, rounds).clean
    ensures start.past.clean && forall r | r in rounds :: SendsPaired(r.out)
    decreases |rounds|
  {
    hide *;
    NoRounds(config, envs, from, start);
    if rounds != [] {
      var n := |rounds| - 1;
      var init, r := rounds[..n], rounds[n];
      assert rounds == init + [r];
      LastRound(config, envs, from, start, rounds, goOn);
      OneMoreRound(config, envs, from, start, init, r, goOn);
      RoundIsClean(config, envs, from, start, init, r, goOn);
      TurnIsPaired(config, envs, from, start, init, true);
    }
  }

  lemma RoundIsClean(config: Config, envs: seq<RoundEnv>, from: nat, start: Start, before: seq<Round>, r: Round, goOn: bool)
    requires Follows(config, envs, from, start, before, r, goOn)
    ensures var env, p := EnvOf(envs, from + |before|), PastOf(config, envs, from, start, before);
      PastAfter(start.limits, config, env, p, r).clean ==> p.clean && SendsPaired(r.out)
  {
    var env, p, l := EnvOf(envs, from + |before|), PastOf(config, envs, from, start, before), start.limits;
    var fed := Fed(l, config, env, p);
    assert (fed.clean ==> SendsPaired(r.out)) && (r.fit.None? ==> Requests(r.out) == []);
    hide *;
    NothingSent(r.out);
    EpochsOf(l, config, env, p);
    PastOfRound(l, config, env, p, r);
    StaysClean(l, p, env.atCheckpoint);
    PressedStaysClean(l, config, env, p);
    PressedStaysClean(l, config, env, Compacted(l, p, env.atCheckpoint));
    ExtendedStaysClean(fed, RoundMessages(r));
  }

  lemma PressedStaysClean(l: Limits, config: Config, env: RoundEnv, p: Past)
    ensures Pressed(l, config, env, p).clean ==> p.clean
  {
    StaysClean(l, p, env.atPressure);
    hide FitsAtOnce, Compacted;
  }

  lemma ExtendedStaysClean(p: Past, more: seq<Message>)
    ensures Extended(p, more).clean == p.clean
  {
  }

  /** The rules a round leaves active are those it met and those it granted, each granted for a call that was not
      elevated, after a prompt the user wanted remembered. */
  lemma RoundGrants(config: Config, env: RoundEnv, source: seq<Message>, clean: bool, rules: Rules, r: Round, x: Rule)
    requires RoundOk(config, env, source, clean, rules, r)
    ensures x in Active(RulesAfterRound(config, env, rules, r)) <==> x in Active(rules) || Granted(x) in r.acts
    ensures Granted(x) in r.acts <==> r.result.Committed? && exists i ::
      0 <= i < CancelPoint(env.calls, |r.result.calls|, 0) && GrantedAt(r.result.calls, env.calls, config.policy, rules, i, x)
  {
    if r.result.Committed? {
      var calls := r.result.calls;
      var stop := CancelPoint(env.calls, |calls|, 0);
      assert r.acts == BatchActs(calls, env.calls, config.policy, rules, stop);
      assert RulesAfterRound(config, env, rules, r) == RulesAt(calls, env.calls, config.policy, rules, stop);
      hide *;
      BatchGrants(calls, env.calls, config.policy, rules, stop, x);
    } else {
      hide Active;
    }
  }

  /** Over a turn, the rules left active are those it began with and those its rounds granted. */
  lemma {:induction false} TurnGrants(config: Config, envs: seq<RoundEnv>, from: nat, start: Start, rounds: seq<Round>, goOn: bool,
      x: Rule)
    requires TurnOk(config, envs, from, start, rounds, goOn)
    ensures x in Active(RulesOf(config, envs, from, start, rounds)) <==>
      x in Active(start.rules) || exists r :: r in rounds && Granted(x) in r.acts
    decreases |rounds|
  {
    hide *;
    NoRounds(config, envs, from, start);
    if rounds != [] {
      var n := |rounds| - 1;
      var init, r := rounds[..n], rounds[n];
      assert rounds == init + [r];
      LastRound(config, envs, from, start, rounds, goOn);
      OneMoreRound(config, envs, from, start, init, r, goOn);
      TurnGrants(config, envs, from, start, init, true, x);
      FollowsGrants(config, envs, from, start, init, r, goOn, x);
    }
  }

  /** What some rounds make known, in order. */
  function ActsIn(rounds: seq<Round>): seq<Act> {
    if rounds == [] then [] else ActsIn(rounds[..|rounds| - 1]) + rounds[|rounds| - 1].acts
  }

  /** The grants a turn has made by some round are among its acts, and it never changes what is denied. */
  lemma {:induction false} TurnRules(config: Config, envs: seq<RoundEnv>, from: nat, start: Start, rounds: seq<Round>, goOn: bool)
    requires TurnOk(config, envs, from, start, rounds, goOn)
    ensures RulesOf(config, envs, from, start, rounds).denies == start.rules.denies
    ensures forall x :: x in Active(RulesOf(config, envs, from, start, rounds)) ==> x in Active(start.rules) || Granted(x) in ActsIn(rounds)
    decreases |rounds|
  {
    hide *;
    NoRounds(config, envs, from, start);
    if rounds != [] {
      var n := |rounds| - 1;
      var init, r := rounds[..n], rounds[n];
      assert rounds == init + [r];
      LastRound(config, envs, from, start, rounds, goOn);
      OneMoreRound(config, envs, from, start, init, r, goOn);
      TurnRules(config, envs, from, start, init, true);
      ActsOfLast(rounds);
      RoundDenies(config, EnvOf(envs, from + n), RulesOf(config, envs, from, start, init), r);
      forall x { FollowsGrants(config, envs, from, start, init, r, goOn, x); }
    }
  }

  lemma ActsOfLast(rounds: seq<Round>)
    requires rounds != []
    ensures ActsIn(rounds) == ActsIn(rounds[..|rounds| - 1]) + rounds[|rounds| - 1].acts
  {
  }

  lemma RoundDenies(config: Config, env: RoundEnv, rules: Rules, r: Round)
    ensures RulesAfterRound(config, env, rules, r).denies == rules.denies
  {
    if r.result.Committed? {
      SameDeniesAt(r.result.calls, env.calls, config.policy, rules, CancelPoint(env.calls, |r.result.calls|, 0));
      hide RulesAt, CancelPoint;
    }
  }

  /** A handler start of round `i`, for a reason given by what the turn began with and what it has done so far. */
  ghost predicate WarrantedInTurn(config: Config, env: RoundEnv, rules: Rules, before: seq<Act>, r: Round, k: nat)
    requires k < |r.acts| && r.acts[k].Executing? && r.result.Committed?
  {
    var acts := before + r.acts;
    acts[|before| + k] == r.acts[k] && WarrantedBySome(r.result.calls, env.calls, config.policy, rules, acts, |before| + k)
  }

  /** Every handler a turn starts is started for a reason: a prompt of its own, a silent tier, a mode that covers its tool, or a
      grant of that very tool that was active when the turn began or that the user has given in it since. */
  lemma TurnStartsAreWarranted(config: Config, envs: seq<RoundEnv>, from: nat, start: Start, rounds: seq<Round>, goOn: bool, i: nat, k: nat)
    requires TurnOk(config, envs, from, start, rounds, goOn) && i < |rounds| && k < |rounds[i].acts| && rounds[i].acts[k].Executing?
    ensures rounds[i].result.Committed?
    ensures WarrantedInTurn(config, EnvOf(envs, from + i), start.rules, ActsIn(rounds[..i]), rounds[i], k)
  {
    hide *;
    TurnRound(config, envs, from, start, rounds, goOn, i);
    TurnRules(config, envs, from, start, rounds[..i], true);
    assert |rounds[..i]| == i;
    RoundIsWarranted(config, envs, from, start, rounds[..i], rounds[i], if i == |rounds| - 1 then goOn else true, k);
  }

  lemma RoundIsWarranted(config: Config, envs: seq<RoundEnv>, from: nat, start: Start, before: seq<Round>, r: Round, goOn: bool, k: nat)
    requires Follows(config, envs, from, start, before, r, goOn) && k < |r.acts| && r.acts[k].Executing?
    requires RulesOf(config, envs, from, start, before).denies == start.rules.denies
    requires forall x :: x in Active(RulesOf(config, envs, from, start, before)) ==> x in Active(start.rules) || Granted(x) in ActsIn(before)
    ensures r.result.Committed?
    ensures WarrantedInTurn(config, EnvOf(envs, from + |before|), start.rules, ActsIn(before), r, k)
  {
    var env, met := EnvOf(envs, from + |before|), RulesOf(config, envs, from, start, before);
    var p := Fed(start.limits, config, env, PastOf(config, envs, from, start, before));
    hide *;
    FollowsOk(config, envs, from, start, before, r, goOn);
    RoundWarrants(config, env, Holds(start.limits, p), p.clean, start.rules, met, r, ActsIn(before), k);
  }

  lemma RoundWarrants(config: Config, env: RoundEnv, source: seq<Message>, clean: bool, rules: Rules, met: Rules, r: Round,
                      before: seq<Act>, k: nat)
    requires RoundOk(config, env, source, clean, met, r) && k < |r.acts| && r.acts[k].Executing?
    requires met.denies == rules.denies && forall x :: x in Active(met) ==> x in Active(rules) || Granted(x) in before
    ensures r.result.Committed? && WarrantedInTurn(config, env, rules, before, r, k)
  {
    hide *;
    SpokeIfActed(config, env, source, clean, met, r);
    RoundTells(config, env, source, clean, met, r);
    WarrantedLater(r.result.calls, env.calls, config.policy, rules, met, before, r.acts, k);
    IsWarrantedInTurn(config, env, rules, before, r, k);
  }

  lemma FollowsOk(config: Config, envs: seq<RoundEnv>, from: nat, start: Start, before: seq<Round>, r: Round, goOn: bool)
    requires Follows(config, envs, from, start, before, r, goOn)
    ensures var env := EnvOf(envs, from + |before|);
      var p := Fed(start.limits, config, env, PastOf(config, envs, from, start, before));
      RoundOk(config, env, Holds(start.limits, p), p.clean, RulesOf(config, envs, from, start, before), r)
  {
    hide RoundOk, EnvOf, Fed, PastOf, RulesOf, Holds, Skipped;
  }

  lemma IsWarrantedInTurn(config: Config, env: RoundEnv, rules: Rules, before: seq<Act>, r: Round, k: nat)
    requires k < |r.acts| && r.acts[k].Executing? && r.result.Committed? && (before + r.acts)[|before| + k] == r.acts[k]
    requires WarrantedBySome(r.result.calls, env.calls, config.policy, rules, before + r.acts, |before| + k)
    ensures WarrantedInTurn(config, env, rules, before, r, k)
  {
    hide WarrantedBySome;
  }

  lemma SpokeIfActed(config: Config, env: RoundEnv, source: seq<Message>, clean: bool, rules: Rules, r: Round)
    requires RoundOk(config, env, source, clean, rules, r) && r.acts != []
    ensures r.result.Committed?
  {
    hide SendsPaired, Requests, Errors, FittedTo, RoundSpeaks, Settled, BatchAccount;
  }

  lemma FollowsGrants(config: Config, envs: seq<RoundEnv>, from: nat, start: Start, before: seq<Round>, r: Round, goOn: bool, x: Rule)
    requires Follows(config, envs, from, start, before, r, goOn)
    ensures var env, rules := EnvOf(envs, from + |before|), RulesOf(config, envs, from, start, before);
      x in Active(RulesAfterRound(config, env, rules, r)) <==> x in Active(rules) || Granted(x) in r.acts
  {
    var env, rules := EnvOf(envs, from + |before|), RulesOf(config, envs, from, start, before);
    var p := Fed(start.limits, config, env, PastOf(config, envs, from, start, before));
    assert RoundOk(config, env, Holds(start.limits, p), p.clean, rules, r);
    hide *;
    RoundGrants(config, env, Holds(start.limits, p), p.clean, rules, r, x);
  }

  lemma SkippedAddsNothing(config: Config, envs: seq<RoundEnv>, from: nat, start: Start, before: seq<Round>, r: Round, goOn: bool)
    requires Follows(config, envs, from, start, before, r, goOn)
    ensures r.fit.None? ==> RoundMessages(r) == []
  {
  }

  lemma OneMoreRound(config: Config, envs: seq<RoundEnv>, from: nat, start: Start, rounds: seq<Round>, r: Round, goOn: bool)
    requires TurnOk(config, envs, from, start, rounds, true) && Follows(config, envs, from, start, rounds, r, goOn)
    ensures TurnOk(config, envs, from, start, rounds + [r], goOn)
    ensures PastOf(config, envs, from, start, rounds + [r]) ==
      PastAfter(start.limits, config, EnvOf(envs, from + |rounds|), PastOf(config, envs, from, start, rounds), r)
    ensures RulesOf(config, envs, from, start, rounds + [r]) ==
      RulesAfterRound(config, EnvOf(envs, from + |rounds|), RulesOf(config, envs, from, start, rounds), r)
    ensures UsedOf(config, envs, from, start.used, rounds + [r]) == UsedOf(config, envs, from, start.used, rounds) +
      if config.native.Some? && !EnvOf(envs, from + |rounds|).cancelled then 1 else 0
  {
    hide Follows, PastAfter, RulesAfterRound, EnvOf;
    assert (rounds + [r])[..|rounds|] == rounds;
  }

  /** Count a round that is not cancelled, and see whether it was one too many. */
  method SpendRound(config: Config, env: RoundEnv, budget: BudgetState, i: nat, ghost used: nat) returns (over: bool)
    requires config.native.Some? ==> budget.rounds == used + i
    modifies budget
    ensures env.cancelled || over <==> Skipped(config, env, i, used)
    ensures budget.rounds == old(budget.rounds) + if config.native.Some? && !env.cancelled then 1 else 0
    ensures !env.cancelled && !over ==>
      if config.native.Some? then used + i + 1 == budget.rounds <= config.native.value.maxModelRounds else i < config.maxIterations
  {
    over := config.native.None? && i + 1 > config.maxIterations;
    if !env.cancelled && config.native.Some? {
      budget.rounds := budget.rounds + 1;
      over := budget.rounds > config.native.value.maxModelRounds || env.verdict == Terminate;
    }
  }

  /** Round `i` of a turn that began with `used` native rounds spent. */
  method NextRound(config: Config, env: RoundEnv, transcript: Transcript, store: RuleStore, budget: BudgetState, i: nat,
                   ghost used: nat)
    returns (round: Round, goOn: bool)
    requires Whole(transcript) && (config.native.Some? ==> budget.rounds == used + i)
    modifies transcript, store, budget
    ensures Whole(transcript)
    ensures var p := Fed(LimitsOf(transcript), config, env, old(transcript.PastNow()));
      RoundOk(config, env, Holds(LimitsOf(transcript), p), p.clean, old(store.rules), round)
    ensures round.fit.None? <==> Skipped(config, env, i, used)
    ensures (goOn <==> GoesOn(round)) && (!goOn ==> EndsTurn(round.out))
    ensures goOn ==> if config.native.Some? then used + i + 1 == budget.rounds <= config.native.value.maxModelRounds
      else i < config.maxIterations
    ensures transcript.PastNow() == PastAfter(LimitsOf(transcript), config, env, old(transcript.PastNow()), round)
    ensures store.rules == RulesAfterRound(config, env, old(store.rules), round)
    ensures budget.rounds == old(budget.rounds) + if config.native.Some? && !env.cancelled then 1 else 0
  {
    ghost var past, rules := transcript.PastNow(), store.rules;
    ghost var l := LimitsOf(transcript);
    hide *;
    EpochsOf(l, config, env, past);
    var over := SpendRound(config, env, budget, i, used);
    if config.native.Some? && !env.cancelled && !over && env.verdict == Checkpoint {
      WholeIsReady(transcript);
      Compact(transcript, env.atCheckpoint);
    }
    if env.cancelled || over {
      round := SkippedRound(if env.cancelled then None else Some(BudgetExhausted));
      SkippedRoundIsOk(config, env, Holds(l, Fed(l, config, env, past)), Fed(l, config, env, past).clean, rules, round);
      PastOfRound(l, config, env, past, round);
      return round, false;
    }
    round, goOn := RunRound(config, env, transcript, store);
    PastOfRound(l, config, env, past, round);
  }

  /** An epoch may open on the guards' verdict; then the first fit decides on another. */
  lemma EpochsOf(l: Limits, config: Config, env: RoundEnv, p: Past)
    ensures config.native.Some? && env.verdict == Checkpoint ==>
      Fed(l, config, env, p) == Pressed(l, config, env, Compacted(l, p, env.atCheckpoint))
    ensures config.native.None? || env.verdict != Checkpoint ==> Fed(l, config, env, p) == Pressed(l, config, env, p)
  {
    hide Pressed, Compacted;
  }

  lemma PastOfRound(l: Limits, config: Config, env: RoundEnv, p: Past, r: Round)
    ensures r.fit.None? ==> PastAfter(l, config, env, p, r) == p
    ensures r.fit.Some? ==> PastAfter(l, config, env, p, r) == Extended(Fed(l, config, env, p), RoundMessages(r))
  {
    hide Fed, RoundMessages, Extended;
  }

  lemma SkippedRoundIsOk(config: Config, env: RoundEnv, source: seq<Message>, clean: bool, rules: Rules, r: Round)
    requires r.fit.None? && r.result == Ended && r.acts == [] && r.outcomes == [] && Requests(r.out) == []
    requires Errors(r.out) == if env.cancelled then [] else [BudgetExhausted]
    ensures RoundOk(config, env, source, clean, rules, r) && !GoesOn(r) && RulesAfterRound(config, env, rules, r) == rules
  {
    hide FittedTo, RoundSpeaks, PairingComplete;
  }

  /** A turn over a whole transcript. Round `i` meets `EnvOf(envs, from + i)`. */
  method RunTurn(config: Config, transcript: Transcript, store: RuleStore, budget: BudgetState, userInput: string,
                 envs: seq<RoundEnv>, from: nat)
    returns (rounds: seq<Round>)
    requires Ready(transcript)
    modifies transcript, store, budget
    ensures Whole(transcript)
    ensures rounds != [] && var start := old(StartOf(transcript, store, budget, userInput));
      && TurnOk(config, envs, from, start, rounds, false)
      && transcript.PastNow() == PastOf(config, envs, from, start, rounds)
      && store.rules == RulesOf(config, envs, from, start, rounds)
      && budget.rounds == UsedOf(config, envs, from, start.used, rounds)
  {
    ghost var start := StartOf(transcript, store, budget, userInput);
    assert start == Start(LimitsOf(transcript), Begun(transcript, userInput), store.rules, budget.rounds);
    hide *;
    BeginTurn(transcript, userInput);
    rounds := [];
    var goOn := true;
    TurnStarts(config, transcript, store, budget, envs, from, start);
    while goOn
      invariant InTurn(config, transcript, store, budget, envs, from, start, rounds, goOn) && (goOn || rounds != [])
      decreases goOn, if config.native.Some? then config.native.value.maxModelRounds - budget.rounds else config.maxIterations - |rounds|
    {
      rounds, goOn := OneRound(config, transcript, store, budget, envs, from, rounds, start);
    }
    InTurnMeans(config, transcript, store, budget, envs, from, start, rounds);
  }

  /** What a turn starts from, its user message in unless it replays the newest entry. */
  ghost function StartOf(transcript: Transcript, store: RuleStore, budget: BudgetState, userInput: string): Start
    reads transcript, store, budget
  {
    Start(LimitsOf(transcript), Begun(transcript, userInput), store.rules, budget.rounds)
  }

  ghost function Begun(transcript: Transcript, userInput: string): Past
    reads transcript
  {
    var p := transcript.PastNow();
    if Replays(transcript.entries, transcript.nextUserMetadata, userInput) then p
    else p.(history := p.history + [User(userInput)], turn := UserEntry(userInput, transcript.nextUserMetadata).turnId)
  }

  lemma NoRounds(config: Config, envs: seq<RoundEnv>, from: nat, start: Start)
    ensures TurnOk(config, envs, from, start, [], true)
    ensures PastOf(config, envs, from, start, []) == start.past && RulesOf(config, envs, from, start, []) == start.rules
    ensures UsedOf(config, envs, from, start.used, []) == start.used
  {
  }

  /** A turn part-way through. */
  ghost predicate InTurn(config: Config, transcript: Transcript, store: RuleStore, budget: BudgetState, envs: seq<RoundEnv>,
                         from: nat, start: Start, rounds: seq<Round>, goOn: bool)
    reads transcript, store, budget
  {
    && Whole(transcript) && TurnOk(config, envs, from, start, rounds, goOn) && LimitsOf(transcript) == start.limits
    && transcript.PastNow() == PastOf(config, envs, from, start, rounds)
    && store.rules == RulesOf(config, envs, from, start, rounds)
    && budget.rounds == UsedOf(config, envs, from, start.used, rounds)
    && (goOn && config.native.Some? ==> budget.rounds == start.used + |rounds|)
  }

  lemma TurnStarts(config: Config, transcript: Transcript, store: RuleStore, budget: BudgetState, envs: seq<RoundEnv>,
                   from: nat, start: Start)
    requires Whole(transcript) && start == Start(LimitsOf(transcript), transcript.PastNow(), store.rules, budget.rounds)
    ensures InTurn(config, transcript, store, budget, envs, from, start, [], true)
  {
    NoRounds(config, envs, from, start);
    hide Whole, TurnOk, PastOf, RulesOf, UsedOf;
  }

  lemma InTurnMeans(config: Config, transcript: Transcript, store: RuleStore, budget: BudgetState, envs: seq<RoundEnv>,
                    from: nat, start: Start, rounds: seq<Round>)
    requires InTurn(config, transcript, store, budget, envs, from, start, rounds, false)
    ensures Whole(transcript) && TurnOk(config, envs, from, start, rounds, false)
    ensures transcript.PastNow() == PastOf(config, envs, from, start, rounds)
    ensures store.rules == RulesOf(config, envs, from, start, rounds)
    ensures budget.rounds == UsedOf(config, envs, from, start.used, rounds)
  {
    hide Whole, TurnOk, PastOf, RulesOf, UsedOf;
  }

  method OneRound(config: Config, transcript: Transcript, store: RuleStore, budget: BudgetState, envs: seq<RoundEnv>, from: nat,
                  rounds0: seq<Round>, ghost start: Start)
    returns (rounds: seq<Round>, goOn: bool)
    requires InTurn(config, transcript, store, budget, envs, from, start, rounds0, true)
    modifies transcript, store, budget
    ensures InTurn(config, transcript, store, budget, envs, from, start, rounds, goOn) && |rounds| == |rounds0| + 1
    ensures goOn ==> if config.native.Some? then old(budget.rounds) < budget.rounds <= config.native.value.maxModelRounds
      else |rounds0| < config.maxIterations
  {
    hide Whole, TurnOk, PastOf, RulesOf, UsedOf, RoundOk, GoesOn, EndsTurn, EnvOf, PastAfter, RulesAfterRound, Skipped, LimitsOf;
    var round;
    round, goOn := NextRound(config, EnvOf(envs, from + |rounds0|), transcript, store, budget, |rounds0|, start.used);
    assert Follows(config, envs, from, start, rounds0, round, goOn);
    OneMoreRound(config, envs, from, start, rounds0, round, goOn);
    rounds := rounds0 + [round];
  }

  method BeginTurn(transcript: Transcript, userInput: string)
    requires Ready(transcript)
    modifies transcript
    ensures Whole(transcript)
    ensures transcript.PastNow() == old(Begun(transcript, userInput))
  {
    hide *;
    ReadyMeets(transcript);
    BegunIs(transcript, userInput);
    ReaderIsGrammar(transcript.messages);
    PastIs(transcript);
    ghost var h := transcript.epoch.history;
    var status := transcript.AppendUser(userInput, None);
    PastIs(transcript);
    ReaderIsGrammar(transcript.messages);
    HasBegun(transcript, userInput, h);
  }

  lemma PastIs(transcript: Transcript)
    ensures var p := transcript.PastNow();
      && p.history == transcript.epoch.history && p.opening == transcript.epoch.opening && p.clean == transcript.epoch.clean
      && p.turn == if transcript.entries == [] then "legacy" else transcript.entries[|transcript.entries| - 1].turnId
  {
  }

  lemma BegunIs(transcript: Transcript, userInput: string)
    requires Ready(transcript)
    ensures var p, next := transcript.PastNow(), transcript.nextUserMetadata;
      && Explicit(None, next) == next
      && Begun(transcript, userInput) ==
           (if Replays(transcript.entries, next, userInput) then p
            else p.(history := p.history + [User(userInput)], turn := UserEntry(userInput, next).turnId))
      && p.history == transcript.epoch.history
    ensures transcript.messages == [] || OpensOnUser(transcript.messages)
    ensures transcript.epoch.history == [] || OpensOnUser(transcript.epoch.history)
    ensures Replays(transcript.entries, transcript.nextUserMetadata, userInput) ==>
      OpensOnUser(transcript.messages) && transcript.epoch.history != []
    ensures transcript.messages == [] ==> transcript.epoch.history == []
  {
    hide PairingComplete, Held, UserEntry;
  }

  lemma HasBegun(transcript: Transcript, userInput: string, h: seq<Message>)
    requires transcript.Valid() && OpensOnUser(transcript.messages) && (h == [] || OpensOnUser(h))
    requires (transcript.epoch.history == h && h != []) || transcript.epoch.history == h + [User(userInput)]
    requires transcript.epoch.clean ==> PairingComplete(transcript.messages)
    ensures Whole(transcript)
  {
    hide PairingComplete, Windowed, InStep;
  }
}
