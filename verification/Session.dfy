/** The session around the turns: epochs between them, one retry, and the bridge that answers prompts. */
module Session {
  import opened Options
  import opened Messages
  import opened Pairing
  import opened Lineage
  import opened Transcripts
  import opened Permission
  import opened Generation
  import opened ToolBatch
  import opened AgentLoop

  /** What a user asks of a session. `refresh` is the epoch taken before the turn, if one is due and succeeds;
      `retryFits` is the session's verdict on the fresh epoch after a refused turn. */
  datatype Op =
    | Send(refresh: Option<Compaction>, turnId: string, payload: string, retryFits: bool, retryInput: string)
    | CompactNow(epoch: Option<Compaction>)
    | RenewBudget

  /** A turn was refused admission in its last round. */
  predicate Refused(config: Config, rounds: seq<Round>) {
    rounds != [] && var fit := rounds[|rounds| - 1].fit;
      fit.Some? && fit.value.start <= |fit.value.source| && !Admits(config, fit.value)
  }

  predicate Exhausts(rounds: seq<Round>) {
    rounds != [] && Error(BudgetExhausted) in rounds[|rounds| - 1].out
  }

  // ---- what operations do, without the session ----

  /** All that later operations depend on. */
  datatype Point = Point(past: Past, rules: Rules, used: nat)

  /** What an operation finds: the point, whether the budget is exhausted, and how many rounds have been run. */
  datatype Mark = Mark(at: Point, exhausted: bool, rounds: nat)

  /** The newest held message is this very text, of this very turn. */
  ghost predicate Repeats(l: Limits, p: Past, turnId: string, input: string) {
    var ms := Holds(l, p);
    ms != [] && ms[|ms| - 1] == User(input) && p.turn == turnId
  }

  /** What an attempt at a turn starts from: its user message goes in unless it repeats the newest one. */
  ghost function TurnStart(l: Limits, at: Point, turnId: string, input: string): Start {
    Start(l, if Repeats(l, at.past, turnId, input) then at.past
             else at.past.(history := at.past.history + [User(input)], turn := turnId), at.rules, at.used)
  }

  ghost predicate Attempted(config: Config, l: Limits, envs: seq<RoundEnv>, from: nat, before: Point, turnId: string,
                            input: string, rounds: seq<Round>, after: Point) {
    var start := TurnStart(l, before, turnId, input);
    && rounds != [] && TurnOk(config, envs, from, start, rounds, false)
    && after == Point(PastOf(config, envs, from, start, rounds), RulesOf(config, envs, from, start, rounds),
                      UsedOf(config, envs, from, start.used, rounds))
  }

  /** How a turn went: its first attempt, what that left, and its second, if there is one. */
  datatype Course = Course(first: seq<Round>, between: Point, second: seq<Round>)

  /** A turn: an epoch before it if one is due, one attempt, and one more exactly after a refusal whose fresh epoch fits. */
  ghost predicate Took(config: Config, l: Limits, envs: seq<RoundEnv>, op: Op, from: nat, before: Point, after: Point, c: Course)
    requires op.Send?
  {
    && Attempted(config, l, envs, from, before.(past := Compacted(l, before.past, op.refresh)), op.turnId, op.payload, c.first, c.between)
    && if op.retryFits && Refused(config, c.first)
       then Attempted(config, l, envs, from + |c.first|, c.between, op.turnId, op.retryInput, c.second, after)
       else c.second == [] && after == c.between
  }

  /** What one operation does: a send with budget left runs its turn and is exhausted exactly when its last round says so;
      without, it does nothing; only a renewal lifts exhaustion. */
  ghost predicate Did(config: Config, l: Limits, envs: seq<RoundEnv>, op: Op, rounds: seq<Round>, m: Mark, m': Mark) {
    && m.rounds <= m'.rounds <= |rounds|
    && match op
       case Send(_, _, _, _, _) =>
         if m.exhausted then m' == m
         else
           && m'.exhausted == Exhausts(rounds[m.rounds..m'.rounds])
           && exists c: Course ::
                c.first + c.second == rounds[m.rounds..m'.rounds] && Took(config, l, envs, op, m.rounds, m.at, m'.at, c)
       case CompactNow(epoch) => m' == m.(at := m.at.(past := Compacted(l, m.at.past, epoch)))
       case RenewBudget => m' == m.(at := m.at.(used := 0), exhausted := false)
  }

  /** A whole run, operation by operation. */
  ghost predicate Performed(config: Config, l: Limits, envs: seq<RoundEnv>, ops: seq<Op>, rounds: seq<Round>, marks: seq<Mark>) {
    && |marks| == |ops| + 1 && marks[0].rounds == 0 && marks[|ops|].rounds == |rounds|
    && forall k | 0 <= k < |ops| :: Did(config, l, envs, ops[k], rounds, marks[k], marks[k + 1])
  }

  /** Every round keeps its promises, of some messages and rules. */
  ghost predicate AllOk(config: Config, envs: seq<RoundEnv>, from: nat, rounds: seq<Round>) {
    forall i | 0 <= i < |rounds| :: KeepsPromises(config, EnvOf(envs, from + i), rounds[i])
  }

  ghost predicate KeepsPromises(config: Config, env: RoundEnv, r: Round) {
    exists source, clean, rules :: RoundOk(config, env, source, clean, rules, r)
  }

  /** Every floor call a round runs is prompted for first. */
  lemma PromisesMean(config: Config, env: RoundEnv, r: Round)
    requires KeepsPromises(config, env, r)
    ensures FloorPrompted(r.acts, config.policy)
  {
    var source, clean, rules :| RoundOk(config, env, source, clean, rules, r);
    if r.result.Committed? {
      assert r.acts == BatchActs(r.result.calls, env.calls, config.policy, rules, CancelPoint(env.calls, |r.result.calls|, 0));
      hide *;
      BatchFloorPrompted(r.result.calls, env.calls, config.policy, rules, CancelPoint(env.calls, |r.result.calls|, 0));
    }
  }

  // ---- the user's message ----

  /** The first request of an attempt, if no epoch opens in between, ends in the user's own message, whatever the window and
      the limits are. */
  lemma FirstRequestEndsInTheInput(config: Config, l: Limits, envs: seq<RoundEnv>, from: nat, before: Point, turnId: string,
                                   input: string, rounds: seq<Round>, after: Point)
    requires Attempted(config, l, envs, from, before, turnId, input, rounds, after) && NoEpoch(EnvOf(envs, from))
    requires before.past.history == [] || OpensOnUser(before.past.history)
    ensures rounds != []
    ensures Requests(rounds[0].out) != [] ==>
      var request := Requests(rounds[0].out)[0]; request != [] && request[|request| - 1] == User(input)
  {
    hide *;
    var start := TurnStart(l, before, turnId, input);
    StartEndsInTheInput(l, before, turnId, input);
    Rounds(config, l, envs, from, before, turnId, input, rounds, after);
    FirstEndsIn(config, envs, from, start, rounds, User(input));
  }

  lemma FirstEndsIn(config: Config, envs: seq<RoundEnv>, from: nat, start: Start, rounds: seq<Round>, m: Message)
    requires TurnOk(config, envs, from, start, rounds, false) && rounds != [] && NoEpoch(EnvOf(envs, from))
    requires var ms := Holds(start.limits, start.past); ms != [] && ms[|ms| - 1] == m
    ensures Requests(rounds[0].out) != [] ==>
      var request := Requests(rounds[0].out)[0]; request != [] && request[|request| - 1] == m
  {
    hide *;
    FirstRound(config, envs, from, start, rounds);
    if Requests(rounds[0].out) != [] {
      FirstRequestEndsAsMet(config, EnvOf(envs, from), Holds(start.limits, start.past), start.past.clean, start.rules, rounds[0]);
    }
  }

  /** A round's first request ends in what ends the messages it meets. */
  lemma FirstRequestEndsAsMet(config: Config, env: RoundEnv, source: seq<Message>, clean: bool, rules: Rules, r: Round)
    requires RoundOk(config, env, source, clean, rules, r) && Requests(r.out) != [] && source != []
    ensures Requests(r.out)[0] != [] && Requests(r.out)[0][|Requests(r.out)[0]| - 1] == source[|source| - 1]
  {
    hide *;
    FirstOfRound(config, env, source, clean, rules, r);
    FitCuts(r.fit.value);
  }

  lemma StartEndsInTheInput(l: Limits, before: Point, turnId: string, input: string)
    requires before.past.history == [] || OpensOnUser(before.past.history)
    ensures TurnStart(l, before, turnId, input).limits == l
    ensures var ms := Holds(l, TurnStart(l, before, turnId, input).past); ms != [] && ms[|ms| - 1] == User(input)
  {
    var p := TurnStart(l, before, turnId, input).past;
    if !Repeats(l, before.past, turnId, input) {
      assert p.history == before.past.history + [User(input)] && p.history[0].User?;
      var w := WindowCuts(l, p);
    }
    hide Holds;
  }

  // ---- the end of the budget ----

  /** The last round of an attempt, its `k`-th, finds no budget left; `used` is what the session has spent by then. */
  predicate Spent(config: Config, env: RoundEnv, k: nat, used: nat) {
    && !env.cancelled
    && match config.native
       case None => k > config.maxIterations
       case Some(native) => used > native.maxModelRounds || env.verdict == Terminate
  }

  /** A turn that goes on has spent a native round on each of its rounds. */
  lemma {:induction false} EachRoundCounts(config: Config, envs: seq<RoundEnv>, from: nat, start: Start, rounds: seq<Round>)
    requires TurnOk(config, envs, from, start, rounds, true) && config.native.Some?
    ensures UsedOf(config, envs, from, start.used, rounds) == start.used + |rounds|
  {
    hide *;
    NoRounds(config, envs, from, start);
    if rounds != [] {
      var n := |rounds| - 1;
      var init, r := rounds[..n], rounds[n];
      assert rounds == init + [r];
      LastRound(config, envs, from, start, rounds, true);
      OneMoreRound(config, envs, from, start, init, r, true);
      EachRoundCounts(config, envs, from, start, init);
      RoundEnds(config, envs, from, start, init, r, true);
    }
  }

  /** When a round is skipped, and what it then reports. */
  lemma RoundEnds(config: Config, envs: seq<RoundEnv>, from: nat, start: Start, before: seq<Round>, r: Round, goOn: bool)
    requires Follows(config, envs, from, start, before, r, goOn)
    ensures var env := EnvOf(envs, from + |before|);
      && (goOn ==> !env.cancelled)
      && (Error(BudgetExhausted) in r.out <==> r.fit.None? && !env.cancelled)
      && (r.fit.None? && !env.cancelled <==> Spent(config, env, |before| + 1, start.used + |before| + 1))
  {
    var env := EnvOf(envs, from + |before|);
    var p := Fed(start.limits, config, env, PastOf(config, envs, from, start, before));
    var source, rules := Holds(start.limits, p), RulesOf(config, envs, from, start, before);
    assert RoundOk(config, env, source, p.clean, rules, r) && (goOn <==> GoesOn(r));
    assert r.fit.None? <==> Skipped(config, env, |before|, start.used);
    hide *;
    ReportsIn(r.out, BudgetExhausted);
    RoundReports(config, env, source, p.clean, rules, r);
    SkippedIs(config, env, |before|, start.used);
  }

  /** A round reports an exhausted budget exactly when it is skipped without a cancel; a round that goes on was not skipped. */
  lemma RoundReports(config: Config, env: RoundEnv, source: seq<Message>, clean: bool, rules: Rules, r: Round)
    requires RoundOk(config, env, source, clean, rules, r)
    ensures BudgetExhausted in Errors(r.out) <==> r.fit.None? && !env.cancelled
    ensures GoesOn(r) ==> r.fit.Some?
  {
    hide Errors, Requests, SendsPaired, RoundSpeaks, Settled, FittedTo, Admits, BatchAccount, SegmentAt, RulesAfterRound, OverCeiling, CutByLength;
  }

  lemma SkippedIs(config: Config, env: RoundEnv, i: nat, used: nat)
    ensures env.cancelled ==> Skipped(config, env, i, used)
    ensures !env.cancelled ==> (Skipped(config, env, i, used) <==> Spent(config, env, i + 1, used + i + 1))
  {
  }

  /** The rounds of an attempt. */
  lemma Rounds(config: Config, l: Limits, envs: seq<RoundEnv>, from: nat, before: Point, turnId: string,
               input: string, rounds: seq<Round>, after: Point)
    requires Attempted(config, l, envs, from, before, turnId, input, rounds, after)
    ensures rounds != [] && (Exhausts(rounds) <==> Error(BudgetExhausted) in rounds[|rounds| - 1].out)
    ensures var start := TurnStart(l, before, turnId, input);
      TurnOk(config, envs, from, start, rounds, false) && after.used == UsedOf(config, envs, from, start.used, rounds)
  {
    hide TurnStart, TurnOk, PastOf, RulesOf, UsedOf;
  }

  /** An attempt exhausts the session exactly when its last round found no budget left. */
  lemma AttemptExhaustsExactlyWhen(config: Config, l: Limits, envs: seq<RoundEnv>, from: nat, before: Point, turnId: string,
                                   input: string, rounds: seq<Round>, after: Point)
    requires Attempted(config, l, envs, from, before, turnId, input, rounds, after)
    ensures Exhausts(rounds) <==> Spent(config, EnvOf(envs, from + |rounds| - 1), |rounds|, after.used)
  {
    hide *;
    Rounds(config, l, envs, from, before, turnId, input, rounds, after);
    var n := |rounds| - 1;
    var start, init, r := TurnStart(l, before, turnId, input), rounds[..n], rounds[n];
    var env := EnvOf(envs, from + n);
    assert rounds == init + [r];
    LastRound(config, envs, from, start, rounds, false);
    OneMoreRound(config, envs, from, start, init, r, false);
    RoundEnds(config, envs, from, start, init, r, false);
    if config.native.Some? { EachRoundCounts(config, envs, from, start, init); }
    SpentIs(config, env, |rounds|, start.used + |rounds|, after.used);
  }

  lemma SpentIs(config: Config, env: RoundEnv, k: nat, used: nat, used': nat)
    requires config.native.Some? && !env.cancelled ==> used == used'
    ensures Spent(config, env, k, used) <==> Spent(config, env, k, used')
    ensures Spent(config, env, k, used) ==> !env.cancelled
  {
  }

  /** An attempt is taken for refused exactly when its last round says so. */
  lemma RefusedExactlyWhen(config: Config, l: Limits, envs: seq<RoundEnv>, from: nat, before: Point, turnId: string,
                           input: string, rounds: seq<Round>, after: Point)
    requires Attempted(config, l, envs, from, before, turnId, input, rounds, after)
    ensures rounds != [] && (Refused(config, rounds) <==> Error(AdmissionDenied) in rounds[|rounds| - 1].out)
  {
    hide *;
    Rounds(config, l, envs, from, before, turnId, input, rounds, after);
    var n, start := |rounds| - 1, TurnStart(l, before, turnId, input);
    LastRound(config, envs, from, start, rounds, false);
    var env := EnvOf(envs, from + |rounds[..n]|);
    var p := Fed(start.limits, config, env, PastOf(config, envs, from, start, rounds[..n]));
    FollowsOk(config, envs, from, start, rounds[..n], rounds[n], false);
    LastRefused(config, env, Holds(start.limits, p), p.clean, RulesOf(config, envs, from, start, rounds[..n]), rounds);
  }

  lemma LastRefused(config: Config, env: RoundEnv, source: seq<Message>, clean: bool, rules: Rules, rounds: seq<Round>)
    requires rounds != [] && RoundOk(config, env, source, clean, rules, rounds[|rounds| - 1])
    ensures Refused(config, rounds) <==> Error(AdmissionDenied) in rounds[|rounds| - 1].out
  {
    var r := rounds[|rounds| - 1];
    ReportsIn(r.out, AdmissionDenied);
    if r.fit.Some? { RefusedIs(config, env, source, clean, rules, r); }
    hide Errors, Requests, SendsPaired, RoundSpeaks, Settled, FittedTo, Admits, BatchAccount, SegmentAt, RulesAfterRound, Complaint;
  }

  /** A turn exhausts the session exactly when the last round of its last attempt found no budget left. */
  lemma TurnExhaustsExactlyWhen(config: Config, l: Limits, envs: seq<RoundEnv>, op: Op, from: nat, before: Point, after: Point,
                                c: Course)
    requires op.Send? && Took(config, l, envs, op, from, before, after, c)
    ensures var rounds := c.first + c.second;
      rounds != [] && (Exhausts(rounds) <==>
        Spent(config, EnvOf(envs, from + |rounds| - 1), if c.second == [] then |c.first| else |c.second|, after.used))
  {
    hide Spent, EnvOf, TurnOk, PastOf, RulesOf, UsedOf, TurnStart, Compacted;
    var refreshed := before.(past := Compacted(l, before.past, op.refresh));
    AttemptExhaustsExactlyWhen(config, l, envs, from, refreshed, op.turnId, op.payload, c.first, c.between);
    if c.second == [] {
      assert c.first + c.second == c.first;
    } else {
      AttemptExhaustsExactlyWhen(config, l, envs, from + |c.first|, c.between, op.turnId, op.retryInput, c.second, after);
      var rounds := c.first + c.second;
      assert rounds[|rounds| - 1] == c.second[|c.second| - 1];
    }
  }

  lemma NoRoundsOk(config: Config, envs: seq<RoundEnv>, from: nat)
    ensures AllOk(config, envs, from, [])
  {
  }

  lemma TurnRoundsOk(config: Config, envs: seq<RoundEnv>, from: nat, start: Start, rounds: seq<Round>, goOn: bool)
    requires TurnOk(config, envs, from, start, rounds, goOn)
    ensures AllOk(config, envs, from, rounds)
  {
    hide RoundOk, TurnOk, EnvOf, PastOf, RulesOf, Fed, Holds, Skipped, GoesOn, EndsTurn;
    forall i | 0 <= i < |rounds| ensures KeepsPromises(config, EnvOf(envs, from + i), rounds[i]) {
      TurnRound(config, envs, from, start, rounds, goOn, i);
      assert |rounds[..i]| == i;
    }
  }

  lemma AllOkAppend(config: Config, envs: seq<RoundEnv>, from: nat, a: seq<Round>, b: seq<Round>)
    requires AllOk(config, envs, from, a) && AllOk(config, envs, from + |a|, b)
    ensures AllOk(config, envs, from, a + b)
  {
    hide KeepsPromises, EnvOf;
    forall i | 0 <= i < |a + b| ensures KeepsPromises(config, EnvOf(envs, from + i), (a + b)[i]) {
      if i >= |a| { assert KeepsPromises(config, EnvOf(envs, from + |a| + (i - |a|)), b[i - |a|]); }
    }
  }

  lemma NothingPerformed(config: Config, l: Limits, envs: seq<RoundEnv>, at: Point, exhausted: bool)
    ensures Performed(config, l, envs, [], [], [Mark(at, exhausted, 0)])
  {
  }

  /** Later rounds change nothing of what an operation did. */
  lemma DidStill(config: Config, l: Limits, envs: seq<RoundEnv>, op: Op, rounds: seq<Round>, more: seq<Round>, m: Mark, m': Mark)
    requires Did(config, l, envs, op, rounds, m, m')
    ensures Did(config, l, envs, op, rounds + more, m, m')
  {
    hide Took, Exhausts, Compacted;
    assert (rounds + more)[m.rounds..m'.rounds] == rounds[m.rounds..m'.rounds];
  }

  lemma PerformedOneMore(config: Config, l: Limits, envs: seq<RoundEnv>, ops: seq<Op>, rounds: seq<Round>, marks: seq<Mark>,
                         op: Op, more: seq<Round>, m': Mark)
    requires Performed(config, l, envs, ops, rounds, marks) && m'.rounds == |rounds + more|
    requires Did(config, l, envs, op, rounds + more, marks[|ops|], m')
    ensures Performed(config, l, envs, ops + [op], rounds + more, marks + [m'])
  {
    hide Did;
    forall k | 0 <= k < |ops| + 1 ensures Did(config, l, envs, (ops + [op])[k], rounds + more, (marks + [m'])[k], (marks + [m'])[k + 1]) {
      if k < |ops| { DidStill(config, l, envs, ops[k], rounds, more, marks[k], marks[k + 1]); }
    }
  }

  // ---- complete requests ----

  /** The first `n` rounds sent complete requests only. */
  ghost predicate Paired(rounds: seq<Round>, n: nat) { forall i | 0 <= i < n && i < |rounds| :: SendsPaired(rounds[i].out) }

  lemma AttemptIsPaired(config: Config, l: Limits, envs: seq<RoundEnv>, from: nat, before: Point, turnId: string,
                        input: string, rounds: seq<Round>, after: Point)
    requires Attempted(config, l, envs, from, before, turnId, input, rounds, after) && after.past.clean
    ensures before.past.clean && Paired(rounds, |rounds|)
  {
    var start := TurnStart(l, before, turnId, input);
    assert start.past.clean == before.past.clean;
    hide TurnOk, PastOf, RulesOf, UsedOf, TurnStart, SendsPaired;
    TurnIsPaired(config, envs, from, start, rounds, false);
  }

  lemma TurnsArePaired(config: Config, l: Limits, envs: seq<RoundEnv>, op: Op, from: nat, before: Point, after: Point, c: Course)
    requires op.Send? && Took(config, l, envs, op, from, before, after, c) && after.past.clean
    ensures before.past.clean && Paired(c.first + c.second, |c.first + c.second|)
  {
    hide Attempted, Refused, Compacted, SendsPaired;
    StaysClean(l, before.past, op.refresh);
    if c.second != [] || after != c.between {
      AttemptIsPaired(config, l, envs, from + |c.first|, c.between, op.turnId, op.retryInput, c.second, after);
    }
    AttemptIsPaired(config, l, envs, from, before.(past := Compacted(l, before.past, op.refresh)), op.turnId, op.payload, c.first, c.between);
  }

  lemma OperationIsPaired(config: Config, l: Limits, envs: seq<RoundEnv>, op: Op, rounds: seq<Round>, m: Mark, m': Mark)
    requires Did(config, l, envs, op, rounds, m, m') && m'.at.past.clean
    ensures m.at.past.clean && m.rounds <= m'.rounds <= |rounds|
    ensures Paired(rounds, m.rounds) ==> Paired(rounds, m'.rounds)
  {
    hide Took, Compacted, SendsPaired, Exhausts;
    match op
    case Send(_, _, _, _, _) =>
      if !m.exhausted {
        var c: Course :| c.first + c.second == rounds[m.rounds..m'.rounds] && Took(config, l, envs, op, m.rounds, m.at, m'.at, c);
        TurnsArePaired(config, l, envs, op, m.rounds, m.at, m'.at, c);
        assert forall i | m.rounds <= i < m'.rounds :: rounds[i] == rounds[m.rounds..m'.rounds][i - m.rounds];
      }
    case CompactNow(epoch) => StaysClean(l, m.at.past, epoch);
    case RenewBudget =>
  }

  /** As long as no epoch opened on a stray result, every request of every round so far was complete. */
  lemma {:induction false} PairedWhileClean(config: Config, l: Limits, envs: seq<RoundEnv>, ops: seq<Op>, rounds: seq<Round>,
                                            marks: seq<Mark>, k: nat)
    requires Performed(config, l, envs, ops, rounds, marks) && k <= |ops| && marks[k].at.past.clean
    ensures Paired(rounds, marks[k].rounds)
  {
    hide Did, SendsPaired;
    if k > 0 {
      OperationIsPaired(config, l, envs, ops[k - 1], rounds, marks[k - 1], marks[k]);
      PairedWhileClean(config, l, envs, ops, rounds, marks, k - 1);
    }
  }

  class AgentSession {
    const config: Config
    const transcript: Transcript
    const store: RuleStore
    var budget: BudgetState
    var exhausted: bool

    constructor (config: Config, transcript: Transcript, store: RuleStore)
      ensures this.config == config && this.transcript == transcript && this.store == store
      ensures fresh(budget) && !exhausted
    {
      this.config, this.transcript, this.store := config, transcript, store;
      budget := new BudgetState();
      exhausted := false;
    }

    ghost function PointNow(): Point
      reads this, transcript, store, budget
    {
      Point(transcript.PastNow(), store.rules, budget.rounds)
    }

    /** One attempt at a turn, its user message stamped with the turn's identity. */
    method Attempt(turnId: string, input: string, envs: seq<RoundEnv>, from: nat) returns (rounds: seq<Round>)
      requires Ready(transcript)
      modifies transcript, store, budget
      ensures Ready(transcript)
      ensures AllOk(config, envs, from, rounds) && rounds != []
      ensures Attempted(config, LimitsOf(transcript), envs, from, old(PointNow()), turnId, input, rounds, PointNow())
    {
      Stamp(turnId, input);
      ghost var start := StartOf(transcript, store, budget, input);
      hide Ready, Whole, TurnOk, PastOf, RulesOf, UsedOf, StartOf, LimitsOf, TurnStart, AllOk;
      rounds := RunTurn(config, transcript, store, budget, input, envs, from);
      TurnRoundsOk(config, envs, from, start, rounds, false);
      WholeIsReady(transcript);
    }

    /** Stamp the turn's user message. */
    method Stamp(turnId: string, input: string)
      requires Ready(transcript)
      modifies transcript
      ensures Ready(transcript) && transcript.messages == old(transcript.messages) && PointNow() == old(PointNow())
      ensures StartOf(transcript, store, budget, input) == TurnStart(LimitsOf(transcript), PointNow(), turnId, input)
    {
      ReplaysTheNewest(transcript.entries, transcript.messages, Metadata(turnId, FromUser), input);
      WholeHolds(transcript);
      assert |transcript.entries| == |transcript.messages|;
      hide Replays, Windowed, Held, PairingComplete, InStep;
      transcript.SetNextUserMetadata(Metadata(turnId, FromUser));
    }

    /** Take an epoch between turns, or not. */
    method Refresh(epoch: Option<Compaction>)
      requires Ready(transcript)
      modifies transcript
      ensures Ready(transcript)
      ensures PointNow() == old(PointNow()).(past := Compacted(LimitsOf(transcript), old(PointNow()).past, epoch))
      ensures epoch.None? ==> unchanged(transcript)
    {
      hide Ready, Compacted, LimitsOf;
      Compact(transcript, epoch);
    }

    /** A turn: an epoch before it if one is due, one attempt, and one more only after a refusal. */
    method SendTurn(op: Op, envs: seq<RoundEnv>, from: nat) returns (rounds: seq<Round>, ghost course: Course)
      requires op.Send? && Ready(transcript)
      modifies this`exhausted, transcript, store, budget
      ensures Ready(transcript)
      ensures old(exhausted) ==> unchanged(this, transcript, store, budget) && rounds == []
      ensures !old(exhausted) ==> rounds == course.first + course.second && exhausted == Exhausts(rounds)
      ensures !old(exhausted) ==> Took(config, LimitsOf(transcript), envs, op, from, old(PointNow()), PointNow(), course)
      ensures AllOk(config, envs, from, rounds)
    {
      hide Ready, Attempted, Compacted, Refused, Exhausts, LimitsOf, AllOk;
      NoRoundsOk(config, envs, from);
      course := Course([], PointNow(), []);
      if exhausted { return [], course; }
      Refresh(op.refresh);
      rounds := Attempt(op.turnId, op.payload, envs, from);
      ghost var first, between := rounds, PointNow();
      ghost var second: seq<Round> := [];
      if Refused(config, rounds) && op.retryFits {
        var more := Attempt(op.turnId, op.retryInput, envs, from + |rounds|);
        AllOkAppend(config, envs, from, rounds, more);
        rounds, second := rounds + more, more;
      }
      assert first + second == rounds;
      course := Course(first, between, second);
      SetExhausted(Exhausts(rounds));
    }

    method SetExhausted(now: bool)
      modifies this`exhausted
      ensures exhausted == now && PointNow() == old(PointNow())
    {
      exhausted := now;
    }

    /** Any run of a session: what every operation does is fixed by what it finds, round by round; every round keeps its
        promises, whatever the provider, the user, the tools and the clock did; and as long as no epoch opened on a stray
        result, every request was complete. */
    method RunSession(ops: seq<Op>, envs: seq<RoundEnv>) returns (rounds: seq<Round>, ghost marks: seq<Mark>)
      requires Ready(transcript)
      modifies this, transcript, store, budget
      ensures Ready(transcript)
      ensures AllOk(config, envs, 0, rounds)
      ensures Performed(config, LimitsOf(transcript), envs, ops, rounds, marks)
      ensures marks[0] == Mark(old(PointNow()), old(exhausted), 0)
      ensures marks[|ops|] == Mark(PointNow(), exhausted, |rounds|)
      ensures forall k | 0 <= k <= |ops| && marks[k].at.past.clean :: Paired(rounds, marks[k].rounds)
    {
      hide Ready, AllOk, Performed, Did, LimitsOf, Paired;
      rounds, marks := [], [Mark(PointNow(), exhausted, 0)];
      NoRoundsOk(config, envs, 0);
      NothingPerformed(config, LimitsOf(transcript), envs, PointNow(), exhausted);
      var k := 0;
      while k < |ops|
        invariant 0 <= k <= |ops| && Ready(transcript)
        invariant fresh(budget) || budget == old(budget)
        invariant |marks| == k + 1 && marks[0] == Mark(old(PointNow()), old(exhausted), 0)
        invariant marks[k] == Mark(PointNow(), exhausted, |rounds|)
        invariant AllOk(config, envs, 0, rounds) && Performed(config, LimitsOf(transcript), envs, ops[..k], rounds, marks)
      {
        ghost var op := ops[k];
        var more := Perform(ops[k], envs, rounds);
        ghost var m := Mark(PointNow(), exhausted, |rounds + more|);
        AllOkAppend(config, envs, 0, rounds, more);
        PerformedOneMore(config, LimitsOf(transcript), envs, ops[..k], rounds, marks, op, more, m);
        assert ops[..k + 1] == ops[..k] + [op];
        rounds, marks := rounds + more, marks + [m];
        k := k + 1;
      }
      assert ops[..k] == ops;
      forall i | 0 <= i <= |ops| && marks[i].at.past.clean ensures Paired(rounds, marks[i].rounds) {
        PairedWhileClean(config, LimitsOf(transcript), envs, ops, rounds, marks, i);
      }
    }

    method Perform(op: Op, envs: seq<RoundEnv>, rounds: seq<Round>) returns (more: seq<Round>)
      requires Ready(transcript)
      modifies this, transcript, store, budget
      ensures Ready(transcript)
      ensures fresh(budget) || budget == old(budget)
      ensures AllOk(config, envs, |rounds|, more)
      ensures Did(config, LimitsOf(transcript), envs, op, rounds + more, Mark(old(PointNow()), old(exhausted), |rounds|),
        Mark(PointNow(), exhausted, |rounds + more|))
    {
      hide Ready, AllOk, Took, Exhausts, Compacted, LimitsOf, EnvOf;
      more := [];
      NoRoundsOk(config, envs, |rounds|);
      match op {
        case Send(_, _, _, _, _) =>
          ghost var course;
          more, course := SendTurn(op, envs, |rounds|);
          assert (rounds + more)[|rounds|..|rounds + more|] == more;
        case CompactNow(epoch) => Refresh(epoch);
        case RenewBudget =>
          budget := new BudgetState();
          exhausted := false;
      }
    }
  }
}
