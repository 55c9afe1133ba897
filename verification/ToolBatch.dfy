/** The tool calls of one round: each is judged, perhaps prompted for, perhaps run, and always answered. */
module ToolBatch {
  import opened Options
  import opened Messages
  import opened Pairing
  import opened Lineage
  import opened Transcripts
  import opened Glob
  import opened Permission

  datatype HandlerResult = Returned(ok: bool, output: string) | Threw(message: string)
  datatype Response = Once | ForSession | Forever | Reject
  datatype ShellRisk = SafeRead | Modify | Destructive

  /** What the registry, the guards, the user and the handler contribute to one call. */
  datatype CallEnv = CallEnv(cancelled: bool, tool: Option<ToolDef>, resource: string, elevated: bool, risk: ShellRisk,
                             mode: Mode, response: Response, result: HandlerResult)

  datatype Outcome = UnknownTool | DeniedByPolicy | RejectedByUser | Ran(result: HandlerResult) | Cancelled

  datatype Act =
    | Prompted(call: ToolCall, tier: Tier)
    | Answered(call: ToolCall, response: Response)
    | AutoDecided(call: ToolCall, tier: Tier, decision: Decision)
    | Granted(rule: Rule)
    | Executing(call: ToolCall, tier: Tier)
    | Reported(call: ToolCall, outcome: Outcome)

  function OutputOf(call: ToolCall, o: Outcome): string {
    match o
    case UnknownTool => "[unknown tool: " + call.name + "]"
    case DeniedByPolicy => "[denied by policy]"
    case RejectedByUser => "[rejected by user]"
    case Ran(Returned(_, output)) => output
    case Ran(Threw(message)) => message
    case Cancelled => "[cancelled]"
  }

  /** Policy tier, then what the shell command is, then whether it rewrites the agent itself. */
  function EffectiveTier(call: ToolCall, def: ToolDef, env: CallEnv, policy: Policy): Tier {
    if env.elevated then Always
    else if IsShellTool(call.name) && env.risk == Destructive then Always
    else if IsShellTool(call.name) && env.risk == SafeRead then Silent
    else ResolveTier(def, policy)
  }

  function DecisionOf(call: ToolCall, env: CallEnv, rules: Rules, policy: Policy): Decision
    requires env.tool.Some?
  {
    Decide(call.name, env.resource, EffectiveTier(call, env.tool.value, env, policy), Active(rules), rules.denies, policy, env.mode)
  }

  function OutcomeOf(call: ToolCall, env: CallEnv, rules: Rules, policy: Policy): Outcome {
    if env.tool.None? then UnknownTool
    else match DecisionOf(call, env, rules, policy)
      case Deny => DeniedByPolicy
      case Allow => Ran(env.result)
      case Ask => if env.response == Reject then RejectedByUser else Ran(env.result)
  }

  /** A remembered answer covers the whole tool, and an elevated call is never remembered. */
  function RulesAfter(call: ToolCall, env: CallEnv, rules: Rules, policy: Policy): Rules {
    if env.tool.Some? && DecisionOf(call, env, rules, policy) == Ask && !env.elevated then
      match env.response
      case ForSession => WithGrant(rules, Rule(call.name, "**"), Session)
      case Forever => WithGrant(rules, Rule(call.name, "**"), Persisted)
      case _ => rules
    else rules
  }

  /** What one call makes known, in order. */
  function ActsOf(call: ToolCall, env: CallEnv, rules: Rules, policy: Policy): seq<Act> {
    if env.tool.None? then [Reported(call, UnknownTool)]
    else
      var tier := EffectiveTier(call, env.tool.value, env, policy);
      var runs := [Executing(call, tier), Reported(call, Ran(env.result))];
      match DecisionOf(call, env, rules, policy)
      case Deny => [AutoDecided(call, tier, Deny), Reported(call, DeniedByPolicy)]
      case Allow => [AutoDecided(call, tier, Allow)] + runs
      case Ask =>
        var asked := [Prompted(call, tier), Answered(call, env.response)];
        if env.response == Reject then asked + [Reported(call, RejectedByUser)]
        else asked + (if Remembered(env) then [Granted(Rule(call.name, "**"))] else []) + runs
  }

  predicate Remembered(env: CallEnv) { (env.response == ForSession || env.response == Forever) && !env.elevated }

  predicate Floored(call: ToolCall, tier: Tier, policy: Policy) { tier == Always || call.name in policy.alwaysFloor }

  /** Every handler of a floor call starts within three acts of a prompt for that very call that was
      answered with anything but a rejection. */
  predicate FloorPrompted(acts: seq<Act>, policy: Policy) {
    forall i | 0 <= i < |acts| && acts[i].Executing? && Floored(acts[i].call, acts[i].tier, policy) ::
      PromptedBefore(acts, i)
  }

  predicate PromptedBefore(acts: seq<Act>, i: nat)
    requires i < |acts| && acts[i].Executing?
  {
    exists j :: i - 3 <= j < i - 1 && 0 <= j && acts[j] == Prompted(acts[i].call, acts[i].tier) &&
      acts[j + 1].Answered? && acts[j + 1].call == acts[i].call && acts[j + 1].response != Reject
  }

  lemma FloorPromptedAppend(a: seq<Act>, b: seq<Act>, policy: Policy)
    requires FloorPrompted(a, policy) && FloorPrompted(b, policy)
    ensures FloorPrompted(a + b, policy)
  {
    var acts := a + b;
    forall i | 0 <= i < |acts| && acts[i].Executing? && Floored(acts[i].call, acts[i].tier, policy)
      ensures PromptedBefore(acts, i)
    {
      if i < |a| {
        assert PromptedBefore(a, i);
        var j :| i - 3 <= j < i - 1 && 0 <= j && a[j] == Prompted(a[i].call, a[i].tier) &&
          a[j + 1].Answered? && a[j + 1].call == a[i].call && a[j + 1].response != Reject;
        assert acts[j] == a[j] && acts[j + 1] == a[j + 1];
      } else {
        var k := i - |a|;
        assert b[k] == acts[i] && PromptedBefore(b, k);
        var j :| k - 3 <= j < k - 1 && 0 <= j && b[j] == Prompted(b[k].call, b[k].tier) &&
          b[j + 1].Answered? && b[j + 1].call == b[k].call && b[j + 1].response != Reject;
        assert acts[j + |a|] == b[j] && acts[j + |a| + 1] == b[j + 1];
      }
    }
  }

  /** The one handler start a call's acts may have: under the effective tier, exactly when the outcome says it ran. */
  lemma ExecutingIs(call: ToolCall, env: CallEnv, rules: Rules, policy: Policy, a: Act)
    requires a.Executing?
    ensures a in ActsOf(call, env, rules, policy) <==>
      && env.tool.Some? && OutcomeOf(call, env, rules, policy).Ran?
      && a == Executing(call, EffectiveTier(call, env.tool.value, env, policy))
  {
    hide EffectiveTier, DecisionOf;
    if env.tool.Some? && DecisionOf(call, env, rules, policy) == Ask && env.response != Reject {
      var acts := ActsOf(call, env, rules, policy);
      var run := Executing(call, EffectiveTier(call, env.tool.value, env, policy));
      assert acts[|acts| - 2] == run;
    }
  }

  /** A handler starts at most once for a call. */
  lemma ExecutingOnce(call: ToolCall, env: CallEnv, rules: Rules, policy: Policy, i: nat, j: nat)
    requires i < j < |ActsOf(call, env, rules, policy)|
    ensures !(ActsOf(call, env, rules, policy)[i].Executing? && ActsOf(call, env, rules, policy)[j].Executing?)
  {
    hide EffectiveTier, DecisionOf;
  }

  /** A call's grant: of the called tool, after a prompt remembered by the user, and never of an elevated call. */
  lemma GrantIs(call: ToolCall, env: CallEnv, rules: Rules, policy: Policy, rule: Rule)
    ensures Granted(rule) in ActsOf(call, env, rules, policy) <==>
      && env.tool.Some? && DecisionOf(call, env, rules, policy) == Ask && Remembered(env) && rule == Rule(call.name, "**")
    ensures forall x :: x in Active(RulesAfter(call, env, rules, policy)) <==>
      x in Active(rules) || Granted(x) in ActsOf(call, env, rules, policy)
  {
    hide EffectiveTier, DecisionOf, Active, WithGrant;
    if env.tool.Some? && DecisionOf(call, env, rules, policy) == Ask && Remembered(env) {
      var acts := ActsOf(call, env, rules, policy);
      assert acts[2] == Granted(Rule(call.name, "**"));
      forall x ensures x in Active(RulesAfter(call, env, rules, policy)) <==> x in Active(rules) || x == Rule(call.name, "**") {
        GrantThenRevoke(rules, Rule(call.name, "**"), if env.response == ForSession then Session else Persisted, x);
      }
    }
  }

  lemma FloorCallPrompted(call: ToolCall, env: CallEnv, rules: Rules, policy: Policy)
    ensures FloorPrompted(ActsOf(call, env, rules, policy), policy)
  {
    hide EffectiveTier, SomeMatch, Active;
    var acts := ActsOf(call, env, rules, policy);
    if env.tool.Some? && DecisionOf(call, env, rules, policy) == Ask && env.response != Reject {
      assert acts[0].Prompted? && acts[0 + 1] == Answered(call, env.response);
    }
  }

  method RunCall(call: ToolCall, env: CallEnv, policy: Policy, store: RuleStore) returns (outcome: Outcome, acts: seq<Act>)
    modifies store
    ensures outcome == OutcomeOf(call, env, old(store.rules), policy)
    ensures acts == ActsOf(call, env, old(store.rules), policy)
    ensures store.rules == RulesAfter(call, env, old(store.rules), policy)
    ensures forall i | 0 <= i < |acts| && acts[i].Executing? :: Warranted(call, env, policy, old(store.rules), acts, i)
  {
    forall i | 0 <= i < |ActsOf(call, env, store.rules, policy)| && ActsOf(call, env, store.rules, policy)[i].Executing?
      ensures Warranted(call, env, policy, store.rules, ActsOf(call, env, store.rules, policy), i)
    {
      StartIsWarranted(call, env, store.rules, policy, i);
    }
    hide Warranted, Active, SomeMatch, ResolveTier, WithGrant, IsShellTool, Decide;
    if env.tool.None? { return UnknownTool, [Reported(call, UnknownTool)]; }
    var def := env.tool.value;
    var tier := ResolveTier(def, policy);
    if IsShellTool(call.name) {
      if env.risk == Destructive { tier := Always; } else if env.risk == SafeRead { tier := Silent; }
    }
    if env.elevated { tier := Always; }
    var rules := store.ActiveRules();
    var decision := Decide(call.name, env.resource, tier, rules, store.rules.denies, policy, env.mode);
    acts := if decision != Ask then [AutoDecided(call, tier, decision)] else [];
    if decision == Deny { return DeniedByPolicy, acts + [Reported(call, DeniedByPolicy)]; }
    if decision == Ask {
      acts := [Prompted(call, tier), Answered(call, env.response)];
      if env.response == Reject { return RejectedByUser, acts + [Reported(call, RejectedByUser)]; }
      if env.response != Once && !env.elevated {
        var rule := Rule(call.name, "**");
        store.Grant(rule, if env.response == ForSession then Session else Persisted);
        acts := acts + [Granted(rule)];
      }
    }
    outcome := Ran(env.result);
    acts := acts + [Executing(call, tier), Reported(call, outcome)];
  }

  /** A call the environment says nothing about is cancelled. */
  function EnvAt(envs: seq<CallEnv>, i: nat): CallEnv {
    if i < |envs| then envs[i]
    else CallEnv(true, None, "", false, Modify, Suggest, Reject, Threw(""))
  }

  function ResultsOf(calls: seq<ToolCall>, outcomes: seq<Outcome>): seq<Message>
    requires |calls| == |outcomes|
  {
    if calls == [] then []
    else
      var n := |calls| - 1;
      ResultsOf(calls[..n], outcomes[..n]) + [Tool(calls[n].id, OutputOf(calls[n], outcomes[n]))]
  }

  // ---- why a handler may start ----

  /** The tier a call is judged under: an elevated call and a destructive shell command always ask, a reading one is silent;
      else what the policy maps the tool's name to, else what it maps its category to, else the tool's own. */
  ghost predicate TierFor(call: ToolCall, def: ToolDef, env: CallEnv, policy: Policy, tier: Tier) {
    if env.elevated || (NamesShell(call.name) && env.risk == Destructive) then tier == Always
    else if NamesShell(call.name) && env.risk == SafeRead then tier == Silent
    else
      && (def.name in policy.tierMap ==> tier == policy.tierMap[def.name])
      && (def.name !in policy.tierMap && def.category in policy.tierMap ==> tier == policy.tierMap[def.category])
      && (def.name !in policy.tierMap && def.category !in policy.tierMap ==> tier == def.tier)
  }

  lemma TierIsFor(call: ToolCall, def: ToolDef, env: CallEnv, policy: Policy)
    ensures TierFor(call, def, env, policy, EffectiveTier(call, def, env, policy))
  {
    ShellNames(call.name);
    hide IsShellTool, NamesShell;
  }

  /** A rule of this very tool that denotes the resource was active, or was granted among the first `i` acts. */
  ghost predicate UnderGrant(rules: Rules, acts: seq<Act>, i: nat, tool: string, resource: string)
    requires i <= |acts|
  {
    exists r :: (r in Active(rules) || Granted(r) in acts[..i]) && r.tool == tool && Denotes(r.pattern, resource)
  }

  /** A prompt for the call and the user's own answer to it, no rejection, come right before act `i`. */
  ghost predicate PromptedFor(acts: seq<Act>, i: nat, call: ToolCall, tier: Tier, response: Response)
    requires i < |acts|
  {
    response != Reject &&
    exists j: nat :: i - 3 <= j < i - 1 && acts[j] == Prompted(call, tier) && acts[j + 1] == Answered(call, response)
  }

  /** The handler of `call` starts at act `i` for a reason: it was prompted for, or, off the floor, it is silent, its mode
      covers the tool, or a grant does; and it is not denied. */
  ghost predicate Warranted(call: ToolCall, env: CallEnv, policy: Policy, rules: Rules, acts: seq<Act>, i: nat)
    requires i < |acts| && acts[i].Executing?
  {
    var tier := acts[i].tier;
    && acts[i].call == call && env.tool.Some? && TierFor(call, env.tool.value, env, policy, tier)
    && (OneLine(env.resource) ==> !Names(rules.denies, call.name, env.resource))
    && (|| PromptedFor(acts, i, call, tier, env.response)
        || (&& tier != Always && call.name !in policy.alwaysFloor
            && (tier == Silent || ModeCovers(env.mode, call.name) || UnderGrant(rules, acts, i, call.name, env.resource))))
  }

  lemma StartIsWarranted(call: ToolCall, env: CallEnv, rules: Rules, policy: Policy, i: nat)
    requires i < |ActsOf(call, env, rules, policy)| && ActsOf(call, env, rules, policy)[i].Executing?
    ensures Warranted(call, env, policy, rules, ActsOf(call, env, rules, policy), i)
  {
    var acts, tier := ActsOf(call, env, rules, policy), EffectiveTier(call, env.tool.value, env, policy);
    var decision := DecisionOf(call, env, rules, policy);
    TierIsFor(call, env.tool.value, env, policy);
    assert decision == Decide(call.name, env.resource, tier, Active(rules), rules.denies, policy, env.mode);
    assert acts[i] == Executing(call, tier) && decision != Deny;
    assert decision == Ask ==> env.response != Reject && acts[0] == Prompted(call, tier) && acts[0 + 1] == Answered(call, env.response) && i <= 3;
    hide ActsOf, EffectiveTier, TierFor, DecisionOf;
    RulesLetIt(call.name, env.resource, tier, rules, policy, env.mode, acts, i);
    hide Decide, Names, UnderGrant, ModeCovers, OneLine, Active;
    assert decision == Ask ==> PromptedFor(acts, i, call, tier, env.response);
  }

  lemma RulesLetIt(tool: string, resource: string, tier: Tier, rules: Rules, policy: Policy, mode: Mode, acts: seq<Act>, i: nat)
    requires i <= |acts|
    requires Decide(tool, resource, tier, Active(rules), rules.denies, policy, mode) != Deny
    ensures OneLine(resource) ==> !Names(rules.denies, tool, resource)
    ensures Decide(tool, resource, tier, Active(rules), rules.denies, policy, mode) == Allow ==>
      && tier != Always && tool !in policy.alwaysFloor
      && (tier == Silent || ModeCovers(mode, tool) || UnderGrant(rules, acts, i, tool, resource))
  {
    if OneLine(resource) { DecisionExactlyWhen(tool, resource, tier, Active(rules), rules.denies, policy, mode); }
    if Decide(tool, resource, tier, Active(rules), rules.denies, policy, mode) == Allow {
      AllowedHasReason(tool, resource, tier, Active(rules), rules.denies, policy, mode);
      hide Decide, Active, ModeCovers;
      if r :| r in Active(rules) && r.tool == tool && Denotes(r.pattern, resource) {
        assert UnderGrant(rules, acts, i, tool, resource);
      }
    }
  }

  /** What becomes of a call on a one-line resource, exactly: unknown, denied, rejected, or run with its handler's own result. */
  lemma OutcomeExactlyWhen(call: ToolCall, env: CallEnv, rules: Rules, policy: Policy, tier: Tier)
    requires OneLine(env.resource) && (env.tool.Some? ==> TierFor(call, env.tool.value, env, policy, tier))
    ensures var o := OutcomeOf(call, env, rules, policy);
      var denied := Names(rules.denies, call.name, env.resource);
      var asked := tier == Always || call.name in policy.alwaysFloor
        || !(tier == Silent || ModeCovers(env.mode, call.name) || Names(Active(rules), call.name, env.resource));
      && (o == UnknownTool <==> env.tool.None?)
      && (o == DeniedByPolicy <==> env.tool.Some? && denied)
      && (o == RejectedByUser <==> env.tool.Some? && !denied && asked && env.response == Reject)
      && (o == Ran(env.result) <==> env.tool.Some? && !denied && (asked ==> env.response != Reject))
  {
    if env.tool.Some? {
      TierIsFor(call, env.tool.value, env, policy);
      OneTier(call, env.tool.value, env, policy, tier, EffectiveTier(call, env.tool.value, env, policy));
      DecisionExactlyWhen(call.name, env.resource, tier, Active(rules), rules.denies, policy, env.mode);
    }
    hide Decide, Active, Names, ModeCovers, TierFor, EffectiveTier, OneLine;
  }

  lemma OneTier(call: ToolCall, def: ToolDef, env: CallEnv, policy: Policy, a: Tier, b: Tier)
    requires TierFor(call, def, env, policy, a) && TierFor(call, def, env, policy, b)
    ensures a == b
  {
    hide NamesShell;
  }

  /** What is made known of a call: first the question or the decision taken without one, last how it ended; and nobody is
      asked twice. */
  lemma ActsTell(call: ToolCall, env: CallEnv, rules: Rules, policy: Policy)
    ensures var acts, o := ActsOf(call, env, rules, policy), OutcomeOf(call, env, rules, policy);
      && acts != [] && acts[|acts| - 1] == Reported(call, o)
      && (forall i | 0 <= i < |acts| - 1 :: !acts[i].Reported?)
      && (forall i | 0 < i < |acts| :: !acts[i].Prompted? && !acts[i].AutoDecided?)
      && (acts[0].Prompted? ==> |acts| > 1 && acts[1] == Answered(call, env.response))
      && (o == DeniedByPolicy <==> acts[0].AutoDecided? && acts[0].decision == Deny)
      && (o == UnknownTool <==> |acts| == 1)
      && (o.Ran? && !acts[0].Prompted? ==> acts[0].AutoDecided? && acts[0].decision == Allow)
      && forall tier | env.tool.Some? && TierFor(call, env.tool.value, env, policy, tier) ::
           acts[0] == Prompted(call, tier) || (acts[0].AutoDecided? && acts[0].call == call && acts[0].tier == tier)
  {
    if env.tool.Some? {
      var mine := EffectiveTier(call, env.tool.value, env, policy);
      TierIsFor(call, env.tool.value, env, policy);
      forall tier | TierFor(call, env.tool.value, env, policy, tier) ensures tier == mine {
        OneTier(call, env.tool.value, env, policy, tier, mine);
      }
    }
    hide EffectiveTier, TierFor, DecisionOf;
  }

  // ---- a batch ----

  /** The first call from `i` on at which a cancel is seen, or the end of the batch. */
  function CancelPoint(envs: seq<CallEnv>, n: nat, i: nat): (stop: nat)
    requires i <= n
    ensures i <= stop <= n
    decreases n - i
  {
    if i == n || EnvAt(envs, i).cancelled then i else CancelPoint(envs, n, i + 1)
  }

  /** The rules call `i` meets: those the calls before it left. */
  function RulesAt(calls: seq<ToolCall>, envs: seq<CallEnv>, policy: Policy, rules: Rules, i: nat): Rules
    requires i <= |calls|
  {
    if i == 0 then rules else RulesAfter(calls[i - 1], EnvAt(envs, i - 1), RulesAt(calls, envs, policy, rules, i - 1), policy)
  }

  function OutcomeAt(calls: seq<ToolCall>, envs: seq<CallEnv>, policy: Policy, rules: Rules, i: nat): Outcome
    requires i < |calls|
  {
    if i < CancelPoint(envs, |calls|, 0) then OutcomeOf(calls[i], EnvAt(envs, i), RulesAt(calls, envs, policy, rules, i), policy)
    else Cancelled
  }

  /** The acts of the first `n` calls, call by call. */
  function BatchActs(calls: seq<ToolCall>, envs: seq<CallEnv>, policy: Policy, rules: Rules, n: nat): seq<Act>
    requires n <= |calls|
  {
    if n == 0 then []
    else
      BatchActs(calls, envs, policy, rules, n - 1) +
      ActsOf(calls[n - 1], EnvAt(envs, n - 1), RulesAt(calls, envs, policy, rules, n - 1), policy)
  }

  /** The exact account of a batch that met `rules`: one outcome per call, the acts of the calls before the first
      cancel and no others, and the rules those leave. */
  ghost predicate BatchAccount(calls: seq<ToolCall>, envs: seq<CallEnv>, policy: Policy, rules: Rules,
                               outcomes: seq<Outcome>, acts: seq<Act>, after: Rules)
  {
    var stop := CancelPoint(envs, |calls|, 0);
    && |outcomes| == |calls| && (forall i | 0 <= i < |calls| :: outcomes[i] == OutcomeAt(calls, envs, policy, rules, i))
    && acts == BatchActs(calls, envs, policy, rules, stop) && after == RulesAt(calls, envs, policy, rules, stop)
  }

  /** A handler starts exactly for the calls that ran, under their effective tiers. */
  lemma {:induction false} BatchExecutes(calls: seq<ToolCall>, envs: seq<CallEnv>, policy: Policy, rules: Rules, n: nat, a: Act)
    requires n <= CancelPoint(envs, |calls|, 0) && a.Executing?
    ensures a in BatchActs(calls, envs, policy, rules, n) <==> exists i :: 0 <= i < n && ExecutedAt(calls, envs, policy, rules, i, a)
  {
    hide *;
    NoCalls(calls, envs, policy, rules);
    if n > 0 {
      CallExecutes(calls, envs, policy, rules, n - 1, a);
      OneMoreCall(calls, envs, policy, rules, n - 1);
      BatchExecutes(calls, envs, policy, rules, n - 1, a);
    }
  }

  lemma CallExecutes(calls: seq<ToolCall>, envs: seq<CallEnv>, policy: Policy, rules: Rules, i: nat, a: Act)
    requires i < CancelPoint(envs, |calls|, 0) && a.Executing?
    ensures a in ActsOf(calls[i], EnvAt(envs, i), RulesAt(calls, envs, policy, rules, i), policy) <==>
      ExecutedAt(calls, envs, policy, rules, i, a)
  {
    ExecutingIs(calls[i], EnvAt(envs, i), RulesAt(calls, envs, policy, rules, i), policy, a);
    hide ActsOf, OutcomeOf, RulesAt, EffectiveTier, EnvAt, CancelPoint;
  }

  /** Call `i` ran, and `a` is the start of its handler. */
  predicate ExecutedAt(calls: seq<ToolCall>, envs: seq<CallEnv>, policy: Policy, rules: Rules, i: nat, a: Act)
    requires i < |calls|
  {
    && OutcomeAt(calls, envs, policy, rules, i).Ran? && EnvAt(envs, i).tool.Some?
    && a == Executing(calls[i], EffectiveTier(calls[i], EnvAt(envs, i).tool.value, EnvAt(envs, i), policy))
  }

  /** No floor call of a batch runs without a prompt for that very call that was not rejected. */
  lemma {:induction false} BatchFloorPrompted(calls: seq<ToolCall>, envs: seq<CallEnv>, policy: Policy, rules: Rules, n: nat)
    requires n <= |calls|
    ensures FloorPrompted(BatchActs(calls, envs, policy, rules, n), policy)
  {
    if n > 0 {
      var rules' := RulesAt(calls, envs, policy, rules, n - 1);
      BatchFloorPrompted(calls, envs, policy, rules, n - 1);
      FloorCallPrompted(calls[n - 1], EnvAt(envs, n - 1), rules', policy);
      FloorPromptedAppend(BatchActs(calls, envs, policy, rules, n - 1), ActsOf(calls[n - 1], EnvAt(envs, n - 1), rules', policy), policy);
    }
  }

  /** The active rules after some calls are those before and what was granted in between, and every grant is of a
      called tool, after a prompt the user wanted remembered, for a call that was not elevated. */
  lemma {:induction false} BatchGrants(calls: seq<ToolCall>, envs: seq<CallEnv>, policy: Policy, rules: Rules, n: nat, x: Rule)
    requires n <= |calls|
    ensures x in Active(RulesAt(calls, envs, policy, rules, n)) <==>
      x in Active(rules) || Granted(x) in BatchActs(calls, envs, policy, rules, n)
    ensures Granted(x) in BatchActs(calls, envs, policy, rules, n) <==>
      exists i :: 0 <= i < n && GrantedAt(calls, envs, policy, rules, i, x)
  {
    hide *;
    NoCalls(calls, envs, policy, rules);
    if n > 0 {
      CallGrants(calls, envs, policy, rules, n - 1, x);
      OneMoreCall(calls, envs, policy, rules, n - 1);
      BatchGrants(calls, envs, policy, rules, n - 1, x);
    }
  }

  lemma CallGrants(calls: seq<ToolCall>, envs: seq<CallEnv>, policy: Policy, rules: Rules, i: nat, x: Rule)
    requires i < |calls|
    ensures var met := RulesAt(calls, envs, policy, rules, i); var acts := ActsOf(calls[i], EnvAt(envs, i), met, policy);
      && (Granted(x) in acts <==> GrantedAt(calls, envs, policy, rules, i, x))
      && (x in Active(RulesAfter(calls[i], EnvAt(envs, i), met, policy)) <==> x in Active(met) || Granted(x) in acts)
  {
    hide Active, ActsOf, RulesAfter, DecisionOf, EnvAt, RulesAt, Remembered;
    GrantIs(calls[i], EnvAt(envs, i), RulesAt(calls, envs, policy, rules, i), policy, x);
  }

  lemma NoCalls(calls: seq<ToolCall>, envs: seq<CallEnv>, policy: Policy, rules: Rules)
    ensures BatchActs(calls, envs, policy, rules, 0) == [] && RulesAt(calls, envs, policy, rules, 0) == rules
  {
  }

  lemma OneMoreCall(calls: seq<ToolCall>, envs: seq<CallEnv>, policy: Policy, rules: Rules, i: nat)
    requires i < |calls|
    ensures var met := RulesAt(calls, envs, policy, rules, i);
      && RulesAt(calls, envs, policy, rules, i + 1) == RulesAfter(calls[i], EnvAt(envs, i), met, policy)
      && BatchActs(calls, envs, policy, rules, i + 1) ==
           BatchActs(calls, envs, policy, rules, i) + ActsOf(calls[i], EnvAt(envs, i), met, policy)
  {
    hide RulesAfter, ActsOf, EnvAt;
  }

  /** Every handler start of a batch is warranted by one of its calls. */
  ghost predicate AllWarranted(calls: seq<ToolCall>, envs: seq<CallEnv>, policy: Policy, rules: Rules, acts: seq<Act>) {
    forall i | 0 <= i < |acts| && acts[i].Executing? :: WarrantedBySome(calls, envs, policy, rules, acts, i)
  }

  ghost predicate WarrantedBySome(calls: seq<ToolCall>, envs: seq<CallEnv>, policy: Policy, rules: Rules, acts: seq<Act>, i: nat)
    requires i < |acts| && acts[i].Executing?
  {
    exists c :: 0 <= c < |calls| && !EnvAt(envs, c).cancelled && Warranted(calls[c], EnvAt(envs, c), policy, rules, acts, i)
  }

  /** A reason stands when acts come before and after, and what was granted in between only adds to it. */
  lemma WarrantedWithin(call: ToolCall, env: CallEnv, policy: Policy, rules: Rules, met: Rules, before: seq<Act>, acts: seq<Act>,
                        after: seq<Act>, i: nat)
    requires i < |acts| && acts[i].Executing? && Warranted(call, env, policy, met, acts, i) && met.denies == rules.denies
    requires forall x :: x in Active(met) ==> x in Active(rules) || Granted(x) in before
    ensures (before + acts + after)[|before| + i] == acts[i]
    ensures Warranted(call, env, policy, rules, before + acts + after, |before| + i)
  {
    var all, tier := before + acts + after, acts[i].tier;
    hide Active, TierFor, Names, ModeCovers, OneLine, Denotes;
    if PromptedFor(acts, i, call, tier, env.response) {
      var j: nat :| i - 3 <= j < i - 1 && acts[j] == Prompted(call, tier) && acts[j + 1] == Answered(call, env.response);
      assert all[|before| + j] == acts[j] && all[(|before| + j) + 1] == acts[j + 1];
      assert PromptedFor(all, |before| + i, call, tier, env.response);
    }
    if UnderGrant(met, acts, i, call.name, env.resource) {
      var r :| (r in Active(met) || Granted(r) in acts[..i]) && r.tool == call.name && Denotes(r.pattern, env.resource);
      assert all[..|before| + i] == before + acts[..i];
      assert UnderGrant(rules, all, |before| + i, call.name, env.resource);
    }
  }

  lemma {:induction false} SameDeniesAt(calls: seq<ToolCall>, envs: seq<CallEnv>, policy: Policy, rules: Rules, n: nat)
    requires n <= |calls|
    ensures RulesAt(calls, envs, policy, rules, n).denies == rules.denies
  {
    if n > 0 {
      SameDeniesAt(calls, envs, policy, rules, n - 1);
      SameDenies(RulesAt(calls, envs, policy, rules, n - 1), Rule(calls[n - 1].name, "**"));
      hide DecisionOf, WithGrant;
    }
  }

  /** Every handler a batch starts is started for a reason: a prompt of its own, a silent tier, a mode that covers its tool,
      or a grant of that very tool, active before the batch or given in it before. */
  lemma {:induction false} BatchIsWarranted(calls: seq<ToolCall>, envs: seq<CallEnv>, policy: Policy, rules: Rules, n: nat)
    requires n <= CancelPoint(envs, |calls|, 0)
    ensures AllWarranted(calls, envs, policy, rules, BatchActs(calls, envs, policy, rules, n))
  {
    hide *;
    NoCalls(calls, envs, policy, rules);
    if n > 0 {
      var met := RulesAt(calls, envs, policy, rules, n - 1);
      var before, acts := BatchActs(calls, envs, policy, rules, n - 1), ActsOf(calls[n - 1], EnvAt(envs, n - 1), met, policy);
      BatchIsWarranted(calls, envs, policy, rules, n - 1);
      OneMoreCall(calls, envs, policy, rules, n - 1);
      SameDeniesAt(calls, envs, policy, rules, n - 1);
      BeforeCancel(envs, |calls|, 0, n - 1);
      forall x ensures x in Active(met) ==> x in Active(rules) || Granted(x) in before {
        BatchGrants(calls, envs, policy, rules, n - 1, x);
      }
      forall i | 0 <= i < |acts| && acts[i].Executing?
        ensures Warranted(calls[n - 1], EnvAt(envs, n - 1), policy, met, acts, i)
      {
        StartIsWarranted(calls[n - 1], EnvAt(envs, n - 1), met, policy, i);
      }
      OneMoreWarranted(calls, envs, policy, rules, met, before, acts, n - 1);
    } else {
      NothingToWarrant(calls, envs, policy, rules);
    }
  }

  lemma NothingToWarrant(calls: seq<ToolCall>, envs: seq<CallEnv>, policy: Policy, rules: Rules)
    ensures AllWarranted(calls, envs, policy, rules, [])
  {
  }

  lemma {:induction false} BeforeCancel(envs: seq<CallEnv>, n: nat, i: nat, c: nat)
    requires i <= n && i <= c < CancelPoint(envs, n, i)
    ensures !EnvAt(envs, c).cancelled
    decreases n - i
  {
    hide EnvAt;
    if c > i { BeforeCancel(envs, n, i + 1, c); }
  }

  lemma OneMoreWarranted(calls: seq<ToolCall>, envs: seq<CallEnv>, policy: Policy, rules: Rules, met: Rules, before: seq<Act>,
                         acts: seq<Act>, c: nat)
    requires c < |calls| && !EnvAt(envs, c).cancelled && AllWarranted(calls, envs, policy, rules, before)
    requires forall i | 0 <= i < |acts| && acts[i].Executing? :: Warranted(calls[c], EnvAt(envs, c), policy, met, acts, i)
    requires met.denies == rules.denies && forall x :: x in Active(met) ==> x in Active(rules) || Granted(x) in before
    ensures AllWarranted(calls, envs, policy, rules, before + acts)
  {
    hide Warranted, EnvAt, Active;
    forall i | 0 <= i < |before + acts| && (before + acts)[i].Executing?
      ensures WarrantedBySome(calls, envs, policy, rules, before + acts, i)
    {
      if i < |before| {
        assert WarrantedBySome(calls, envs, policy, rules, before, i);
        var d :| 0 <= d < |calls| && !EnvAt(envs, d).cancelled && Warranted(calls[d], EnvAt(envs, d), policy, rules, before, i);
        WarrantedWithin(calls[d], EnvAt(envs, d), policy, rules, rules, [], before, acts, i);
        assert [] + before + acts == before + acts;
      } else {
        WarrantedWithin(calls[c], EnvAt(envs, c), policy, rules, met, before, acts, [], i - |before|);
        assert before + acts + [] == before + acts;
      }
    }
  }

  /** The same with acts ahead of the batch. */
  lemma WarrantedLater(calls: seq<ToolCall>, envs: seq<CallEnv>, policy: Policy, rules: Rules, met: Rules, before: seq<Act>,
                       acts: seq<Act>, i: nat)
    requires i < |acts| && acts[i].Executing? && AllWarranted(calls, envs, policy, met, acts) && met.denies == rules.denies
    requires forall x :: x in Active(met) ==> x in Active(rules) || Granted(x) in before
    ensures (before + acts)[|before| + i] == acts[i] && WarrantedBySome(calls, envs, policy, rules, before + acts, |before| + i)
  {
    hide Warranted, EnvAt, Active;
    assert WarrantedBySome(calls, envs, policy, met, acts, i);
    var c :| 0 <= c < |calls| && !EnvAt(envs, c).cancelled && Warranted(calls[c], EnvAt(envs, c), policy, met, acts, i);
    WarrantedWithin(calls[c], EnvAt(envs, c), policy, rules, met, before, acts, [], i);
    assert before + acts + [] == before + acts;
  }

  predicate GrantedAt(calls: seq<ToolCall>, envs: seq<CallEnv>, policy: Policy, rules: Rules, i: nat, x: Rule)
    requires i < |calls|
  {
    && EnvAt(envs, i).tool.Some? && DecisionOf(calls[i], EnvAt(envs, i), RulesAt(calls, envs, policy, rules, i), policy) == Ask
    && Remembered(EnvAt(envs, i)) && x == Rule(calls[i].name, "**")
  }

  lemma {:induction false} IdsSlice(calls: seq<ToolCall>, i: nat)
    requires i < |calls|
    ensures Ids(calls[i..]) == [calls[i].id] + Ids(calls[i + 1..])
  {
    assert calls[i..][1..] == calls[i + 1..];
  }

  /** What the model is told of a call. */
  predicate Told(m: Message, call: ToolCall, o: Outcome) {
    match o
    case Ran(Returned(_, output)) => m == Tool(call.id, output)
    case Ran(Threw(message)) => m == Tool(call.id, message)
    case UnknownTool => m == Tool(call.id, "[unknown tool: " + call.name + "]")
    case DeniedByPolicy => m == Tool(call.id, "[denied by policy]")
    case RejectedByUser => m == Tool(call.id, "[rejected by user]")
    case Cancelled => m == Tool(call.id, "[cancelled]")
  }

  /** One message per call, in order, each telling its outcome. */
  predicate ToldInOrder(more: seq<Message>, calls: seq<ToolCall>, outcomes: seq<Outcome>) {
    |more| == |calls| == |outcomes| && forall i | 0 <= i < |calls| :: Told(more[i], calls[i], outcomes[i])
  }

  lemma {:induction false} ResultsTell(calls: seq<ToolCall>, outcomes: seq<Outcome>)
    requires |calls| == |outcomes|
    ensures ToldInOrder(ResultsOf(calls, outcomes), calls, outcomes)
  {
    if calls != [] {
      var n := |calls| - 1;
      ResultsTell(calls[..n], outcomes[..n]);
      var before := ResultsOf(calls[..n], outcomes[..n]);
      assert ResultsOf(calls, outcomes) == before + [Tool(calls[n].id, OutputOf(calls[n], outcomes[n]))];
      hide ResultsOf;
      forall i | 0 <= i < n ensures Told(before[i], calls[i], outcomes[i]) {
        assert Told(before[i], calls[..n][i], outcomes[..n][i]);
      }
    }
  }

  /** The calls before the first cancel end as their own handlers did, or were never run; the others are cancelled. */
  predicate EndAsRun(envs: seq<CallEnv>, outcomes: seq<Outcome>, stop: nat) {
    && stop <= |outcomes| && (stop < |outcomes| ==> EnvAt(envs, stop).cancelled)
    && (forall i | 0 <= i < stop ::
          !EnvAt(envs, i).cancelled && outcomes[i] != Outcome.Cancelled && (outcomes[i].Ran? ==> outcomes[i].result == EnvAt(envs, i).result))
    && forall i | stop <= i < |outcomes| :: outcomes[i] == Outcome.Cancelled
  }

  lemma AccountEnds(calls: seq<ToolCall>, envs: seq<CallEnv>, policy: Policy, rules: Rules, outcomes: seq<Outcome>, acts: seq<Act>,
                    after: Rules)
    requires BatchAccount(calls, envs, policy, rules, outcomes, acts, after)
    ensures EndAsRun(envs, outcomes, CancelPoint(envs, |calls|, 0))
    ensures AllWarranted(calls, envs, policy, rules, acts)
  {
    var stop := CancelPoint(envs, |calls|, 0);
    BatchIsWarranted(calls, envs, policy, rules, stop);
    StopsAtCancel(envs, |calls|, 0);
    assert acts == BatchActs(calls, envs, policy, rules, stop);
    assert forall i | stop <= i < |calls| :: OutcomeAt(calls, envs, policy, rules, i) == Outcome.Cancelled;
    hide BatchActs, OutcomeAt, RulesAt, CancelPoint, EnvAt, DecisionOf, AllWarranted;
    forall i | 0 <= i < stop
      ensures !EnvAt(envs, i).cancelled && outcomes[i] != Outcome.Cancelled && (outcomes[i].Ran? ==> outcomes[i].result == EnvAt(envs, i).result)
    {
      BeforeCancel(envs, |calls|, 0, i);
      assert outcomes[i] == OutcomeAt(calls, envs, policy, rules, i);
      EndsAsRun(calls, envs, policy, rules, i);
    }
  }

  lemma EndsAsRun(calls: seq<ToolCall>, envs: seq<CallEnv>, policy: Policy, rules: Rules, i: nat)
    requires i < |calls| && i < CancelPoint(envs, |calls|, 0)
    ensures var o := OutcomeAt(calls, envs, policy, rules, i);
      o != Outcome.Cancelled && (o.Ran? ==> o.result == EnvAt(envs, i).result)
  {
    hide RulesAt, CancelPoint, EnvAt, DecisionOf;
  }

  lemma {:induction false} StopsAtCancel(envs: seq<CallEnv>, n: nat, i: nat)
    requires i <= n
    ensures CancelPoint(envs, n, i) < n ==> EnvAt(envs, CancelPoint(envs, n, i)).cancelled
    decreases n - i
  {
    hide EnvAt;
    if i < n && !EnvAt(envs, i).cancelled { StopsAtCancel(envs, n, i + 1); }
  }

  /** The transcript of a live turn: if it has been paired so far, whole but for the results of `owed`. */
  ghost predicate Awaits(transcript: Transcript, owed: seq<ToolCall>, paired: bool)
    reads transcript
  {
    && transcript.Valid() && OpensOnUser(transcript.messages) && OpensOnUser(transcript.epoch.history)
    && (paired ==> Read(transcript.messages) == Owes(Ids(owed)))
  }

  /** The past with `more` appended. */
  function Extended(p: Past, more: seq<Message>): Past { p.(history := p.history + more) }

  lemma ExtendedTwice(p: Past, a: seq<Message>, b: seq<Message>)
    ensures Extended(Extended(p, a), b) == Extended(p, a + b) && Extended(p, []) == p
  {
    assert (p.history + a) + b == p.history + (a + b) && p.history + [] == p.history;
  }

  /** Append the result of call `i`, the next one owed. */
  method Answer(transcript: Transcript, calls: seq<ToolCall>, i: nat, outcome: Outcome, ghost outcomes: seq<Outcome>,
                ghost past: Past, ghost paired: bool)
    requires i < |calls| && |outcomes| == i && Awaits(transcript, calls[i..], paired)
    requires transcript.PastNow() == Extended(past, ResultsOf(calls[..i], outcomes))
    modifies transcript
    ensures Awaits(transcript, calls[i + 1..], paired)
    ensures transcript.PastNow() == Extended(past, ResultsOf(calls[..i + 1], outcomes + [outcome]))
  {
    hide Read, DistinctGroups, CallIds, Windowed, OutputOf, ResultsOf;
    IdsSlice(calls, i);
    OneMore(calls, i, outcomes, outcome, past.history);
    transcript.AppendToolResult(calls[i].id, OutputOf(calls[i], outcome));
  }

  method RunBatch(calls: seq<ToolCall>, envs: seq<CallEnv>, policy: Policy, store: RuleStore, transcript: Transcript,
                  ghost paired: bool)
    returns (outcomes: seq<Outcome>, acts: seq<Act>, stop: nat)
    requires Awaits(transcript, calls, paired)
    modifies store, transcript
    ensures Awaits(transcript, [], paired)
    ensures stop == CancelPoint(envs, |calls|, 0)
    ensures BatchAccount(calls, envs, policy, old(store.rules), outcomes, acts, store.rules)
    ensures transcript.PastNow() == Extended(old(transcript.PastNow()), ResultsOf(calls, outcomes))
    ensures EndAsRun(envs, outcomes, stop) && AllWarranted(calls, envs, policy, old(store.rules), acts)
    ensures exists more :: transcript.PastNow().history == old(transcript.PastNow()).history + more && ToldInOrder(more, calls, outcomes)
  {
    ghost var past := transcript.PastNow();
    outcomes, acts, stop := RunUntilCancelled(calls, envs, policy, store, transcript, paired);
    hide Awaits, ResultsOf, OutcomeAt, BatchActs, RulesAt, CancelPoint;
    ghost var ran := outcomes;
    outcomes := CancelRest(calls, transcript, stop, outcomes, past, paired);
    CancelledAfter(calls, envs, policy, old(store.rules), ran, outcomes);
    hide BatchAccount, ToldInOrder, EndAsRun, AllWarranted;
    AccountEnds(calls, envs, policy, old(store.rules), outcomes, acts, store.rules) by {
      IsAccount(calls, envs, policy, old(store.rules), outcomes, acts, store.rules);
    }
    ResultsTell(calls, outcomes);
  }

  lemma IsAccount(calls: seq<ToolCall>, envs: seq<CallEnv>, policy: Policy, rules: Rules, outcomes: seq<Outcome>, acts: seq<Act>,
                  after: Rules)
    requires |outcomes| == |calls| && forall i | 0 <= i < |calls| :: outcomes[i] == OutcomeAt(calls, envs, policy, rules, i)
    requires acts == BatchActs(calls, envs, policy, rules, CancelPoint(envs, |calls|, 0))
    requires after == RulesAt(calls, envs, policy, rules, CancelPoint(envs, |calls|, 0))
    ensures BatchAccount(calls, envs, policy, rules, outcomes, acts, after)
  {
    hide OutcomeAt, BatchActs, RulesAt, CancelPoint;
  }

  lemma CancelledAfter(calls: seq<ToolCall>, envs: seq<CallEnv>, policy: Policy, rules: Rules, ran: seq<Outcome>, outcomes: seq<Outcome>)
    requires |outcomes| == |calls| && |ran| == CancelPoint(envs, |calls|, 0) && ran <= outcomes
    requires forall i | 0 <= i < |ran| :: ran[i] == OutcomeAt(calls, envs, policy, rules, i)
    requires forall i | |ran| <= i < |calls| :: outcomes[i] == Cancelled
    ensures forall i | 0 <= i < |calls| :: outcomes[i] == OutcomeAt(calls, envs, policy, rules, i)
  {
    hide OutcomeOf, RulesAt;
    forall i | 0 <= i < |calls| ensures outcomes[i] == OutcomeAt(calls, envs, policy, rules, i) {
      if i < |ran| { assert outcomes[i] == ran[i]; }
    }
  }

  method RunUntilCancelled(calls: seq<ToolCall>, envs: seq<CallEnv>, policy: Policy, store: RuleStore, transcript: Transcript,
                           ghost paired: bool)
    returns (outcomes: seq<Outcome>, acts: seq<Act>, stop: nat)
    requires Awaits(transcript, calls, paired)
    modifies store, transcript
    ensures stop == |outcomes| == CancelPoint(envs, |calls|, 0) && Awaits(transcript, calls[stop..], paired)
    ensures forall i | 0 <= i < stop :: outcomes[i] == OutcomeAt(calls, envs, policy, old(store.rules), i)
    ensures acts == BatchActs(calls, envs, policy, old(store.rules), stop)
    ensures store.rules == RulesAt(calls, envs, policy, old(store.rules), stop)
    ensures transcript.PastNow() == Extended(old(transcript.PastNow()), ResultsOf(calls[..stop], outcomes))
  {
    hide *;
    ghost var past, rules := transcript.PastNow(), store.rules;
    outcomes, acts, stop := [], [], 0;
    NoCalls(calls, envs, policy, rules);
    StartBatch(calls, past);
    while stop < |calls| && !EnvAt(envs, stop).cancelled
      invariant 0 <= stop <= |calls| && stop == |outcomes|
      invariant CancelPoint(envs, |calls|, stop) == CancelPoint(envs, |calls|, 0)
      invariant Awaits(transcript, calls[stop..], paired)
      invariant forall i | 0 <= i < stop :: outcomes[i] == OutcomeAt(calls, envs, policy, rules, i)
      invariant acts == BatchActs(calls, envs, policy, rules, stop)
      invariant store.rules == RulesAt(calls, envs, policy, rules, stop)
      invariant transcript.PastNow() == Extended(past, ResultsOf(calls[..stop], outcomes))
    {
      NextCall(calls, envs, policy, rules, stop);
      OneMoreCall(calls, envs, policy, rules, stop);
      var outcome, more := RunCall(calls[stop], EnvAt(envs, stop), policy, store);
      Answer(transcript, calls, stop, outcome, outcomes, past, paired);
      outcomes, acts, stop := outcomes + [outcome], acts + more, stop + 1;
    }
    assert stop == CancelPoint(envs, |calls|, 0) by { StopHere(envs, |calls|, stop); }
  }

  lemma StopHere(envs: seq<CallEnv>, n: nat, i: nat)
    requires i <= n && (i == n || EnvAt(envs, i).cancelled)
    ensures CancelPoint(envs, n, i) == i
  {
  }

  lemma StartBatch(calls: seq<ToolCall>, past: Past)
    ensures past == Extended(past, ResultsOf(calls[..0], [])) && calls[0..] == calls
  {
    ExtendedTwice(past, [], []);
    assert ResultsOf(calls[..0], []) == [];
  }

  /** No cancel is seen at call `i`. */
  lemma NextCall(calls: seq<ToolCall>, envs: seq<CallEnv>, policy: Policy, rules: Rules, i: nat)
    requires i < |calls| && !EnvAt(envs, i).cancelled && CancelPoint(envs, |calls|, i) == CancelPoint(envs, |calls|, 0)
    ensures CancelPoint(envs, |calls|, i + 1) == CancelPoint(envs, |calls|, 0)
    ensures OutcomeAt(calls, envs, policy, rules, i) ==
      OutcomeOf(calls[i], EnvAt(envs, i), RulesAt(calls, envs, policy, rules, i), policy)
  {
    hide OutcomeOf, RulesAt, EnvAt;
  }

  /** A cancelled batch still answers every call the assistant message committed. */
  method CancelRest(calls: seq<ToolCall>, transcript: Transcript, stop: nat, before: seq<Outcome>, ghost past: Past,
                    ghost paired: bool)
    returns (outcomes: seq<Outcome>)
    requires |before| == stop <= |calls| && Awaits(transcript, calls[stop..], paired)
    requires transcript.PastNow() == Extended(past, ResultsOf(calls[..stop], before))
    modifies transcript
    ensures Awaits(transcript, [], paired)
    ensures |outcomes| == |calls| && before <= outcomes && forall i | stop <= i < |calls| :: outcomes[i] == Cancelled
    ensures transcript.PastNow() == Extended(past, ResultsOf(calls, outcomes))
  {
    hide *;
    StartBatch(calls, past);
    outcomes := before;
    var i := stop;
    while i < |calls|
      invariant stop <= i <= |calls| && i == |outcomes|
      invariant Awaits(transcript, calls[i..], paired)
      invariant outcomes[..stop] == before && forall k | stop <= k < i :: outcomes[k] == Cancelled
      invariant transcript.PastNow() == Extended(past, ResultsOf(calls[..i], outcomes))
    {
      Answer(transcript, calls, i, Cancelled, outcomes, past, paired);
      outcomes := outcomes + [Cancelled];
      i := i + 1;
    }
    assert calls[..i] == calls && calls[i..] == [];
  }

  lemma OneMore(calls: seq<ToolCall>, i: nat, outcomes: seq<Outcome>, o: Outcome, history: seq<Message>)
    requires i < |calls| && |outcomes| == i
    ensures (history + ResultsOf(calls[..i], outcomes)) + [Tool(calls[i].id, OutputOf(calls[i], o))] ==
      history + ResultsOf(calls[..i + 1], outcomes + [o])
  {
    assert calls[..i + 1][..i] == calls[..i] && (outcomes + [o])[..i] == outcomes;
  }
}
