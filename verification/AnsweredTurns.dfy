/** A session's prompts over the bridge: what the user had said before a handler starts. */
module AnsweredTurns {
  import opened Options
  import opened Messages
  import opened Permission
  import opened ToolBatch
  import opened AgentLoop
  import opened Session
  import opened PermissionBridge

  /** The answers in `acts` are those of one turn of the bridge: answer `i` is what the request at position `at[i]` of its
      log came to, and later prompts are later requests. */
  ghost predicate AskedOf(log: seq<Event>, acts: seq<Act>, at: seq<nat>) {
    && |at| == |acts|
    && (forall i | 0 <= i < |acts| && acts[i].Answered? ::
          at[i] < |log| && log[at[i]] == Request(acts[i].call.id) && AnswerTo(log, at[i]) == Some(acts[i].response))
    && forall i, j | 0 <= i < j < |acts| && acts[i].Answered? && acts[j].Answered? :: at[i] < at[j]
  }

  lemma {:induction false} RoundsFloorPrompted(config: Config, envs: seq<RoundEnv>, from: nat, rounds: seq<Round>)
    requires AllOk(config, envs, from, rounds)
    ensures FloorPrompted(ActsIn(rounds), config.policy)
  {
    hide KeepsPromises, FloorPrompted, EnvOf;
    if rounds == [] {
      NothingPrompted(config.policy);
    } else {
      var n := |rounds| - 1;
      assert KeepsPromises(config, EnvOf(envs, from + n), rounds[n]);
      RoundsFloorPrompted(config, envs, from, rounds[..n]);
      PromisesMean(config, EnvOf(envs, from + n), rounds[n]);
      FloorPromptedAppend(ActsIn(rounds[..n]), rounds[n].acts, config.policy);
    }
  }

  lemma NothingPrompted(policy: Permission.Policy)
    ensures FloorPrompted([], policy)
  {
  }

  /** The user's response at `k` let call `i` of `acts` start: it was given for the call's id in this turn, is no rejection,
      and came ahead of the request without answering another, or after it and before the id was requested again. */
  ghost predicate LetStart(log: seq<Event>, acts: seq<Act>, at: seq<nat>, i: nat, j: nat, k: nat)
    requires AskedOf(log, acts, at) && i < |acts| && acts[i].Executing?
  {
    && i <= j + 2 && j < i && acts[j].Answered? && acts[j].call == acts[i].call && Due(log, at[j]) == Given(k)
    && k < |log| && log[k] == Event.Respond(acts[i].call.id, acts[j].response) && acts[j].response != Reject
    && Theirs(log, at[j], k)
  }

  lemma AnswerIsGiven(log: seq<Event>, p: nat) returns (k: nat)
    requires p < |log| && log[p].Request? && AnswerTo(log, p).Some? && AnswerTo(log, p) != Some(Reject)
    ensures Due(log, p) == Given(k) && k < |log| && Theirs(log, p, k)
    ensures log[k] == Respond(log[p].id, AnswerTo(log, p).value)
  {
    FateIs(log, p);
    hide Due, Taken;
    k := Due(log, p).at;
  }

  /** Whatever the provider, the tools and the user did: no handler of a floor call starts in a turn without a response the
      user gave for that very id in that very turn, other than a rejection. */
  lemma FloorStartsAreAnswered(config: Config, envs: seq<RoundEnv>, from: nat, rounds: seq<Round>, log: seq<Event>,
                               at: seq<nat>, i: nat)
    requires AllOk(config, envs, from, rounds) && AskedOf(log, ActsIn(rounds), at)
    requires i < |ActsIn(rounds)| && ActsIn(rounds)[i].Executing?
    requires Floored(ActsIn(rounds)[i].call, ActsIn(rounds)[i].tier, config.policy)
    ensures exists j: nat, k: nat :: LetStart(log, ActsIn(rounds), at, i, j, k)
  {
    hide *;
    RoundsFloorPrompted(config, envs, from, rounds);
    var j := AnsweredBefore(ActsIn(rounds), config.policy, i);
    var k := AnswerLetsStart(log, ActsIn(rounds), at, i, j);
  }

  /** The answer ahead of a floor call's start. */
  lemma AnsweredBefore(acts: seq<Act>, policy: Permission.Policy, i: nat) returns (j: nat)
    requires FloorPrompted(acts, policy) && i < |acts| && acts[i].Executing? && Floored(acts[i].call, acts[i].tier, policy)
    ensures i <= j + 2 && j < i && acts[j].Answered? && acts[j].call == acts[i].call && acts[j].response != Reject
  {
    hide Floored;
    assert PromptedBefore(acts, i);
    var p :| i - 3 <= p < i - 1 && 0 <= p && acts[p] == Prompted(acts[i].call, acts[i].tier) &&
      acts[p + 1].Answered? && acts[p + 1].call == acts[i].call && acts[p + 1].response != Reject;
    j := p + 1;
  }

  lemma AnswerLetsStart(log: seq<Event>, acts: seq<Act>, at: seq<nat>, i: nat, j: nat) returns (k: nat)
    requires AskedOf(log, acts, at) && i < |acts| && acts[i].Executing?
    requires i <= j + 2 && j < i && acts[j].Answered? && acts[j].call == acts[i].call && acts[j].response != Reject
    ensures LetStart(log, acts, at, i, j, k)
  {
    hide Due, Theirs, AnswerTo;
    k := AnswerIsGiven(log, at[j]);
  }

  /** And no response answers two prompts of the turn. */
  lemma NoResponseServesTwo(log: seq<Event>, acts: seq<Act>, at: seq<nat>, i: nat, j: nat)
    requires AskedOf(log, acts, at) && i < j < |acts| && acts[i].Answered? && acts[j].Answered? && Due(log, at[j]).Given?
    ensures Due(log, at[i]) != Due(log, at[j])
  {
    hide Due, AnswerTo;
    AnswersOnce(log, at[j], at[i]);
  }
}
