/** What an epoch that opens on a stray result comes to: the next request sent is incomplete, and only then. */
module StrayEpochs {
  import opened Options
  import opened Messages
  import opened Pairing
  import opened ContextBudget
  import opened Lineage
  import opened Transcripts
  import opened Permission
  import opened Generation
  import opened ToolBatch
  import opened AgentLoop
  import opened Session

  /** A lineage holds no user message. */
  lemma {:induction false} PickHasNoUser(ms: seq<Message>, limit: int, sel: seq<Message>, ids: set<string>)
    requires forall m | m in sel :: !m.User?
    ensures forall m | m in Pick(ms, limit, sel, ids) :: !m.User?
    decreases |ms|
  {
    if ms != [] && |sel| < limit {
      var front, m := ms[..|ms| - 1], ms[|ms| - 1];
      if m.Tool? && m.callId != "" {
        PickHasNoUser(front, limit, [m] + sel, ids + {m.callId});
      } else if m.Assistant? && WithIdIn(m.calls, ids) != [] {
        PickHasNoUser(front, limit, [Assistant(m.content, WithIdIn(m.calls, ids))] + sel, ids);
      } else {
        PickHasNoUser(front, limit, sel, ids);
      }
    }
  }

  lemma {:induction false} DropsOnly(ms: seq<Message>, paired: set<string>)
    ensures forall m | m in DropUnpaired(ms, paired) :: m in ms
  {
    if ms != [] { DropsOnly(ms[1..], paired); }
  }

  lemma LineageHasNoUser(ms: seq<Message>, limit: int)
    ensures forall m | m in PairingSafeLineage(ms, limit) :: !m.User?
  {
    if limit > 0 {
      PickHasNoUser(ms, limit, [], {});
      var sel := Pick(ms, limit, [], {});
      DropsOnly(sel, AllIds(sel));
      hide Pick, DropUnpaired, AllIds;
    }
  }

  /** One user message more, or none. */
  predicate AtMostAUser(tail: seq<Message>) { tail == [] || (|tail| == 1 && tail[0].User?) }

  lemma UserAtTheEnd(lineage: seq<Message>, tail: seq<Message>)
    requires AtMostAUser(tail)
    ensures PairingComplete(lineage + tail) <==> PairingComplete(lineage)
  {
    ReaderIsGrammar(lineage);
    ReaderIsGrammar(lineage + tail);
    hide PairingComplete, Read;
    if tail == [] {
      assert lineage + tail == lineage;
    } else {
      assert lineage + tail == lineage + [tail[0]];
      ReadSnoc(lineage, tail[0]);
    }
  }

  /** A suffix of a fresh epoch, and of the user message after it, that opens on a user message is as complete as the
      lineage, or that user message alone. */
  lemma SuffixOfEpoch(objective: string, checkpoint: string, lineage: seq<Message>, tail: seq<Message>, s: nat)
    requires (forall m | m in lineage :: !m.User?) && AtMostAUser(tail)
    requires var ms := [User(objective), User(checkpoint)] + lineage + tail; s < |ms| && ms[s].User?
    ensures var ms := [User(objective), User(checkpoint)] + lineage + tail;
      PairingComplete(ms[s..]) <==> PairingComplete(lineage) || ms[s..] == tail
  {
    var body := lineage + tail;
    var ms := [User(objective), User(checkpoint)] + lineage + tail;
    assert ms == [User(objective), User(checkpoint)] + body;
    if s < 2 {
      assert ms[0..] == ms && ms[1..][1..] == body && ms[s..] != tail by { assert |ms[s..]| > |tail|; }
      hide *;
      PeelUser(ms);
      PeelUser(ms[1..]);
      UserAtTheEnd(lineage, tail);
    } else {
      assert forall k | 0 <= k < |lineage| :: ms[k + 2] == lineage[k] && lineage[k] in lineage;
      assert s == 2 + |lineage| && ms[s..] == tail;
      UserAtTheEnd([], tail);
      assert [] + tail == tail && PairingComplete([]);
      hide PairingComplete;
    }
  }

  lemma PeelUser(ms: seq<Message>)
    requires ms != [] && ms[0].User?
    ensures PairingComplete(ms) <==> PairingComplete(ms[1..])
  {
    PeelTurn(ms, 0);
  }

  // ---- the request after an epoch ----

  /** What an epoch makes of a past, with at most a user message after it. */
  ghost predicate FreshEpoch(l: Limits, before: Past, c: Compaction, tail: seq<Message>, p: Past) {
    AtMostAUser(tail) &&
    p.history == [User(c.objective), User(c.checkpoint)] + PairingSafeLineage(Holds(l, before), EPOCH_LIMIT) + tail
  }

  /** The first request of a round that meets a fresh epoch is complete exactly when the epoch led nowhere, or nothing
      of it but the user's own message is left in the request; whatever the window and the limits are. */
  lemma RequestAfterEpochExactlyWhen(l: Limits, config: Config, env: RoundEnv, before: Past, c: Compaction, tail: seq<Message>,
                                     p: Past, clean: bool, rules: Rules, r: Round)
    requires PairingComplete(Holds(l, before)) && FreshEpoch(l, before, c, tail, p)
    requires RoundOk(config, env, Holds(l, p), clean, rules, r) && Requests(r.out) != []
    ensures PairingComplete(Requests(r.out)[0]) <==> LeadsNowhere(Holds(l, before), EPOCH_LIMIT) || Requests(r.out)[0] == tail
    ensures Requests(r.out)[0] != []
  {
    hide *;
    FirstOfRound(config, env, Holds(l, p), clean, rules, r);
    EpochOpensOnUser(l, before, c, tail, p);
    var w := WindowCuts(l, p);
    FitCuts(r.fit.value);
    CutTwice(p.history, w, r.fit.value.start, Holds(l, p));
    SuffixOfHeld(l, before, c, tail, p, w, r.fit.value.start);
    LineageIsCompleteExactlyWhen(Holds(l, before), EPOCH_LIMIT);
  }

  lemma CutTwice(h: seq<Message>, w: nat, s: nat, ms: seq<Message>)
    requires w < |h| && h[w].User? && ms == h[w..] && s <= |ms| && (s > 0 ==> s < |ms| && ms[s].User?)
    ensures w + s < |h| && h[w + s].User? && ms[s..] == h[w..][s..] && ms[s..] != []
  {
  }

  lemma EpochOpensOnUser(l: Limits, before: Past, c: Compaction, tail: seq<Message>, p: Past)
    requires FreshEpoch(l, before, c, tail, p)
    ensures OpensOnUser(p.history)
  {
    hide PairingSafeLineage, Holds;
    assert p.history[0] == User(c.objective);
  }

  lemma SuffixOfHeld(l: Limits, before: Past, c: Compaction, tail: seq<Message>, p: Past, w: nat, s: nat)
    requires FreshEpoch(l, before, c, tail, p) && w + s < |p.history| && p.history[w + s].User?
    ensures PairingComplete(p.history[w..][s..]) <==>
      PairingComplete(PairingSafeLineage(Holds(l, before), EPOCH_LIMIT)) || p.history[w..][s..] == tail
  {
    hide PairingSafeLineage, Holds, PairingComplete;
    assert p.history[w..][s..] == p.history[w + s..];
    LineageHasNoUser(Holds(l, before), EPOCH_LIMIT);
    SuffixOfEpoch(c.objective, c.checkpoint, PairingSafeLineage(Holds(l, before), EPOCH_LIMIT), tail, w + s);
  }

  // ---- in a session ----

  lemma IsFreshEpoch(l: Limits, before: Past, c: Compaction, tail: seq<Message>, p: Past)
    requires p.history == Compacted(l, before, Some(c)).history + tail && AtMostAUser(tail)
    ensures FreshEpoch(l, before, c, tail, p)
  {
    EpochIs(l, before, Some(c));
    hide Compacted, Holds, PairingSafeLineage;
  }

  /** What an attempt begins with after an epoch. */
  lemma StartAfterEpoch(l: Limits, before: Point, c: Compaction, turnId: string, input: string) returns (tail: seq<Message>)
    ensures var p := TurnStart(l, before.(past := Compacted(l, before.past, Some(c))), turnId, input).past;
      FreshEpoch(l, before.past, c, tail, p)
    ensures tail == [] || tail == [User(input)]
  {
    hide Repeats, Holds, PairingSafeLineage, LeadsNowhere;
    var epoch := Compacted(l, before.past, Some(c));
    tail := if Repeats(l, epoch, turnId, input) then [] else [User(input)];
    IsFreshEpoch(l, before.past, c, tail, TurnStart(l, before.(past := epoch), turnId, input).past);
  }

  lemma OneUser(input: string)
    ensures PairingComplete([User(input)])
  {
  }

  /** The first request of an attempt from a fresh epoch. */
  lemma AttemptAfterEpoch(config: Config, l: Limits, envs: seq<RoundEnv>, from: nat, before: Point, c: Compaction, turnId: string,
                          input: string, rounds: seq<Round>, after: Point)
    requires Attempted(config, l, envs, from, before.(past := Compacted(l, before.past, Some(c))), turnId, input, rounds, after)
    requires PairingComplete(Holds(l, before.past)) && NoEpoch(EnvOf(envs, from))
    ensures rounds != [] && var requests := Requests(rounds[0].out);
      requests != [] ==> (PairingComplete(requests[0]) <==>
        LeadsNowhere(Holds(l, before.past), EPOCH_LIMIT) || requests[0] == [User(input)])
  {
    var at := before.(past := Compacted(l, before.past, Some(c)));
    var start := TurnStart(l, at, turnId, input);
    assert start.limits == l;
    hide *;
    Session.Rounds(config, l, envs, from, at, turnId, input, rounds, after);
    FirstRound(config, envs, from, start, rounds);
    var tail := StartAfterEpoch(l, before, c, turnId, input);
    OneUser(input);
    if Requests(rounds[0].out) != [] {
      RequestAfterEpochExactlyWhen(l, config, EnvOf(envs, from), before.past, c, tail, start.past, start.past.clean, start.rules, rounds[0]);
    }
  }

  /** In any run: the first request of a turn that an epoch precedes is complete exactly when that epoch led nowhere, or the
      request is the user's message alone. */
  lemma RefreshedTurnExactlyWhen(config: Config, l: Limits, envs: seq<RoundEnv>, ops: seq<Op>, rounds: seq<Round>, marks: seq<Mark>,
                                 k: nat)
    requires Performed(config, l, envs, ops, rounds, marks) && k < |ops| && ops[k].Send? && ops[k].refresh.Some?
    requires !marks[k].exhausted && PairingComplete(Holds(l, marks[k].at.past)) && NoEpoch(EnvOf(envs, marks[k].rounds))
    ensures marks[k].rounds < |rounds| && var requests := Requests(rounds[marks[k].rounds].out);
      requests != [] ==> (PairingComplete(requests[0]) <==>
        LeadsNowhere(Holds(l, marks[k].at.past), EPOCH_LIMIT) || requests[0] == [User(ops[k].payload)])
  {
    var m, m', op := marks[k], marks[k + 1], ops[k];
    assert Did(config, l, envs, op, rounds, m, m');
    var course := CourseOf(config, l, envs, op, rounds, m, m');
    var at := m.at.(past := Compacted(l, m.at.past, op.refresh));
    assert Attempted(config, l, envs, m.rounds, at, op.turnId, op.payload, course.first, course.between);
    assert rounds[m.rounds..m'.rounds] == course.first + course.second;
    hide *;
    AttemptAfterEpoch(config, l, envs, m.rounds, m.at, op.refresh.value, op.turnId, op.payload, course.first, course.between);
    assert course.first[0] == (course.first + course.second)[0] == rounds[m.rounds];
  }

  lemma CourseOf(config: Config, l: Limits, envs: seq<RoundEnv>, op: Op, rounds: seq<Round>, m: Mark, m': Mark) returns (c: Course)
    requires Did(config, l, envs, op, rounds, m, m') && op.Send? && !m.exhausted
    ensures m.rounds <= m'.rounds <= |rounds| && c.first + c.second == rounds[m.rounds..m'.rounds]
    ensures Took(config, l, envs, op, m.rounds, m.at, m'.at, c)
  {
    hide Took, Exhausts;
    c :| c.first + c.second == rounds[m.rounds..m'.rounds] && Took(config, l, envs, op, m.rounds, m.at, m'.at, c);
  }

  // ---- a session that sends an incomplete request ----

  /** With both limits off everything is held. */
  lemma AllHeld(p: Past)
    requires OpensOnUser(p.history)
    ensures Holds(Limits(0, 0), p) == p.history
  {
    WindowStartIsTheWindow(p.history, 0, 0, 0);
    hide WindowStart;
    assert p.history[0..] == p.history;
  }

  /** With no window known, a round that is not skipped sends all it meets. */
  lemma AllSent(config: Config, env: RoundEnv, source: seq<Message>, clean: bool, rules: Rules, r: Round)
    requires RoundOk(config, env, source, clean, rules, r) && r.fit.Some? && env.window.None?
    ensures Requests(r.out) != [] && Requests(r.out)[0] == source
  {
    var fit := r.fit.value;
    assert FittedTo(config, env, source, fit) && fit.start == 0 && Admits(config, fit);
    hide SendsPaired, Settled, BatchAccount, Requests, RoundSpeaks, Errors, Complaint, Emptiness, SegmentAt, RulesAfterRound, Fitted, Overhead, FittedTo;
    FirstRequestIs(source[0..], env.segments, r.last, r.result, r.out);
    assert source[0..] == source;
  }

  lemma AttemptSendsAll(config: Config, envs: seq<RoundEnv>, from: nat, before: Point, turnId: string, input: string,
                        rounds: seq<Round>, after: Point)
    requires Attempted(config, Limits(0, 0), envs, from, before, turnId, input, rounds, after) && OpensOnUser(before.past.history)
    requires NoEpoch(EnvOf(envs, from)) && EnvOf(envs, from).window.None?
    ensures rounds != [] && (rounds[0].fit.Some? ==>
      Requests(rounds[0].out) != [] && |Requests(rounds[0].out)[0]| >= |before.past.history|)
  {
    var start := TurnStart(Limits(0, 0), before, turnId, input);
    assert start.limits == Limits(0, 0) && |start.past.history| >= |before.past.history|;
    assert start.past.history[0] == before.past.history[0] && OpensOnUser(start.past.history);
    hide *;
    Session.Rounds(config, Limits(0, 0), envs, from, before, turnId, input, rounds, after);
    FirstRound(config, envs, from, start, rounds);
    AllHeld(start.past);
    if rounds[0].fit.Some? {
      AllSent(config, EnvOf(envs, from), Holds(start.limits, start.past), start.past.clean, start.rules, rounds[0]);
    }
  }

  lemma EpochHasTwo(l: Limits, p: Past, c: Compaction)
    ensures |Compacted(l, p, Some(c)).history| >= 2 && OpensOnUser(Compacted(l, p, Some(c)).history)
  {
    hide Holds, PairingSafeLineage, LeadsNowhere;
  }

  /** A session that has answered four calls and then three of the same ids, with no window and no limits: if an epoch
      precedes its next turn, that turn's first request is incomplete, whatever else happens. */
  lemma SharedIdsAreSent(config: Config, envs: seq<RoundEnv>, op: Op, rounds: seq<Round>, marks: seq<Mark>, request: string,
                         a: ToolCall, b: ToolCall, d: ToolCall, e: ToolCall, before: Point)
    requires a.id != "" && b.id != "" && d.id != "" && e.id != "" && op.Send? && op.refresh.Some?
    requires before.past.history == Repeating(request, a, b, d, e)
    requires Performed(config, Limits(0, 0), envs, [op], rounds, marks) && marks[0] == Mark(before, false, 0)
    requires NoEpoch(EnvOf(envs, 0)) && EnvOf(envs, 0).window.None?
    ensures rounds != []
    ensures rounds[0].fit.Some? ==> Requests(rounds[0].out) != [] && !PairingComplete(Requests(rounds[0].out)[0])
  {
    var l, m, m' := Limits(0, 0), marks[0], marks[1];
    var at := before.(past := Compacted(l, before.past, op.refresh));
    assert Did(config, l, envs, [op][0], rounds, m, m') && before.past.history[0] == User(request);
    assert OpensOnUser(before.past.history);
    var course := CourseOf(config, l, envs, op, rounds, m, m');
    assert Attempted(config, l, envs, 0, at, op.turnId, op.payload, course.first, course.between);
    hide *;
    AllHeld(before.past);
    EpochOpensOnAStray(request, a, b, d, e);
    EpochHasTwo(l, before.past, op.refresh.value);
    AttemptAfterEpoch(config, l, envs, 0, before, op.refresh.value, op.turnId, op.payload, course.first, course.between);
    AttemptSendsAll(config, envs, 0, at, op.turnId, op.payload, course.first, course.between);
    assert course.first[0] == (course.first + course.second)[0] == rounds[0];
  }
}
