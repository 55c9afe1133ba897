/** What a provider accepts: every assistant call is followed by exactly its own results, in order,
    and no result stands alone. */
module Pairing {
  import opened Messages

  /** `ms[i]` is an assistant message followed at once by one result per call, in call order. */
  ghost predicate Answered(ms: seq<Message>, i: nat)
    requires i < |ms| && ms[i].Assistant?
  {
    && i + |ms[i].calls| < |ms|
    && forall k | i < k <= i + |ms[i].calls| :: ms[k].Tool? && ms[k].callId == ms[i].calls[k - i - 1].id
  }

  /** The result at `k` belongs to the assistant message at `i`. */
  ghost predicate Owns(ms: seq<Message>, i: nat, k: nat) {
    i < k < |ms| && ms[i].Assistant? && k <= i + |ms[i].calls|
  }

  ghost predicate PairingComplete(ms: seq<Message>) {
    && (forall i | 0 <= i < |ms| && ms[i].Assistant? :: Answered(ms, i))
    && (forall k | 0 <= k < |ms| && ms[k].Tool? :: exists i: nat :: Owns(ms, i, k))
  }

  /** The same language as a left-to-right reader: the ids of the results still owed. */
  datatype Owing = Broken | Owes(ids: seq<string>)

  function Step(o: Owing, m: Message): Owing {
    if o.Broken? then Broken
    else match m
      case User(_) => if o.ids == [] then o else Broken
      case Assistant(_, calls) => if o.ids == [] then Owes(Ids(calls)) else Broken
      case Tool(id, _) => if o.ids != [] && o.ids[0] == id then Owes(o.ids[1..]) else Broken
  }

  function Run(o: Owing, ms: seq<Message>): Owing
    decreases |ms|
  {
    if ms == [] then o else Run(Step(o, ms[0]), ms[1..])
  }

  function Read(ms: seq<Message>): Owing { Run(Owes([]), ms) }

  lemma {:induction false} RunAppend(o: Owing, a: seq<Message>, b: seq<Message>)
    ensures Run(o, a + b) == Run(Run(o, a), b)
    decreases |a|
  {
    if a == [] {
      assert a + b == b;
    } else {
      assert (a + b)[1..] == a[1..] + b;
      RunAppend(Step(o, a[0]), a[1..], b);
    }
  }

  lemma {:induction false} RunBroken(ms: seq<Message>)
    ensures Run(Broken, ms) == Broken
  {
    if ms != [] { RunBroken(ms[1..]); }
  }

  lemma ReadSnoc(ms: seq<Message>, m: Message)
    ensures Read(ms + [m]) == Step(Read(ms), m)
  {
    RunAppend(Owes([]), ms, [m]);
    assert Run(Read(ms), [m]) == Run(Step(Read(ms), m), []);
  }

  /** Dropping whole turns changes nothing the reader still owes. */
  lemma CutAtUser(ms: seq<Message>, s: nat)
    requires s < |ms| && ms[s].User?
    requires Read(ms).Owes?
    ensures Read(ms[s..]) == Read(ms)
  {
    assert ms == ms[..s] + ms[s..];
    RunAppend(Owes([]), ms[..s], ms[s..]);
    RunBroken(ms[s..][1..]);
  }

  lemma {:induction false} RunResults(ids: seq<string>, ms: seq<Message>)
    ensures Run(Owes(ids), ms) == Owes([]) <==>
      && |ids| <= |ms|
      && (forall j | 0 <= j < |ids| :: ms[j].Tool? && ms[j].callId == ids[j])
      && Read(ms[|ids|..]) == Owes([])
  {
    if ids == [] {
      assert ms[0..] == ms;
    } else if ms != [] {
      RunBroken(ms[1..]);
      if ms[0].Tool? && ms[0].callId == ids[0] {
        RunResults(ids[1..], ms[1..]);
        if |ids| <= |ms| {
          assert ms[1..][|ids[1..]|..] == ms[|ids|..];
          assert forall j | 1 <= j < |ids| :: ms[j] == ms[1..][j - 1] && ids[j] == ids[1..][j - 1];
          assert forall j | 0 <= j < |ids| - 1 :: ms[1..][j] == ms[j + 1] && ids[1..][j] == ids[j + 1];
        }
      }
    }
  }

  /** Nothing in a suffix looks back past its start. */
  lemma ShiftAnswered(ms: seq<Message>, d: nat, i: nat)
    requires d <= i < |ms| && ms[i].Assistant?
    ensures Answered(ms[d..], i - d) <==> Answered(ms, i)
  {
    var rest := ms[d..];
    assert forall k | d <= k < |ms| :: ms[k] == rest[k - d];
    assert forall k | 0 <= k < |rest| :: rest[k] == ms[k + d];
  }

  /** Peeling one whole turn off the front. */
  lemma PeelTurn(ms: seq<Message>, n: nat)
    requires ms != [] && !ms[0].Tool? && n < |ms|
    requires n == if ms[0].Assistant? then |ms[0].calls| else 0
    requires ms[0].Assistant? ==> Answered(ms, 0)
    ensures PairingComplete(ms) <==> PairingComplete(ms[n + 1..])
  {
    hide PairingComplete;
    if PairingComplete(ms) { PeelOff(ms, n); }
    if PairingComplete(ms[n + 1..]) { UnpeelTurn(ms, n); }
  }

  lemma PeelOff(ms: seq<Message>, n: nat)
    requires PairingComplete(ms) && ms != [] && !ms[0].Tool? && n < |ms|
    requires n == if ms[0].Assistant? then |ms[0].calls| else 0
    requires ms[0].Assistant? ==> Answered(ms, 0)
    ensures PairingComplete(ms[n + 1..])
  {
    var d, rest := n + 1, ms[n + 1..];
    FirstTurnIs(ms, n);
    hide Answered;
    forall i | 0 <= i < |rest| && rest[i].Assistant? ensures Answered(rest, i) {
      assert ms[i + d] == rest[i];
      ShiftAnswered(ms, d, i + d);
    }
    forall k | 0 <= k < |rest| && rest[k].Tool? ensures exists i: nat :: Owns(rest, i, k) {
      assert ms[k + d] == rest[k];
      var i: nat :| Owns(ms, i, k + d);
      OwnedLater(ms, n, i, k);
    }
  }

  /** A result after the first turn is not the first message's. */
  lemma OwnedLater(ms: seq<Message>, n: nat, i: nat, k: nat)
    requires n < |ms| && Owns(ms, i, n + 1 + k) && (ms[0].Assistant? ==> |ms[0].calls| == n)
    requires forall j | 0 <= j <= n && ms[j].Assistant? :: j == 0
    ensures i > n && Owns(ms[n + 1..], i - (n + 1), k)
  {
    assert ms[i].Assistant? && i > n;
    assert ms[n + 1..][i - (n + 1)] == ms[i];
  }

  lemma UnpeelTurn(ms: seq<Message>, n: nat)
    requires ms != [] && !ms[0].Tool? && n < |ms|
    requires n == if ms[0].Assistant? then |ms[0].calls| else 0
    requires ms[0].Assistant? ==> Answered(ms, 0)
    requires PairingComplete(ms[n + 1..])
    ensures PairingComplete(ms)
  {
    var d := n + 1;
    FirstTurnIs(ms, n);
    hide Answered;
    forall i | d <= i < |ms| && ms[i].Assistant? ensures Answered(ms, i) {
      assert ms[d..][i - d] == ms[i];
      ShiftAnswered(ms, d, i);
    }
    forall k | d <= k < |ms| && ms[k].Tool? ensures exists i: nat :: Owns(ms, i, k) {
      assert ms[d..][k - d] == ms[k];
      var i: nat :| Owns(ms[d..], i, k - d);
      ShiftOwns(ms, d, i, k - d);
    }
  }

  lemma FirstTurnIs(ms: seq<Message>, n: nat)
    requires ms != [] && !ms[0].Tool? && n < |ms|
    requires n == if ms[0].Assistant? then |ms[0].calls| else 0
    requires ms[0].Assistant? ==> Answered(ms, 0)
    ensures forall i | 0 <= i <= n && ms[i].Assistant? :: i == 0
    ensures forall k | 0 <= k <= n && ms[k].Tool? :: Owns(ms, 0, k)
  {
  }

  lemma ShiftOwns(ms: seq<Message>, d: nat, i: nat, k: nat)
    requires d <= |ms| && Owns(ms[d..], i, k)
    ensures Owns(ms, i + d, k + d)
  {
    assert ms[d..][i] == ms[i + d];
  }

  /** The reader accepts exactly the pairing-complete sequences. */
  lemma {:induction false} ReaderIsGrammar(ms: seq<Message>)
    ensures Read(ms) == Owes([]) <==> PairingComplete(ms)
    decreases |ms|
  {
    if ms != [] {
      var rest := ms[1..];
      match ms[0]
      case User(_) =>
        PeelTurn(ms, 0);
        ReaderIsGrammar(rest);
      case Tool(_, _) =>
        RunBroken(rest);
        assert ms[0].Tool?;
      case Assistant(_, calls) =>
        var n := |calls|;
        RunResults(Ids(calls), rest);
        AnsweredFirst(ms, calls);
        if n <= |rest| {
          assert rest[n..] == ms[n + 1..];
          ReaderIsGrammar(rest[n..]);
          if Answered(ms, 0) { PeelTurn(ms, n); }
        }
        hide Answered;
    }
  }

  lemma AnsweredFirst(ms: seq<Message>, calls: seq<ToolCall>)
    requires ms != [] && ms[0].Assistant? && ms[0].calls == calls
    ensures Answered(ms, 0) <==>
      |calls| <= |ms[1..]| && forall j | 0 <= j < |calls| :: ms[1..][j].Tool? && ms[1..][j].callId == Ids(calls)[j]
  {
    var rest := ms[1..];
    if |calls| <= |rest| {
      forall k | 0 < k <= |calls|
        ensures ms[k] == rest[k - 1] && Ids(calls)[k - 1] == calls[k - 1].id
      {
      }
      assert forall j | 0 <= j < |calls| :: rest[j] == ms[j + 1];
    }
  }
}
