/** The provider-neutral message sequence and its estimated cost in tokens. */
module Messages {

  /** `args` is the JSON text of the call's arguments. */
  datatype ToolCall = ToolCall(id: string, name: string, args: string)

  datatype Message =
    | User(content: string)
    | Assistant(content: string, calls: seq<ToolCall>)
    | Tool(callId: string, content: string)

  function Ids(calls: seq<ToolCall>): (ids: seq<string>)
    ensures |ids| == |calls|
    ensures forall i | 0 <= i < |calls| :: ids[i] == calls[i].id
  {
    if calls == [] then [] else [calls[0].id] + Ids(calls[1..])
  }

  function CallChars(calls: seq<ToolCall>): nat {
    if calls == [] then 0 else |calls[0].name| + |calls[0].args| + CallChars(calls[1..])
  }

  /** Four characters a token, rounded up. */
  function CharTokens(chars: nat): nat { (chars + 3) / 4 }

  function Tokens(m: Message): (t: nat)
    ensures t >= 4
  {
    CharTokens(|m.content| + if m.Assistant? then CallChars(m.calls) else 0) + 4
  }

  function Cost(ms: seq<Message>): nat {
    if ms == [] then 0 else Tokens(ms[0]) + Cost(ms[1..])
  }

  function SuffixCost(ms: seq<Message>, i: nat): nat
    requires i <= |ms|
  {
    Cost(ms[i..])
  }

  lemma {:induction false} CostAppend(a: seq<Message>, b: seq<Message>)
    ensures Cost(a + b) == Cost(a) + Cost(b)
  {
    if a == [] {
      assert a + b == b;
    } else {
      assert (a + b)[1..] == a[1..] + b;
      CostAppend(a[1..], b);
    }
  }

  /** A longer suffix costs at least as much. */
  lemma CostSuffix(ms: seq<Message>, i: nat, j: nat)
    requires i <= j <= |ms|
    ensures Cost(ms[j..]) <= Cost(ms[i..])
  {
    assert ms[i..] == ms[i..j] + ms[j..];
    CostAppend(ms[i..j], ms[j..]);
  }

  function LastUserBefore(ms: seq<Message>, n: nat): (i: nat)
    requires n <= |ms|
    ensures i <= n && (n > 0 ==> i < n)
  {
    if n == 0 then 0 else if ms[n - 1].User? then n - 1 else LastUserBefore(ms, n - 1)
  }

  /** Where the turn in flight starts: the last user message, or 0 when there is none. */
  function LastUser(ms: seq<Message>): (i: nat)
    ensures i <= |ms| && (ms != [] ==> i < |ms|)
  {
    LastUserBefore(ms, |ms|)
  }

  lemma {:induction false} LastUserBeforeIs(ms: seq<Message>, n: nat)
    requires n <= |ms|
    ensures var i := LastUserBefore(ms, n);
      && (i > 0 ==> ms[i].User?)
      && forall k | 0 <= k < n && ms[k].User? :: k <= i && ms[i].User?
  {
    if n > 0 && !ms[n - 1].User? { LastUserBeforeIs(ms, n - 1); }
  }

  lemma LastUserIs(ms: seq<Message>)
    ensures LastUser(ms) > 0 ==> ms[LastUser(ms)].User?
    ensures forall k | 0 <= k < |ms| && ms[k].User? :: k <= LastUser(ms) && ms[LastUser(ms)].User?
  {
    LastUserBeforeIs(ms, |ms|);
  }

  predicate OpensOnUser(ms: seq<Message>) { ms != [] && ms[0].User? }
}
