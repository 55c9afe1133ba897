/** Fitting a transcript into a token budget by dropping whole old turns. */
module ContextBudget {
  import opened Messages

  /** What fitting promises of its start index `s`: the turn in flight is never cut, and when something
      is dropped, the kept suffix opens on a user message and is the longest such suffix within the
      budget, or the turn in flight when none is. */
  ghost predicate IsFit(ms: seq<Message>, budget: int, s: nat) {
    var tail := LastUser(ms);
    && s <= tail
    && (budget <= 0 || Cost(ms) <= budget ==> s == 0)
    && (budget > 0 && Cost(ms) > budget ==>
          && (s == 0 ==> tail == 0)
          && (s > 0 ==> ms[s].User?)
          && (s < tail ==> SuffixCost(ms, s) <= budget)
          && forall u {:trigger SuffixCost(ms, u)} | 0 <= u < s && ms[u].User? :: SuffixCost(ms, u) > budget)
  }

  /** The promise leaves one start index only. */
  lemma FitIsUnique(ms: seq<Message>, budget: int, s: nat, t: nat)
    requires IsFit(ms, budget, s) && IsFit(ms, budget, t)
    ensures s == t
  {
  }

  lemma CostFrom(ms: seq<Message>, i: nat)
    requires i < |ms|
    ensures Cost(ms[i..]) == Tokens(ms[i]) + Cost(ms[i + 1..])
  {
    assert ms[i..][1..] == ms[i + 1..];
  }

  method FitMessagesToBudget(ms: seq<Message>, budget: int)
    returns (kept: seq<Message>, dropped: nat, estimated: nat)
    ensures IsFit(ms, budget, dropped)
    ensures kept == ms[dropped..] && estimated == Cost(kept)
    ensures budget > 0 ==> estimated <= budget || estimated == Cost(ms[LastUser(ms)..])
  {
    var total := Cost(ms);
    assert ms[0..] == ms;
    if budget <= 0 || total <= budget || ms == [] {
      return ms, 0, total;
    }
    var boundary := LastUser(ms);
    var start, used := WalkBack(ms, budget, boundary);
    start, used := AdvanceToUser(ms, budget, boundary, start, used);
    LastUserIs(ms);
    return ms[start..], start, used;
  }

  /** Accumulate the newest messages that fit; everything from `boundary` on is taken regardless. */
  method WalkBack(ms: seq<Message>, budget: int, boundary: nat) returns (start: nat, used: nat)
    requires boundary < |ms| && 0 < budget < Cost(ms)
    ensures start <= boundary && used == Cost(ms[start..])
    ensures start < boundary ==> used <= budget
    ensures start == 0 ==> boundary == 0
    ensures forall u {:trigger SuffixCost(ms, u)} | 0 <= u < start :: SuffixCost(ms, u) > budget
  {
    used := 0;
    start := |ms|;
    assert ms[|ms|..] == [] && ms[0..] == ms;
    while start > 0
      invariant start <= |ms|
      invariant used == Cost(ms[start..])
      invariant start < boundary ==> used <= budget
    {
      CostFrom(ms, start - 1);
      var next := Tokens(ms[start - 1]);
      if start <= boundary && used + next > budget {
        forall u | 0 <= u < start ensures SuffixCost(ms, u) > budget { CostSuffix(ms, u, start - 1); }
        return;
      }
      used := used + next;
      start := start - 1;
    }
  }

  /** Move the opening forward to a user message, never past `boundary`. */
  method AdvanceToUser(ms: seq<Message>, budget: int, boundary: nat, from: nat, cost: nat)
    returns (start: nat, used: nat)
    requires from <= boundary < |ms| && cost == Cost(ms[from..])
    requires from < boundary ==> cost <= budget
    ensures from <= start <= boundary && used == Cost(ms[start..])
    ensures start < boundary ==> used <= budget && ms[start].User?
    ensures forall u | from <= u < start :: !ms[u].User?
  {
    start, used := from, cost;
    while start < boundary && !ms[start].User?
      invariant from <= start <= boundary
      invariant used == Cost(ms[start..])
      invariant start < boundary ==> used <= budget
      invariant forall u | from <= u < start :: !ms[u].User?
    {
      CostFrom(ms, start);
      used := used - Tokens(ms[start]);
      start := start + 1;
    }
  }

  /** The prompt share of a context: what is left after the fixed parts, never below zero. */
  function PromptBudget(context: nat, overhead: nat): nat {
    if overhead <= context then context - overhead else 0
  }

  /** A quarter of the context, rounded up: the least window fitting keeps. */
  function Quarter(context: nat): nat { (context + 3) / 4 }

  function RoundBudget(context: nat, overhead: nat): nat {
    var p, q := PromptBudget(context, overhead), Quarter(context);
    if p < q then q else p
  }

  /** Admission of a round's first request, for every window, overhead and transcript: the fitted request
      is within the window exactly when the turn in flight is and, where the quarter floor has lifted the
      budget above what the overhead leaves, the suffix chosen under that floor is as well. */
  lemma AdmissionIsTailFits(ms: seq<Message>, context: nat, overhead: nat, s: nat)
    requires context > 0
    requires IsFit(ms, RoundBudget(context, overhead), s)
    ensures overhead + Quarter(context) <= context ==>
      (overhead + Cost(ms[s..]) <= context <==> overhead + Cost(ms[LastUser(ms)..]) <= context)
    ensures overhead + Cost(ms[s..]) <= context ==> overhead + Cost(ms[LastUser(ms)..]) <= context
    ensures context < overhead ==> overhead + Cost(ms[s..]) > context
  {
    CostSuffix(ms, s, LastUser(ms));
    assert ms[0..] == ms;
  }

  /** The turn in flight fits, yet the fitted request is refused. */
  ghost predicate RefusesAFittingTurn(ms: seq<Message>, context: nat, overhead: nat, s: nat) {
    && IsFit(ms, RoundBudget(context, overhead), s)
    && overhead + Cost(ms[LastUser(ms)..]) <= context < overhead + Cost(ms[s..])
  }

  /** Exactly when the floor can do that: it lifts the budget above the room the overhead leaves, that
      room holds some message, and the floor holds two. */
  lemma FloorRefusesExactlyWhen(context: nat, overhead: nat)
    requires context > 0
    ensures (exists ms, s: nat :: RefusesAFittingTurn(ms, context, overhead, s)) <==>
      overhead + 4 <= context < overhead + Quarter(context) && Quarter(context) >= 8
  {
    var q := Quarter(context);
    if overhead + 4 <= context < overhead + q && q >= 8 {
      FloorRefusesTwo(context, overhead, User(seq(4 * (q - 8), _ => 'x')));
    }
    forall ms: seq<Message>, s: nat | RefusesAFittingTurn(ms, context, overhead, s)
      ensures overhead + 4 <= context < overhead + q && q >= 8
    {
      AdmissionIsTailFits(ms, context, overhead, s);
      TwoMessages(ms, s, LastUser(ms));
    }
  }

  /** An older message that fills the floor, and a turn in flight that fits the room. */
  lemma FloorRefusesTwo(context: nat, overhead: nat, older: Message)
    requires overhead + 4 <= context < overhead + Quarter(context) && older.User? && Tokens(older) + 4 == Quarter(context)
    ensures RefusesAFittingTurn([older, User("")], context, overhead, 0)
  {
    var ms := [older, User("")];
    CostOfTwo(older, User(""));
    assert LastUser(ms) == 1;
    assert ms[0..] == ms;
    hide Tokens, Cost, LastUser;
  }

  lemma CostOfTwo(a: Message, b: Message)
    ensures Cost([a, b]) == Tokens(a) + Tokens(b) && Cost([a, b][1..]) == Tokens(b)
  {
    hide Tokens;
    assert [a, b][1..] == [b] && [b][1..] == [] && Cost([]) == 0;
    assert Cost([b]) == Tokens(b) + Cost([]);
  }

  lemma TwoMessages(ms: seq<Message>, s: nat, t: nat)
    requires s <= t <= |ms| && (ms != [] ==> t < |ms|)
    ensures ms != [] ==> Cost(ms[t..]) >= 4
    ensures s < t ==> Cost(ms[s..]) >= 8
  {
    if ms != [] {
      CostFrom(ms, t);
      if s < t {
        CostFrom(ms, s);
        CostSuffix(ms, s + 1, t);
      }
    }
  }
}
