/** Parent links between agents, cyclic or not: ancestor chains, common ancestors, descendants. */
module Genealogy {
  import opened Options

  /** Registered agents, each with its parent; a parent need not be registered. */
  type Nodes = map<string, Option<string>>

  /** The step an ancestor chain takes: an empty id or an empty parent ends it. */
  function Parent(nodes: Nodes, agent: string): Option<string> {
    if agent != "" && agent in nodes && nodes[agent] != Some("") then nodes[agent] else None
  }

  /** The agent `n` chain steps above. */
  function Up(nodes: Nodes, agent: string, n: nat): Option<string> {
    if n == 0 then Some(agent)
    else
      var below := Up(nodes, agent, n - 1);
      if below.Some? then Parent(nodes, below.value) else None
  }

  /** `x` is `agent` or one of its ancestors. */
  ghost predicate IsAncestor(nodes: Nodes, agent: string, x: string) { exists n: nat :: Up(nodes, agent, n) == Some(x) }

  ghost predicate Acyclic(nodes: Nodes) { forall x, n: nat | n > 0 :: Up(nodes, x, n) != Some(x) }

  /** The agent `n` parent links above, whatever the ids. */
  function Climb(nodes: Nodes, agent: string, n: nat): Option<string>
    decreases n
  {
    if n == 0 then Some(agent)
    else if agent in nodes && nodes[agent].Some? then Climb(nodes, nodes[agent].value, n - 1)
    else None
  }

  /** `x` is reached from `agent` by one or more child steps. */
  ghost predicate IsDescendant(nodes: Nodes, agent: string, x: string) {
    exists n: nat :: n > 0 && Climb(nodes, x, n) == Some(agent)
  }

  // ---- chains ----

  /** The first `|chain|` steps up. */
  ghost predicate Ascends(nodes: Nodes, agent: string, chain: seq<string>) {
    && chain != [] && chain[0] == agent
    && forall i | 0 < i < |chain| :: Parent(nodes, chain[i - 1]) == Some(chain[i])
  }

  lemma {:induction false} AscendsUp(nodes: Nodes, agent: string, chain: seq<string>, i: nat, j: nat)
    requires Ascends(nodes, agent, chain) && i <= j < |chain|
    ensures Up(nodes, chain[i], j - i) == Some(chain[j])
  {
    if i < j { AscendsUp(nodes, agent, chain, i, j - 1); }
  }

  ghost predicate Closed(nodes: Nodes, chain: seq<string>) {
    forall x | x in chain && Parent(nodes, x).Some? :: Parent(nodes, x).value in chain
  }

  lemma {:induction false} ClosedHoldsAll(nodes: Nodes, agent: string, chain: seq<string>, n: nat)
    requires agent in chain && Closed(nodes, chain) && Up(nodes, agent, n).Some?
    ensures Up(nodes, agent, n).value in chain
  {
    if n > 0 { ClosedHoldsAll(nodes, agent, chain, n - 1); }
  }

  /** A chain is an agent's ancestors, nearest first. */
  ghost predicate IsChain(nodes: Nodes, agent: string, chain: seq<string>) {
    Ascends(nodes, agent, chain) && forall x :: x in chain <==> IsAncestor(nodes, agent, x)
  }

  function Elements(s: seq<string>): set<string> { set x | x in s }

  lemma ElementsSnoc(s: seq<string>, x: string)
    ensures Elements(s + [x]) == Elements(s) + {x}
  {
  }

  /** A chain that cannot go on, or has come back to an earlier agent, has met every ancestor. */
  lemma Returned(nodes: Nodes, agent: string, chain: seq<string>)
    requires Ascends(nodes, agent, chain)
    requires var last := chain[|chain| - 1]; Parent(nodes, last) == None || last in Elements(chain[..|chain| - 1])
    ensures Closed(nodes, chain)
  {
    forall x | x in chain && Parent(nodes, x).Some? ensures Parent(nodes, x).value in chain {
      var i :| 0 <= i < |chain| && chain[i] == x;
      if i == |chain| - 1 {
        var k :| 0 <= k < i && chain[k] == x;
        assert chain[k + 1] in chain;
      } else {
        assert chain[i + 1] in chain;
      }
    }
  }

  lemma ChainIs(nodes: Nodes, agent: string, chain: seq<string>)
    requires Ascends(nodes, agent, chain) && Closed(nodes, chain)
    ensures IsChain(nodes, agent, chain)
  {
    forall x ensures x in chain <==> IsAncestor(nodes, agent, x) {
      if x in chain {
        var i :| 0 <= i < |chain| && chain[i] == x;
        AscendsUp(nodes, agent, chain, 0, i);
      }
      if IsAncestor(nodes, agent, x) {
        var n: nat :| Up(nodes, agent, n) == Some(x);
        ClosedHoldsAll(nodes, agent, chain, n);
      }
    }
  }

  // ---- lowest common ancestors ----

  ghost predicate IsCommon(nodes: Nodes, a: string, b: string, x: string) {
    IsAncestor(nodes, a, x) && IsAncestor(nodes, b, x)
  }

  /** Common, and below every common ancestor. */
  ghost predicate IsLowest(nodes: Nodes, a: string, b: string, x: string) {
    IsCommon(nodes, a, b, x) && forall c | IsCommon(nodes, a, b, c) :: IsAncestor(nodes, x, c)
  }

  lemma FirstCommonIsLowest(nodes: Nodes, a: string, b: string, chainA: seq<string>, chainB: seq<string>, i: nat)
    requires IsChain(nodes, a, chainA) && IsChain(nodes, b, chainB)
    requires i < |chainA| && chainA[i] in chainB && forall k | 0 <= k < i :: chainA[k] !in chainB
    ensures IsLowest(nodes, a, b, chainA[i])
  {
    assert chainA[i] in chainA;
    forall c | IsCommon(nodes, a, b, c) ensures IsAncestor(nodes, chainA[i], c) {
      assert c in chainA && c in chainB;
      var j :| 0 <= j < |chainA| && chainA[j] == c;
      assert j >= i;
      AscendsUp(nodes, a, chainA, i, j);
    }
  }

  lemma {:induction false} UpAdds(nodes: Nodes, agent: string, m: nat, n: nat)
    requires Up(nodes, agent, m).Some?
    ensures Up(nodes, agent, m + n) == Up(nodes, Up(nodes, agent, m).value, n)
  {
    if n > 0 { UpAdds(nodes, agent, m, n - 1); }
  }

  /** Without cycles there is only one. */
  lemma LowestIsUnique(nodes: Nodes, a: string, b: string, x: string, y: string)
    requires Acyclic(nodes) && IsLowest(nodes, a, b, x) && IsLowest(nodes, a, b, y)
    ensures x == y
  {
    var m: nat :| Up(nodes, x, m) == Some(y);
    var n: nat :| Up(nodes, y, n) == Some(x);
    UpAdds(nodes, x, m, n);
    assert m + n == 0;
  }

  /** And in general exactly when no two agents are each other's ancestors; an agent that is its own parent does no
      harm. */
  lemma LowestIsUniqueExactlyWhen(nodes: Nodes)
    ensures (forall a, b, x, y | IsLowest(nodes, a, b, x) && IsLowest(nodes, a, b, y) :: x == y) <==>
      (forall x, y | IsAncestor(nodes, x, y) && IsAncestor(nodes, y, x) :: x == y)
  {
    hide IsAncestor;
    if forall a, b, x, y | IsLowest(nodes, a, b, x) && IsLowest(nodes, a, b, y) :: x == y {
      forall x, y | IsAncestor(nodes, x, y) && IsAncestor(nodes, y, x) ensures x == y {
        IsOwnAncestor(nodes, x);
        IsOwnAncestor(nodes, y);
        assert IsLowest(nodes, x, y, x) && IsLowest(nodes, x, y, y);
      }
    }
  }

  lemma IsOwnAncestor(nodes: Nodes, x: string)
    ensures IsAncestor(nodes, x, x)
  {
    assert Up(nodes, x, 0) == Some(x);
  }

  /** Two agents that are each other's parents are both lowest. */
  lemma LowestOnACycle()
    ensures var nodes: Nodes := map["a" := Some("b"), "b" := Some("a")];
      IsLowest(nodes, "a", "b", "a") && IsLowest(nodes, "a", "b", "b")
  {
    var nodes: Nodes := map["a" := Some("b"), "b" := Some("a")];
    assert Up(nodes, "a", 0) == Some("a") && Up(nodes, "a", 1) == Some("b");
    assert Up(nodes, "b", 0) == Some("b") && Up(nodes, "b", 1) == Some("a");
    assert IsCommon(nodes, "a", "b", "a") && IsCommon(nodes, "a", "b", "b");
    forall c | IsCommon(nodes, "a", "b", c) ensures c == "a" || c == "b" {
      var n: nat :| Up(nodes, "a", n) == Some(c);
      ClosedHoldsAll(nodes, "a", ["a", "b"], n);
    }
  }

  // ---- descendants ----

  lemma ChildIsDescendant(nodes: Nodes, agent: string, x: string, parent: string)
    requires x in nodes && nodes[x] == Some(parent)
    requires parent == agent || IsDescendant(nodes, agent, parent)
    ensures IsDescendant(nodes, agent, x)
  {
    var n: nat :| Climb(nodes, parent, n) == Some(agent);
    assert Climb(nodes, x, n + 1) == Some(agent);
  }

  /** Every child of `agent` and of each member is a member. */
  ghost predicate HoldsChildren(nodes: Nodes, agent: string, found: set<string>) {
    forall x | x in nodes && nodes[x].Some? && (nodes[x].value == agent || nodes[x].value in found) :: x in found
  }

  lemma {:induction false} HoldsDescendant(nodes: Nodes, agent: string, found: set<string>, x: string, n: nat)
    requires HoldsChildren(nodes, agent, found) && n > 0 && Climb(nodes, x, n) == Some(agent)
    ensures x in found
    decreases n
  {
    if n > 1 { HoldsDescendant(nodes, agent, found, nodes[x].value, n - 1); }
  }

  /** Found so far: some descendants, of which `pending` and the agent itself are still to be looked into. */
  ghost predicate Exploring(nodes: Nodes, agent: string, found: seq<string>, pending: set<string>, looked: set<string>) {
    && Distinct(found) && agent in looked + pending && Elements(found) <= looked + pending
    && pending <= Elements(found) + {agent}
    && (forall x | x in found :: x in nodes && IsDescendant(nodes, agent, x))
    && forall x | x in nodes && nodes[x].Some? && nodes[x].value in looked :: x in found
  }

  predicate Distinct(s: seq<string>) { forall i, j | 0 <= i < j < |s| :: s[i] != s[j] }

  lemma StartExploring(nodes: Nodes, agent: string)
    ensures Exploring(nodes, agent, [], Elements([agent]), {})
  {
  }

  lemma DistinctOf(nodes: Nodes, agent: string, found: seq<string>, pending: set<string>, looked: set<string>)
    requires Exploring(nodes, agent, found, pending, looked)
    ensures Distinct(found)
  {
  }

  lemma FindChild(nodes: Nodes, agent: string, found: seq<string>, pending: set<string>, looked: set<string>,
      parent: string, x: string)
    requires Exploring(nodes, agent, found, pending, looked) && parent in pending
    requires x in nodes && nodes[x] == Some(parent) && x !in found
    ensures Exploring(nodes, agent, found + [x], pending + {x}, looked)
  {
    ChildIsDescendant(nodes, agent, x, parent);
    ElementsSnoc(found, x);
    hide IsDescendant;
  }

  lemma LookedInto(nodes: Nodes, agent: string, found: seq<string>, pending: set<string>, looked: set<string>,
      parent: string)
    requires Exploring(nodes, agent, found, pending + {parent}, looked)
    requires forall x | x in nodes && nodes[x] == Some(parent) :: x in found
    ensures Exploring(nodes, agent, found, pending, looked + {parent})
  {
    hide IsDescendant;
  }

  lemma NothingPending(nodes: Nodes, agent: string, found: seq<string>, looked: set<string>)
    requires Exploring(nodes, agent, found, {}, looked)
    ensures forall x :: x in found <==> IsDescendant(nodes, agent, x)
  {
    assert HoldsChildren(nodes, agent, Elements(found));
    forall x | IsDescendant(nodes, agent, x) ensures x in found {
      var n: nat :| n > 0 && Climb(nodes, x, n) == Some(agent);
      HoldsDescendant(nodes, agent, Elements(found), x, n);
    }
  }

  ghost predicate IsProperAncestor(nodes: Nodes, agent: string, x: string) { exists n: nat :: n > 0 && Up(nodes, agent, n) == Some(x) }

  /** The empty id ends chains but not descents: it has a parent to descend from. */
  predicate EmptyIdHasParent(nodes: Nodes) { "" in nodes && nodes[""] != None && nodes[""] != Some("") }

  /** Or it is somebody's parent. */
  predicate EmptyIdIsParent(nodes: Nodes) { exists x :: x in nodes && nodes[x] == Some("") }

  ghost predicate Inverse(nodes: Nodes) {
    forall agent, x :: IsDescendant(nodes, agent, x) <==> IsProperAncestor(nodes, x, agent)
  }

  /** Descendants and ancestors are each other's inverse exactly when the empty id is nobody's parent and has none. */
  lemma InverseExactlyWhen(nodes: Nodes)
    ensures Inverse(nodes) <==> !EmptyIdHasParent(nodes) && !EmptyIdIsParent(nodes)
  {
    if EmptyIdHasParent(nodes) {
      var agent := nodes[""].value;
      assert Climb(nodes, "", 1) == Some(agent) by { assert Climb(nodes, agent, 0) == Some(agent); }
      assert IsDescendant(nodes, agent, "");
      forall n: nat | n > 0 ensures Up(nodes, "", n) == None { NothingAbove(nodes, "", n); }
    } else if x :| x in nodes && nodes[x] == Some("") {
      assert Climb(nodes, x, 1) == Some("") by { assert Climb(nodes, "", 0) == Some(""); }
      assert IsDescendant(nodes, "", x);
      forall n: nat | n > 0 ensures Up(nodes, x, n) != Some("") { NeverUpToEmpty(nodes, x, n); }
    } else {
      forall agent, x ensures IsDescendant(nodes, agent, x) <==> IsProperAncestor(nodes, x, agent) {
        if agent == "" { NothingBelowEmpty(nodes, x); } else { BelowIsAbove(nodes, agent, x); }
      }
    }
  }

  lemma NeverUpToEmpty(nodes: Nodes, x: string, n: nat)
    requires n > 0
    ensures Up(nodes, x, n) != Some("")
  {
    hide Parent;
    var below := Up(nodes, x, n - 1);
    if below.Some? { ParentIsNamed(nodes, below.value); }
  }

  lemma ParentIsNamed(nodes: Nodes, x: string)
    ensures Parent(nodes, x) != Some("")
  {
  }

  lemma NothingBelowEmpty(nodes: Nodes, x: string)
    requires !EmptyIdIsParent(nodes)
    ensures !IsDescendant(nodes, "", x) && !IsProperAncestor(nodes, x, "")
  {
    forall n: nat | n > 0 ensures Climb(nodes, x, n) != Some("") && Up(nodes, x, n) != Some("") {
      NeverUpToEmpty(nodes, x, n);
      NeverClimbsToEmpty(nodes, x, n);
    }
  }

  lemma {:induction false} NeverClimbsToEmpty(nodes: Nodes, x: string, n: nat)
    requires !EmptyIdIsParent(nodes) && n > 0
    ensures Climb(nodes, x, n) != Some("")
    decreases n
  {
    if n > 1 && x in nodes && nodes[x].Some? { NeverClimbsToEmpty(nodes, nodes[x].value, n - 1); }
  }

  lemma BelowIsAbove(nodes: Nodes, agent: string, x: string)
    requires !EmptyIdHasParent(nodes) && agent != ""
    ensures IsDescendant(nodes, agent, x) <==> IsProperAncestor(nodes, x, agent)
  {
    if IsDescendant(nodes, agent, x) {
      var n: nat :| n > 0 && Climb(nodes, x, n) == Some(agent);
      ClimbIsUp(nodes, agent, x, n);
    }
    if IsProperAncestor(nodes, x, agent) {
      var n: nat :| n > 0 && Up(nodes, x, n) == Some(agent);
      ClimbIsUp(nodes, agent, x, n);
    }
  }

  lemma {:induction false} EmptyClimb(nodes: Nodes, n: nat)
    requires !EmptyIdHasParent(nodes)
    ensures Climb(nodes, "", n) == None || Climb(nodes, "", n) == Some("")
  {
    if n > 0 { EmptyClimb(nodes, n - 1); }
  }

  lemma {:induction false} ClimbIsUp(nodes: Nodes, agent: string, x: string, n: nat)
    requires !EmptyIdHasParent(nodes) && agent != ""
    ensures Climb(nodes, x, n) == Some(agent) <==> Up(nodes, x, n) == Some(agent)
    decreases n
  {
    if n > 0 {
      if Parent(nodes, x).Some? {
        var p := nodes[x].value;
        ClimbIsUp(nodes, agent, p, n - 1);
        assert Up(nodes, x, 0) == Some(x) && Up(nodes, x, 1) == Some(p);
        UpAdds(nodes, x, 1, n - 1);
      } else {
        NothingAbove(nodes, x, n);
        EmptyClimb(nodes, n);
        EmptyClimb(nodes, n - 1);
      }
    }
  }

  lemma {:induction false} NothingAbove(nodes: Nodes, x: string, n: nat)
    requires n > 0 && Parent(nodes, x) == None
    ensures Up(nodes, x, n) == None
  {
    if n > 1 { NothingAbove(nodes, x, n - 1); } else { assert Up(nodes, x, 0) == Some(x); }
  }

  // ---- registering ----

  const PROTO := "__proto__"

  /** The names every object answers to: `in` finds them in the nodes although nobody registered them. */
  predicate Inherited(id: string) {
    id in {"constructor", "toString", "toLocaleString", "valueOf", "hasOwnProperty", "isPrototypeOf", "propertyIsEnumerable",
           PROTO, "__defineGetter__", "__defineSetter__", "__lookupGetter__", "__lookupSetter__"}
  }

  /** Assigning to an own key, or making one; the prototype's name alone makes none. */
  function Registered(nodes: Nodes, agent: string, parent: Option<string>): Nodes {
    if agent == PROTO && agent !in nodes then nodes else nodes[agent := parent]
  }

  ghost predicate BelowItself(nodes: Nodes, agent: string, parent: Option<string>) {
    agent != "" && parent.Some? && parent.value != "" && IsAncestor(nodes, parent.value, agent)
  }

  ghost predicate SameElsewhere(a: Nodes, b: Nodes, agent: string) { forall x | x != agent :: Parent(a, x) == Parent(b, x) }

  lemma {:induction false} SamePath(a: Nodes, b: Nodes, agent: string, x: string, n: nat)
    requires SameElsewhere(a, b, agent) && forall k: nat | k < n :: Up(a, x, k) != Some(agent)
    ensures Up(a, x, n) == Up(b, x, n)
  {
    if n > 0 { SamePath(a, b, agent, x, n - 1); }
  }

  /** The first time a path comes by. */
  lemma {:induction false} FirstVisit(nodes: Nodes, x: string, agent: string, n: nat) returns (m: nat)
    requires Up(nodes, x, n) == Some(agent)
    ensures m <= n && Up(nodes, x, m) == Some(agent) && forall k: nat | k < m :: Up(nodes, x, k) != Some(agent)
  {
    m := n;
    if k: nat :| k < n && Up(nodes, x, k) == Some(agent) { m := FirstVisit(nodes, x, agent, k); }
  }

  lemma SameReach(a: Nodes, b: Nodes, agent: string, x: string)
    requires SameElsewhere(a, b, agent) && IsAncestor(a, x, agent)
    ensures IsAncestor(b, x, agent)
  {
    var n: nat :| Up(a, x, n) == Some(agent);
    var m := FirstVisit(a, x, agent, n);
    SamePath(a, b, agent, x, m);
  }

  /** A cycle the change made goes through the changed agent. */
  lemma NewCycle(a: Nodes, b: Nodes, agent: string, x: string, n: nat)
    requires SameElsewhere(b, a, agent) && Acyclic(a) && n > 0 && Up(b, x, n) == Some(x)
    ensures Parent(b, agent).Some? && IsAncestor(b, Parent(b, agent).value, agent)
  {
    if k: nat :| k < n && Up(b, x, k) == Some(agent) {
      UpAdds(b, x, k, n - k);
      UpAdds(b, agent, n - k, k);
      assert Up(b, agent, 0) == Some(agent) && Up(b, agent, 1) == Parent(b, agent);
      if Parent(b, agent).None? { NothingAbove(b, agent, n); }
      UpAdds(b, agent, 1, n - 1);
    } else {
      SamePath(b, a, agent, x, n);
    }
  }

  lemma CyclicExactlyWhen(nodes: Nodes, agent: string, parent: Option<string>)
    requires Acyclic(nodes)
    ensures Acyclic(nodes[agent := parent]) <==> !BelowItself(nodes, agent, parent)
  {
    var next := nodes[agent := parent];
    assert Parent(next, agent) == if agent != "" && parent != Some("") then parent else None;
    if BelowItself(nodes, agent, parent) {
      SameReach(nodes, next, agent, parent.value);
      var n: nat :| Up(next, parent.value, n) == Some(agent);
      assert Up(next, agent, 0) == Some(agent) && Up(next, agent, 1) == parent;
      UpAdds(next, agent, 1, n);
    } else {
      forall x, n: nat | n > 0 ensures Up(next, x, n) != Some(x) {
        if Up(next, x, n) == Some(x) {
          NewCycle(nodes, next, agent, x, n);
          SameReach(next, nodes, agent, parent.value);
        }
      }
    }
  }

  lemma RemovingKeepsAcyclic(nodes: Nodes, agent: string)
    requires Acyclic(nodes)
    ensures Acyclic(nodes - {agent})
  {
    forall x, n: nat | n > 0 ensures Up(nodes - {agent}, x, n) != Some(x) {
      if Up(nodes - {agent}, x, n) == Some(x) { NewCycle(nodes, nodes - {agent}, agent, x, n); }
    }
  }

  class AgentGenealogy {
    var nodes: Nodes

    constructor ()
      ensures nodes == map[]
    {
      nodes := map[];
    }

    /** Nothing stops an agent from being put below itself: without cycles before, there are none after exactly when
        the new parent is not one of those below the agent. */
    method RegisterAgent(agentId: string, parentId: Option<string>)
      modifies this
      ensures nodes == Registered(old(nodes), agentId, parentId)
      ensures Acyclic(old(nodes)) ==>
        (Acyclic(nodes) <==> nodes == old(nodes) || !BelowItself(old(nodes), agentId, parentId))
    {
      if Acyclic(nodes) { CyclicExactlyWhen(nodes, agentId, parentId); }
      if agentId != PROTO || agentId in nodes { nodes := nodes[agentId := parentId]; }
    }

    method HasAgent(agentId: string) returns (has: bool)
      ensures has <==> agentId in nodes || Inherited(agentId)
    {
      has := agentId in nodes || Inherited(agentId);
    }

    /** An inherited name is always reported as removed, and never is. */
    method RemoveAgent(agentId: string) returns (removed: bool)
      modifies this
      ensures removed <==> agentId in old(nodes) || Inherited(agentId)
      ensures nodes == old(nodes) - {agentId}
      ensures Acyclic(old(nodes)) ==> Acyclic(nodes)
    {
      if Acyclic(nodes) { RemovingKeepsAcyclic(nodes, agentId); }
      removed := HasAgent(agentId);
      if removed { nodes := nodes - {agentId}; }
    }

    method GetAncestorChain(agentId: string) returns (chain: seq<string>)
      ensures IsChain(nodes, agentId, chain)
    {
      chain := [agentId];
      var current := agentId;
      var visited: set<string> := {};
      while current != "" && current in nodes && nodes[current].Some? && current !in visited
        invariant Ascends(nodes, agentId, chain) && chain[|chain| - 1] == current
        invariant visited <= nodes.Keys && visited == Elements(chain[..|chain| - 1])
        decreases nodes.Keys - visited
      {
        visited := visited + {current};
        if nodes[current] == Some("") { break; }
        ElementsSnoc(chain[..|chain| - 1], current);
        assert chain == chain[..|chain| - 1] + [current];
        current := nodes[current].value;
        chain := chain + [current];
        assert chain[..|chain| - 1] + [current] == chain;
      }
      Returned(nodes, agentId, chain);
      ChainIs(nodes, agentId, chain);
    }

    method FindCommonAncestor(agentA: string, agentB: string) returns (r: Option<string>)
      ensures r.None? <==> forall x :: !IsCommon(nodes, agentA, agentB, x)
      ensures r.Some? ==> IsLowest(nodes, agentA, agentB, r.value)
    {
      var ancestorsA := GetAncestorChain(agentA);
      var ancestorsB := GetAncestorChain(agentB);
      hide IsAncestor;
      for i := 0 to |ancestorsA|
        invariant forall k | 0 <= k < i :: ancestorsA[k] !in ancestorsB
      {
        if ancestorsA[i] in ancestorsB {
          FirstCommonIsLowest(nodes, agentA, agentB, ancestorsA, ancestorsB, i);
          return Some(ancestorsA[i]);
        }
      }
      return None;
    }

    method GetDescendants(agentId: string) returns (descendants: seq<string>)
      ensures forall x :: x in descendants <==> IsDescendant(nodes, agentId, x)
      ensures Distinct(descendants)
    {
      hide Exploring, IsDescendant, Distinct;
      descendants := [];
      var queue := [agentId];
      ghost var looked: set<string> := {};
      StartExploring(nodes, agentId);
      while queue != []
        invariant Elements(descendants) <= nodes.Keys && Exploring(nodes, agentId, descendants, Elements(queue), looked)
        decreases nodes.Keys - Elements(descendants), |queue|
      {
        var current := queue[0];
        ghost var before, rest := descendants, queue[1..];
        assert queue == [current] + rest;
        assert Elements(queue) == Elements(rest) + {current};
        queue := queue[1..];
        var left := nodes.Keys;
        while left != {}
          invariant left <= nodes.Keys && Elements(descendants) <= nodes.Keys
          invariant Exploring(nodes, agentId, descendants, Elements(queue) + {current}, looked)
          invariant forall x | x in nodes && x !in left && nodes[x] == Some(current) :: x in descendants
          invariant (descendants == before && queue == rest) || Elements(before) < Elements(descendants)
          decreases left
        {
          var id :| id in left;
          left := left - {id};
          if nodes[id] == Some(current) && id !in descendants {
            FindChild(nodes, agentId, descendants, Elements(queue) + {current}, looked, current, id);
            ElementsSnoc(queue, id);
            ElementsSnoc(descendants, id);
            assert Elements(queue) + {current} + {id} == Elements(queue) + {id} + {current};
            descendants, queue := descendants + [id], queue + [id];
          }
        }
        LookedInto(nodes, agentId, descendants, Elements(queue), looked, current);
        looked := looked + {current};
      }
      assert Elements([]) == {};
      NothingPending(nodes, agentId, descendants, looked);
      DistinctOf(nodes, agentId, descendants, {}, looked);
    }
  }
}
