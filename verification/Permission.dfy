/** The permission engine: one decision per tool call, and the store of remembered grants. */
module Permission {
  import opened Options
  import opened Glob

  datatype Mode = Suggest | AutoEdit | FullAuto
  datatype Tier = Silent | Confirm | Always
  datatype Decision = Allow | Ask | Deny
  datatype Lifetime = Session | Persisted
  datatype Rule = Rule(tool: string, pattern: string)
  datatype Policy = Policy(tierMap: map<string, Tier>, alwaysFloor: seq<string>)
  datatype ToolDef = ToolDef(name: string, category: string, tier: Tier)

  predicate MatchRule(rule: Rule, tool: string, resource: string) {
    rule.tool == tool && Accepts("^" + GlobBody(rule.pattern) + "$", resource)
  }

  predicate SomeMatch(rules: seq<Rule>, tool: string, resource: string) {
    exists r :: r in rules && MatchRule(r, tool, resource)
  }

  predicate IsShellTool(tool: string) {
    tool == "bash" || (|tool| >= 5 && tool[|tool| - 5..] == "_bash")
  }

  function Decide(tool: string, resource: string, tier: Tier, rules: seq<Rule>, denies: seq<Rule>,
                  policy: Policy, mode: Mode): Decision
  {
    if SomeMatch(denies, tool, resource) then Deny
    else if tier == Always || tool in policy.alwaysFloor then Ask
    else if tier == Silent then Allow
    else if SomeMatch(rules, tool, resource) then Allow
    else if mode == FullAuto then Allow
    else if mode == AutoEdit && !IsShellTool(tool) then Allow
    else Ask
  }

  function ResolveTier(tool: ToolDef, policy: Policy): Tier {
    if tool.name in policy.tierMap then policy.tierMap[tool.name]
    else if tool.category in policy.tierMap then policy.tierMap[tool.category]
    else tool.tier
  }

  /** How much a decision lets through. */
  function Rank(d: Decision): nat { match d case Deny => 0 case Ask => 1 case Allow => 2 }
  function ModeRank(m: Mode): nat { match m case Suggest => 0 case AutoEdit => 1 case FullAuto => 2 }
  function TierRank(t: Tier): nat { match t case Always => 0 case Confirm => 1 case Silent => 2 }

  /** More grants, a looser mode or a looser tier never tighten; more denies never loosen. */
  lemma DecideIsMonotone(tool: string, resource: string, policy: Policy,
                         tier: Tier, rules: seq<Rule>, denies: seq<Rule>, mode: Mode,
                         tier': Tier, rules': seq<Rule>, denies': seq<Rule>, mode': Mode)
    requires TierRank(tier) <= TierRank(tier') && ModeRank(mode) <= ModeRank(mode')
    requires (forall r | r in rules :: r in rules') && (forall r | r in denies' :: r in denies)
    ensures Rank(Decide(tool, resource, tier, rules, denies, policy, mode))
         <= Rank(Decide(tool, resource, tier', rules', denies', policy, mode'))
  {
    if SomeMatch(denies', tool, resource) {
      var r :| r in denies' && MatchRule(r, tool, resource);
      assert r in denies;
    } else if SomeMatch(rules, tool, resource) {
      var r :| r in rules && MatchRule(r, tool, resource);
      assert r in rules';
    }
  }

  /** The calls that no grants and no mode ever let through unasked are exactly those on the floor and those denied;
      and on the floor only a deny rule spares the question. */
  lemma FloorNeverAutoAllows(tool: string, resource: string, tier: Tier, denies: seq<Rule>, policy: Policy)
    ensures (forall rules, mode :: Decide(tool, resource, tier, rules, denies, policy, mode) != Allow) <==>
      tier == Always || tool in policy.alwaysFloor || SomeMatch(denies, tool, resource)
    ensures (forall rules, mode :: Decide(tool, resource, tier, rules, denies, policy, mode) == Ask) <==>
      (tier == Always || tool in policy.alwaysFloor) && !SomeMatch(denies, tool, resource)
  {
    assert Decide(tool, resource, tier, [], denies, policy, FullAuto) == Allow <==>
      tier != Always && tool !in policy.alwaysFloor && !SomeMatch(denies, tool, resource);
  }

  // ---- when a call is asked about ----

  /** Some rule is for this very tool and denotes the resource. */
  predicate Names(rules: seq<Rule>, tool: string, resource: string) {
    exists r :: r in rules && r.tool == tool && Denotes(r.pattern, resource)
  }

  /** The shell, under its plain name or one with a prefix. */
  ghost predicate NamesShell(tool: string) { tool == "bash" || exists prefix: string :: tool == prefix + "_bash" }

  lemma ShellNames(tool: string)
    ensures IsShellTool(tool) <==> NamesShell(tool)
  {
    if IsShellTool(tool) && tool != "bash" {
      assert tool == tool[..|tool| - 5] + "_bash";
    }
    if prefix: string :| tool == prefix + "_bash" {
      assert tool[|prefix|..] == "_bash";
    }
  }

  /** A rule that matches names the tool and denotes the resource; on one line, and exactly then. */
  lemma MatchNames(rules: seq<Rule>, tool: string, resource: string)
    ensures SomeMatch(rules, tool, resource) ==> Names(rules, tool, resource)
    ensures OneLine(resource) ==> (SomeMatch(rules, tool, resource) <==> Names(rules, tool, resource))
  {
    hide Denotes, Accepts, GlobBody;
    if r :| r in rules && MatchRule(r, tool, resource) {
      AcceptedIsDenoted(r.pattern, resource);
    }
    if OneLine(resource) {
      if r :| r in rules && r.tool == tool && Denotes(r.pattern, resource) {
        CompiledGlobDenotes(r.pattern, resource);
        assert MatchRule(r, tool, resource);
      }
    }
  }

  /** The mode alone lets a call of this tool through. */
  ghost predicate ModeCovers(mode: Mode, tool: string) { mode == FullAuto || (mode == AutoEdit && !NamesShell(tool)) }

  /** A call goes unasked only as a silent one, in a mode that covers its tool, or under a grant of that very tool that
      denotes its resource; never from the floor. */
  lemma AllowedHasReason(tool: string, resource: string, tier: Tier, rules: seq<Rule>, denies: seq<Rule>, policy: Policy, mode: Mode)
    requires Decide(tool, resource, tier, rules, denies, policy, mode) == Allow
    ensures tier != Always && tool !in policy.alwaysFloor
    ensures tier == Silent || ModeCovers(mode, tool) || Names(rules, tool, resource)
    ensures OneLine(resource) ==> !Names(denies, tool, resource)
  {
    ShellNames(tool);
    MatchNames(rules, tool, resource);
    MatchNames(denies, tool, resource);
    hide SomeMatch, NamesShell, Names, IsShellTool;
  }

  /** For a resource on one line, exactly when a call is denied, asked about, or let through. */
  lemma DecisionExactlyWhen(tool: string, resource: string, tier: Tier, rules: seq<Rule>, denies: seq<Rule>, policy: Policy, mode: Mode)
    requires OneLine(resource)
    ensures var d := Decide(tool, resource, tier, rules, denies, policy, mode);
      var free := tier == Silent || ModeCovers(mode, tool) || Names(rules, tool, resource);
      && (d == Deny <==> Names(denies, tool, resource))
      && (d == Allow <==> !Names(denies, tool, resource) && tier != Always && tool !in policy.alwaysFloor && free)
      && (d == Ask <==> !Names(denies, tool, resource) && (tier == Always || tool in policy.alwaysFloor || !free))
  {
    ShellNames(tool);
    MatchNames(rules, tool, resource);
    MatchNames(denies, tool, resource);
    hide SomeMatch, NamesShell, Names, IsShellTool;
  }

  /** Once the user has had a tool remembered, none of its calls on one line is asked about again, unless it is on the
      floor or denied. */
  lemma RememberedIsNotAskedAgain(tool: string, resource: string, tier: Tier, rules: Rules, lifetime: Lifetime, policy: Policy, mode: Mode)
    requires OneLine(resource)
    ensures var after := WithGrant(rules, Rule(tool, "**"), lifetime);
      Decide(tool, resource, tier, Active(after), after.denies, policy, mode) == Ask <==>
        !Names(rules.denies, tool, resource) && (tier == Always || tool in policy.alwaysFloor)
  {
    var rule := Rule(tool, "**");
    var after := WithGrant(rules, rule, lifetime);
    SameDenies(rules, rule);
    GrantThenRevoke(rules, rule, lifetime, rule);
    WholeToolGrantCoversOneLine(resource);
    DecisionExactlyWhen(tool, resource, tier, Active(after), after.denies, policy, mode);
    assert rule in Active(after) && Names(Active(after), tool, resource);
    hide Decide, WithGrant, Active, Names;
  }

  /** Grants of this session and of earlier ones, and the fixed deny rules. */
  datatype Rules = Rules(persisted: seq<Rule>, session: seq<Rule>, denies: seq<Rule>)

  function WithGrant(r: Rules, rule: Rule, lifetime: Lifetime): Rules {
    match lifetime
    case Session => if rule in r.session then r else r.(session := r.session + [rule])
    case Persisted => if rule in r.persisted then r else r.(persisted := r.persisted + [rule])
  }

  function Without(rules: seq<Rule>, rule: Rule): (kept: seq<Rule>)
    ensures forall x :: x in kept <==> x in rules && x != rule
  {
    if rules == [] then [] else (if rules[0] == rule then [] else [rules[0]]) + Without(rules[1..], rule)
  }

  datatype RuleOp = GrantOp(rule: Rule, lifetime: Lifetime) | RevokeOp(rule: Rule)

  /** The rule was granted, for good if `lasting`, and not revoked since. */
  predicate Since(ops: seq<RuleOp>, x: Rule, lasting: bool) {
    exists i :: 0 <= i < |ops| && Grants(ops[i], x, lasting) && RevokeOp(x) !in ops[i..]
  }

  predicate Grants(op: RuleOp, x: Rule, lasting: bool) {
    op.GrantOp? && op.rule == x && (lasting ==> op.lifetime == Persisted)
  }

  predicate GrantOnly(ops: seq<RuleOp>, x: Rule) { RevokeOp(x) !in ops }

  lemma SinceSnoc(ops: seq<RuleOp>, op: RuleOp)
    ensures forall x, lasting ::
      Since(ops + [op], x, lasting) <==> Grants(op, x, lasting) || (op != RevokeOp(x) && Since(ops, x, lasting))
  {
    var all := ops + [op];
    assert forall i | 0 <= i <= |ops| :: all[i..] == ops[i..] + [op];
    hide Grants;
    forall x, lasting
      ensures Since(all, x, lasting) <==> Grants(op, x, lasting) || (op != RevokeOp(x) && Since(ops, x, lasting))
    {
      if Grants(op, x, lasting) {
        assert Grants(all[|ops|], x, lasting) && RevokeOp(x) !in all[|ops|..] by { GrantRevokesNothing(op, x, lasting); }
      } else if op != RevokeOp(x) && Since(ops, x, lasting) {
        var i :| 0 <= i < |ops| && Grants(ops[i], x, lasting) && RevokeOp(x) !in ops[i..];
        assert Grants(all[i], x, lasting);
      }
    }
  }

  lemma GrantRevokesNothing(op: RuleOp, x: Rule, lasting: bool)
    requires Grants(op, x, lasting)
    ensures op != RevokeOp(x)
  {
  }

  lemma NoneSince()
    ensures forall x, lasting :: !Since([], x, lasting)
  {
  }

  lemma SameDenies(r: Rules, rule: Rule)
    ensures forall lifetime :: WithGrant(r, rule, lifetime).denies == r.denies
  {
  }

  class RuleStore {
    var rules: Rules

    constructor (persisted: seq<Rule>, denies: seq<Rule>)
      ensures rules == Rules(persisted, [], denies)
    {
      rules := Rules(persisted, [], denies);
    }

    /** Exactly this rule becomes active; only a lasting grant reaches what the next session starts with. */
    method Grant(rule: Rule, lifetime: Lifetime)
      modifies this
      ensures rules == WithGrant(old(rules), rule, lifetime)
      ensures forall x :: x in Active(rules) <==> x in Active(old(rules)) || x == rule
      ensures forall x :: x in rules.persisted <==> x in old(rules).persisted || (lifetime == Persisted && x == rule)
    {
      forall x { GrantThenRevoke(rules, rule, lifetime, x); }
      hide Active;
      if lifetime == Session {
        if rule !in rules.session { rules := rules.(session := rules.session + [rule]); }
        return;
      }
      if rule !in rules.persisted { rules := rules.(persisted := rules.persisted + [rule]); }
    }

    /** Exactly this rule stops being active, in this session and those to come. */
    method Revoke(rule: Rule)
      modifies this
      ensures rules == old(rules).(session := Without(old(rules).session, rule), persisted := Without(old(rules).persisted, rule))
      ensures forall x :: x in Active(rules) <==> x in Active(old(rules)) && x != rule
      ensures forall x :: x in rules.persisted <==> x in old(rules).persisted && x != rule
    {
      forall x { GrantThenRevoke(rules, rule, Session, x); }
      hide Active;
      rules := rules.(session := Without(rules.session, rule), persisted := Without(rules.persisted, rule));
    }

    /** Any grants and revokes: a rule is active when it was granted and not revoked since, and outlives the session
        when one of those grants was a lasting one. */
    method Run(ops: seq<RuleOp>)
      modifies this
      ensures rules.denies == old(rules).denies
      ensures forall x :: x in Active(rules) <==> Since(ops, x, false) || (x in Active(old(rules)) && GrantOnly(ops, x))
      ensures forall x :: x in rules.persisted <==> Since(ops, x, true) || (x in old(rules).persisted && GrantOnly(ops, x))
    {
      hide Active, WithGrant, Since;
      assert forall x, lasting :: !Since([], x, lasting) by { NoneSince(); }
      var i := 0;
      while i < |ops|
        invariant 0 <= i <= |ops| && rules.denies == old(rules).denies
        invariant forall x :: x in Active(rules) <==> Since(ops[..i], x, false) || (x in Active(old(rules)) && GrantOnly(ops[..i], x))
        invariant forall x :: x in rules.persisted <==> Since(ops[..i], x, true) || (x in old(rules).persisted && GrantOnly(ops[..i], x))
      {
        assert ops[..i + 1] == ops[..i] + [ops[i]];
        SinceSnoc(ops[..i], ops[i]);
        SameDenies(rules, ops[i].rule);
        match ops[i] {
          case GrantOp(rule, lifetime) => Grant(rule, lifetime);
          case RevokeOp(rule) => Revoke(rule);
        }
        i := i + 1;
      }
      assert ops[..i] == ops;
    }

    method ActiveRules() returns (all: seq<Rule>)
      ensures all == Active(rules)
    {
      all := rules.persisted;
      var i := 0;
      while i < |rules.session|
        invariant 0 <= i <= |rules.session|
        invariant all == rules.persisted + Fresh(rules.session[..i], rules.persisted)
      {
        var s := rules.session[i];
        assert rules.session[..i + 1] == rules.session[..i] + [s];
        FreshSnoc(rules.session[..i], s, rules.persisted);
        if s !in all { all := all + [s]; }
        i := i + 1;
      }
      assert rules.session[..|rules.session|] == rules.session;
    }
  }

  /** The rules of `session` not yet in `known`, first occurrences only. */
  function Fresh(session: seq<Rule>, known: seq<Rule>): seq<Rule> {
    if session == [] then []
    else if session[0] in known then Fresh(session[1..], known)
    else [session[0]] + Fresh(session[1..], known + [session[0]])
  }

  function Active(r: Rules): seq<Rule> { r.persisted + Fresh(r.session, r.persisted) }

  lemma {:induction false} FreshSnoc(session: seq<Rule>, s: Rule, known: seq<Rule>)
    ensures Fresh(session + [s], known) ==
      Fresh(session, known) + if s in known + Fresh(session, known) then [] else [s]
    decreases |session|
  {
    if session == [] {
      assert [] + [s] == [s] && [s][1..] == [];
    } else {
      var rest, head := session[1..], session[0];
      assert (session + [s])[1..] == rest + [s];
      if head in known {
        FreshSnoc(rest, s, known);
      } else {
        FreshSnoc(rest, s, known + [head]);
        assert (known + [head]) + Fresh(rest, known + [head]) == known + ([head] + Fresh(rest, known + [head]));
      }
    }
  }

  lemma {:induction false} FreshHolds(session: seq<Rule>, known: seq<Rule>, x: Rule)
    ensures x in known + Fresh(session, known) <==> x in known || x in session
    decreases |session|
  {
    if session != [] {
      FreshHolds(session[1..], if session[0] in known then known else known + [session[0]], x);
    }
  }

  /** A grant makes exactly its own rule active; revoking it takes exactly that rule away again. */
  lemma GrantThenRevoke(r: Rules, rule: Rule, lifetime: Lifetime, x: Rule)
    ensures x in Active(WithGrant(r, rule, lifetime)) <==> x in Active(r) || x == rule
    ensures x in Active(r.(session := Without(r.session, rule), persisted := Without(r.persisted, rule))) <==>
      x in Active(r) && x != rule
  {
    FreshHolds(r.session, r.persisted, x);
    var g := WithGrant(r, rule, lifetime);
    FreshHolds(g.session, g.persisted, x);
    FreshHolds(Without(r.session, rule), Without(r.persisted, rule), x);
  }
}
