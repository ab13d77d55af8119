/** authz/rbac_translator.go: compiling an authorization policy to a deny and an allow RBAC. */
module RbacTranslator {
  import opened Prelude
  import opened AuthzPolicies
  import opened Rbac

  datatype Result<+T, +E> = Ok(value: T) | Err(error: E)

  // ---- The compiled form -----------------------------------------------------------------------

  function StringMatcherFor(value: string): (m: StringMatcher) {
    if value == "*" then EmptyRegex
    else if value != "" && value[|value| - 1] == '*' then Prefix(value[..|value| - 1])
    else if value != "" && value[0] == '*' then Suffix(value[1..])
    else Exact(value)
  }

  function PrincipalNames(names: seq<string>): (ps: seq<Principal>) {
    seq(|names|, i requires 0 <= i < |names| => Authenticated(Some(StringMatcherFor(names[i]))))
  }

  function PeerPrincipal(source: Option<seq<string>>): (p: Principal) {
    match source
    case None => AnyPrincipal
    case Some(names) => if names == [] then Authenticated(None) else OrIds(PrincipalNames(names))
  }

  function Paths(paths: seq<string>): (ps: seq<Permission>) {
    seq(|paths|, i requires 0 <= i < |paths| => UrlPath(StringMatcherFor(paths[i])))
  }

  function HeaderValues(key: string, values: seq<string>): (ps: seq<Permission>) {
    seq(|values|, i requires 0 <= i < |values| => HeaderIs(key, StringMatcherFor(values[i])))
  }

  function HeaderRules(headers: seq<Header>): (ps: seq<Permission>) {
    seq(|headers|, i requires 0 <= i < |headers| => OrRules(HeaderValues(Lower(headers[i].key), headers[i].values)))
  }

  function RequestPermission(paths: seq<string>, headers: seq<Header>): (p: Permission) {
    var parts := (if paths == [] then [] else [OrRules(Paths(paths))]) +
                 (if headers == [] then [] else [AndRules(HeaderRules(headers))]);
    if parts == [] then AnyPermission else AndRules(parts)
  }

  function Compiled(rule: Rule): (p: RbacPolicy) {
    RbacPolicy([PeerPrincipal(rule.principals)], [RequestPermission(rule.paths, rule.headers)])
  }

  function PolicyName(prefix: string, name: string): (full: string) {
    prefix + "_" + name
  }

  /** A later rule replaces an earlier one of the same name. */
  function PoliciesOf(prefix: string, rules: seq<Rule>): (m: map<string, RbacPolicy>) {
    if rules == [] then map[]
    else
      var last := rules[|rules| - 1];
      PoliciesOf(prefix, rules[..|rules| - 1])[PolicyName(prefix, last.name) := Compiled(last)]
  }

  function Chain(policy: Policy): (chain: seq<RbacConfig>) {
    (if policy.deny == [] then [] else [RbacConfig(Deny, PoliciesOf(policy.name, policy.deny))]) +
    [RbacConfig(Allow, PoliciesOf(policy.name, policy.allow))]
  }

  // ---- Meaning is preserved --------------------------------------------------------------------

  lemma SuffixIsGlob(x: string, s: string)
    ensures |x| <= |s| && s[|s| - |x|..] == x <==> Ends(s, x)
  {
    if |x| <= |s| && s[|s| - |x|..] == x {
      assert IsConcat(s, s[..|s| - |x|], x);
    }
  }

  lemma GlobPreserved(star: Star, value: string, s: string)
    ensures Matches(star, StringMatcherFor(value), s) <==> Glob(star, value, s)
  {
    if value != "" && value != "*" {
      BeginsIsPrefix(s, value[..|value| - 1]);
      SuffixIsGlob(value[1..], s);
    }
  }

  lemma PathsPreserved(star: Star, paths: seq<string>, rpc: Rpc)
    ensures Grants(star, OrRules(Paths(paths)), rpc) <==> SomeGlob(star, paths, rpc.path)
  {
    forall i | 0 <= i < |paths|
      ensures Grants(star, Paths(paths)[i], rpc) <==> Glob(star, paths[i], rpc.path)
    {
      GlobPreserved(star, paths[i], rpc.path);
    }
    if SomeGlob(star, paths, rpc.path) {
      var i :| 0 <= i < |paths| && Glob(star, paths[i], rpc.path);
      assert Grants(star, Paths(paths)[i], rpc);
    }
  }

  lemma HeaderPreserved(star: Star, h: Header, rpc: Rpc)
    ensures Grants(star, OrRules(HeaderValues(Lower(h.key), h.values)), rpc) <==> HeaderMatches(star, h, rpc)
  {
    var ps, key := HeaderValues(Lower(h.key), h.values), Lower(h.key);
    if key in rpc.headers {
      forall i | 0 <= i < |h.values|
        ensures Grants(star, ps[i], rpc) <==> Glob(star, h.values[i], rpc.headers[key])
      {
        GlobPreserved(star, h.values[i], rpc.headers[key]);
      }
      if HeaderMatches(star, h, rpc) {
        var i :| 0 <= i < |h.values| && Glob(star, h.values[i], rpc.headers[key]);
        assert Grants(star, ps[i], rpc);
      }
    }
  }

  lemma HeadersPreserved(star: Star, headers: seq<Header>, rpc: Rpc)
    ensures Grants(star, AndRules(HeaderRules(headers)), rpc) <==>
            forall i :: 0 <= i < |headers| ==> HeaderMatches(star, headers[i], rpc)
  {
    var ps := HeaderRules(headers);
    forall i | 0 <= i < |headers|
      ensures Grants(star, ps[i], rpc) <==> HeaderMatches(star, headers[i], rpc)
    {
      HeaderPreserved(star, headers[i], rpc);
    }
    if forall i :: 0 <= i < |ps| ==> Grants(star, ps[i], rpc) {
      forall i | 0 <= i < |headers|
        ensures HeaderMatches(star, headers[i], rpc)
      {
        assert Grants(star, ps[i], rpc);
      }
    }
  }

  lemma RequestPreserved(star: Star, paths: seq<string>, headers: seq<Header>, rpc: Rpc)
    ensures Grants(star, RequestPermission(paths, headers), rpc) <==>
            && (paths == [] || SomeGlob(star, paths, rpc.path))
            && forall i :: 0 <= i < |headers| ==> HeaderMatches(star, headers[i], rpc)
  {
    var p, a, b := RequestPermission(paths, headers), OrRules(Paths(paths)), AndRules(HeaderRules(headers));
    PathsPreserved(star, paths, rpc);
    HeadersPreserved(star, headers, rpc);
    if paths != [] && headers != [] {
      assert p == AndRules([a, b]);
      assert Grants(star, p, rpc) <==> Grants(star, [a, b][0], rpc) && Grants(star, [a, b][1], rpc);
    } else if paths != [] {
      assert p == AndRules([a]);
      assert Grants(star, p, rpc) <==> Grants(star, [a][0], rpc);
    } else if headers != [] {
      assert p == AndRules([b]);
      assert Grants(star, p, rpc) <==> Grants(star, [b][0], rpc);
    }
  }

  lemma NothingAskedIsAny(paths: seq<string>, headers: seq<Header>)
    ensures RequestPermission(paths, headers) == AnyPermission <==> paths == [] && headers == []
  {
  }

  /** The engine tries the URIs, the DNS names and the subject in turn: some identity matches. */
  lemma NamedByIdentity(star: Star, m: StringMatcher, rpc: Rpc)
    ensures Names(star, Authenticated(Some(m)), rpc) <==>
            rpc.tls && exists k :: 0 <= k < |Identities(rpc)| && Matches(star, m, Identities(rpc)[k])
  {
    var ids := Identities(rpc);
    if rpc.cert.None? {
      assert ids[0] == "";
    } else {
      var cert := rpc.cert.value;
      var n := |cert.uris|;
      assert forall k :: 0 <= k < n ==> cert.uris[k] == ids[k];
      forall k | 0 <= k < |cert.dnsNames|
        ensures Matches(star, m, cert.dnsNames[k]) <==> Matches(star, m, ids[n + k])
      {
        assert ids[n + k] == cert.dnsNames[k];
      }
      assert ids[n + |cert.dnsNames|] == cert.subject;
      forall k | 0 <= k < |ids| && Matches(star, m, ids[k])
        ensures rpc.tls ==> Names(star, Authenticated(Some(m)), rpc)
      {
        if n <= k < n + |cert.dnsNames| {
          assert ids[k] == cert.dnsNames[k - n];
        }
      }
    }
  }

  lemma PeerPreserved(star: Star, source: Option<seq<string>>, rpc: Rpc)
    ensures Names(star, PeerPrincipal(source), rpc) <==> PeerMatches(star, source, rpc)
  {
    if source.Some? && source.value != [] {
      var names, ids := source.value, Identities(rpc);
      var ps := PrincipalNames(names);
      forall i, k | 0 <= i < |names| && 0 <= k < |ids|
        ensures Matches(star, StringMatcherFor(names[i]), ids[k]) <==> Glob(star, names[i], ids[k])
      {
        GlobPreserved(star, names[i], ids[k]);
      }
      if Names(star, PeerPrincipal(source), rpc) {
        var i :| 0 <= i < |ps| && Names(star, ps[i], rpc);
        NamedByIdentity(star, StringMatcherFor(names[i]), rpc);
        var k :| 0 <= k < |ids| && Matches(star, StringMatcherFor(names[i]), ids[k]);
        assert SomeGlob(star, names, ids[k]);
      }
      if PeerMatches(star, source, rpc) {
        var k :| 0 <= k < |ids| && SomeGlob(star, names, ids[k]);
        var i :| 0 <= i < |names| && Glob(star, names[i], ids[k]);
        NamedByIdentity(star, StringMatcherFor(names[i]), rpc);
        assert Names(star, ps[i], rpc);
      }
    }
  }

  /** A compiled rule matches the same calls as the rule. */
  lemma RulePreserved(star: Star, rule: Rule, rpc: Rpc)
    ensures PolicyMatches(star, Compiled(rule), rpc) <==> RuleMatches(star, rule, rpc)
  {
    PeerPreserved(star, rule.principals, rpc);
    RequestPreserved(star, rule.paths, rule.headers, rpc);
    var p := Compiled(rule);
    assert PolicyMatches(star, p, rpc) <==> Grants(star, p.permissions[0], rpc) && Names(star, p.principals[0], rpc);
  }

  // ---- Names -----------------------------------------------------------------------------------

  /** No later rule has the name of rule `i`. */
  ghost predicate Survives(rules: seq<Rule>, i: nat)
    requires i < |rules|
  {
    forall j :: i < j < |rules| ==> rules[j].name != rules[i].name
  }

  ghost predicate DistinctNames(rules: seq<Rule>) {
    forall i, j :: 0 <= i < j < |rules| ==> rules[i].name != rules[j].name
  }

  lemma SameFullName(prefix: string, a: string, b: string)
    ensures PolicyName(prefix, a) == PolicyName(prefix, b) <==> a == b
  {
    if PolicyName(prefix, a) == PolicyName(prefix, b) {
      assert a == PolicyName(prefix, a)[|prefix| + 1..];
      assert b == PolicyName(prefix, b)[|prefix| + 1..];
    }
  }

  /** The map holds, under each name, the last rule of that name. */
  lemma {:induction false} LastRuleWins(prefix: string, rules: seq<Rule>, i: nat)
    requires i < |rules| && Survives(rules, i)
    ensures PolicyName(prefix, rules[i].name) in PoliciesOf(prefix, rules)
    ensures PoliciesOf(prefix, rules)[PolicyName(prefix, rules[i].name)] == Compiled(rules[i])
  {
    var init := rules[..|rules| - 1];
    if i < |init| {
      LastRuleWins(prefix, init, i);
      SameFullName(prefix, rules[i].name, rules[|rules| - 1].name);
    }
  }

  lemma {:induction false} EveryPolicyIsARule(prefix: string, rules: seq<Rule>, n: string) returns (i: nat)
    requires n in PoliciesOf(prefix, rules)
    ensures i < |rules| && Survives(rules, i) && n == PolicyName(prefix, rules[i].name)
    ensures PoliciesOf(prefix, rules)[n] == Compiled(rules[i])
  {
    var init, last := rules[..|rules| - 1], |rules| - 1;
    if n == PolicyName(prefix, rules[last].name) {
      i := last;
    } else {
      i := EveryPolicyIsARule(prefix, init, n);
      forall j | i < j < |rules|
        ensures rules[j].name != rules[i].name
      {
        if j < last { assert init[j] == rules[j]; }
      }
    }
  }

  /** In full generality the engine sees exactly the rules that survive. */
  lemma SurvivingRulesDecide(star: Star, prefix: string, rules: seq<Rule>, rpc: Rpc)
    ensures SomePolicyMatches(star, PoliciesOf(prefix, rules), rpc) <==>
            exists i :: 0 <= i < |rules| && Survives(rules, i) && RuleMatches(star, rules[i], rpc)
  {
    var m := PoliciesOf(prefix, rules);
    if SomePolicyMatches(star, m, rpc) {
      var n :| n in m && PolicyMatches(star, m[n], rpc);
      var i := EveryPolicyIsARule(prefix, rules, n);
      RulePreserved(star, rules[i], rpc);
    }
    if i :| 0 <= i < |rules| && Survives(rules, i) && RuleMatches(star, rules[i], rpc) {
      LastRuleWins(prefix, rules, i);
      RulePreserved(star, rules[i], rpc);
      assert PolicyName(prefix, rules[i].name) in m;
    }
  }

  lemma RulesPreserved(star: Star, prefix: string, rules: seq<Rule>, rpc: Rpc)
    requires DistinctNames(rules)
    ensures SomePolicyMatches(star, PoliciesOf(prefix, rules), rpc) <==> SomeRuleMatches(star, rules, rpc)
  {
    SurvivingRulesDecide(star, prefix, rules, rpc);
    if SomeRuleMatches(star, rules, rpc) {
      var i :| 0 <= i < |rules| && RuleMatches(star, rules[i], rpc);
      assert Survives(rules, i);
    }
  }

  /** The chain of engines permits a call exactly when the policy does. (A policy with a header to
      match any value is covered too, but gets no engine: see EngineLoadsExactly.) */
  lemma TranslationPreservesMeaning(star: Star, policy: Policy, rpc: Rpc)
    requires DistinctNames(policy.deny) && DistinctNames(policy.allow)
    ensures Authorized(star, Chain(policy), rpc) <==> Permits(star, policy, rpc)
  {
    RulesPreserved(star, policy.name, policy.deny, rpc);
    RulesPreserved(star, policy.name, policy.allow, rpc);
    ChainVerdict(star, policy, rpc);
  }

  lemma ChainVerdict(star: Star, policy: Policy, rpc: Rpc)
    ensures Authorized(star, Chain(policy), rpc) <==>
            !SomePolicyMatches(star, PoliciesOf(policy.name, policy.deny), rpc) &&
            SomePolicyMatches(star, PoliciesOf(policy.name, policy.allow), rpc)
  {
    var chain := Chain(policy);
    var allow := RbacConfig(Allow, PoliciesOf(policy.name, policy.allow));
    if policy.deny == [] {
      assert chain == [allow];
      assert Authorized(star, chain, rpc) <==> SomePolicyMatches(star, chain[0].policies, rpc);
    } else {
      assert chain == [RbacConfig(Deny, PoliciesOf(policy.name, policy.deny)), allow];
      assert Authorized(star, chain, rpc) <==>
             !SomePolicyMatches(star, chain[0].policies, rpc) && SomePolicyMatches(star, chain[1].policies, rpc);
    }
  }

  // ---- Which translated policies the engine loads ----------------------------------------------

  /** Some header of the rule is to match any value. */
  ghost predicate HasStarHeader(rule: Rule) {
    exists i :: 0 <= i < |rule.headers| && "*" in rule.headers[i].values
  }

  /** No rule that reaches the engine has such a header. */
  ghost predicate NoStarHeader(rules: seq<Rule>) {
    forall i :: 0 <= i < |rules| && Survives(rules, i) ==> !HasStarHeader(rules[i])
  }

  lemma PathsLoad(paths: seq<string>)
    ensures PermissionLoads(OrRules(Paths(paths)))
  {
    assert forall i | 0 <= i < |paths| :: Paths(paths)[i] == UrlPath(StringMatcherFor(paths[i]));
  }

  lemma PeerLoads(source: Option<seq<string>>)
    ensures PrincipalLoads(PeerPrincipal(source))
  {
  }

  lemma HeaderLoadsExactly(h: Header)
    ensures PermissionLoads(OrRules(HeaderValues(Lower(h.key), h.values))) <==> "*" !in h.values
  {
    var ps := HeaderValues(Lower(h.key), h.values);
    forall i | 0 <= i < |ps|
      ensures PermissionLoads(ps[i]) <==> h.values[i] != "*"
    {
    }
    if "*" in h.values {
      var i :| 0 <= i < |h.values| && h.values[i] == "*";
      assert !PermissionLoads(ps[i]);
    }
  }

  lemma HeadersLoadExactly(headers: seq<Header>)
    ensures PermissionLoads(AndRules(HeaderRules(headers))) <==>
            forall i :: 0 <= i < |headers| ==> "*" !in headers[i].values
  {
    var ps := HeaderRules(headers);
    forall i | 0 <= i < |ps|
      ensures PermissionLoads(ps[i]) <==> "*" !in headers[i].values
    {
      HeaderLoadsExactly(headers[i]);
    }
    if PermissionLoads(AndRules(ps)) {
      forall i | 0 <= i < |headers|
        ensures "*" !in headers[i].values
      {
        assert PermissionLoads(ps[i]);
      }
    }
  }

  lemma RequestLoadsExactly(paths: seq<string>, headers: seq<Header>)
    ensures PermissionLoads(RequestPermission(paths, headers)) <==>
            forall i :: 0 <= i < |headers| ==> "*" !in headers[i].values
  {
    var p, a, b := RequestPermission(paths, headers), OrRules(Paths(paths)), AndRules(HeaderRules(headers));
    PathsLoad(paths);
    HeadersLoadExactly(headers);
    if paths != [] && headers != [] {
      assert p == AndRules([a, b]);
      assert PermissionLoads(p) <==> PermissionLoads([a, b][0]) && PermissionLoads([a, b][1]);
    } else if headers != [] {
      assert p == AndRules([b]);
      assert PermissionLoads(p) <==> PermissionLoads([b][0]);
    } else if paths != [] {
      assert p == AndRules([a]);
    }
  }

  lemma RuleLoadsExactly(rule: Rule)
    ensures PolicyLoads(Compiled(rule)) <==> !HasStarHeader(rule)
  {
    PeerLoads(rule.principals);
    RequestLoadsExactly(rule.paths, rule.headers);
    var p := Compiled(rule);
    assert PolicyLoads(p) <==> PermissionLoads(p.permissions[0]) && PrincipalLoads(p.principals[0]);
  }

  ghost predicate PoliciesLoad(policies: map<string, RbacPolicy>) {
    forall n :: n in policies ==> PolicyLoads(policies[n])
  }

  lemma RulesLoadExactly(prefix: string, rules: seq<Rule>)
    ensures PoliciesLoad(PoliciesOf(prefix, rules)) <==> NoStarHeader(rules)
  {
    var m := PoliciesOf(prefix, rules);
    if NoStarHeader(rules) {
      forall n | n in m
        ensures PolicyLoads(m[n])
      {
        var i := EveryPolicyIsARule(prefix, rules, n);
        RuleLoadsExactly(rules[i]);
      }
    } else {
      var i :| 0 <= i < |rules| && Survives(rules, i) && HasStarHeader(rules[i]);
      LastRuleWins(prefix, rules, i);
      RuleLoadsExactly(rules[i]);
      assert !PolicyLoads(m[PolicyName(prefix, rules[i].name)]);
    }
  }

  /** The engine loads a translated policy exactly when no rule that reaches it has a header to match
      any value. Patterns of paths and principals never stand in the way. */
  lemma EngineLoadsExactly(policy: Policy)
    ensures ChainLoads(Chain(policy)) <==> NoStarHeader(policy.deny) && NoStarHeader(policy.allow)
  {
    var chain := Chain(policy);
    var deny, allow := PoliciesOf(policy.name, policy.deny), PoliciesOf(policy.name, policy.allow);
    RulesLoadExactly(policy.name, policy.deny);
    RulesLoadExactly(policy.name, policy.allow);
    if policy.deny == [] {
      assert chain == [RbacConfig(Allow, allow)];
      assert ChainLoads(chain) <==> PoliciesLoad(chain[0].policies);
    } else {
      assert chain == [RbacConfig(Deny, deny), RbacConfig(Allow, allow)];
      assert ChainLoads(chain) <==> PoliciesLoad(chain[0].policies) && PoliciesLoad(chain[1].policies);
    }
  }

  const STAR_HEADER := Header("k", ["*"])
  const STAR_POLICY := Policy("p", [], [Rule("a", None, [], [STAR_HEADER])])

  lemma StarHeaderIsGood()
    ensures GoodHeader(STAR_HEADER)
  {
    assert Lower("k") == "k" by { assert "k"[..0] == ""; }
    assert !("grpc-" <= "k");
    assert forall key | key in UNSUPPORTED :: |key| > 1;
  }

  /** An acceptable policy that never gets an engine. */
  lemma StarHeaderIsNotLoaded()
    ensures GoodPolicy(STAR_POLICY) && !ChainLoads(Chain(STAR_POLICY))
  {
    StarHeaderIsGood();
    assert HasStarHeader(STAR_POLICY.allow[0]) by { assert "*" in STAR_POLICY.allow[0].headers[0].values; }
    assert Survives(STAR_POLICY.allow, 0);
    EngineLoadsExactly(STAR_POLICY);
  }

  /** Do the compiled rules and the written ones agree on every call? */
  ghost predicate Faithful(star: Star, prefix: string, rules: seq<Rule>) {
    forall rpc :: SomePolicyMatches(star, PoliciesOf(prefix, rules), rpc) <==> SomeRuleMatches(star, rules, rpc)
  }

  ghost predicate HasNames(rules: seq<Rule>, names: seq<string>) {
    |rules| == |names| && forall i :: 0 <= i < |rules| ==> rules[i].name == names[i]
  }

  /** A rule that matches every call, and one that matches no call of the empty path. */
  function MatchAll(name: string): (r: Rule) { Rule(name, None, [], []) }

  function MatchElsewhere(name: string): (r: Rule) { Rule(name, None, ["/other"], []) }

  const PLAIN_CALL := Rpc("", map[], false, None)

  lemma SampleRules(star: Star, name: string)
    ensures RuleMatches(star, MatchAll(name), PLAIN_CALL) && !RuleMatches(star, MatchElsewhere(name), PLAIN_CALL)
  {
    assert MatchElsewhere(name).paths == ["/other"] && !Glob(star, "/other", "");
  }

  function OnlyMatching(names: seq<string>, i: nat): (rules: seq<Rule>) {
    seq(|names|, k requires 0 <= k < |names| => if k == i then MatchAll(names[k]) else MatchElsewhere(names[k]))
  }

  /** Distinct names are exactly what is needed: a repeated name makes the translation of some
      rules with those names lose a match. */
  lemma FaithfulExactlyForDistinctNames(star: Star, prefix: string, names: seq<string>)
    ensures (forall rules :: HasNames(rules, names) ==> Faithful(star, prefix, rules)) <==> NoDuplicates(names)
  {
    if NoDuplicates(names) {
      forall rules, rpc | HasNames(rules, names)
        ensures SomePolicyMatches(star, PoliciesOf(prefix, rules), rpc) <==> SomeRuleMatches(star, rules, rpc)
      {
        assert DistinctNames(rules);
        RulesPreserved(star, prefix, rules, rpc);
      }
    } else {
      var i, j :| 0 <= i < j < |names| && names[i] == names[j];
      RepeatedNameLosesMatch(star, prefix, names, i, j);
    }
  }

  lemma RepeatedNameLosesMatch(star: Star, prefix: string, names: seq<string>, i: nat, j: nat)
    requires i < j < |names| && names[i] == names[j]
    ensures HasNames(OnlyMatching(names, i), names) && !Faithful(star, prefix, OnlyMatching(names, i))
  {
    var rules := OnlyMatching(names, i);
    SurvivingRulesDecide(star, prefix, rules, PLAIN_CALL);
    SampleRules(star, names[i]);
    assert RuleMatches(star, rules[i], PLAIN_CALL);
    assert !Survives(rules, i) by { assert rules[j].name == rules[i].name; }
    forall k | 0 <= k < |rules| && k != i
      ensures !RuleMatches(star, rules[k], PLAIN_CALL)
    {
      SampleRules(star, names[k]);
    }
  }

  const OVERRIDDEN := Policy("p", [MatchAll("d"), MatchElsewhere("d")], [MatchAll("a")])

  /** Two deny rules of one name: the call matches the first, and is permitted all the same. */
  lemma OverriddenDenyRule(star: Star)
    ensures GoodPolicy(OVERRIDDEN) && SomeRuleMatches(star, OVERRIDDEN.deny, PLAIN_CALL)
    ensures Authorized(star, Chain(OVERRIDDEN), PLAIN_CALL)
  {
    var deny, allow := OVERRIDDEN.deny, OVERRIDDEN.allow;
    SampleRules(star, "d");
    SampleRules(star, "a");
    assert RuleMatches(star, deny[0], PLAIN_CALL) && RuleMatches(star, allow[0], PLAIN_CALL);
    assert !Survives(deny, 0) by { assert deny[1].name == deny[0].name; }
    assert Survives(allow, 0);
    SurvivingRulesDecide(star, OVERRIDDEN.name, deny, PLAIN_CALL);
    SurvivingRulesDecide(star, OVERRIDDEN.name, allow, PLAIN_CALL);
    ChainVerdict(star, OVERRIDDEN, PLAIN_CALL);
  }

  // ---- The translator --------------------------------------------------------------------------

  method ParsePrincipalNames(names: seq<string>) returns (ps: seq<Principal>)
    ensures ps == PrincipalNames(names)
  {
    ps := [];
    for i := 0 to |names|
      invariant |ps| == i && forall k :: 0 <= k < i ==> ps[k] == PrincipalNames(names)[k]
    {
      ps := ps + [Authenticated(Some(StringMatcherFor(names[i])))];
    }
  }

  method ParsePeer(source: Option<seq<string>>) returns (p: Principal)
    ensures p == PeerPrincipal(source)
  {
    if source.None? {
      return AnyPrincipal;
    }
    if |source.value| == 0 {
      return Authenticated(None);
    }
    var names := ParsePrincipalNames(source.value);
    return OrIds(names);
  }

  method ParsePaths(paths: seq<string>) returns (ps: seq<Permission>)
    ensures ps == Paths(paths)
  {
    ps := [];
    for i := 0 to |paths|
      invariant |ps| == i && forall k :: 0 <= k < i ==> ps[k] == Paths(paths)[k]
    {
      ps := ps + [UrlPath(StringMatcherFor(paths[i]))];
    }
  }

  method ParseHeaderValues(key: string, values: seq<string>) returns (ps: seq<Permission>)
    ensures ps == HeaderValues(key, values)
  {
    ps := [];
    for i := 0 to |values|
      invariant |ps| == i && forall k :: 0 <= k < i ==> ps[k] == HeaderValues(key, values)[k]
    {
      ps := ps + [HeaderIs(key, StringMatcherFor(values[i]))];
    }
  }

  /** What is wrong with a header, in the order of the checks. */
  ghost predicate IsHeaderFault(h: Header, fault: HeaderFault) {
    match fault
    case KeyMissing => h.key == ""
    case UnsupportedKey(key) => h.key != "" && key == Lower(h.key) && Unsupported(key)
    case ValuesMissing => h.key != "" && !Unsupported(Lower(h.key)) && h.values == []
  }

  ghost predicate IsRuleFault(rule: Rule, fault: RuleFault) {
    match fault
    case RuleNameMissing => rule.name == ""
    case BadHeader(i, f) =>
      rule.name != "" && i < |rule.headers| && IsHeaderFault(rule.headers[i], f) &&
      forall j :: 0 <= j < i ==> GoodHeader(rule.headers[j])
  }

  ghost predicate IsFirstBadRule(rules: seq<Rule>, i: nat, fault: RuleFault) {
    i < |rules| && IsRuleFault(rules[i], fault) && forall j :: 0 <= j < i ==> GoodRule(rules[j])
  }

  ghost predicate IsPolicyFault(policy: Policy, fault: PolicyFault) {
    match fault
    case PolicyNameMissing => policy.name == ""
    case AllowRulesMissing => policy.name != "" && policy.allow == []
    case BadDenyRule(i, f) => policy.name != "" && policy.allow != [] && IsFirstBadRule(policy.deny, i, f)
    case BadAllowRule(i, f) =>
      policy.name != "" && policy.allow != [] && GoodRules(policy.deny) && IsFirstBadRule(policy.allow, i, f)
  }

  method ParseHeaders(headers: seq<Header>) returns (r: Result<seq<Permission>, RuleFault>)
    ensures r.Ok? <==> forall i :: 0 <= i < |headers| ==> GoodHeader(headers[i])
    ensures r.Ok? ==> r.value == HeaderRules(headers)
    ensures r.Err? ==> forall rule: Rule :: rule.name != "" && rule.headers == headers ==> IsRuleFault(rule, r.error)
  {
    var hs := [];
    for i := 0 to |headers|
      invariant |hs| == i && forall k :: 0 <= k < i ==> hs[k] == HeaderRules(headers)[k]
      invariant forall k :: 0 <= k < i ==> GoodHeader(headers[k])
    {
      var header := headers[i];
      if header.key == "" {
        return Err(BadHeader(i, KeyMissing));
      }
      var key := Lower(header.key);
      if Unsupported(key) {
        return Err(BadHeader(i, UnsupportedKey(key)));
      }
      if |header.values| == 0 {
        return Err(BadHeader(i, ValuesMissing));
      }
      var values := ParseHeaderValues(key, header.values);
      hs := hs + [OrRules(values)];
    }
    return Ok(hs);
  }

  method ParseRequest(paths: seq<string>, headers: seq<Header>) returns (r: Result<Permission, RuleFault>)
    ensures r.Ok? <==> forall i :: 0 <= i < |headers| ==> GoodHeader(headers[i])
    ensures r.Ok? ==> r.value == RequestPermission(paths, headers)
    ensures r.Err? ==> forall rule: Rule :: rule.name != "" && rule.headers == headers ==> IsRuleFault(rule, r.error)
  {
    var and := [];
    if |paths| > 0 {
      var ps := ParsePaths(paths);
      and := and + [OrRules(ps)];
    }
    if |headers| > 0 {
      var hs := ParseHeaders(headers);
      if hs.Err? {
        return Err(hs.error);
      }
      and := and + [AndRules(hs.value)];
    }
    if |and| > 0 {
      return Ok(AndRules(and));
    }
    return Ok(AnyPermission);
  }

  method ParseRules(rules: seq<Rule>, prefix: string) returns (r: Result<map<string, RbacPolicy>, (nat, RuleFault)>)
    ensures r.Ok? <==> GoodRules(rules)
    ensures r.Ok? ==> r.value == PoliciesOf(prefix, rules)
    ensures r.Err? ==> IsFirstBadRule(rules, r.error.0, r.error.1)
  {
    var policies := map[];
    for i := 0 to |rules|
      invariant GoodRules(rules[..i]) && policies == PoliciesOf(prefix, rules[..i])
    {
      assert rules[..i + 1][..i] == rules[..i];
      var rule := rules[i];
      if rule.name == "" {
        return Err((i, RuleNameMissing));
      }
      var principal := ParsePeer(rule.principals);
      var permission := ParseRequest(rule.paths, rule.headers);
      if permission.Err? {
        return Err((i, permission.error));
      }
      policies := policies[prefix + "_" + rule.name := RbacPolicy([principal], [permission.value])];
    }
    assert rules[..|rules|] == rules;
    return Ok(policies);
  }

  /** Translation succeeds exactly on the acceptable policies and otherwise names the first fault. */
  method TranslatePolicy(policy: Policy) returns (r: Result<seq<RbacConfig>, PolicyFault>)
    ensures r.Ok? <==> GoodPolicy(policy)
    ensures r.Ok? ==> r.value == Chain(policy)
    ensures r.Err? ==> IsPolicyFault(policy, r.error)
  {
    if policy.name == "" {
      return Err(PolicyNameMissing);
    }
    if |policy.allow| == 0 {
      return Err(AllowRulesMissing);
    }
    var rbacs := [];
    if |policy.deny| > 0 {
      var deny := ParseRules(policy.deny, policy.name);
      if deny.Err? {
        return Err(BadDenyRule(deny.error.0, deny.error.1));
      }
      rbacs := rbacs + [RbacConfig(Deny, deny.value)];
    }
    var allow := ParseRules(policy.allow, policy.name);
    if allow.Err? {
      return Err(BadAllowRule(allow.error.0, allow.error.1));
    }
    return Ok(rbacs + [RbacConfig(Allow, allow.value)]);
  }
}
