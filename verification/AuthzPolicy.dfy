/** The authorization policy a user writes, and what it means. */
module AuthzPolicies {
  import opened Prelude

  datatype Header = Header(key: string, values: seq<string>)

  /** `principals` is None when the field is absent, which differs from an empty list. */
  datatype Rule = Rule(name: string, principals: Option<seq<string>>, paths: seq<string>, headers: seq<Header>)

  datatype Policy = Policy(name: string, deny: seq<Rule>, allow: seq<Rule>)

  /** The names in a client certificate. */
  datatype Cert = Cert(uris: seq<string>, dnsNames: seq<string>, subject: string)

  /** What is known of a call; header values are already joined with commas. */
  datatype Rpc = Rpc(path: string, headers: map<string, string>, tls: bool, cert: Option<Cert>)

  /** The empty regular expression that stands for "*", left abstract. */
  type Star = string -> bool

  function LowerChar(c: char): (r: char) {
    if 'A' <= c <= 'Z' then c - 'A' + 'a' else c
  }

  function Lower(s: string): (r: string)
    ensures |r| == |s|
  {
    if s == "" then "" else Lower(s[..|s| - 1]) + [LowerChar(s[|s| - 1])]
  }

  /** The same letter, in whatever case. */
  predicate SameLetter(a: char, b: char) {
    a == b || ('a' <= a <= 'z' && b as int == a as int - 32) || ('a' <= b <= 'z' && a as int == b as int - 32)
  }

  predicate SameUpToCase(s: string, t: string) {
    |s| == |t| && forall i :: 0 <= i < |s| ==> SameLetter(s[i], t[i])
  }

  lemma {:induction false} LowerAt(s: string, i: nat)
    requires i < |s|
    ensures Lower(s)[i] == LowerChar(s[i])
  {
    if i < |s| - 1 {
      LowerAt(s[..|s| - 1], i);
    }
  }

  /** Lower has no capitals and changes nothing but case. */
  lemma {:induction false} LowerIsLower(s: string)
    ensures SameUpToCase(Lower(s), s)
    ensures forall i :: 0 <= i < |s| ==> !('A' <= Lower(s)[i] <= 'Z')
  {
    forall i | 0 <= i < |s|
      ensures SameLetter(Lower(s)[i], s[i]) && !('A' <= Lower(s)[i] <= 'Z')
    {
      LowerAt(s, i);
    }
  }

  lemma {:induction false} LowerForgetsCase(s: string, t: string)
    ensures Lower(s) == Lower(t) <==> SameUpToCase(s, t)
  {
    if |s| == |t| {
      forall i | 0 <= i < |s|
        ensures Lower(s)[i] == Lower(t)[i] <==> SameLetter(s[i], t[i])
      {
        LowerAt(s, i);
        LowerAt(t, i);
      }
    }
  }

  /** The names a principal pattern is tried against. */
  function Identities(rpc: Rpc): (names: seq<string>) {
    match rpc.cert
    case None => [""]
    case Some(cert) => cert.uris + cert.dnsNames + [cert.subject]
  }

  ghost predicate IsConcat(s: string, a: string, b: string) {
    s == a + b
  }

  ghost predicate Begins(s: string, a: string) {
    exists w :: IsConcat(s, a, w)
  }

  ghost predicate Ends(s: string, b: string) {
    exists w :: IsConcat(s, w, b)
  }

  /** A pattern with at most one wildcard, at its end or at its start. */
  ghost predicate Glob(star: Star, pattern: string, s: string) {
    if pattern == "*" then star(s)
    else if pattern != "" && pattern[|pattern| - 1] == '*' then Begins(s, pattern[..|pattern| - 1])
    else if pattern != "" && pattern[0] == '*' then Ends(s, pattern[1..])
    else s == pattern
  }

  ghost predicate SomeGlob(star: Star, patterns: seq<string>, s: string) {
    exists i :: 0 <= i < |patterns| && Glob(star, patterns[i], s)
  }

  ghost predicate PeerMatches(star: Star, principals: Option<seq<string>>, rpc: Rpc) {
    match principals
    case None => true
    case Some(names) =>
      rpc.tls && (names == [] || exists k :: 0 <= k < |Identities(rpc)| && SomeGlob(star, names, Identities(rpc)[k]))
  }

  ghost predicate HeaderMatches(star: Star, h: Header, rpc: Rpc) {
    Lower(h.key) in rpc.headers && SomeGlob(star, h.values, rpc.headers[Lower(h.key)])
  }

  /** A rule matches when its source, one of its paths and every one of its headers match;
      a part that is not given matches everything. */
  ghost predicate RuleMatches(star: Star, rule: Rule, rpc: Rpc) {
    && PeerMatches(star, rule.principals, rpc)
    && (rule.paths == [] || SomeGlob(star, rule.paths, rpc.path))
    && forall i :: 0 <= i < |rule.headers| ==> HeaderMatches(star, rule.headers[i], rpc)
  }

  ghost predicate SomeRuleMatches(star: Star, rules: seq<Rule>, rpc: Rpc) {
    exists i :: 0 <= i < |rules| && RuleMatches(star, rules[i], rpc)
  }

  /** The promise of the policy: no deny rule matches and some allow rule does. */
  ghost predicate Permits(star: Star, policy: Policy, rpc: Rpc) {
    !SomeRuleMatches(star, policy.deny, rpc) && SomeRuleMatches(star, policy.allow, rpc)
  }

  // ---- Which policies are accepted -------------------------------------------------------------

  datatype HeaderFault = KeyMissing | UnsupportedKey(key: string) | ValuesMissing

  datatype RuleFault = RuleNameMissing | BadHeader(index: nat, fault: HeaderFault)

  datatype PolicyFault =
    | PolicyNameMissing
    | AllowRulesMissing
    | BadDenyRule(index: nat, fault: RuleFault)
    | BadAllowRule(index: nat, fault: RuleFault)

  const UNSUPPORTED := {
    "host", "connection", "keep-alive", "proxy-authenticate", "proxy-authorization",
    "te", "trailer", "transfer-encoding", "upgrade"}

  predicate Unsupported(key: string)
    requires key != ""
  {
    key[0] == ':' || "grpc-" <= key || key in UNSUPPORTED
  }

  predicate GoodHeader(h: Header) {
    h.key != "" && !Unsupported(Lower(h.key)) && h.values != []
  }

  /** Headers whose keys differ only in case are accepted alike and match alike. */
  lemma {:induction false} KeysIgnoreCase(star: Star, h: Header, h': Header, rpc: Rpc)
    requires SameUpToCase(h.key, h'.key) && h.values == h'.values
    ensures GoodHeader(h) <==> GoodHeader(h')
    ensures HeaderMatches(star, h, rpc) <==> HeaderMatches(star, h', rpc)
  {
    LowerForgetsCase(h.key, h'.key);
  }

  lemma LowerOfLower(s: string)
    requires forall i :: 0 <= i < |s| ==> !('A' <= s[i] <= 'Z')
    ensures Lower(s) == s
  {
    forall i | 0 <= i < |s|
      ensures Lower(s)[i] == s[i]
    {
      LowerAt(s, i);
    }
  }

  /** The hop-by-hop headers. */
  ghost predicate Listed(key: string) {
    || key == "host" || key == "connection" || key == "keep-alive" || key == "proxy-authenticate"
    || key == "proxy-authorization" || key == "te" || key == "trailer" || key == "transfer-encoding"
    || key == "upgrade"
  }

  lemma UnsupportedIs(key: string)
    requires key != ""
    ensures Unsupported(key) <==> Begins(key, ":") || Begins(key, "grpc-") || Listed(key)
  {
    assert key in UNSUPPORTED <==> Listed(key);
    BeginsIsPrefix(key, ":");
    BeginsIsPrefix(key, "grpc-");
  }

  /** A header is refused if it has no values or its key, in lower case, is empty, starts with a colon or
      "grpc-", or is on the list. */
  lemma {:induction false} RefusedKeys(h: Header, key: string)
    requires SameUpToCase(h.key, key) && forall i :: 0 <= i < |key| ==> !('A' <= key[i] <= 'Z')
    ensures GoodHeader(h) <==>
            h.values != [] && key != "" && !Begins(key, ":") && !Begins(key, "grpc-") && !Listed(key)
  {
    LowerForgetsCase(h.key, key);
    LowerOfLower(key);
    if key != "" {
      UnsupportedIs(key);
    }
  }

  lemma BeginsIsPrefix(s: string, a: string)
    ensures Begins(s, a) <==> a <= s
  {
    if a <= s {
      assert IsConcat(s, a, s[|a|..]);
    }
  }

  ghost predicate GoodRule(rule: Rule) {
    rule.name != "" && forall i :: 0 <= i < |rule.headers| ==> GoodHeader(rule.headers[i])
  }

  ghost predicate GoodRules(rules: seq<Rule>) {
    forall i :: 0 <= i < |rules| ==> GoodRule(rules[i])
  }

  ghost predicate GoodPolicy(policy: Policy) {
    policy.name != "" && policy.allow != [] && GoodRules(policy.deny) && GoodRules(policy.allow)
  }
}

/** The RBAC policies the engine evaluates. */
module Rbac {
  import opened Prelude
  import opened AuthzPolicies

  datatype StringMatcher = Exact(s: string) | Prefix(s: string) | Suffix(s: string) | EmptyRegex

  datatype Permission =
    | AndRules(all: seq<Permission>)
    | OrRules(some: seq<Permission>)
    | AnyPermission
    | UrlPath(path: StringMatcher)
    | HeaderIs(key: string, value: StringMatcher)

  datatype Principal = OrIds(ids: seq<Principal>) | AnyPrincipal | Authenticated(name: Option<StringMatcher>)

  datatype RbacPolicy = RbacPolicy(principals: seq<Principal>, permissions: seq<Permission>)

  datatype Action = Allow | Deny

  datatype RbacConfig = RbacConfig(action: Action, policies: map<string, RbacPolicy>)

  ghost predicate Matches(star: Star, m: StringMatcher, s: string) {
    match m
    case Exact(x) => s == x
    case Prefix(x) => x <= s
    case Suffix(x) => |x| <= |s| && s[|s| - |x|..] == x
    case EmptyRegex => star(s)
  }

  ghost predicate Grants(star: Star, p: Permission, rpc: Rpc) {
    match p
    case AndRules(ps) => forall i :: 0 <= i < |ps| ==> Grants(star, ps[i], rpc)
    case OrRules(ps) => exists i :: 0 <= i < |ps| && Grants(star, ps[i], rpc)
    case AnyPermission => true
    case UrlPath(m) => Matches(star, m, rpc.path)
    case HeaderIs(key, m) => key in rpc.headers && Matches(star, m, rpc.headers[key])
  }

  ghost predicate Names(star: Star, p: Principal, rpc: Rpc) {
    match p
    case OrIds(ps) => exists i :: 0 <= i < |ps| && Names(star, ps[i], rpc)
    case AnyPrincipal => true
    case Authenticated(None) => rpc.tls
    case Authenticated(Some(m)) =>
      rpc.tls &&
      match rpc.cert {
        case None => Matches(star, m, "")
        case Some(cert) =>
          || (exists k :: 0 <= k < |cert.uris| && Matches(star, m, cert.uris[k]))
          || (exists k :: 0 <= k < |cert.dnsNames| && Matches(star, m, cert.dnsNames[k]))
          || Matches(star, m, cert.subject)
      }
  }

  ghost predicate PolicyMatches(star: Star, p: RbacPolicy, rpc: Rpc) {
    && (exists i :: 0 <= i < |p.permissions| && Grants(star, p.permissions[i], rpc))
    && (exists i :: 0 <= i < |p.principals| && Names(star, p.principals[i], rpc))
  }

  ghost predicate SomePolicyMatches(star: Star, policies: map<string, RbacPolicy>, rpc: Rpc) {
    exists n :: n in policies && PolicyMatches(star, policies[n], rpc)
  }

  /** IsAuthorized: every engine of the chain is asked. */
  ghost predicate Authorized(star: Star, chain: seq<RbacConfig>, rpc: Rpc) {
    forall i :: 0 <= i < |chain| ==> (chain[i].action.Allow? <==> SomePolicyMatches(star, chain[i].policies, rpc))
  }

  // ---- What the engine refuses to load ---------------------------------------------------------

  /** StringMatcherFromProto: an empty prefix or suffix is an error. */
  predicate Loads(m: StringMatcher) {
    (m.Prefix? || m.Suffix?) ==> m.s != ""
  }

  lemma LoadsExactly(m: StringMatcher)
    ensures Loads(m) <==> m != Prefix("") && m != Suffix("")
  {
  }

  /** newHeaderMatcher checks nothing, but reads the expression of a regular-expression matcher
      through a pointer that is nil for the empty one, and so never returns. */
  predicate HeaderLoads(m: StringMatcher) {
    !m.EmptyRegex?
  }

  ghost predicate PermissionLoads(p: Permission) {
    match p
    case AndRules(ps) => forall i :: 0 <= i < |ps| ==> PermissionLoads(ps[i])
    case OrRules(ps) => forall i :: 0 <= i < |ps| ==> PermissionLoads(ps[i])
    case AnyPermission => true
    case UrlPath(m) => Loads(m)
    case HeaderIs(_, m) => HeaderLoads(m)
  }

  ghost predicate PrincipalLoads(p: Principal) {
    match p
    case OrIds(ps) => forall i :: 0 <= i < |ps| ==> PrincipalLoads(ps[i])
    case AnyPrincipal => true
    case Authenticated(None) => true
    case Authenticated(Some(m)) => Loads(m)
  }

  ghost predicate PolicyLoads(p: RbacPolicy) {
    && (forall i :: 0 <= i < |p.permissions| ==> PermissionLoads(p.permissions[i]))
    && (forall i :: 0 <= i < |p.principals| ==> PrincipalLoads(p.principals[i]))
  }

  ghost predicate ChainLoads(chain: seq<RbacConfig>) {
    forall i, n :: 0 <= i < |chain| && n in chain[i].policies ==> PolicyLoads(chain[i].policies[n])
  }
}
