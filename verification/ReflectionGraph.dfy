/** File descriptors and the import graph that server reflection walks. */
module ReflectionGraph {
  datatype Enum = Enum(name: string, values: seq<string>)

  datatype Message = Message(
    name: string, nested: seq<Message>, enums: seq<Enum>,
    extensions: seq<string>, fields: seq<string>, oneofs: seq<string>)

  datatype Service = Service(name: string, methods: seq<string>)

  datatype File = File(
    name: string, package: string, messages: seq<Message>, enums: seq<Enum>,
    extensions: seq<string>, services: seq<Service>, deps: seq<string>)

  /** Every file that can turn up, by name, and the names whose registered descriptor can be decoded. */
  datatype Env = Env(files: map<string, File>, registered: set<string>)

  ghost predicate WellFormed(env: Env) {
    && env.registered <= env.files.Keys
    && forall n :: n in env.files ==> env.files[n].name == n
  }

  /** `a` imports `b`, and the descriptor of `b` is registered and decodes. */
  ghost predicate Imports(env: Env, a: string, b: string) {
    a in env.files && b in env.files[a].deps && b in env.registered
  }

  ghost predicate Path(env: Env, p: seq<string>) {
    p != [] && forall i :: 0 <= i < |p| - 1 ==> Imports(env, p[i], p[i + 1])
  }

  ghost predicate PathBetween(env: Env, p: seq<string>, a: string, b: string) {
    Path(env, p) && p[0] == a && p[|p| - 1] == b
  }

  ghost predicate Reachable(env: Env, a: string, b: string) {
    exists p :: PathBetween(env, p, a, b)
  }

  lemma ReachesItself(env: Env, a: string)
    ensures Reachable(env, a, a)
  {
    assert PathBetween(env, [a], a, a);
  }

  lemma ImportThenReach(env: Env, a: string, b: string, c: string)
    requires Imports(env, a, b) && Reachable(env, b, c)
    ensures Reachable(env, a, c)
  {
    var p :| PathBetween(env, p, b, c);
    assert PathBetween(env, [a] + p, a, c);
  }

  lemma ReachThenImport(env: Env, a: string, b: string, c: string)
    requires Reachable(env, a, b) && Imports(env, b, c)
    ensures Reachable(env, a, c)
  {
    var p :| PathBetween(env, p, a, b);
    assert PathBetween(env, p + [c], a, c);
  }

  lemma FirstImport(env: Env, a: string, c: string) returns (b: string)
    requires Reachable(env, a, c) && a != c
    ensures Imports(env, a, b) && Reachable(env, b, c)
  {
    var p :| PathBetween(env, p, a, c);
    b := p[1];
    assert Imports(env, p[0], p[0 + 1]);
    forall i | 0 <= i < |p[1..]| - 1
      ensures Imports(env, p[1..][i], p[1..][i + 1])
    {
      assert Imports(env, p[i + 1], p[i + 1 + 1]);
    }
    assert PathBetween(env, p[1..], b, c);
  }

  /** Every import of a file in `s` is in `s` or in `more`. */
  ghost predicate Closed(env: Env, s: set<string>, more: set<string>) {
    forall a, b :: a in s && Imports(env, a, b) ==> b in s + more
  }

  lemma {:induction false} ClosedHoldsPath(env: Env, s: set<string>, p: seq<string>, i: nat)
    requires Closed(env, s, {}) && Path(env, p) && p[0] in s && i < |p|
    ensures p[i] in s
  {
    if i > 0 {
      ClosedHoldsPath(env, s, p, i - 1);
      assert Imports(env, p[i - 1], p[i - 1 + 1]);
    }
  }

  lemma ClosedHoldsReachable(env: Env, s: set<string>, a: string, b: string)
    requires Closed(env, s, {}) && a in s && Reachable(env, a, b)
    ensures b in s
  {
    var p :| PathBetween(env, p, a, b);
    ClosedHoldsPath(env, s, p, |p| - 1);
  }
}
