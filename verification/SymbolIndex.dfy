/** The symbol index of reflection/serverreflection.go: a depth-first walk over imported files. */
module SymbolIndexes {
  import opened Prelude
  import opened ReflectionGraph

  function Fqn(prefix: string, name: string): (full: string) {
    if prefix == "" then name else prefix + "." + name
  }

  // ---- The symbols a file declares -------------------------------------------------------------

  function Names(prefix: string, names: seq<string>): (symbols: set<string>) {
    set n | n in names :: Fqn(prefix, n)
  }

  function EnumSymbols(prefix: string, en: Enum): (symbols: set<string>) {
    {Fqn(prefix, en.name)} + Names(Fqn(prefix, en.name), en.values)
  }

  function EnumsSymbols(prefix: string, ens: seq<Enum>): (symbols: set<string>) {
    if ens == [] then {}
    else EnumsSymbols(prefix, ens[..|ens| - 1]) + EnumSymbols(prefix, ens[|ens| - 1])
  }

  function MessageSymbols(prefix: string, msg: Message): (symbols: set<string>)
    decreases msg
  {
    var name := Fqn(prefix, msg.name);
    {name} + MessagesSymbols(name, msg.nested) + EnumsSymbols(name, msg.enums) +
    Names(name, msg.extensions) + Names(name, msg.fields) + Names(name, msg.oneofs)
  }

  function MessagesSymbols(prefix: string, msgs: seq<Message>): (symbols: set<string>)
    decreases msgs
  {
    if msgs == [] then {}
    else MessagesSymbols(prefix, msgs[..|msgs| - 1]) + MessageSymbols(prefix, msgs[|msgs| - 1])
  }

  function ServiceSymbols(prefix: string, svc: Service): (symbols: set<string>) {
    {Fqn(prefix, svc.name)} + Names(Fqn(prefix, svc.name), svc.methods)
  }

  function ServicesSymbols(prefix: string, svcs: seq<Service>): (symbols: set<string>) {
    if svcs == [] then {}
    else ServicesSymbols(prefix, svcs[..|svcs| - 1]) + ServiceSymbols(prefix, svcs[|svcs| - 1])
  }

  function Declared(f: File): (symbols: set<string>) {
    MessagesSymbols(f.package, f.messages) + EnumsSymbols(f.package, f.enums) +
    Names(f.package, f.extensions) + ServicesSymbols(f.package, f.services)
  }

  /** `m` with every one of `symbols` pointing to `f`. */
  function Pointed(m: map<string, File>, symbols: set<string>, f: File): (r: map<string, File>) {
    m + map s | s in symbols :: f
  }

  lemma PointedOne(m: map<string, File>, symbol: string, f: File)
    ensures m[symbol := f] == Pointed(m, {symbol}, f)
  {
  }

  lemma PointedTwice(m: map<string, File>, a: set<string>, b: set<string>, f: File)
    ensures Pointed(Pointed(m, a, f), b, f) == Pointed(m, a + b, f)
  {
  }

  lemma PointedNone(m: map<string, File>, f: File)
    ensures Pointed(m, {}, f) == m
  {
  }

  ghost predicate Declares(env: Env, f: File, symbol: string, processed: set<string>)
    requires processed <= env.files.Keys
  {
    f.name in processed && f == env.files[f.name] && symbol in Declared(f)
  }

  /** The index covers exactly the symbols of the processed files, each mapped to a file declaring it. */
  ghost predicate Indexes(env: Env, symbols: map<string, File>, processed: set<string>) {
    && processed <= env.files.Keys
    && (forall n, s :: n in processed && s in Declared(env.files[n]) ==> s in symbols)
    && (forall s :: s in symbols ==> Declares(env, symbols[s], s, processed))
  }

  /** Every file processed since `before` is reachable from `root`. */
  ghost predicate ReachedFrom(env: Env, root: string, before: set<string>, now: set<string>) {
    forall n :: n in now && n !in before ==> Reachable(env, root, n)
  }

  lemma IndexesMore(env: Env, symbols: map<string, File>, processed: set<string>, n: string)
    requires WellFormed(env) && n in env.files && Indexes(env, symbols, processed)
    ensures Indexes(env, Pointed(symbols, Declared(env.files[n]), env.files[n]), processed + {n})
  {
  }

  lemma ReachedThroughImport(env: Env, root: string, dep: string, before: set<string>, mid: set<string>,
                             now: set<string>)
    requires Imports(env, root, dep)
    requires ReachedFrom(env, root, before, mid) && ReachedFrom(env, dep, mid, now)
    ensures ReachedFrom(env, root, before, now)
  {
    forall n | n in now && n !in before
      ensures Reachable(env, root, n)
    {
      if n !in mid {
        ImportThenReach(env, root, dep, n);
      }
    }
  }

  /** What the registered services lead to. */
  ghost predicate ReachableFromAny(env: Env, roots: seq<Option<string>>, n: string) {
    exists i :: 0 <= i < |roots| && roots[i].Some? && Reachable(env, roots[i].value, n)
  }

  class SymbolIndex {
    const env: Env
    var symbols: map<string, File>
    var processed: set<string>

    constructor (e: Env)
      ensures env == e && symbols == map[] && processed == {}
    {
      env, symbols, processed := e, map[], {};
    }

    method Point(symbol: string, fd: File, ghost before: map<string, File>, ghost done: set<string>)
      requires symbols == Pointed(before, done, fd)
      modifies `symbols
      ensures symbols == Pointed(before, done + {symbol}, fd)
    {
      PointedOne(symbols, symbol, fd);
      PointedTwice(before, done, {symbol}, fd);
      symbols := symbols[symbol := fd];
    }

    method ProcessNames(fd: File, prefix: string, names: seq<string>, ghost before: map<string, File>,
                        ghost done: set<string>)
      requires symbols == Pointed(before, done, fd)
      modifies `symbols
      ensures symbols == Pointed(before, done + Names(prefix, names), fd)
    {
      NamesNone(done, prefix);
      assert names[..0] == [];
      for i := 0 to |names|
        invariant symbols == Pointed(before, done + Names(prefix, names[..i]), fd)
      {
        NamesNext(done, prefix, names, i);
        Point(Fqn(prefix, names[i]), fd, before, done + Names(prefix, names[..i]));
      }
      assert names[..|names|] == names;
    }

    method ProcessEnum(fd: File, prefix: string, en: Enum, ghost before: map<string, File>, ghost done: set<string>)
      requires symbols == Pointed(before, done, fd)
      modifies `symbols
      ensures symbols == Pointed(before, done + EnumSymbols(prefix, en), fd)
    {
      var enName := Fqn(prefix, en.name);
      Point(enName, fd, before, done);
      ProcessNames(fd, enName, en.values, before, done + {enName});
      assert done + {enName} + Names(enName, en.values) == done + EnumSymbols(prefix, en);
    }

    method ProcessEnums(fd: File, prefix: string, ens: seq<Enum>, ghost before: map<string, File>,
                        ghost done: set<string>)
      requires symbols == Pointed(before, done, fd)
      modifies `symbols
      ensures symbols == Pointed(before, done + EnumsSymbols(prefix, ens), fd)
    {
      assert ens[..0] == [];
      assert done + EnumsSymbols(prefix, []) == done;
      for i := 0 to |ens|
        invariant symbols == Pointed(before, done + EnumsSymbols(prefix, ens[..i]), fd)
      {
        EnumsSymbolsNext(prefix, ens, i);
        ProcessEnum(fd, prefix, ens[i], before, done + EnumsSymbols(prefix, ens[..i]));
        Regroup(done, EnumsSymbols(prefix, ens[..i]), EnumSymbols(prefix, ens[i]));
      }
      assert ens[..|ens|] == ens;
    }

    method ProcessMessage(fd: File, prefix: string, msg: Message, ghost before: map<string, File>,
                          ghost done: set<string>)
      requires symbols == Pointed(before, done, fd)
      modifies `symbols
      ensures symbols == Pointed(before, done + MessageSymbols(prefix, msg), fd)
      decreases msg
    {
      var msgName := Fqn(prefix, msg.name);
      Point(msgName, fd, before, done);
      ghost var all := done + {msgName};
      ProcessMessages(fd, msgName, msg.nested, before, all);
      all := all + MessagesSymbols(msgName, msg.nested);
      ProcessEnums(fd, msgName, msg.enums, before, all);
      all := all + EnumsSymbols(msgName, msg.enums);
      ProcessNames(fd, msgName, msg.extensions, before, all);
      all := all + Names(msgName, msg.extensions);
      ProcessNames(fd, msgName, msg.fields, before, all);
      all := all + Names(msgName, msg.fields);
      ProcessNames(fd, msgName, msg.oneofs, before, all);
      all := all + Names(msgName, msg.oneofs);
      MessageSymbolsParts(done, prefix, msg);
    }

    method ProcessMessages(fd: File, prefix: string, msgs: seq<Message>, ghost before: map<string, File>,
                           ghost done: set<string>)
      requires symbols == Pointed(before, done, fd)
      modifies `symbols
      ensures symbols == Pointed(before, done + MessagesSymbols(prefix, msgs), fd)
      decreases msgs
    {
      assert msgs[..0] == [];
      assert done + MessagesSymbols(prefix, []) == done;
      for i := 0 to |msgs|
        invariant symbols == Pointed(before, done + MessagesSymbols(prefix, msgs[..i]), fd)
      {
        MessagesSymbolsNext(prefix, msgs, i);
        ProcessMessage(fd, prefix, msgs[i], before, done + MessagesSymbols(prefix, msgs[..i]));
        Regroup(done, MessagesSymbols(prefix, msgs[..i]), MessageSymbols(prefix, msgs[i]));
      }
      assert msgs[..|msgs|] == msgs;
    }

    method ProcessService(fd: File, prefix: string, svc: Service, ghost before: map<string, File>,
                          ghost done: set<string>)
      requires symbols == Pointed(before, done, fd)
      modifies `symbols
      ensures symbols == Pointed(before, done + ServiceSymbols(prefix, svc), fd)
    {
      var svcName := Fqn(prefix, svc.name);
      Point(svcName, fd, before, done);
      ProcessNames(fd, svcName, svc.methods, before, done + {svcName});
      assert done + {svcName} + Names(svcName, svc.methods) == done + ServiceSymbols(prefix, svc);
    }

    method ProcessServices(fd: File, prefix: string, svcs: seq<Service>, ghost before: map<string, File>,
                           ghost done: set<string>)
      requires symbols == Pointed(before, done, fd)
      modifies `symbols
      ensures symbols == Pointed(before, done + ServicesSymbols(prefix, svcs), fd)
    {
      assert svcs[..0] == [];
      assert done + ServicesSymbols(prefix, []) == done;
      for i := 0 to |svcs|
        invariant symbols == Pointed(before, done + ServicesSymbols(prefix, svcs[..i]), fd)
      {
        ServicesSymbolsNext(prefix, svcs, i);
        ProcessService(fd, prefix, svcs[i], before, done + ServicesSymbols(prefix, svcs[..i]));
        Regroup(done, ServicesSymbols(prefix, svcs[..i]), ServiceSymbols(prefix, svcs[i]));
      }
      assert svcs[..|svcs|] == svcs;
    }

    method ProcessSymbols(fd: File)
      modifies `symbols
      ensures symbols == Pointed(old(symbols), Declared(fd), fd)
    {
      PointedNone(symbols, fd);
      ghost var before, all := symbols, {};
      ProcessMessages(fd, fd.package, fd.messages, before, all);
      all := all + MessagesSymbols(fd.package, fd.messages);
      ProcessEnums(fd, fd.package, fd.enums, before, all);
      all := all + EnumsSymbols(fd.package, fd.enums);
      ProcessNames(fd, fd.package, fd.extensions, before, all);
      all := all + Names(fd.package, fd.extensions);
      ProcessServices(fd, fd.package, fd.services, before, all);
      DeclaredParts(fd);
    }

    /** Imports may be cyclic: the walk ends because each call first marks a new file. */
    method ProcessFile(fd: File)
      requires WellFormed(env) && fd.name in env.files && env.files[fd.name] == fd
      requires Indexes(env, symbols, processed)
      modifies this
      ensures Indexes(env, symbols, processed)
      ensures old(processed) <= processed && fd.name in processed
      ensures ReachedFrom(env, fd.name, old(processed), processed)
      ensures Closed(env, processed - old(processed), processed)
      decreases env.files.Keys - processed
    {
      if fd.name in processed {
        return;
      }
      processed := processed + {fd.name};
      ProcessSymbols(fd);
      IndexesMore(env, old(symbols), old(processed), fd.name);
      ReachesItself(env, fd.name);
      for i := 0 to |fd.deps|
        invariant Indexes(env, symbols, processed)
        invariant old(processed) + {fd.name} <= processed
        invariant ReachedFrom(env, fd.name, old(processed), processed)
        invariant Closed(env, processed - old(processed) - {fd.name}, processed)
        invariant forall j :: 0 <= j < i && fd.deps[j] in env.registered ==> fd.deps[j] in processed
      {
        if fd.deps[i] in env.registered {
          ghost var mid := processed;
          ProcessFile(env.files[fd.deps[i]]);
          ReachedThroughImport(env, fd.name, fd.deps[i], old(processed), mid, processed);
        }
      }
    }

    /** getSymbols: the services whose metadata does not lead to a descriptor are skipped. */
    method GetSymbols(services: seq<Option<string>>)
      requires WellFormed(env) && symbols == map[] && processed == {}
      requires forall i :: 0 <= i < |services| && services[i].Some? ==> services[i].value in env.files
      modifies this
      ensures Indexes(env, symbols, processed)
      ensures forall n :: n in processed <==> ReachableFromAny(env, services, n)
    {
      for i := 0 to |services|
        invariant Indexes(env, symbols, processed)
        invariant Walked(env, services, i, processed)
      {
        if services[i].Some? {
          ghost var before := processed;
          ProcessFile(env.files[services[i].value]);
          WalkedNext(env, services, i, before, processed);
        } else {
          WalkedSkip(env, services, i, processed);
        }
      }
      WalkedAll(env, services, processed);
    }
  }

  /** The files of the first `i` services and all they import have been processed, and nothing else. */
  ghost predicate Walked(env: Env, services: seq<Option<string>>, i: nat, processed: set<string>) {
    && i <= |services|
    && Closed(env, processed, {})
    && (forall n :: n in processed ==> ReachableFromAny(env, services, n))
    && (forall j :: 0 <= j < i && services[j].Some? ==> services[j].value in processed)
  }

  lemma WalkedSkip(env: Env, services: seq<Option<string>>, i: nat, processed: set<string>)
    requires Walked(env, services, i, processed) && i < |services| && services[i].None?
    ensures Walked(env, services, i + 1, processed)
  {
  }

  lemma WalkedNext(env: Env, services: seq<Option<string>>, i: nat, before: set<string>, now: set<string>)
    requires Walked(env, services, i, before) && i < |services| && services[i].Some?
    requires before <= now && services[i].value in now
    requires ReachedFrom(env, services[i].value, before, now) && Closed(env, now - before, now)
    ensures Walked(env, services, i + 1, now)
  {
  }

  lemma WalkedAll(env: Env, services: seq<Option<string>>, processed: set<string>)
    requires Walked(env, services, |services|, processed)
    ensures forall n :: n in processed <==> ReachableFromAny(env, services, n)
  {
    forall n | ReachableFromAny(env, services, n)
      ensures n in processed
    {
      var i :| 0 <= i < |services| && services[i].Some? && Reachable(env, services[i].value, n);
      ClosedHoldsReachable(env, processed, services[i].value, n);
    }
  }

  lemma Regroup(a: set<string>, b: set<string>, c: set<string>)
    ensures a + b + c == a + (b + c)
  {
  }

  lemma NamesNone(done: set<string>, prefix: string)
    ensures done + Names(prefix, []) == done
  {
  }

  lemma NamesNext(done: set<string>, prefix: string, names: seq<string>, i: nat)
    requires i < |names|
    ensures done + Names(prefix, names[..i + 1]) == done + Names(prefix, names[..i]) + {Fqn(prefix, names[i])}
  {
    assert names[..i + 1] == names[..i] + [names[i]];
  }

  lemma MessageSymbolsParts(done: set<string>, prefix: string, msg: Message)
    ensures var name := Fqn(prefix, msg.name);
            done + MessageSymbols(prefix, msg) ==
            done + {name} + MessagesSymbols(name, msg.nested) + EnumsSymbols(name, msg.enums) +
            Names(name, msg.extensions) + Names(name, msg.fields) + Names(name, msg.oneofs)
  {
  }

  lemma DeclaredParts(f: File)
    ensures Declared(f) == {} + MessagesSymbols(f.package, f.messages) + EnumsSymbols(f.package, f.enums) +
                           Names(f.package, f.extensions) + ServicesSymbols(f.package, f.services)
  {
  }

  lemma EnumsSymbolsNext(prefix: string, ens: seq<Enum>, i: nat)
    requires i < |ens|
    ensures EnumsSymbols(prefix, ens[..i + 1]) == EnumsSymbols(prefix, ens[..i]) + EnumSymbols(prefix, ens[i])
  {
    assert ens[..i + 1][..i] == ens[..i];
  }

  lemma MessagesSymbolsNext(prefix: string, msgs: seq<Message>, i: nat)
    requires i < |msgs|
    ensures MessagesSymbols(prefix, msgs[..i + 1]) ==
            MessagesSymbols(prefix, msgs[..i]) + MessageSymbols(prefix, msgs[i])
  {
    assert msgs[..i + 1][..i] == msgs[..i];
  }

  lemma ServicesSymbolsNext(prefix: string, svcs: seq<Service>, i: nat)
    requires i < |svcs|
    ensures ServicesSymbols(prefix, svcs[..i + 1]) ==
            ServicesSymbols(prefix, svcs[..i]) + ServiceSymbols(prefix, svcs[i])
  {
    assert svcs[..i + 1][..i] == svcs[..i];
  }
}
