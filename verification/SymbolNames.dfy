/** The symbols a file declares are the full names of its elements. */
module SymbolNames {
  import opened ReflectionGraph
  import opened SymbolIndexes

  function Join(parts: seq<string>): (s: string) {
    if parts == [] then ""
    else if |parts| == 1 then parts[0]
    else Join(parts[..|parts| - 1]) + "." + parts[|parts| - 1]
  }

  /** A dotted name; empty parts at its front are left out. */
  function FullName(parts: seq<string>): (s: string) {
    if parts != [] && parts[0] == "" then FullName(parts[1..]) else Join(parts)
  }

  lemma {:induction false} JoinNotEmpty(parts: seq<string>)
    requires parts != [] && parts[0] != ""
    ensures Join(parts) != ""
  {
  }

  lemma {:induction false} FqnExtends(parts: seq<string>, name: string)
    ensures Fqn(FullName(parts), name) == FullName(parts + [name])
  {
    if parts == [] {
      assert FullName([name]) == name by { assert [name][1..] == []; }
    } else if parts[0] == "" {
      FqnExtends(parts[1..], name);
      assert (parts + [name])[1..] == parts[1..] + [name];
    } else {
      JoinNotEmpty(parts);
      assert (parts + [name])[..|parts|] == parts;
    }
  }

  // ---- Paths to elements -----------------------------------------------------------------------

  /** The path leads to a name of the list. */
  predicate NameAt(names: seq<string>, path: seq<string>) {
    |path| == 1 && path[0] in names
  }

  /** The path, from the enclosing scope, leads to the enum or one of its values. */
  predicate EnumAt(en: Enum, path: seq<string>) {
    path != [] && path[0] == en.name && (|path| == 1 || NameAt(en.values, path[1..]))
  }

  ghost predicate SomeEnumAt(ens: seq<Enum>, path: seq<string>) {
    exists i :: 0 <= i < |ens| && EnumAt(ens[i], path)
  }

  predicate ServiceAt(svc: Service, path: seq<string>) {
    path != [] && path[0] == svc.name && (|path| == 1 || NameAt(svc.methods, path[1..]))
  }

  ghost predicate SomeServiceAt(svcs: seq<Service>, path: seq<string>) {
    exists i :: 0 <= i < |svcs| && ServiceAt(svcs[i], path)
  }

  /** The path leads to the message or to something declared in it, at any depth. */
  ghost predicate MessageAt(msg: Message, path: seq<string>)
    decreases msg
  {
    && path != [] && path[0] == msg.name
    && (|path| == 1
        || (exists i :: 0 <= i < |msg.nested| && MessageAt(msg.nested[i], path[1..]))
        || SomeEnumAt(msg.enums, path[1..])
        || NameAt(msg.extensions, path[1..]) || NameAt(msg.fields, path[1..]) || NameAt(msg.oneofs, path[1..]))
  }

  ghost predicate SomeMessageAt(msgs: seq<Message>, path: seq<string>) {
    exists i :: 0 <= i < |msgs| && MessageAt(msgs[i], path)
  }

  /** The path leads to an element the file declares. */
  ghost predicate ElementAt(f: File, path: seq<string>) {
    SomeMessageAt(f.messages, path) || SomeEnumAt(f.enums, path) || NameAt(f.extensions, path) ||
    SomeServiceAt(f.services, path)
  }

  // ---- Every element is a symbol ---------------------------------------------------------------

  lemma Below(parts: seq<string>, path: seq<string>)
    requires path != []
    ensures Fqn(FullName(parts), path[0]) == FullName(parts + [path[0]])
    ensures parts + path == parts + [path[0]] + path[1..]
    ensures |path| == 1 ==> parts + path == parts + [path[0]]
  {
    FqnExtends(parts, path[0]);
  }

  lemma NameIsSymbol(parts: seq<string>, names: seq<string>, path: seq<string>)
    requires NameAt(names, path)
    ensures FullName(parts + path) in Names(FullName(parts), names)
  {
    Below(parts, path);
  }

  lemma EnumIsSymbol(parts: seq<string>, en: Enum, path: seq<string>)
    requires EnumAt(en, path)
    ensures FullName(parts + path) in EnumSymbols(FullName(parts), en)
  {
    Below(parts, path);
    if |path| > 1 {
      NameIsSymbol(parts + [en.name], en.values, path[1..]);
    }
  }

  lemma {:induction false} EnumsAreSymbols(parts: seq<string>, ens: seq<Enum>, path: seq<string>)
    requires SomeEnumAt(ens, path)
    ensures FullName(parts + path) in EnumsSymbols(FullName(parts), ens)
  {
    var i :| 0 <= i < |ens| && EnumAt(ens[i], path);
    if i == |ens| - 1 {
      EnumIsSymbol(parts, ens[i], path);
    } else {
      assert EnumAt(ens[..|ens| - 1][i], path);
      EnumsAreSymbols(parts, ens[..|ens| - 1], path);
    }
  }

  lemma ServiceIsSymbol(parts: seq<string>, svc: Service, path: seq<string>)
    requires ServiceAt(svc, path)
    ensures FullName(parts + path) in ServiceSymbols(FullName(parts), svc)
  {
    Below(parts, path);
    if |path| > 1 {
      NameIsSymbol(parts + [svc.name], svc.methods, path[1..]);
    }
  }

  lemma {:induction false} ServicesAreSymbols(parts: seq<string>, svcs: seq<Service>, path: seq<string>)
    requires SomeServiceAt(svcs, path)
    ensures FullName(parts + path) in ServicesSymbols(FullName(parts), svcs)
  {
    var i :| 0 <= i < |svcs| && ServiceAt(svcs[i], path);
    if i == |svcs| - 1 {
      ServiceIsSymbol(parts, svcs[i], path);
    } else {
      assert ServiceAt(svcs[..|svcs| - 1][i], path);
      ServicesAreSymbols(parts, svcs[..|svcs| - 1], path);
    }
  }

  lemma {:induction false} MessageIsSymbol(parts: seq<string>, msg: Message, path: seq<string>)
    requires MessageAt(msg, path)
    ensures FullName(parts + path) in MessageSymbols(FullName(parts), msg)
    decreases msg
  {
    Below(parts, path);
    if |path| > 1 {
      var inner, rest := parts + [msg.name], path[1..];
      if i :| 0 <= i < |msg.nested| && MessageAt(msg.nested[i], rest) {
        MessagesAreSymbols(inner, msg.nested, i, rest);
      } else if SomeEnumAt(msg.enums, rest) {
        EnumsAreSymbols(inner, msg.enums, rest);
      } else if NameAt(msg.extensions, rest) {
        NameIsSymbol(inner, msg.extensions, rest);
      } else if NameAt(msg.fields, rest) {
        NameIsSymbol(inner, msg.fields, rest);
      } else {
        NameIsSymbol(inner, msg.oneofs, rest);
      }
    }
  }

  lemma {:induction false} MessagesAreSymbols(parts: seq<string>, msgs: seq<Message>, i: nat, path: seq<string>)
    requires i < |msgs| && MessageAt(msgs[i], path)
    ensures FullName(parts + path) in MessagesSymbols(FullName(parts), msgs)
    decreases msgs
  {
    if i == |msgs| - 1 {
      MessageIsSymbol(parts, msgs[i], path);
    } else {
      MessagesAreSymbols(parts, msgs[..|msgs| - 1], i, path);
    }
  }

  // ---- Every symbol is an element --------------------------------------------------------------

  lemma NameOfSymbol(parts: seq<string>, names: seq<string>, s: string) returns (path: seq<string>)
    requires s in Names(FullName(parts), names)
    ensures NameAt(names, path) && s == FullName(parts + path)
  {
    var n :| n in names && s == Fqn(FullName(parts), n);
    path := [n];
    Below(parts, path);
  }

  lemma EnumOfSymbol(parts: seq<string>, en: Enum, s: string) returns (path: seq<string>)
    requires s in EnumSymbols(FullName(parts), en)
    ensures EnumAt(en, path) && s == FullName(parts + path)
  {
    path := [en.name];
    Below(parts, path);
    if s != Fqn(FullName(parts), en.name) {
      var rest := NameOfSymbol(parts + [en.name], en.values, s);
      path := [en.name] + rest;
      Below(parts, path);
    }
  }

  lemma {:induction false} EnumsOfSymbol(parts: seq<string>, ens: seq<Enum>, s: string) returns (path: seq<string>)
    requires s in EnumsSymbols(FullName(parts), ens)
    ensures SomeEnumAt(ens, path) && s == FullName(parts + path)
  {
    var last := |ens| - 1;
    if s in EnumSymbols(FullName(parts), ens[last]) {
      path := EnumOfSymbol(parts, ens[last], s);
    } else {
      path := EnumsOfSymbol(parts, ens[..last], s);
      var i :| 0 <= i < last && EnumAt(ens[..last][i], path);
      assert EnumAt(ens[i], path);
    }
  }

  lemma ServiceOfSymbol(parts: seq<string>, svc: Service, s: string) returns (path: seq<string>)
    requires s in ServiceSymbols(FullName(parts), svc)
    ensures ServiceAt(svc, path) && s == FullName(parts + path)
  {
    path := [svc.name];
    Below(parts, path);
    if s != Fqn(FullName(parts), svc.name) {
      var rest := NameOfSymbol(parts + [svc.name], svc.methods, s);
      path := [svc.name] + rest;
      Below(parts, path);
    }
  }

  lemma {:induction false} ServicesOfSymbol(parts: seq<string>, svcs: seq<Service>, s: string)
    returns (path: seq<string>)
    requires s in ServicesSymbols(FullName(parts), svcs)
    ensures SomeServiceAt(svcs, path) && s == FullName(parts + path)
  {
    var last := |svcs| - 1;
    if s in ServiceSymbols(FullName(parts), svcs[last]) {
      path := ServiceOfSymbol(parts, svcs[last], s);
    } else {
      path := ServicesOfSymbol(parts, svcs[..last], s);
      var i :| 0 <= i < last && ServiceAt(svcs[..last][i], path);
      assert ServiceAt(svcs[i], path);
    }
  }

  lemma {:induction false} MessageOfSymbol(parts: seq<string>, msg: Message, s: string) returns (path: seq<string>)
    requires s in MessageSymbols(FullName(parts), msg)
    ensures MessageAt(msg, path) && s == FullName(parts + path)
    decreases msg
  {
    var name, inner := Fqn(FullName(parts), msg.name), parts + [msg.name];
    FqnExtends(parts, msg.name);
    path := [msg.name];
    if s != name {
      var rest;
      if s in MessagesSymbols(name, msg.nested) {
        var i, found := MessagesOfSymbol(inner, msg.nested, s);
        rest := found;
        assert MessageAt(msg.nested[i], rest);
      } else if s in EnumsSymbols(name, msg.enums) {
        rest := EnumsOfSymbol(inner, msg.enums, s);
        var i :| 0 <= i < |msg.enums| && EnumAt(msg.enums[i], rest);
      } else if s in Names(name, msg.extensions) {
        rest := NameOfSymbol(inner, msg.extensions, s);
      } else if s in Names(name, msg.fields) {
        rest := NameOfSymbol(inner, msg.fields, s);
      } else {
        rest := NameOfSymbol(inner, msg.oneofs, s);
      }
      path := [msg.name] + rest;
      Below(parts, path);
      assert path[1..] == rest;
    }
  }

  lemma {:induction false} MessagesOfSymbol(parts: seq<string>, msgs: seq<Message>, s: string)
    returns (i: nat, path: seq<string>)
    requires s in MessagesSymbols(FullName(parts), msgs)
    ensures i < |msgs| && MessageAt(msgs[i], path) && s == FullName(parts + path)
    decreases msgs
  {
    var last := |msgs| - 1;
    if s in MessageSymbols(FullName(parts), msgs[last]) {
      i := last;
      path := MessageOfSymbol(parts, msgs[last], s);
    } else {
      i, path := MessagesOfSymbol(parts, msgs[..last], s);
    }
  }

  // ---- The two together ------------------------------------------------------------------------

  lemma PackageIsName(package: string)
    ensures FullName([package]) == package
  {
    assert [package][1..] == [];
  }

  lemma ElementIsSymbol(f: File, path: seq<string>)
    requires ElementAt(f, path)
    ensures FullName([f.package] + path) in Declared(f)
  {
    PackageIsName(f.package);
    if SomeMessageAt(f.messages, path) {
      var i :| 0 <= i < |f.messages| && MessageAt(f.messages[i], path);
      MessagesAreSymbols([f.package], f.messages, i, path);
    } else if SomeEnumAt(f.enums, path) {
      EnumsAreSymbols([f.package], f.enums, path);
    } else if NameAt(f.extensions, path) {
      NameIsSymbol([f.package], f.extensions, path);
    } else {
      ServicesAreSymbols([f.package], f.services, path);
    }
  }

  lemma ElementOfSymbol(f: File, s: string) returns (path: seq<string>)
    requires s in Declared(f)
    ensures ElementAt(f, path) && s == FullName([f.package] + path)
  {
    PackageIsName(f.package);
    if s in MessagesSymbols(f.package, f.messages) {
      var i, found := MessagesOfSymbol([f.package], f.messages, s);
      path := found;
      assert SomeMessageAt(f.messages, path);
    } else if s in EnumsSymbols(f.package, f.enums) {
      path := EnumsOfSymbol([f.package], f.enums, s);
    } else if s in Names(f.package, f.extensions) {
      path := NameOfSymbol([f.package], f.extensions, s);
    } else {
      path := ServicesOfSymbol([f.package], f.services, s);
    }
  }

  /** A file declares exactly the dotted names, under its package, of its messages, fields, oneofs, enums, enum
      values, extensions, services and methods, however deeply they are nested. */
  lemma {:induction false} DeclaresFullNames(f: File, s: string)
    ensures s in Declared(f) <==> exists path :: ElementAt(f, path) && s == FullName([f.package] + path)
  {
    if s in Declared(f) {
      var path := ElementOfSymbol(f, s);
      assert ElementAt(f, path);
    }
    forall path | ElementAt(f, path) && s == FullName([f.package] + path)
      ensures s in Declared(f)
    {
      ElementIsSymbol(f, path);
    }
  }
}
