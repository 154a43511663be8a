/**
 * The AST usage scanner (core/code_scanner.py). A parsed file is a small
 * typed syntax tree; `Walk` is the depth-first walk of `ast.NodeVisitor`
 * (each `visit_X` handler runs, then `generic_visit` visits the node's
 * children in field order) over a flat, mutable alias table. The
 * `ASTVisitor` class does the same walk by updating its fields and is proved
 * against `Walk`. `CodeScanner` builds one report per package from the
 * usages of all files.
 */
module CodeScanner {
  import opened Wrappers
  import opened Dicts
  import Strs

  /** `ast.alias`: `import name as asname`. */
  datatype Alias = Alias(name: string, asname: Option<string>)

  /** The node kinds the visitor distinguishes. `Call.args` holds the
      positional arguments followed by the keyword values, which is the order
      `generic_visit` visits them in; every other node kind is `Other`. */
  datatype Node =
    | Import(names: seq<Alias>, line: int)
    | ImportFrom(moduleName: Option<string>, names: seq<Alias>, line: int)
    | Call(func: Node, args: seq<Node>, line: int)
    | Attribute(value: Node, attr: string, line: int)
    | Name(id: string, line: int)
    | Other(children: seq<Node>)

  datatype UsageType = ImportUsage | CallUsage | AttributeUsage

  datatype CodeUsage = CodeUsage(
    filePath: string, lineNumber: int, packageName: string,
    apiElement: string, usageType: UsageType, context: string)

  /** Python truthiness of an optional string. */
  predicate Truthy(s: Option<string>) {
    s.Some? && s.value != ""
  }

  predicate StartsWith(s: string, prefix: string) {
    |prefix| <= |s| && s[..|prefix|] == prefix
  }

  // ---------------------------------------------------------------------
  // _is_target_package, _get_context, _extract_name

  /** The first target, in iteration order, of which `m` is a submodule. */
  function FirstParent(targets: seq<string>, m: string): (r: Option<string>)
    ensures r.Some? ==> r.value in targets && StartsWith(m, r.value + ".")
    ensures r.None? ==> forall t :: t in targets ==> !StartsWith(m, t + ".")
    ensures r.Some? ==> exists i :: (0 <= i < |targets| && targets[i] == r.value &&
      forall j :: 0 <= j < i ==> !StartsWith(m, targets[j] + "."))
  {
    if targets == [] then None
    else if StartsWith(m, targets[0] + ".") then Some(targets[0])
    else
      var r := FirstParent(targets[1..], m);
      if r.Some? then
        var i :| (0 <= i < |targets[1..]| && targets[1..][i] == r.value &&
          forall j :: 0 <= j < i ==> !StartsWith(m, targets[1..][j] + "."));
        assert targets[i + 1] == r.value;
        r
      else r
  }

  /** `_is_target_package`: `m` itself when it is a target, else the first
      target it is a submodule of; nothing for the empty name. */
  function TargetOf(targets: seq<string>, m: string): (r: Option<string>)
    ensures m == "" ==> r.None?
    ensures m != "" && m in targets ==> r == Some(m)
    ensures r.Some? ==> r.value in targets && (r.value == m || StartsWith(m, r.value + "."))
    ensures r.None? && m != "" ==> m !in targets && forall t :: t in targets ==> !StartsWith(m, t + ".")
  {
    if m == "" then None
    else if m in targets then Some(m)
    else FirstParent(targets, m)
  }

  /** `_get_context`: the stripped 1-based line `n`, or "" out of range. */
  function Context(lines: seq<string>, n: int): string {
    if 0 < n <= |lines| then Strs.Strip(lines[n - 1]) else ""
  }

  /** Out-of-range lines give ""; a line without surrounding whitespace is
      returned as written. */
  lemma ContextMeaning(lines: seq<string>, n: int)
    ensures !(0 < n <= |lines|) ==> Context(lines, n) == ""
    ensures 0 < n <= |lines| && (lines[n - 1] == [] ||
        (!Strs.IsSpace(lines[n - 1][0]) && !Strs.IsSpace(lines[n - 1][|lines[n - 1]| - 1])))
      ==> Context(lines, n) == lines[n - 1]
  {
    if 0 < n <= |lines| && (lines[n - 1] == [] ||
        (!Strs.IsSpace(lines[n - 1][0]) && !Strs.IsSpace(lines[n - 1][|lines[n - 1]| - 1]))) {
      Strs.StripNoSpace(lines[n - 1]);
    }
  }

  /** `_extract_name`: the dotted name of a name, attribute chain or the
      function of a call. */
  function ExtractName(n: Node): Option<string> {
    match n
    case Name(id, _) => Some(id)
    case Attribute(value, attr, _) =>
      var vn := ExtractName(value);
      if Truthy(vn) then Some(vn.value + "." + attr) else Some(attr)
    case Call(func, _, _) => ExtractName(func)
    case _ => None
  }

  /** The expression `root.a1.a2...` as an attribute chain. */
  function Chain(root: string, attrs: seq<string>, line: int): Node
    decreases |attrs|
  {
    if attrs == [] then Name(root, line)
    else Attribute(Chain(root, attrs[..|attrs| - 1], line), attrs[|attrs| - 1], line)
  }

  lemma {:induction false} JoinSnoc(parts: seq<string>, x: string, sep: char)
    requires parts != []
    ensures Strs.Join(parts + [x], sep) == Strs.Join(parts, sep) + [sep] + x
    decreases |parts|
  {
    if |parts| == 1 {
      assert parts + [x] == [parts[0], x];
    } else {
      assert (parts + [x])[1..] == parts[1..] + [x];
      JoinSnoc(parts[1..], x, sep);
    }
  }

  /** The name extracted from an attribute chain is its dotted spelling. */
  lemma {:induction false} ExtractChain(root: string, attrs: seq<string>, line: int)
    requires root != ""
    ensures ExtractName(Chain(root, attrs, line)) == Some(Strs.Join([root] + attrs, '.'))
    decreases |attrs|
  {
    if attrs != [] {
      var n := |attrs| - 1;
      ExtractChain(root, attrs[..n], line);
      assert [root] + attrs == ([root] + attrs[..n]) + [attrs[n]];
      JoinSnoc([root] + attrs[..n], attrs[n], '.');
    }
  }

  /** The visitor looks a call or attribute up by the first component of
      its extracted name: for a chain of dot-free identifiers that is the
      chain's root. */
  lemma BaseOfChain(root: string, attrs: seq<string>, line: int)
    requires root != "" && '.' !in root
    requires forall k :: 0 <= k < |attrs| ==> '.' !in attrs[k]
    ensures Strs.Split(ExtractName(Chain(root, attrs, line)).value, '.')[0] == root
  {
    ExtractChain(root, attrs, line);
    var parts := [root] + attrs;
    forall k | 0 <= k < |parts| ensures '.' !in parts[k] {
      if k > 0 { assert parts[k] == attrs[k - 1]; }
    }
    Strs.SplitJoin(parts, '.');
  }

  // ---------------------------------------------------------------------
  // The walk

  /** What a visitor is constructed with: the file, the (normalised) target
      names in iteration order, and the file's lines. */
  datatype Env = Env(filePath: string, targets: seq<string>, lines: seq<string>)

  /** `self.usages` and `self.imported_modules` (alias -> full name). */
  datatype WalkState = WalkState(usages: seq<CodeUsage>, aliases: map<string, string>)

  /** The name an import binds: the alias when given, else the name. */
  function BoundName(a: Alias): string {
    if Truthy(a.asname) then a.asname.value else a.name
  }

  /** The loop of `visit_Import` over the statement's aliases. */
  function ImportAliases(env: Env, names: seq<Alias>, line: int, st: WalkState): WalkState
    decreases |names|
  {
    if names == [] then st
    else
      var n := |names| - 1;
      var prev := ImportAliases(env, names[..n], line, st);
      var a := names[n];
      var pkg := TargetOf(env.targets, a.name);
      if Truthy(pkg) then
        WalkState(prev.usages + [CodeUsage(env.filePath, line, pkg.value, a.name, ImportUsage, Context(env.lines, line))],
                  prev.aliases[BoundName(a) := a.name])
      else prev
  }

  /** The loop of `visit_ImportFrom` over the aliases of `from module import ...`. */
  function FromAliases(env: Env, modName: string, pkg: string, names: seq<Alias>, line: int, st: WalkState): WalkState
    decreases |names|
  {
    if names == [] then st
    else
      var n := |names| - 1;
      var prev := FromAliases(env, modName, pkg, names[..n], line, st);
      var a := names[n];
      var full := modName + "." + a.name;
      WalkState(prev.usages + [CodeUsage(env.filePath, line, pkg, full, ImportUsage, Context(env.lines, line))],
                prev.aliases[BoundName(a) := full])
  }

  /** The check shared by `visit_Call` and `visit_Attribute`: record the
      extracted name when its first component is bound to a target. */
  function RecordRef(env: Env, name: Option<string>, line: int, kind: UsageType, st: WalkState): WalkState {
    if Truthy(name) then
      var base := Strs.Split(name.value, '.')[0];
      if base in st.aliases then
        var pkg := TargetOf(env.targets, st.aliases[base]);
        if Truthy(pkg) then
          WalkState(st.usages + [CodeUsage(env.filePath, line, pkg.value, name.value, kind, Context(env.lines, line))], st.aliases)
        else st
      else st
    else st
  }

  /** `visitor.visit(n)` from state `st`. */
  function Walk(env: Env, n: Node, st: WalkState): WalkState {
    match n
    case Import(names, line) => ImportAliases(env, names, line, st)
    case ImportFrom(moduleName, names, line) =>
      if Truthy(moduleName) then
        var pkg := TargetOf(env.targets, moduleName.value);
        if Truthy(pkg) then FromAliases(env, moduleName.value, pkg.value, names, line, st) else st
      else st
    case Call(func, args, line) =>
      WalkSeq(env, args, Walk(env, func, RecordRef(env, ExtractName(n), line, CallUsage, st)))
    case Attribute(value, _, line) =>
      Walk(env, value, RecordRef(env, ExtractName(n), line, AttributeUsage, st))
    case Name(_, _) => st
    case Other(children) => WalkSeq(env, children, st)
  }

  /** Visiting a list of nodes in order. */
  function WalkSeq(env: Env, ns: seq<Node>, st: WalkState): WalkState {
    if ns == [] then st else WalkSeq(env, ns[1..], Walk(env, ns[0], st))
  }

  // ---------------------------------------------------------------------
  // Properties of the walk

  /** Every usage names a target package and the visitor's file. */
  predicate Sound(env: Env, st: WalkState) {
    forall u :: u in st.usages ==> u.packageName in env.targets && u.filePath == env.filePath
  }

  /** The walk only appends usages, and every usage it records names a
      target package and the file being scanned. */
  lemma {:induction false} WalkSound(env: Env, n: Node, st: WalkState)
    requires Sound(env, st)
    ensures Sound(env, Walk(env, n, st))
    ensures |st.usages| <= |Walk(env, n, st).usages| && Walk(env, n, st).usages[..|st.usages|] == st.usages
    decreases n, 1
  {
    match n
    case Import(names, line) => ImportAliasesSound(env, names, line, st);
    case ImportFrom(moduleName, names, line) =>
      if Truthy(moduleName) {
        var pkg := TargetOf(env.targets, moduleName.value);
        if Truthy(pkg) { FromAliasesSound(env, moduleName.value, pkg.value, names, line, st); }
      }
    case Call(func, args, line) =>
      var s1 := RecordRef(env, ExtractName(n), line, CallUsage, st);
      RecordRefSound(env, ExtractName(n), line, CallUsage, st);
      WalkSound(env, func, s1);
      WalkSeqSound(env, args, Walk(env, func, s1));
    case Attribute(value, _, line) =>
      RecordRefSound(env, ExtractName(n), line, AttributeUsage, st);
      WalkSound(env, value, RecordRef(env, ExtractName(n), line, AttributeUsage, st));
    case Name(_, _) =>
    case Other(children) => WalkSeqSound(env, children, st);
  }

  lemma RecordRefSound(env: Env, name: Option<string>, line: int, kind: UsageType, st: WalkState)
    requires Sound(env, st)
    ensures Sound(env, RecordRef(env, name, line, kind, st))
    ensures |st.usages| <= |RecordRef(env, name, line, kind, st).usages|
    ensures RecordRef(env, name, line, kind, st).usages[..|st.usages|] == st.usages
  {
  }

  lemma {:induction false} WalkSeqSound(env: Env, ns: seq<Node>, st: WalkState)
    requires Sound(env, st)
    ensures Sound(env, WalkSeq(env, ns, st))
    ensures |st.usages| <= |WalkSeq(env, ns, st).usages| && WalkSeq(env, ns, st).usages[..|st.usages|] == st.usages
    decreases ns, 0
  {
    if ns != [] {
      WalkSound(env, ns[0], st);
      var s1 := Walk(env, ns[0], st);
      WalkSeqSound(env, ns[1..], s1);
      assert WalkSeq(env, ns[1..], s1).usages[..|s1.usages|][..|st.usages|] == st.usages;
    }
  }

  lemma {:induction false} ImportAliasesSound(env: Env, names: seq<Alias>, line: int, st: WalkState)
    requires Sound(env, st)
    ensures Sound(env, ImportAliases(env, names, line, st))
    ensures |st.usages| <= |ImportAliases(env, names, line, st).usages|
    ensures ImportAliases(env, names, line, st).usages[..|st.usages|] == st.usages
    decreases |names|
  {
    if names != [] {
      var n := |names| - 1;
      ImportAliasesSound(env, names[..n], line, st);
      var prev := ImportAliases(env, names[..n], line, st);
      assert ImportAliases(env, names, line, st).usages[..|prev.usages|] == prev.usages;
    }
  }

  lemma {:induction false} FromAliasesSound(env: Env, modName: string, pkg: string, names: seq<Alias>, line: int, st: WalkState)
    requires Sound(env, st) && pkg in env.targets
    ensures Sound(env, FromAliases(env, modName, pkg, names, line, st))
    ensures |st.usages| <= |FromAliases(env, modName, pkg, names, line, st).usages|
    ensures FromAliases(env, modName, pkg, names, line, st).usages[..|st.usages|] == st.usages
    decreases |names|
  {
    if names != [] {
      var n := |names| - 1;
      FromAliasesSound(env, modName, pkg, names[..n], line, st);
      var prev := FromAliases(env, modName, pkg, names[..n], line, st);
      assert FromAliases(env, modName, pkg, names, line, st).usages[..|prev.usages|] == prev.usages;
    }
  }

  /** Does the tree hold an import statement? */
  predicate HasImport(n: Node) {
    match n
    case Import(_, _) => true
    case ImportFrom(_, _, _) => true
    case Call(func, args, _) => HasImport(func) || exists i :: 0 <= i < |args| && HasImport(args[i])
    case Attribute(value, _, _) => HasImport(value)
    case Name(_, _) => false
    case Other(children) => exists i :: 0 <= i < |children| && HasImport(children[i])
  }

  /** A name is only ever resolved through the alias table: a tree without
      import statements, walked with nothing imported, records no usage. */
  lemma {:induction false} NoImportNoUsage(env: Env, n: Node, st: WalkState)
    requires st.aliases == map[] && !HasImport(n)
    ensures Walk(env, n, st) == st
    decreases n, 1
  {
    match n
    case Call(func, args, line) =>
      NoImportNoUsage(env, func, st);
      NoImportNoUsageSeq(env, args, st);
    case Attribute(value, _, line) =>
      NoImportNoUsage(env, value, st);
    case Name(_, _) =>
    case Other(children) =>
      NoImportNoUsageSeq(env, children, st);
  }

  lemma {:induction false} NoImportNoUsageSeq(env: Env, ns: seq<Node>, st: WalkState)
    requires st.aliases == map[] && forall i :: 0 <= i < |ns| ==> !HasImport(ns[i])
    ensures WalkSeq(env, ns, st) == st
    decreases ns, 0
  {
    if ns != [] {
      NoImportNoUsage(env, ns[0], st);
      NoImportNoUsageSeq(env, ns[1..], st);
    }
  }

  /** `from . import x` (no module) binds and records nothing. */
  lemma RelativeImportIgnored(env: Env, names: seq<Alias>, line: int, st: WalkState)
    ensures Walk(env, ImportFrom(None, names, line), st) == st
    ensures Walk(env, ImportFrom(Some(""), names, line), st) == st
  {
  }

  const Empty0: WalkState := WalkState([], map[])

  /** `import pkg as p` then `p.foo()`: three usages, the import, the call
      and the attribute `p.foo` that `generic_visit` reaches through the
      call's function; the API element is the local name `p.foo`. */
  lemma AliasedCallExample(file: string)
    ensures var env := Env(file, ["pkg"], ["import pkg as p", "p.foo()"]);
      var tree := Other([Import([Alias("pkg", Some("p"))], 1), Call(Chain("p", ["foo"], 2), [], 2)]);
      Walk(env, tree, Empty0).usages == [
        CodeUsage(file, 1, "pkg", "pkg", ImportUsage, "import pkg as p"),
        CodeUsage(file, 2, "pkg", "p.foo", CallUsage, "p.foo()"),
        CodeUsage(file, 2, "pkg", "p.foo", AttributeUsage, "p.foo()")]
  {
    var env := Env(file, ["pkg"], ["import pkg as p", "p.foo()"]);
    var imp := Import([Alias("pkg", Some("p"))], 1);
    var call := Call(Chain("p", ["foo"], 2), [], 2);
    var u1 := CodeUsage(file, 1, "pkg", "pkg", ImportUsage, "import pkg as p");
    var s1 := WalkState([u1], map["p" := "pkg"]);
    AliasedImportStep(file);
    AliasedCallStep(file);
    assert [imp, call][1..] == [call] && [call][1..] == [];
    assert WalkSeq(env, [call], s1) == Walk(env, call, s1);
    assert WalkSeq(env, [imp, call], Empty0) == WalkSeq(env, [call], s1);
  }

  lemma AliasedImportStep(file: string)
    ensures Walk(Env(file, ["pkg"], ["import pkg as p", "p.foo()"]), Import([Alias("pkg", Some("p"))], 1), Empty0) ==
      WalkState([CodeUsage(file, 1, "pkg", "pkg", ImportUsage, "import pkg as p")], map["p" := "pkg"])
  {
    var env := Env(file, ["pkg"], ["import pkg as p", "p.foo()"]);
    Strs.StripNoSpace("import pkg as p");
    assert TargetOf(env.targets, "pkg") == Some("pkg");
    assert Context(env.lines, 1) == "import pkg as p";
    assert [Alias("pkg", Some("p"))][..0] == [];
  }

  lemma AliasedCallStep(file: string)
    ensures var u1 := CodeUsage(file, 1, "pkg", "pkg", ImportUsage, "import pkg as p");
      Walk(Env(file, ["pkg"], ["import pkg as p", "p.foo()"]), Call(Chain("p", ["foo"], 2), [], 2), WalkState([u1], map["p" := "pkg"])) ==
      WalkState([u1, CodeUsage(file, 2, "pkg", "p.foo", CallUsage, "p.foo()"), CodeUsage(file, 2, "pkg", "p.foo", AttributeUsage, "p.foo()")],
                map["p" := "pkg"])
  {
    var env := Env(file, ["pkg"], ["import pkg as p", "p.foo()"]);
    var func := Chain("p", ["foo"], 2);
    var u1 := CodeUsage(file, 1, "pkg", "pkg", ImportUsage, "import pkg as p");
    var u2 := CodeUsage(file, 2, "pkg", "p.foo", CallUsage, "p.foo()");
    var u3 := CodeUsage(file, 2, "pkg", "p.foo", AttributeUsage, "p.foo()");
    var s1 := WalkState([u1], map["p" := "pkg"]);
    var s2 := WalkState([u1, u2], s1.aliases);
    var s3 := WalkState([u1, u2, u3], s1.aliases);
    AliasedCallNames();
    AliasedCallRecords(file);
    assert Walk(env, func, s2) == s3;
    assert WalkSeq(env, [], s3) == s3;
  }

  /** The names `p.foo()` and `p.foo` extract to. */
  lemma AliasedCallNames()
    ensures Chain("p", ["foo"], 2) == Attribute(Name("p", 2), "foo", 2)
    ensures ExtractName(Call(Chain("p", ["foo"], 2), [], 2)) == Some("p.foo")
    ensures ExtractName(Chain("p", ["foo"], 2)) == Some("p.foo")
  {
    ExtractChain("p", ["foo"], 2);
    assert Strs.Join(["p", "foo"], '.') == "p.foo";
    BaseOfChain("p", ["foo"], 2);
  }

  /** The call and the attribute on line 2 are both recorded against `pkg`. */
  lemma AliasedCallRecords(file: string)
    ensures var env := Env(file, ["pkg"], ["import pkg as p", "p.foo()"]);
      var u1 := CodeUsage(file, 1, "pkg", "pkg", ImportUsage, "import pkg as p");
      var u2 := CodeUsage(file, 2, "pkg", "p.foo", CallUsage, "p.foo()");
      var u3 := CodeUsage(file, 2, "pkg", "p.foo", AttributeUsage, "p.foo()");
      && RecordRef(env, Some("p.foo"), 2, CallUsage, WalkState([u1], map["p" := "pkg"])) == WalkState([u1, u2], map["p" := "pkg"])
      && RecordRef(env, Some("p.foo"), 2, AttributeUsage, WalkState([u1, u2], map["p" := "pkg"])) == WalkState([u1, u2, u3], map["p" := "pkg"])
  {
    var env := Env(file, ["pkg"], ["import pkg as p", "p.foo()"]);
    Strs.StripNoSpace("p.foo()");
    assert Context(env.lines, 2) == "p.foo()";
    assert TargetOf(env.targets, "pkg") == Some("pkg");
    var u1 := CodeUsage(file, 1, "pkg", "pkg", ImportUsage, "import pkg as p");
    var u2 := CodeUsage(file, 2, "pkg", "p.foo", CallUsage, "p.foo()");
    var s1 := WalkState([u1], map["p" := "pkg"]);
    assert "p.foo"[1] == '.' && '.' !in "p.foo"[..1];
    Strs.IndexOfAt("p.foo", '.', 1);
    assert Strs.Split("p.foo", '.')[0] == "p";
    RecordRefMeaning(env, Some("p.foo"), 2, CallUsage, s1);
    RecordRefMeaning(env, Some("p.foo"), 2, AttributeUsage, WalkState([u1, u2], s1.aliases));
  }

  /** A call or attribute reference is recorded exactly when its name is
      non-empty and its first dotted component is bound to a module that
      belongs to a target package; the usage then names that package and
      the full local name. Otherwise nothing changes, and the aliases never
      change. */
  lemma RecordRefMeaning(env: Env, name: Option<string>, line: int, kind: UsageType, st: WalkState)
    ensures var r := RecordRef(env, name, line, kind, st);
      var recorded := Truthy(name) && Strs.Split(name.value, '.')[0] in st.aliases &&
        Truthy(TargetOf(env.targets, st.aliases[Strs.Split(name.value, '.')[0]]));
      && (recorded ==>
            var pkg := TargetOf(env.targets, st.aliases[Strs.Split(name.value, '.')[0]]).value;
            && pkg in env.targets
            && r == WalkState(st.usages + [CodeUsage(env.filePath, line, pkg, name.value, kind, Context(env.lines, line))], st.aliases))
      && (!recorded ==> r == st)
  {
  }

  /** `import a.b` binds the key "a.b", which the first-component lookup
      never finds: a later `a.b.f()` records only the import itself. */
  lemma DottedImportGap(file: string)
    ensures var env := Env(file, ["a"], ["import a.b", "a.b.f()"]);
      var tree := Other([Import([Alias("a.b", None)], 1), Call(Chain("a", ["b", "f"], 2), [], 2)]);
      Walk(env, tree, Empty0).usages == [CodeUsage(file, 1, "a", "a.b", ImportUsage, "import a.b")]
  {
    var env := Env(file, ["a"], ["import a.b", "a.b.f()"]);
    var imp := Import([Alias("a.b", None)], 1);
    var call := Call(Chain("a", ["b", "f"], 2), [], 2);
    var s1 := WalkState([CodeUsage(file, 1, "a", "a.b", ImportUsage, "import a.b")], map["a.b" := "a.b"]);
    DottedImportStep(file);
    DottedCallStep(file);
    assert [imp, call][1..] == [call] && [call][1..] == [];
    assert WalkSeq(env, [call], s1) == Walk(env, call, s1);
    assert WalkSeq(env, [imp, call], Empty0) == WalkSeq(env, [call], s1);
  }

  lemma DottedImportStep(file: string)
    ensures Walk(Env(file, ["a"], ["import a.b", "a.b.f()"]), Import([Alias("a.b", None)], 1), Empty0) ==
      WalkState([CodeUsage(file, 1, "a", "a.b", ImportUsage, "import a.b")], map["a.b" := "a.b"])
  {
    var env := Env(file, ["a"], ["import a.b", "a.b.f()"]);
    Strs.StripNoSpace("import a.b");
    assert StartsWith("a.b", "a" + ".");
    assert TargetOf(env.targets, "a.b") == Some("a");
    assert Context(env.lines, 1) == "import a.b";
    assert [Alias("a.b", None)][..0] == [];
  }

  lemma DottedCallStep(file: string)
    ensures var s1 := WalkState([CodeUsage(file, 1, "a", "a.b", ImportUsage, "import a.b")], map["a.b" := "a.b"]);
      Walk(Env(file, ["a"], ["import a.b", "a.b.f()"]), Call(Chain("a", ["b", "f"], 2), [], 2), s1) == s1
  {
    var env := Env(file, ["a"], ["import a.b", "a.b.f()"]);
    var inner := Chain("a", ["b"], 2);
    var func := Chain("a", ["b", "f"], 2);
    var call := Call(func, [], 2);
    var s1 := WalkState([CodeUsage(file, 1, "a", "a.b", ImportUsage, "import a.b")], map["a.b" := "a.b"]);
    BaseOfChain("a", ["b", "f"], 2);
    BaseOfChain("a", ["b"], 2);
    BaseOfChain("a", [], 2);
    assert "a" !in s1.aliases;
    assert RecordRef(env, ExtractName(call), 2, CallUsage, s1) == s1;
    assert func == Attribute(inner, "f", 2);
    assert RecordRef(env, ExtractName(func), 2, AttributeUsage, s1) == s1;
    assert inner == Attribute(Name("a", 2), "b", 2);
    assert RecordRef(env, ExtractName(inner), 2, AttributeUsage, s1) == s1;
    assert Walk(env, inner, s1) == s1;
    assert Walk(env, func, s1) == s1;
  }

  // ---------------------------------------------------------------------
  // The visitor object

  class ASTVisitor {
    const filePath: string
    const targetPackages: seq<string>
    var usages: seq<CodeUsage>
    /** alias -> full name */
    var importedModules: map<string, string>
    var sourceLines: seq<string>

    constructor (filePath: string, targetPackages: seq<string>)
      ensures this.filePath == filePath && this.targetPackages == targetPackages
      ensures usages == [] && importedModules == map[] && sourceLines == []
    {
      this.filePath := filePath;
      this.targetPackages := targetPackages;
      usages := [];
      importedModules := map[];
      sourceLines := [];
    }

    function CurrentEnv(): Env
      reads this
    {
      Env(filePath, targetPackages, sourceLines)
    }

    function State(): WalkState
      reads this
    {
      WalkState(usages, importedModules)
    }

    /** `set_source_lines`. */
    method SetSourceLines(lines: seq<string>)
      modifies this
      ensures sourceLines == lines && State() == old(State())
    {
      sourceLines := lines;
    }

    /** `_is_target_package`, with its loop over the targets. */
    method IsTargetPackage(m: string) returns (r: Option<string>)
      ensures r == TargetOf(targetPackages, m)
    {
      if m == "" {
        return None;
      }
      if m in targetPackages {
        return Some(m);
      }
      var i := 0;
      while i < |targetPackages|
        invariant 0 <= i <= |targetPackages|
        invariant FirstParent(targetPackages[i..], m) == FirstParent(targetPackages, m)
      {
        assert targetPackages[i..][1..] == targetPackages[i + 1..];
        if StartsWith(m, targetPackages[i] + ".") {
          return Some(targetPackages[i]);
        }
        i := i + 1;
      }
      return None;
    }

    /** `visit(n)`: dispatch to the handler for the node's kind, or visit
        its children. */
    method Visit(n: Node)
      modifies this
      ensures sourceLines == old(sourceLines)
      ensures State() == Walk(old(CurrentEnv()), n, old(State()))
      decreases n, 2
    {
      match n
      case Import(_, _) => VisitImport(n);
      case ImportFrom(_, _, _) => VisitImportFrom(n);
      case Call(_, _, _) => VisitCall(n);
      case Attribute(_, _, _) => VisitAttribute(n);
      case Name(_, _) =>
      case Other(children) => GenericVisit(children);
    }

    /** `generic_visit`: visit the given children in order. */
    method GenericVisit(ns: seq<Node>)
      modifies this
      ensures sourceLines == old(sourceLines)
      ensures State() == WalkSeq(old(CurrentEnv()), ns, old(State()))
      decreases ns, 3
    {
      var i := 0;
      while i < |ns|
        invariant 0 <= i <= |ns|
        invariant sourceLines == old(sourceLines)
        invariant WalkSeq(CurrentEnv(), ns[i..], State()) == WalkSeq(old(CurrentEnv()), ns, old(State()))
      {
        assert ns[i..][1..] == ns[i + 1..];
        Visit(ns[i]);
        i := i + 1;
      }
    }

    /** `visit_Import`. */
    method VisitImport(n: Node)
      requires n.Import?
      modifies this
      ensures sourceLines == old(sourceLines)
      ensures State() == Walk(old(CurrentEnv()), n, old(State()))
      decreases n, 1
    {
      ghost var st0 := State();
      var names := n.names;
      var i := 0;
      while i < |names|
        invariant 0 <= i <= |names|
        invariant sourceLines == old(sourceLines)
        invariant State() == ImportAliases(CurrentEnv(), names[..i], n.line, st0)
      {
        var alias := names[i];
        assert names[..i + 1][..i] == names[..i];
        var package := IsTargetPackage(alias.name);
        if package.Some? && package.value != "" {
          var importName := if alias.asname.Some? && alias.asname.value != "" then alias.asname.value else alias.name;
          importedModules := importedModules[importName := alias.name];
          usages := usages + [CodeUsage(filePath, n.line, package.value, alias.name, ImportUsage, Context(sourceLines, n.line))];
        }
        i := i + 1;
      }
      assert names[..i] == names;
    }

    /** `visit_ImportFrom`. */
    method VisitImportFrom(n: Node)
      requires n.ImportFrom?
      modifies this
      ensures sourceLines == old(sourceLines)
      ensures State() == Walk(old(CurrentEnv()), n, old(State()))
      decreases n, 1
    {
      if n.moduleName.Some? && n.moduleName.value != "" {
        var moduleName := n.moduleName.value;
        var package := IsTargetPackage(moduleName);
        if package.Some? && package.value != "" {
          ghost var st0 := State();
          var names := n.names;
          var i := 0;
          while i < |names|
            invariant 0 <= i <= |names|
            invariant sourceLines == old(sourceLines)
            invariant State() == FromAliases(CurrentEnv(), moduleName, package.value, names[..i], n.line, st0)
          {
            var alias := names[i];
            assert names[..i + 1][..i] == names[..i];
            var importName := if alias.asname.Some? && alias.asname.value != "" then alias.asname.value else alias.name;
            importedModules := importedModules[importName := moduleName + "." + alias.name];
            usages := usages + [CodeUsage(filePath, n.line, package.value, moduleName + "." + alias.name, ImportUsage, Context(sourceLines, n.line))];
            i := i + 1;
          }
          assert names[..i] == names;
        }
      }
    }

    /** The lookup `visit_Call` and `visit_Attribute` share: record `name`
        when its first component is bound to a target package. */
    method RecordIfImported(name: Option<string>, line: int, kind: UsageType)
      modifies this
      ensures sourceLines == old(sourceLines)
      ensures State() == RecordRef(old(CurrentEnv()), name, line, kind, old(State()))
    {
      if name.Some? && name.value != "" {
        var baseName := Strs.Split(name.value, '.')[0];
        if baseName in importedModules {
          var fullName := importedModules[baseName];
          var package := IsTargetPackage(fullName);
          if package.Some? && package.value != "" {
            usages := usages + [CodeUsage(filePath, line, package.value, name.value, kind, Context(sourceLines, line))];
          }
        }
      }
    }

    /** `visit_Call`: check the called name, then visit the function and the
        arguments. */
    method VisitCall(n: Node)
      requires n.Call?
      modifies this
      ensures sourceLines == old(sourceLines)
      ensures State() == Walk(old(CurrentEnv()), n, old(State()))
      decreases n, 1
    {
      var funcName := ExtractName(n.func);
      RecordIfImported(funcName, n.line, CallUsage);
      Visit(n.func);
      GenericVisit(n.args);
    }

    /** `visit_Attribute`: check the dotted name, then visit the value. */
    method VisitAttribute(n: Node)
      requires n.Attribute?
      modifies this
      ensures sourceLines == old(sourceLines)
      ensures State() == Walk(old(CurrentEnv()), n, old(State()))
      decreases n, 1
    {
      var fullName := ExtractName(n);
      RecordIfImported(fullName, n.line, AttributeUsage);
      Visit(n.value);
    }
  }

  // ---------------------------------------------------------------------
  // CodeScanner: targets, per-file scans, reports

  /** `pkg.lower().replace('_', '-')`. */
  function NormalizeTarget(p: string): string {
    Strs.ReplaceChar(Strs.Lower(p), '_', '-')
  }

  /** Normalising twice changes nothing, and the result holds no `_` and no
      upper-case letter. */
  lemma NormalizeTargetIdempotent(p: string)
    ensures NormalizeTarget(NormalizeTarget(p)) == NormalizeTarget(p)
    ensures '_' !in NormalizeTarget(p)
    ensures forall i :: 0 <= i < |NormalizeTarget(p)| ==> !Strs.IsUpper(NormalizeTarget(p)[i])
  {
    var q := NormalizeTarget(p);
    Strs.ReplaceCharRemoves(Strs.Lower(p), '_', '-');
    forall i | 0 <= i < |q| ensures !Strs.IsUpper(q[i]) && Strs.LowerChar(q[i]) == q[i] {
      assert q[i] == (if Strs.LowerChar(p[i]) == '_' then '-' else Strs.LowerChar(p[i]));
    }
    assert Strs.Lower(q) == q;
    forall i | 0 <= i < |q| ensures q[i] != '_' {
      assert q[i] in q;
    }
    assert Strs.ReplaceChar(q, '_', '-') == q;
  }

  /** The elements of `s`, each once, in first-occurrence order. */
  function Dedup(s: seq<string>): (r: seq<string>)
    ensures NoDup(r)
    ensures forall x :: x in r <==> x in s
    decreases |s|
  {
    if s == [] then []
    else
      var n := |s| - 1;
      var prev := Dedup(s[..n]);
      if s[n] in prev then prev
      else
        assert forall x :: x in prev + [s[n]] <==> x in s by {
          assert s == s[..n] + [s[n]];
        }
        prev + [s[n]]
  }

  /** The `{...}` comprehension of `__init__`, in iteration order. */
  function NormalizedTargets(targets: seq<string>): seq<string> {
    Dedup(seq(|targets|, i requires 0 <= i < |targets| => NormalizeTarget(targets[i])))
  }

  /** The scanner's targets are exactly the normalised names, each once. */
  lemma NormalizedTargetsMeaning(targets: seq<string>)
    ensures NoDup(NormalizedTargets(targets))
    ensures forall t :: t in NormalizedTargets(targets) <==> exists i :: 0 <= i < |targets| && t == NormalizeTarget(targets[i])
  {
    var ns := seq(|targets|, i requires 0 <= i < |targets| => NormalizeTarget(targets[i]));
    forall t | t in NormalizedTargets(targets)
      ensures exists i :: 0 <= i < |targets| && t == NormalizeTarget(targets[i])
    {
      var k :| 0 <= k < |ns| && ns[k] == t;
    }
    forall t | exists i :: 0 <= i < |targets| && t == NormalizeTarget(targets[i])
      ensures t in NormalizedTargets(targets)
    {
      var i :| 0 <= i < |targets| && t == NormalizeTarget(targets[i]);
      assert ns[i] == t;
    }
  }

  datatype PackageUsageReport = PackageUsageReport(
    packageName: string, totalUsages: nat, filesAffected: set<string>, usages: seq<CodeUsage>)

  /** A Python file found under the directory: its path and, when reading
      and parsing succeeded, its tree and lines. */
  datatype SourceFile = SourceFile(path: string, tree: Option<Node>, lines: seq<string>)

  /** `scan_file`: the visitor's usages, or none when the file failed. */
  function FileUsages(targets: seq<string>, f: SourceFile): seq<CodeUsage> {
    if f.tree.None? then []
    else Walk(Env(f.path, targets, f.lines), f.tree.value, WalkState([], map[])).usages
  }

  /** A file's usages all name a target and the file itself. */
  lemma FileUsagesSound(targets: seq<string>, f: SourceFile)
    ensures forall u :: u in FileUsages(targets, f) ==> u.packageName in targets && u.filePath == f.path
  {
    if f.tree.Some? {
      WalkSound(Env(f.path, targets, f.lines), f.tree.value, WalkState([], map[]));
    }
  }

  /** `all_usages` after the file loop. */
  function AllUsages(targets: seq<string>, files: seq<SourceFile>): seq<CodeUsage>
    decreases |files|
  {
    if files == [] then []
    else AllUsages(targets, files[..|files| - 1]) + FileUsages(targets, files[|files| - 1])
  }

  /** The usages of package `p`, in order. */
  function UsagesOf(all: seq<CodeUsage>, p: string): (r: seq<CodeUsage>)
    ensures forall u :: u in r ==> u in all && u.packageName == p
    ensures forall u :: u in all && u.packageName == p ==> u in r
    ensures r == [] || p in PackagesOf(all)
    decreases |all|
  {
    if all == [] then []
    else
      var n := |all| - 1;
      var prev := UsagesOf(all[..n], p);
      assert all == all[..n] + [all[n]];
      if all[n].packageName == p then prev + [all[n]] else prev
  }

  function FilesOf(us: seq<CodeUsage>): set<string> {
    set u | u in us :: u.filePath
  }

  function PackagesOf(all: seq<CodeUsage>): set<string> {
    set u | u in all :: u.packageName
  }

  /** One iteration of the report loop. */
  function AddUsage(reports: Dict<string, PackageUsageReport>, u: CodeUsage): Dict<string, PackageUsageReport> {
    var r := if u.packageName in reports.vals then reports.vals[u.packageName]
             else PackageUsageReport(u.packageName, 0, {}, []);
    reports.Put(u.packageName, PackageUsageReport(r.packageName, r.totalUsages + 1, r.filesAffected + {u.filePath}, r.usages + [u]))
  }

  /** Creating the empty report first and then updating it is one `AddUsage`. */
  lemma AddUsageInTwoSteps(d: Dict<string, PackageUsageReport>, u: CodeUsage)
    ensures var d1 := if u.packageName !in d.vals then d.Put(u.packageName, PackageUsageReport(u.packageName, 0, {}, [])) else d;
      var r := d1.vals[u.packageName];
      d1.Put(u.packageName, PackageUsageReport(r.packageName, r.totalUsages + 1, r.filesAffected + {u.filePath}, r.usages + [u]))
        == AddUsage(d, u)
  {
  }

  /** `usage_reports` built from scratch over `all`. */
  function BuildReports(all: seq<CodeUsage>): Dict<string, PackageUsageReport>
    decreases |all|
  {
    if all == [] then Empty() else AddUsage(BuildReports(all[..|all| - 1]), all[|all| - 1])
  }

  /** The report of each package holds exactly its usages, in order, their
      count and their files; there is a report exactly for each package
      with at least one usage. */
  lemma ReportsMeaning(all: seq<CodeUsage>)
    ensures BuildReports(all).Valid()
    ensures forall p :: p in BuildReports(all).vals <==> p in PackagesOf(all)
    ensures forall p :: p in BuildReports(all).vals ==>
      BuildReports(all).vals[p] == PackageUsageReport(p, |UsagesOf(all, p)|, FilesOf(UsagesOf(all, p)), UsagesOf(all, p))
  {
    ReportsKeys(all);
    forall p | p in BuildReports(all).vals
      ensures BuildReports(all).vals[p] == PackageUsageReport(p, |UsagesOf(all, p)|, FilesOf(UsagesOf(all, p)), UsagesOf(all, p))
    {
      ReportOf(all, p);
    }
  }

  /** There is a report exactly for each package with a usage. */
  lemma {:induction false} ReportsKeys(all: seq<CodeUsage>)
    ensures BuildReports(all).Valid()
    ensures forall p :: p in BuildReports(all).vals <==> p in PackagesOf(all)
    decreases |all|
  {
    if all != [] {
      var n := |all| - 1;
      ReportsKeys(all[..n]);
      assert all == all[..n] + [all[n]];
      assert PackagesOf(all) == PackagesOf(all[..n]) + {all[n].packageName};
    }
  }

  /** The report of package `p` holds exactly its usages. */
  lemma {:induction false} ReportOf(all: seq<CodeUsage>, p: string)
    ensures p in BuildReports(all).vals ==>
      BuildReports(all).vals[p] == PackageUsageReport(p, |UsagesOf(all, p)|, FilesOf(UsagesOf(all, p)), UsagesOf(all, p))
    decreases |all|
  {
    if all != [] {
      var n := |all| - 1;
      ReportOf(all[..n], p);
      if p == all[n].packageName {
        ReportOfLast(all, p);
      } else {
        var d := BuildReports(all[..n]);
        assert BuildReports(all) == AddUsage(d, all[n]);
        assert all == all[..n] + [all[n]];
        assert UsagesOf(all, p) == UsagesOf(all[..n], p);
        AddUsageOther(d, all[n], p);
      }
    }
  }

  /** The step of `ReportOf` for the package of the last usage. */
  lemma ReportOfLast(all: seq<CodeUsage>, p: string)
    requires all != [] && p == all[|all| - 1].packageName
    requires var pre := all[..|all| - 1];
      p in BuildReports(pre).vals ==>
      BuildReports(pre).vals[p] == PackageUsageReport(p, |UsagesOf(pre, p)|, FilesOf(UsagesOf(pre, p)), UsagesOf(pre, p))
    ensures BuildReports(all).vals[p] == PackageUsageReport(p, |UsagesOf(all, p)|, FilesOf(UsagesOf(all, p)), UsagesOf(all, p))
  {
    var n := |all| - 1;
    var u := all[n];
    var d := BuildReports(all[..n]);
    assert BuildReports(all) == AddUsage(d, u);
    assert all == all[..n] + [u];
    var prev := UsagesOf(all[..n], p);
    assert UsagesOf(all, p) == prev + [u];
    assert FilesOf(prev + [u]) == FilesOf(prev) + {u.filePath};
    if p !in d.vals {
      ReportsKeys(all[..n]);
      assert prev == [];
    }
    AddUsageSame(d, u);
  }

  lemma AddUsageSame(d: Dict<string, PackageUsageReport>, u: CodeUsage)
    ensures var r := if u.packageName in d.vals then d.vals[u.packageName] else PackageUsageReport(u.packageName, 0, {}, []);
      AddUsage(d, u).vals[u.packageName] == PackageUsageReport(r.packageName, r.totalUsages + 1, r.filesAffected + {u.filePath}, r.usages + [u])
  {
  }

  lemma AddUsageOther(d: Dict<string, PackageUsageReport>, u: CodeUsage, p: string)
    requires p != u.packageName
    ensures p in AddUsage(d, u).vals <==> p in d.vals
    ensures p in d.vals ==> AddUsage(d, u).vals[p] == d.vals[p]
  {
  }

  /** Every report is consistent: its count is the number of its usages,
      its files are those of its usages, it is non-empty, and every usage in
      it belongs to its package. */
  lemma ReportInvariants(all: seq<CodeUsage>)
    ensures forall p :: p in BuildReports(all).vals ==>
      var r := BuildReports(all).vals[p];
      && r.packageName == p && r.totalUsages == |r.usages| && r.filesAffected == FilesOf(r.usages)
      && r.usages != [] && (forall u :: u in r.usages ==> u.packageName == p)
  {
    ReportsMeaning(all);
    forall p | p in BuildReports(all).vals
      ensures BuildReports(all).vals[p].usages != []
    {
      var u :| u in all && u.packageName == p;
      assert u in UsagesOf(all, p);
    }
  }

  /** One entry of `export_summary()['packages']`. */
  datatype UsageSummary = UsageSummary(file: string, line: int, api: string, usageType: UsageType, context: string)
  datatype PackageSummary = PackageSummary(name: string, totalUsages: nat, filesAffected: nat, usages: seq<UsageSummary>)
  datatype ScanSummary = ScanSummary(totalPackagesFound: nat, packages: seq<PackageSummary>)

  function SummarizeUsage(u: CodeUsage): UsageSummary {
    UsageSummary(u.filePath, u.lineNumber, u.apiElement, u.usageType, u.context)
  }

  function SummarizeReport(r: PackageUsageReport): (s: PackageSummary)
    ensures s.name == r.packageName && |s.usages| == |r.usages|
    ensures forall i :: 0 <= i < |r.usages| ==> s.usages[i].file == r.usages[i].filePath && s.usages[i].line == r.usages[i].lineNumber
  {
    PackageSummary(r.packageName, r.totalUsages, |r.filesAffected|,
      seq(|r.usages|, i requires 0 <= i < |r.usages| => SummarizeUsage(r.usages[i])))
  }

  /** `export_summary`: one entry per report, in key order. */
  function ExportSummary(reports: Dict<string, PackageUsageReport>): (s: ScanSummary)
    requires reports.Valid()
    ensures s.totalPackagesFound == |s.packages| == reports.Size()
    ensures forall i :: 0 <= i < |s.packages| ==> s.packages[i].name == reports.vals[reports.keys[i]].packageName
  {
    var vs := reports.Values();
    ScanSummary(|reports.keys|, seq(|vs|, i requires 0 <= i < |vs| => SummarizeReport(vs[i])))
  }

  /** For reports built by a scan, every summary entry is named after its
      key and its usage count agrees with its usage list. */
  lemma SummaryOfScan(all: seq<CodeUsage>)
    ensures BuildReports(all).Valid()
    ensures var d := BuildReports(all); var s := ExportSummary(d);
      forall i :: 0 <= i < |s.packages| ==>
        s.packages[i].name == d.keys[i] && s.packages[i].totalUsages == |s.packages[i].usages| > 0
  {
    ReportsMeaning(all);
    ReportInvariants(all);
    var d := BuildReports(all);
    forall i | 0 <= i < |d.keys| ensures d.keys[i] in d.vals {
      assert d.keys[i] in d.keys;
    }
  }

  class CodeScanner {
    const targetPackages: seq<string>
    var usageReports: Dict<string, PackageUsageReport>

    /** `__init__`: `targets` is the caller's set, in iteration order. */
    constructor (targets: seq<string>)
      ensures targetPackages == NormalizedTargets(targets)
      ensures usageReports == Empty()
    {
      targetPackages := NormalizedTargets(targets);
      usageReports := Empty();
    }

    /** `scan_file`: a fresh visitor walks the file's tree. */
    method ScanFile(f: SourceFile) returns (us: seq<CodeUsage>)
      ensures us == FileUsages(targetPackages, f)
    {
      if f.tree.None? {
        return [];
      }
      var visitor := new ASTVisitor(f.path, targetPackages);
      visitor.SetSourceLines(f.lines);
      visitor.Visit(f.tree.value);
      us := visitor.usages;
    }

    /** `scan_directory` over the Python files found, in walk order: scan
        every file, then rebuild `usage_reports` from scratch. */
    method ScanDirectory(files: seq<SourceFile>) returns (reports: Dict<string, PackageUsageReport>)
      modifies this
      ensures usageReports == BuildReports(AllUsages(targetPackages, files))
      ensures reports == usageReports
    {
      var allUsages := ScanFiles(files);
      RebuildReports(allUsages);
      reports := usageReports;
    }

    /** The first loop of `scan_directory`: every file's usages, in order. */
    method ScanFiles(files: seq<SourceFile>) returns (allUsages: seq<CodeUsage>)
      ensures allUsages == AllUsages(targetPackages, files)
    {
      allUsages := [];
      var i := 0;
      while i < |files|
        invariant 0 <= i <= |files|
        invariant allUsages == AllUsages(targetPackages, files[..i])
      {
        var us := ScanFile(files[i]);
        assert files[..i + 1][..i] == files[..i];
        allUsages := allUsages + us;
        i := i + 1;
      }
      assert files[..i] == files;
    }

    /** The second loop of `scan_directory`: `usage_reports` rebuilt from
        scratch over all usages. */
    method RebuildReports(allUsages: seq<CodeUsage>)
      modifies this
      ensures usageReports == BuildReports(allUsages)
    {
      usageReports := Empty();
      var j := 0;
      while j < |allUsages|
        invariant 0 <= j <= |allUsages|
        invariant usageReports == BuildReports(allUsages[..j])
      {
        assert allUsages[..j + 1][..j] == allUsages[..j];
        AddToReports(allUsages[j]);
        j := j + 1;
      }
      assert allUsages[..j] == allUsages;
    }

    /** One iteration of that loop: create the package's report when missing,
        then count the usage, its file and the usage itself. */
    method AddToReports(usage: CodeUsage)
      modifies this
      ensures usageReports == AddUsage(old(usageReports), usage)
    {
      AddUsageInTwoSteps(usageReports, usage);
      if usage.packageName !in usageReports.vals {
        usageReports := usageReports.Put(usage.packageName, PackageUsageReport(usage.packageName, 0, {}, []));
      }
      var report := usageReports.vals[usage.packageName];
      usageReports := usageReports.Put(usage.packageName,
        PackageUsageReport(report.packageName, report.totalUsages + 1, report.filesAffected + {usage.filePath}, report.usages + [usage]));
    }

    /** `get_package_report`: looks the normalised name up. */
    function GetPackageReport(name: string): Option<PackageUsageReport>
      reads this
    {
      usageReports.Get(NormalizeTarget(name))
    }

    /** A name and its normalised form find the same report. */
    lemma GetPackageReportNormalizes(name: string)
      ensures GetPackageReport(NormalizeTarget(name)) == GetPackageReport(name)
    {
      NormalizeTargetIdempotent(name);
    }
  }
}
