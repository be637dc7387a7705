/**
 * The scope model of circa/blocks.py. A block wraps one syntax node as a
 * lexical scope: its qualified name dots together the names of its enclosing
 * blocks, and visiting the node's immediate children fills a local binding
 * table (identifier to qualified target) and the list of calls whose callee
 * text is bound in the merged table of the block and its ancestors.
 *
 * The first half states what a block holds as functions of its node and its
 * ancestors (the visitor as a function, `VisitNodes`); the class `Block` at
 * the end fills its table and call list in place, as the source does, and is
 * proved to end in the state those functions describe.
 */
module Blocks {
  import opened Wrappers
  import opened Text
  import Ast

  /** The exceptions the core raises. */
  datatype Error =
    | BlockNotFound(name: string)
    | ProgramNotFound(location: string)
    | AssertionFailed(message: string)

  /**
   * A source file: the path the tracer prints, and the directory names of its
   * resolved path, outermost first (the filesystem's answer to `resolve()`).
   */
  datatype SourceFile = SourceFile(path: string, dirs: seq<string>)

  /** A resolved call: the qualified name of its target and where it is written. */
  datatype Call = Call(name: string, filename: string, lineno: int, offset: int)

  /** What a block passes down to the blocks nested in it: its own name and table. */
  datatype Frame = Frame(name: string, names: map<string, string>)

  // ---------------------------------------------------------------------------
  // Names along the parent chain. `ancestors` lists the parent first and the
  // root block last.

  /** The `name` property: the parent's qualified name, a dot, the own name. */
  function QualifiedName(name: string, ancestors: seq<Frame>): string
    decreases |ancestors|
  {
    if |ancestors| == 0 then name
    else QualifiedName(ancestors[0].name, ancestors[1..]) + "." + name
  }

  /** The own names of the root block down to this one. */
  function Lineage(name: string, ancestors: seq<Frame>): (r: seq<string>)
    ensures |r| == |ancestors| + 1 && r[|r| - 1] == name
    decreases |ancestors|
  {
    if |ancestors| == 0 then [name]
    else Lineage(ancestors[0].name, ancestors[1..]) + [name]
  }

  /** A qualified name is the lineage of own names joined with dots. */
  lemma {:induction false} QualifiedNameIsJoin(name: string, ancestors: seq<Frame>)
    ensures QualifiedName(name, ancestors) == Join(Lineage(name, ancestors), '.')
    decreases |ancestors|
  {
    if |ancestors| > 0 {
      var up := Lineage(ancestors[0].name, ancestors[1..]);
      QualifiedNameIsJoin(ancestors[0].name, ancestors[1..]);
      JoinAppend(up, [name], '.');
    }
  }

  /** The own name of the outermost block of the chain. */
  function RootName(name: string, ancestors: seq<Frame>): string
  {
    if |ancestors| == 0 then name else ancestors[|ancestors| - 1].name
  }

  /** The root's own name is where every qualified name in its tree starts. */
  lemma {:induction false} RootNameStartsLineage(name: string, ancestors: seq<Frame>)
    ensures Lineage(name, ancestors)[0] == RootName(name, ancestors)
    decreases |ancestors|
  {
    if |ancestors| > 0 {
      RootNameStartsLineage(ancestors[0].name, ancestors[1..]);
      assert RootName(ancestors[0].name, ancestors[1..]) == RootName(name, ancestors);
    }
  }

  /** The merged table of a parent chain: each table overridden by the one nested in it. */
  function Inherited(ancestors: seq<Frame>): map<string, string>
  {
    if |ancestors| == 0 then map[] else Inherited(ancestors[1..]) + ancestors[0].names
  }

  /** Leaf-to-root lookup: the own table first, then each enclosing table in turn. */
  function Lookup(key: string, own: map<string, string>, ancestors: seq<Frame>): Option<string>
    decreases |ancestors|
  {
    if key in own then Some(own[key])
    else if |ancestors| == 0 then None
    else Lookup(key, ancestors[0].names, ancestors[1..])
  }

  /**
   * The merged table (`parent.names | self._names`) binds exactly the keys
   * that leaf-to-root lookup finds, to the nearest binding.
   */
  lemma {:induction false} MergedIsNearestBinding(key: string, own: map<string, string>, ancestors: seq<Frame>)
    ensures key in Inherited(ancestors) + own <==> Lookup(key, own, ancestors).Some?
    ensures key in Inherited(ancestors) + own ==>
      (Inherited(ancestors) + own)[key] == Lookup(key, own, ancestors).value
    decreases |ancestors|
  {
    if key !in own && |ancestors| > 0 {
      MergedIsNearestBinding(key, ancestors[0].names, ancestors[1..]);
    }
  }

  // ---------------------------------------------------------------------------
  // Imports.

  /** `_is_firstparty_module`: not a standard-library module, and the root block's name is dotted. */
  predicate IsFirstParty(moduleName: Option<string>, root: string, stdlib: set<string>)
  {
    !(moduleName.Some? && moduleName.value in stdlib) && '.' in root
  }

  /** The stem of the `k`-th enclosing directory of a file (0 is its own directory); "" past the filesystem root. */
  function DirStem(dirs: seq<string>, k: nat): string
  {
    if k < |dirs| then Stem(dirs[|dirs| - 1 - k]) else ""
  }

  /** The stems of the `level` nearest enclosing directories, outermost first. */
  function EnclosingStems(dirs: seq<string>, level: nat): (r: seq<string>)
    ensures |r| == level
  {
    if level == 0 then [] else [DirStem(dirs, level - 1)] + EnclosingStems(dirs, level - 1)
  }

  /** The dotted target of `from <module> import <name>` with relative `level`. */
  function ImportTarget(moduleName: string, name: string, level: nat, dirs: seq<string>): (r: string)
    ensures level == 0 ==> r == moduleName + "." + name
  {
    Join(EnclosingStems(dirs, level) + [moduleName + "." + name], '.')
  }

  /**
   * When no directory stem contains a dot, a relative import gains exactly
   * `level` leading components, the directory stems, outermost first.
   */
  lemma ImportTargetComponents(moduleName: string, name: string, level: nat, dirs: seq<string>)
    requires FreeOf(EnclosingStems(dirs, level), '.')
    ensures Split(ImportTarget(moduleName, name, level, dirs), '.')
      == EnclosingStems(dirs, level) + Split(moduleName + "." + name, '.')
    ensures |Split(ImportTarget(moduleName, name, level, dirs), '.')|
      == level + |Split(moduleName + "." + name, '.')|
  {
    var stems, last := EnclosingStems(dirs, level), moduleName + "." + name;
    if level > 0 {
      JoinAppend(stems, [last], '.');
      SplitConcat(Join(stems, '.'), last, '.');
      SplitJoin(stems, '.');
    }
  }

  /** One entry written into a block's own table. */
  datatype Binding = Binding(key: string, target: string)

  /** The table after writing each binding in order. */
  function BindAll(names: map<string, string>, bindings: seq<Binding>): map<string, string>
  {
    if |bindings| == 0 then names
    else
      var last := bindings[|bindings| - 1];
      BindAll(names, bindings[..|bindings| - 1])[last.key := last.target]
  }

  /** The target of the last binding of `key`, if any. */
  function LastTarget(bindings: seq<Binding>, key: string): Option<string>
  {
    if |bindings| == 0 then None
    else if bindings[|bindings| - 1].key == key then Some(bindings[|bindings| - 1].target)
    else LastTarget(bindings[..|bindings| - 1], key)
  }

  /** Writing bindings in order: the last binding of a key wins, other keys keep their entries. */
  lemma {:induction false} BindAllLastWins(names: map<string, string>, bindings: seq<Binding>, key: string)
    ensures key in BindAll(names, bindings) <==> key in names || LastTarget(bindings, key).Some?
    ensures LastTarget(bindings, key).Some? ==>
      BindAll(names, bindings)[key] == LastTarget(bindings, key).value
    ensures LastTarget(bindings, key).None? && key in names ==>
      BindAll(names, bindings)[key] == names[key]
  {
    if |bindings| > 0 {
      BindAllLastWins(names, bindings[..|bindings| - 1], key);
    }
  }

  /** The key an alias binds: `asname` when given, else the imported name. */
  function BindingName(a: Ast.Alias): string
  {
    if a.asname.Some? then a.asname.value else a.name
  }

  /** `visit_Import`: each first-party alias binds its key to the module name. */
  function ImportBindings(aliases: seq<Ast.Alias>, root: string, stdlib: set<string>): seq<Binding>
  {
    if |aliases| == 0 then []
    else
      var a := aliases[|aliases| - 1];
      ImportBindings(aliases[..|aliases| - 1], root, stdlib)
        + (if IsFirstParty(Some(a.name), root, stdlib) then [Binding(BindingName(a), a.name)] else [])
  }

  /** Every binding of an import names a first-party module, under the key its alias gives. */
  lemma {:induction false} ImportBindingsFirstParty(aliases: seq<Ast.Alias>, root: string, stdlib: set<string>, i: nat)
    requires i < |ImportBindings(aliases, root, stdlib)|
    ensures var b := ImportBindings(aliases, root, stdlib)[i];
      IsFirstParty(Some(b.target), root, stdlib) &&
      exists a :: a in aliases && a.name == b.target && BindingName(a) == b.key
  {
    var init := aliases[..|aliases| - 1];
    var a := aliases[|aliases| - 1];
    var front := ImportBindings(init, root, stdlib);
    if i < |front| {
      ImportBindingsFirstParty(init, root, stdlib, i);
      var b := front[i];
      var w :| w in init && w.name == b.target && BindingName(w) == b.key;
      assert w in aliases;
    } else {
      assert a in aliases;
    }
  }

  /** `visit_ImportFrom` once the module is known: each alias binds to its resolved target. */
  function FromBindings(moduleName: string, aliases: seq<Ast.Alias>, level: nat, dirs: seq<string>): (r: seq<Binding>)
    ensures |r| == |aliases|
    ensures forall i :: 0 <= i < |r| ==>
      r[i] == Binding(BindingName(aliases[i]), ImportTarget(moduleName, aliases[i].name, level, dirs))
  {
    if |aliases| == 0 then []
    else
      var a := aliases[|aliases| - 1];
      FromBindings(moduleName, aliases[..|aliases| - 1], level, dirs)
        + [Binding(BindingName(a), ImportTarget(moduleName, a.name, level, dirs))]
  }

  /** The message of the assertion `resolve_import` makes about a missing module. */
  const MissingModule := "TODO: handle optional case"

  /** `resolve_import`: a missing module fails its assertion. */
  function ResolvedImport(moduleName: Option<string>, name: string, level: nat, dirs: seq<string>): Result<string, Error>
  {
    if moduleName.None? then Err(AssertionFailed(MissingModule))
    else Ok(ImportTarget(moduleName.value, name, level, dirs))
  }

  // ---------------------------------------------------------------------------
  // The visitor.

  /** What visiting reads from the block: its qualified name, inherited table, file, root name and `sys.stdlib_module_names`. */
  datatype Scope = Scope(name: string, inherited: map<string, string>, file: SourceFile, root: string, stdlib: set<string>)

  /** What visiting writes: the own table and the call list. */
  datatype Built = Built(names: map<string, string>, calls: seq<Call>)

  /** The block scope of a node named `name` under `ancestors`. */
  function ScopeOf(name: string, file: SourceFile, ancestors: seq<Frame>, stdlib: set<string>): Scope
  {
    Scope(QualifiedName(name, ancestors), Inherited(ancestors), file, RootName(name, ancestors), stdlib)
  }

  /** `visit_ImportFrom`. */
  function ImportFromTable(sc: Scope, names: map<string, string>, moduleName: Option<string>,
                           aliases: seq<Ast.Alias>, level: nat): Result<map<string, string>, Error>
  {
    if !IsFirstParty(moduleName, sc.root, sc.stdlib) then Ok(names)
    else if moduleName.None? then
      if |aliases| == 0 then Ok(names) else Err(AssertionFailed(MissingModule))
    else Ok(BindAll(names, FromBindings(moduleName.value, aliases, level, sc.file.dirs)))
  }

  /** `visit_Call`: the call is kept when its callee text is bound in the merged table. */
  function WithCall(sc: Scope, b: Built, callee: string, lineno: int, col: int): Built
  {
    var table := sc.inherited + b.names;
    if callee in table then Built(b.names, b.calls + [Call(table[callee], sc.file.path, lineno, col)])
    else b
  }

  /**
   * `visit(n)`: the handled kinds do not look inside their node; any other
   * kind is visited through its children (`generic_visit`).
   */
  function VisitNode(sc: Scope, b: Built, n: Ast.Node): (r: Result<Built, Error>)
    ensures r.Ok? ==> b.calls <= r.value.calls
    ensures r.Err? ==> r.error.AssertionFailed?
    decreases n
  {
    match n
    case Import(aliases) =>
      Ok(Built(BindAll(b.names, ImportBindings(aliases, sc.root, sc.stdlib)), b.calls))
    case ImportFrom(moduleName, aliases, level) =>
      (match ImportFromTable(sc, b.names, moduleName, aliases, level)
       case Ok(names) => Ok(Built(names, b.calls))
       case Err(e) => Err(e))
    case FunctionDef(name, _, _, _) => Ok(Built(b.names[name := sc.name + "." + name], b.calls))
    case ClassDef(name, _, _, _) => Ok(Built(b.names[name := sc.name + "." + name], b.calls))
    case Call(callee, _, lineno, col) => Ok(WithCall(sc, b, callee, lineno, col))
    case AsyncFunctionDef(_, body, _, _) => VisitNodes(sc, b, body)
    case Other(children) => VisitNodes(sc, b, children)
  }

  /** Visiting a sequence of nodes in order; the first failure stops the visit. */
  function VisitNodes(sc: Scope, b: Built, ns: seq<Ast.Node>): (r: Result<Built, Error>)
    ensures r.Ok? ==> b.calls <= r.value.calls
    ensures r.Err? ==> r.error.AssertionFailed?
    decreases ns
  {
    if |ns| == 0 then Ok(b)
    else
      match VisitNode(sc, b, ns[0])
      case Err(e) => Err(e)
      case Ok(next) => VisitNodes(sc, next, ns[1..])
  }

  /** Visiting `xs + ys` is visiting `xs`, then `ys` from where `xs` left off. */
  lemma {:induction false} VisitNodesAppend(sc: Scope, b: Built, xs: seq<Ast.Node>, ys: seq<Ast.Node>)
    ensures VisitNodes(sc, b, xs + ys) ==
      match VisitNodes(sc, b, xs)
      case Err(e) => Err(e)
      case Ok(mid) => VisitNodes(sc, mid, ys)
    decreases |xs|
  {
    if |xs| > 0 {
      assert (xs + ys)[0] == xs[0] && (xs + ys)[1..] == xs[1..] + ys;
      match VisitNode(sc, b, xs[0])
      case Err(_) =>
      case Ok(next) => VisitNodesAppend(sc, next, xs[1..], ys);
    } else {
      assert xs + ys == ys;
    }
  }

  /** Visiting one more node after `xs`. */
  lemma VisitNodesSnoc(sc: Scope, b: Built, xs: seq<Ast.Node>, x: Ast.Node)
    ensures VisitNodes(sc, b, xs + [x]) ==
      match VisitNodes(sc, b, xs)
      case Err(e) => Err(e)
      case Ok(mid) => VisitNode(sc, mid, x)
  {
    VisitNodesAppend(sc, b, xs, [x]);
    match VisitNodes(sc, b, xs)
    case Err(_) =>
    case Ok(mid) =>
      match VisitNode(sc, mid, x)
      case Err(_) =>
      case Ok(_) =>
  }

  /**
   * A call among the statements is recorded exactly when its callee text is
   * a key of the merged table built from the statements before it; its
   * arguments are not visited, and later statements start from the result.
   */
  lemma CallSeesEarlierBindings(sc: Scope, b: Built, before: seq<Ast.Node>, callee: string,
                                args: seq<Ast.Node>, lineno: int, col: int, after: seq<Ast.Node>)
    requires VisitNodes(sc, b, before).Ok?
    ensures var mid := VisitNodes(sc, b, before).value;
      var table := sc.inherited + mid.names;
      VisitNodes(sc, b, before + [Ast.Call(callee, args, lineno, col)] + after) ==
        VisitNodes(sc, Built(mid.names, mid.calls +
          (if callee in table then [Call(table[callee], sc.file.path, lineno, col)] else [])), after)
  {
    var call := Ast.Call(callee, args, lineno, col);
    VisitNodesAppend(sc, b, before + [call], after);
    VisitNodesSnoc(sc, b, before, call);
    var mid := VisitNodes(sc, b, before).value;
    assert mid.calls + [] == mid.calls;
  }

  /**
   * A nested `def` or `class` named N binds N to the block's qualified name
   * dotted with N; its body adds no binding and no call to the block.
   */
  lemma DefinitionBindsQualifiedName(sc: Scope, b: Built, before: seq<Ast.Node>, def: Ast.Node, after: seq<Ast.Node>)
    requires def.FunctionDef? || def.ClassDef?
    requires VisitNodes(sc, b, before).Ok?
    ensures var mid := VisitNodes(sc, b, before).value;
      VisitNodes(sc, b, before + [def] + after) ==
        VisitNodes(sc, Built(mid.names[def.name := sc.name + "." + def.name], mid.calls), after)
  {
    VisitNodesAppend(sc, b, before + [def], after);
    VisitNodesSnoc(sc, b, before, def);
  }

  /** An import from a module that is not first-party changes nothing. */
  lemma ForeignImportFromIgnored(sc: Scope, b: Built, before: seq<Ast.Node>, moduleName: Option<string>,
                                 aliases: seq<Ast.Alias>, level: nat, after: seq<Ast.Node>)
    requires !IsFirstParty(moduleName, sc.root, sc.stdlib)
    requires VisitNodes(sc, b, before).Ok?
    ensures VisitNodes(sc, b, before + [Ast.ImportFrom(moduleName, aliases, level)] + after) ==
      VisitNodes(sc, VisitNodes(sc, b, before).value, after)
  {
    var imp := Ast.ImportFrom(moduleName, aliases, level);
    VisitNodesAppend(sc, b, before + [imp], after);
    VisitNodesSnoc(sc, b, before, imp);
  }

  /** Whether an alias of an `import` writes `key`: it is first-party and its key is `key`. */
  predicate BindsKey(a: Ast.Alias, key: string, root: string, stdlib: set<string>)
  {
    BindingName(a) == key && IsFirstParty(Some(a.name), root, stdlib)
  }

  /** Looking past a binding of another key. */
  lemma LastTargetSkip(bindings: seq<Binding>, b: Binding, key: string)
    requires b.key != key
    ensures LastTarget(bindings + [b], key) == LastTarget(bindings, key)
  {
    assert (bindings + [b])[..|bindings|] == bindings;
  }

  /**
   * The last binding an `import` makes for `key` comes from the last
   * first-party alias whose key is `key`, and there is one exactly when some
   * alias writes `key`.
   */
  lemma {:induction false} ImportBindingsLastAlias(aliases: seq<Ast.Alias>, root: string, stdlib: set<string>, key: string)
    ensures LastTarget(ImportBindings(aliases, root, stdlib), key).None? <==>
      forall k :: 0 <= k < |aliases| ==> !BindsKey(aliases[k], key, root, stdlib)
    ensures LastTarget(ImportBindings(aliases, root, stdlib), key).Some? ==>
      exists j :: 0 <= j < |aliases| && BindsKey(aliases[j], key, root, stdlib) &&
        LastTarget(ImportBindings(aliases, root, stdlib), key).value == aliases[j].name &&
        forall k :: j < k < |aliases| ==> !BindsKey(aliases[k], key, root, stdlib)
  {
    if |aliases| > 0 {
      var init, a := aliases[..|aliases| - 1], aliases[|aliases| - 1];
      var front := ImportBindings(init, root, stdlib);
      ImportBindingsLastAlias(init, root, stdlib, key);
      assert forall k :: 0 <= k < |init| ==> aliases[k] == init[k];
      ImportBindingsLastStep(aliases, root, stdlib, key);
      if !BindsKey(a, key, root, stdlib) && LastTarget(front, key).Some? {
        var j :| 0 <= j < |init| && BindsKey(init[j], key, root, stdlib) &&
          LastTarget(front, key).value == init[j].name &&
          forall k :: j < k < |init| ==> !BindsKey(init[k], key, root, stdlib);
        assert aliases[j] == init[j];
      }
    }
  }

  /** The last binding of `key` after one more alias: that alias's module if it writes `key`, else as before. */
  lemma ImportBindingsLastStep(aliases: seq<Ast.Alias>, root: string, stdlib: set<string>, key: string)
    requires |aliases| > 0
    ensures var a := aliases[|aliases| - 1];
      LastTarget(ImportBindings(aliases, root, stdlib), key) ==
        if BindsKey(a, key, root, stdlib) then Some(a.name)
        else LastTarget(ImportBindings(aliases[..|aliases| - 1], root, stdlib), key)
  {
    var a := aliases[|aliases| - 1];
    var front := ImportBindings(aliases[..|aliases| - 1], root, stdlib);
    if IsFirstParty(Some(a.name), root, stdlib) {
      var b := Binding(BindingName(a), a.name);
      assert ImportBindings(aliases, root, stdlib) == front + [b];
      if b.key != key {
        LastTargetSkip(front, b, key);
      }
    } else {
      assert ImportBindings(aliases, root, stdlib) == front + [];
      assert front + [] == front;
    }
  }

  /**
   * Every first-party alias of an `import` binds its key (`asname`, else the
   * name): to its own module, unless a later first-party alias with the same
   * key overwrites it with that alias's module.
   */
  lemma ImportBindsFirstPartyAliases(names: map<string, string>, aliases: seq<Ast.Alias>, root: string,
                                     stdlib: set<string>, i: nat)
    requires i < |aliases| && IsFirstParty(Some(aliases[i].name), root, stdlib)
    ensures var table, key := BindAll(names, ImportBindings(aliases, root, stdlib)), BindingName(aliases[i]);
      key in table &&
      exists j :: i <= j < |aliases| && BindsKey(aliases[j], key, root, stdlib) && table[key] == aliases[j].name &&
        forall k :: j < k < |aliases| ==> !BindsKey(aliases[k], key, root, stdlib)
  {
    var key := BindingName(aliases[i]);
    var bindings := ImportBindings(aliases, root, stdlib);
    assert BindsKey(aliases[i], key, root, stdlib);
    ImportBindingsLastAlias(aliases, root, stdlib, key);
    BindAllLastWins(names, bindings, key);
  }

  /** In a block whose root name has no dot, no import binds anything. */
  lemma {:induction false} NoFirstPartyImportsOutsidePackages(aliases: seq<Ast.Alias>, root: string, stdlib: set<string>)
    requires '.' !in root
    ensures ImportBindings(aliases, root, stdlib) == []
  {
    if |aliases| > 0 {
      NoFirstPartyImportsOutsidePackages(aliases[..|aliases| - 1], root, stdlib);
    }
  }

  // ---------------------------------------------------------------------------
  // Whole blocks, as values.

  /** Everything a built block holds. */
  datatype Snapshot = Snapshot(node: Ast.Node, name: string, file: SourceFile, ancestors: seq<Frame>,
                               names: map<string, string>, calls: seq<Call>)
  {
    function FullName(): string { QualifiedName(name, ancestors) }
    /** The frame this block hands to the blocks nested in it. */
    function AsParent(): seq<Frame> { [Frame(name, names)] + ancestors }
  }

  /** `Block(node, name, filename, parent)`: the block after its constructor has visited the node's children. */
  function Construct(node: Ast.Node, name: string, file: SourceFile, ancestors: seq<Frame>, stdlib: set<string>): (r: Result<Snapshot, Error>)
    ensures r.Ok? ==> r.value.node == node && r.value.FullName() == QualifiedName(name, ancestors)
    ensures r.Err? ==> r.error.AssertionFailed?
  {
    match VisitNodes(ScopeOf(name, file, ancestors, stdlib), Built(map[], []), Ast.ChildNodes(node))
    case Err(e) => Err(e)
    case Ok(b) => Ok(Snapshot(node, name, file, ancestors, b.names, b.calls))
  }

  /** The index of the first node declaring `name`, or `|ns|`. */
  function FirstNamed(ns: seq<Ast.Node>, name: string): (i: nat)
    ensures i <= |ns|
    ensures i < |ns| ==> Ast.DeclaredName(ns[i]) == Some(name)
    ensures forall j :: 0 <= j < i ==> Ast.DeclaredName(ns[j]) != Some(name)
  {
    if |ns| == 0 || Ast.DeclaredName(ns[0]) == Some(name) then 0
    else 1 + FirstNamed(ns[1..], name)
  }

  /**
   * `get(name)`: the block of the first immediate child declaring `name`,
   * nested in this one, or BlockNotFound when no child declares it.
   */
  function Child(s: Snapshot, name: string, stdlib: set<string>): (r: Result<Snapshot, Error>)
    ensures r == Err(BlockNotFound(name)) <==>
      forall i :: 0 <= i < |Ast.ChildNodes(s.node)| ==> Ast.DeclaredName(Ast.ChildNodes(s.node)[i]) != Some(name)
    ensures r.Ok? ==> r.value.ancestors == s.AsParent() && r.value.name == name && r.value.file == s.file
    ensures r.Ok? ==> var cs := Ast.ChildNodes(s.node);
      FirstNamed(cs, name) < |cs| && r.value.node == cs[FirstNamed(cs, name)]
    ensures r.Ok? ==> r.value.FullName() == s.FullName() + "." + name
  {
    var children := Ast.ChildNodes(s.node);
    var i := FirstNamed(children, name);
    if i == |children| then Err(BlockNotFound(name))
    else Construct(children[i], name, s.file, s.AsParent(), stdlib)
  }

  /** `get` applied for each definition name in turn. */
  function Descend(s: Snapshot, definitions: seq<string>, stdlib: set<string>): Result<Snapshot, Error>
    decreases |definitions|
  {
    if |definitions| == 0 then Ok(s)
    else
      match Child(s, definitions[0], stdlib)
      case Err(e) => Err(e)
      case Ok(c) => Descend(c, definitions[1..], stdlib)
  }

  /** Descending starts with the first definition's child. */
  lemma DescendStep(s: Snapshot, definitions: seq<string>, stdlib: set<string>)
    requires |definitions| > 0
    ensures Child(s, definitions[0], stdlib).Err? ==>
      Descend(s, definitions, stdlib) == Err(Child(s, definitions[0], stdlib).error)
    ensures Child(s, definitions[0], stdlib).Ok? ==>
      Descend(s, definitions, stdlib) == Descend(Child(s, definitions[0], stdlib).value, definitions[1..], stdlib)
  {
  }

  /** Descending through definitions appends each of them, in order, to the qualified name. */
  lemma {:induction false} DescendName(s: Snapshot, definitions: seq<string>, stdlib: set<string>)
    requires Descend(s, definitions, stdlib).Ok?
    ensures Descend(s, definitions, stdlib).value.FullName() == Join([s.FullName()] + definitions, '.')
    decreases |definitions|
  {
    if |definitions| > 0 {
      var c := Child(s, definitions[0], stdlib).value;
      DescendName(c, definitions[1..], stdlib);
      JoinDotted(s.FullName(), definitions, '.');
    }
  }

  /** Writing one more binding after `bindings`. */
  lemma BindAllSnoc(names: map<string, string>, bindings: seq<Binding>, b: Binding)
    ensures BindAll(names, bindings + [b]) == BindAll(names, bindings)[b.key := b.target]
  {
    assert (bindings + [b])[..|bindings|] == bindings;
  }

  /** Writing the binding of one more alias of a `from` import. */
  lemma BindFromStep(names: map<string, string>, moduleName: string, aliases: seq<Ast.Alias>, i: nat, j: nat,
                     level: nat, dirs: seq<string>, table: map<string, string>, next: map<string, string>)
    requires i < |aliases| && j == i + 1
    requires table == BindAll(names, FromBindings(moduleName, aliases[..i], level, dirs))
    requires next == table[BindingName(aliases[i]) := ImportTarget(moduleName, aliases[i].name, level, dirs)]
    ensures next == BindAll(names, FromBindings(moduleName, aliases[..j], level, dirs))
  {
    assert aliases[..i + 1][..i] == aliases[..i];
    BindAllSnoc(names, FromBindings(moduleName, aliases[..i], level, dirs),
      Binding(BindingName(aliases[i]), ImportTarget(moduleName, aliases[i].name, level, dirs)));
  }

  /** The merged table agrees with leaf-to-root lookup on every key. */
  lemma MergedIsLookup(own: map<string, string>, ancestors: seq<Frame>)
    ensures forall key :: key in Inherited(ancestors) + own <==> Lookup(key, own, ancestors).Some?
    ensures forall key :: key in Inherited(ancestors) + own ==>
      (Inherited(ancestors) + own)[key] == Lookup(key, own, ancestors).value
  {
    forall key {
      MergedIsNearestBinding(key, own, ancestors);
    }
  }

  // ---------------------------------------------------------------------------
  // The block object.

  /**
   * `Block(ast.NodeVisitor)`. The parent is passed as the frames of the
   * enclosing blocks: a parent's table is complete before `get` creates a
   * child, and nothing writes it afterwards.
   */
  class Block {
    const node: Ast.Node
    const localName: string
    const file: SourceFile
    const ancestors: seq<Frame>
    /** `sys.stdlib_module_names`. */
    const stdlib: set<string>
    /** `_names`: the block's own binding table. */
    var names: map<string, string>
    var calls: seq<Call>

    constructor Init(node: Ast.Node, name: string, file: SourceFile, ancestors: seq<Frame>, stdlib: set<string>)
      ensures this.node == node && localName == name && this.file == file
      ensures this.ancestors == ancestors && this.stdlib == stdlib
      ensures names == map[] && calls == []
    {
      this.node := node;
      localName := name;
      this.file := file;
      this.ancestors := ancestors;
      this.stdlib := stdlib;
      names := map[];
      calls := [];
    }

    /** `__init__`: a block over `node` whose table and calls come from visiting the node's children. */
    static method Create(node: Ast.Node, name: string, file: SourceFile, ancestors: seq<Frame>, stdlib: set<string>)
      returns (r: Result<Block, Error>)
      ensures r.Ok? ==> fresh(r.value) && r.value.stdlib == stdlib
      ensures r.Ok? ==> Construct(node, name, file, ancestors, stdlib) == Ok(r.value.Freeze())
      ensures r.Err? ==> Construct(node, name, file, ancestors, stdlib) == Err(r.error)
    {
      var b := new Block.Init(node, name, file, ancestors, stdlib);
      var err := b.GenericVisit(node);
      if err.Some? {
        return Err(err.value);
      }
      return Ok(b);
    }

    /** The `name` property: the own names from the root block down, joined with dots. */
    function Name(): (r: string)
      ensures r == Join(Lineage(localName, ancestors), '.')
    {
      QualifiedNameIsJoin(localName, ancestors);
      QualifiedName(localName, ancestors)
    }

    /** The `names` property: each key bound to its binding in the nearest block, from this one outwards. */
    function Names(): (r: map<string, string>)
      reads this
      ensures forall key :: key in r <==> Lookup(key, names, ancestors).Some?
      ensures forall key :: key in r ==> r[key] == Lookup(key, names, ancestors).value
    {
      MergedIsLookup(names, ancestors);
      Inherited(ancestors) + names
    }

    /** The `lineno` property: a node without a position is on line 1. */
    function Lineno(): (r: int)
      ensures node.FunctionDef? || node.AsyncFunctionDef? || node.ClassDef? || node.Call? ==> r == node.lineno
      ensures node.Import? || node.ImportFrom? || node.Other? ==> r == 1
    {
      Ast.Lineno(node)
    }

    /** The `offset` property: a node without a position is at column 0. */
    function Offset(): (r: int)
      ensures node.FunctionDef? || node.AsyncFunctionDef? || node.ClassDef? || node.Call? ==> r == node.colOffset
      ensures node.Import? || node.ImportFrom? || node.Other? ==> r == 0
    {
      Ast.ColOffset(node)
    }

    function CurrentScope(): Scope
    {
      ScopeOf(localName, file, ancestors, stdlib)
    }

    function State(): Built
      reads this
    {
      Built(names, calls)
    }

    /** The visit's result as the visitor functions state it: success leaves the current state. */
    function Outcome(err: Option<Error>): Result<Built, Error>
      reads this
    {
      if err.None? then Ok(State()) else Err(err.value)
    }

    function Freeze(): Snapshot
      reads this
    {
      Snapshot(node, localName, file, ancestors, names, calls)
    }

    /** `generic_visit(n)`: visit each child node of `n` in order; an exception stops the visit. */
    method GenericVisit(n: Ast.Node) returns (err: Option<Error>)
      modifies this
      ensures VisitNodes(CurrentScope(), old(State()), Ast.ChildNodes(n)) == Outcome(err)
      decreases n, 0
    {
      var children := Ast.ChildNodes(n);
      ghost var start := State();
      var i := 0;
      while i < |children|
        invariant i <= |children|
        invariant VisitNodes(CurrentScope(), start, children[..i]) == Ok(State())
      {
        VisitNodesSnoc(CurrentScope(), start, children[..i], children[i]);
        assert children[..i + 1] == children[..i] + [children[i]];
        err := Visit(children[i]);
        if err.Some? {
          VisitNodesAppend(CurrentScope(), start, children[..i + 1], children[i + 1..]);
          assert children[..i + 1] + children[i + 1..] == children;
          return;
        }
        i := i + 1;
      }
      assert children[..i] == children;
      err := None;
    }

    /** `visit(n)`: dispatch on the node kind; unhandled kinds go to `generic_visit`. */
    method Visit(n: Ast.Node) returns (err: Option<Error>)
      modifies this
      ensures VisitNode(CurrentScope(), old(State()), n) == Outcome(err)
      decreases n, 1
    {
      err := None;
      match n
      case Import(aliases) => VisitImport(aliases);
      case ImportFrom(moduleName, aliases, level) => err := VisitImportFrom(moduleName, aliases, level);
      case FunctionDef(name, _, _, _) => VisitFunctionDef(name);
      case ClassDef(name, _, _, _) => VisitClassDef(name);
      case Call(callee, _, lineno, col) =>
        VisitCall(callee, lineno, col);
        MergedIsNearestBinding(callee, old(names), ancestors);
        assert old(calls) + [] == old(calls);
      case AsyncFunctionDef(_, _, _, _) => err := GenericVisit(n);
      case Other(_) => err := GenericVisit(n);
    }

    /** `_is_firstparty_module`: walks up to the root block and tests its name for a dot. */
    method IsFirstPartyModule(moduleName: Option<string>) returns (b: bool)
      ensures b == IsFirstParty(moduleName, RootName(localName, ancestors), stdlib)
    {
      if moduleName.Some? && moduleName.value in stdlib {
        return false;
      }
      var root := localName;
      var i := 0;
      while i < |ancestors|
        invariant i <= |ancestors|
        invariant root == RootName(localName, ancestors[..i])
      {
        root := ancestors[i].name;
        i := i + 1;
      }
      assert ancestors[..i] == ancestors;
      return '.' in root;
    }

    /** `resolve_import`: the module dotted with the name, prefixed by one directory stem per level. */
    method ResolveImport(moduleName: Option<string>, name: string, level: nat) returns (r: Result<string, Error>)
      ensures r == ResolvedImport(moduleName, name, level, file.dirs)
    {
      if moduleName.None? {
        return Err(AssertionFailed(MissingModule));
      }
      var definition := moduleName.value + "." + name;
      var parent := file.dirs;
      var k := 0;
      while k < level
        invariant k <= level
        invariant parent == if k <= |file.dirs| then file.dirs[..|file.dirs| - k] else []
        invariant definition == Join(EnclosingStems(file.dirs, k) + [moduleName.value + "." + name], '.')
      {
        var stem := if |parent| == 0 then "" else Stem(parent[|parent| - 1]);
        assert stem == DirStem(file.dirs, k);
        ghost var tail := EnclosingStems(file.dirs, k) + [moduleName.value + "." + name];
        JoinCons(stem, tail, '.');
        assert EnclosingStems(file.dirs, k + 1) + [moduleName.value + "." + name] == [stem] + tail;
        definition := stem + "." + definition;
        parent := if |parent| == 0 then [] else parent[..|parent| - 1];
        k := k + 1;
      }
      return Ok(definition);
    }

    /** `visit_Import`: bind each first-party module under its alias. */
    method VisitImport(aliases: seq<Ast.Alias>)
      modifies this
      ensures names == BindAll(old(names), ImportBindings(aliases, RootName(localName, ancestors), stdlib))
      ensures calls == old(calls)
    {
      var root := RootName(localName, ancestors);
      var i := 0;
      while i < |aliases|
        invariant i <= |aliases|
        invariant names == BindAll(old(names), ImportBindings(aliases[..i], root, stdlib))
        invariant calls == old(calls)
      {
        var alias := aliases[i];
        var name := if alias.asname.Some? then alias.asname.value else alias.name;
        var firstParty := IsFirstPartyModule(Some(alias.name));
        assert aliases[..i + 1][..i] == aliases[..i];
        if firstParty {
          BindAllSnoc(old(names), ImportBindings(aliases[..i], root, stdlib), Binding(name, alias.name));
          names := names[name := alias.name];
        } else {
          assert ImportBindings(aliases[..i + 1], root, stdlib) == ImportBindings(aliases[..i], root, stdlib) + [];
          assert ImportBindings(aliases[..i], root, stdlib) + [] == ImportBindings(aliases[..i], root, stdlib);
        }
        i := i + 1;
      }
      assert aliases[..i] == aliases;
    }

    /** `visit_ImportFrom`: for a first-party module, bind each alias to its resolved import. */
    method VisitImportFrom(moduleName: Option<string>, aliases: seq<Ast.Alias>, level: nat) returns (err: Option<Error>)
      modifies this
      ensures ImportFromTable(CurrentScope(), old(names), moduleName, aliases, level) ==
        (if err.None? then Ok(names) else Err(err.value))
      ensures calls == old(calls)
    {
      ghost var sc := CurrentScope();
      assert sc.root == RootName(localName, ancestors) && sc.stdlib == stdlib && sc.file == file;
      var firstParty := IsFirstPartyModule(moduleName);
      if !firstParty {
        return None;
      }
      var i := 0;
      while i < |aliases|
        invariant i <= |aliases|
        invariant moduleName.None? ==> i == 0 && names == old(names)
        invariant moduleName.Some? ==>
          names == BindAll(old(names), FromBindings(moduleName.value, aliases[..i], level, file.dirs))
        invariant calls == old(calls)
      {
        var alias := aliases[i];
        var name := if alias.asname.Some? then alias.asname.value else alias.name;
        var definition := ResolveImport(moduleName, alias.name, level);
        if definition.Err? {
          return Some(definition.error);
        }
        ghost var table := names;
        names := names[name := definition.value];
        i := i + 1;
        BindFromStep(old(names), moduleName.value, aliases, i - 1, i, level, file.dirs, table, names);
      }
      assert aliases[..i] == aliases;
      return None;
    }

    /** `visit_ClassDef`: bind the class name to this block's name dotted with it. */
    method VisitClassDef(name: string)
      modifies this
      ensures names == old(names)[name := Name() + "." + name]
      ensures calls == old(calls)
    {
      names := names[name := Name() + "." + name];
    }

    /** `visit_FunctionDef`: bind the function name to this block's name dotted with it. */
    method VisitFunctionDef(name: string)
      modifies this
      ensures names == old(names)[name := Name() + "." + name]
      ensures calls == old(calls)
    {
      names := names[name := Name() + "." + name];
    }

    /** `visit_Call`: record the call when leaf-to-root lookup finds the callee text. */
    method VisitCall(callee: string, lineno: int, col: int)
      modifies this
      ensures names == old(names)
      ensures calls == old(calls) +
        match Lookup(callee, names, ancestors)
        case Some(target) => [Call(target, file.path, lineno, col)]
        case None => []
    {
      var table := Names();
      if callee in table {
        calls := calls + [Call(table[callee], file.path, lineno, col)];
      }
    }

    /** `get(name)`: the block of the first child node declaring `name`, or BlockNotFound. */
    method Get(name: string) returns (r: Result<Block, Error>)
      ensures r.Ok? ==> fresh(r.value) && r.value.stdlib == stdlib
      ensures r.Ok? ==> Child(Freeze(), name, stdlib) == Ok(r.value.Freeze())
      ensures r.Err? ==> Child(Freeze(), name, stdlib) == Err(r.error)
    {
      var children := Ast.ChildNodes(node);
      var i := 0;
      while i < |children|
        invariant i <= |children|
        invariant forall j :: 0 <= j < i ==> Ast.DeclaredName(children[j]) != Some(name)
      {
        if Ast.DeclaredName(children[i]) == Some(name) {
          assert FirstNamed(children, name) == i;
          r := Create(children[i], name, file, [Frame(localName, names)] + ancestors, stdlib);
          return;
        }
        i := i + 1;
      }
      assert FirstNamed(children, name) == |children|;
      return Err(BlockNotFound(name));
    }
  }
}
