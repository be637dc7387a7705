# circa, modelled in Dafny

circa is a static call-graph tracer for Python programs. It starts at an
entrypoint such as a module, a function or a method. It resolves the dotted
name to a source file and the definitions nested in it, and finds every call
inside that definition whose callee it can bind to another definition of the
program. It then follows those calls breadth first, emitting one record per
block it visits.

This project models three parts of circa:

- the scope model (`circa/blocks.py`);
- the program's resolver, block cache and traversal (`circa/program.py`);
- the text form of the records it emits (`circa/results.py`).

Modules:

- `wrappers.dfy`: `Option` and `Result`.
- `text.dfy`: the Python string operations the core relies on, namely `str.split` and `str.join` on one character, `str.removeprefix`, `PurePath.stem` and the decimal rendering of an `int`. It also holds their round-trip lemmas.
- `ast.dfy`: the syntax tree as a closed datatype. It has the node kinds the visitor distinguishes (`Import`, `ImportFrom`, `FunctionDef`, `ClassDef`, `Call`), `AsyncFunctionDef` (visited through its children, but named like a `def`), and `Other` for every other kind, together with its child nodes.
- `blocks.dfy`: the block.
  - The parent chain is a list of ancestor frames, the parent first. Each frame holds a block's own name and its own binding table.
  - The qualified name, the merged table and the visitor are functions of the node and its ancestors. `VisitNode` and `VisitNodes` follow `ast.NodeVisitor`: a handled kind does not look inside its node, and any other kind visits its children.
  - The class `Block` fills its table and call list in place through `GenericVisit` and the `Visit*` methods. Each method is proved to end in the state those functions give.
- `programs.dfy`: the program.
  - The filesystem is a value. It says whether the root exists and is a file, which module files exist (as dotted part lists), what each file parses to, and the directory names around each file.
  - `FindSpec` and `LoadSpec` state resolution and loading. `TraceRun` states the breadth-first trace under a fuel bound.
  - The class `Program` holds the block cache as a `map` field. Its `FindBlock`, `LoadBlock`, `GetBlock` and `Trace` methods run the source's loops and are proved equal to those functions.
- `results.dfy`: `locate` and the `__str__` forms of a call and a trace, with parsers that read a location and a call back.

Behaviour of the code as written that the model keeps:

- `get_block` evaluates the default of `dict.get` eagerly, so it loads the block even on a cache hit. A name that is already cached always loads again without error, so a hit still returns the cached block (`Program.GetBlock`).
- `trace` keeps no visited set. Once a block of a recursive call graph is queued, the trace never drains (`CycleNeverDrains`). This covers mutual recursion as well as a block that calls itself (`SelfCallNeverDrains`). The model therefore runs `trace` for at most `fuel` blocks.
- Under a file root the resolver strips only the stem from the name, so `stem.f` leaves the definition `.f`, dot included (`FileRootKeepsDot`).
- A missing block raises `BlockNotFound`, both in the resolver and in `get`. There is no separate error for a missing definition, and no fallback to a package's `__init__.py`.
- `from . import x` inside a package trips the assertion in `resolve_import`, which aborts the construction of the enclosing block. This is why `Block.Create` returns a `Result`.

## Model

| member | source | states |
|---|---|---|
| Blocks.Block.Name | circa/blocks.py:34-38 | the qualified name is the own names from the root block down to this one, joined with dots |
| Blocks.QualifiedName | circa/blocks.py:34-38 | the definition of the `name` property: the own name, or the parent's qualified name, a dot and the own name; `QualifiedNameIsJoin` states what it computes |
| Blocks.QualifiedNameIsJoin | circa/blocks.py:34-38 | the recursive parent-dot-name definition equals the dotted join of the lineage |
| Blocks.Lineage | circa/blocks.py:34-38 | the lineage has one own name per ancestor plus one, and ends with the block's own name |
| Blocks.RootNameStartsLineage | circa/blocks.py:71-73 | the root block reached by walking up the parents is the first name of every qualified name under it |
| Blocks.Block.Names | circa/blocks.py:28-32 | the merged table binds exactly the keys that leaf-to-root lookup finds, each to its binding in the nearest block |
| Blocks.Inherited | circa/blocks.py:28-32 | the definition of the parent's merged table, each ancestor's table overridden by the one nested in it; `MergedIsNearestBinding` states what it computes |
| Blocks.Lookup | circa/blocks.py:28-32 | the independent leaf-to-root lookup the merged table is proved against: the own table first, then each ancestor in turn |
| Blocks.MergedIsNearestBinding | circa/blocks.py:28-32 | for one key, the parent's merged table overridden by the own table agrees with nearest-binding lookup, in both directions |
| Blocks.MergedIsLookup | circa/blocks.py:28-32 | the same agreement for every key at once |
| Blocks.Block.Lineno | circa/blocks.py:40-43 | definitions (`async def` included) report their line, and a module root, which has no position, is on line 1 |
| Blocks.Block.Offset | circa/blocks.py:45-49 | definitions (`async def` included) report their column, and a module root is at column 0 |
| Blocks.Child | circa/blocks.py:51-55 | `get` fails with BlockNotFound iff no immediate child declares the name (a `def`, `async def` or `class`); otherwise the block wraps the first child that declares it, in the same file, has this block as parent, and its qualified name is this block's name dotted with the requested name |
| Blocks.FirstNamed | circa/blocks.py:52-53 | the loop stops at the first child node declaring the name, and no earlier child declares it |
| Blocks.Block.Get | circa/blocks.py:51-55 | the loop search returns a fresh block equal to `Child` of the current state, or `Child`'s error |
| Blocks.EnclosingStems | circa/blocks.py:60-63 | a relative import of level L takes exactly L directory stems |
| Blocks.ImportTarget | circa/blocks.py:57-64 | an absolute import (level 0) resolves to `module.name` |
| Blocks.ImportTargetComponents | circa/blocks.py:57-64 | with level L the target splits into the L enclosing directory stems, outermost first, followed by the parts of `module.name` |
| Blocks.ResolvedImport | circa/blocks.py:57-64 | the definition `resolve_import` is proved against: the assertion failure for a missing module, else `ImportTarget` |
| Blocks.Block.ResolveImport | circa/blocks.py:57-64 | the loop that prefixes one directory stem per level computes `ResolvedImport`, and a missing module fails the assertion |
| Blocks.IsFirstParty | circa/blocks.py:66-74 | the definition the loop is proved against: not a standard-library module, and the root block's name holds a dot |
| Blocks.Block.IsFirstPartyModule | circa/blocks.py:66-74 | a standard-library module is never first-party; otherwise the result is whether the root block's name has a dot, whatever the module |
| Blocks.NoFirstPartyImportsOutsidePackages | circa/blocks.py:66-80 | when the root block's name has no dot, no `import` binds anything |
| Blocks.ImportBindings | circa/blocks.py:76-80 | the definition of the bindings an `import` writes, one per first-party alias in order; its two directions are `ImportBindingsFirstParty` and `ImportBindsFirstPartyAliases` |
| Blocks.ImportBindingsFirstParty | circa/blocks.py:76-80 | every binding an `import` makes targets a first-party module named by one of its aliases, under that alias's key |
| Blocks.ImportBindingsLastAlias | circa/blocks.py:76-80 | an `import` binds a key iff some first-party alias has that key, and its last binding is the module of the last such alias |
| Blocks.ImportBindsFirstPartyAliases | circa/blocks.py:76-80 | every first-party alias binds its key (`asname`, else the name) in the new table, to its own module or that of a later first-party alias with the same key, the last one |
| Blocks.BindAllLastWins | circa/blocks.py:76-89 | after writing bindings in order, a key holds its last binding, and a key without bindings keeps its old entry |
| Blocks.Block.VisitImport | circa/blocks.py:76-80 | the table becomes the old table with each first-party alias bound, in order, to the module name under `asname` or else the name |
| Blocks.FromBindings | circa/blocks.py:86-89 | a `from` import binds each alias, in order, to its resolved import under `asname` or else the name |
| Blocks.BindFromStep | circa/blocks.py:86-89 | one more alias of a `from` import adds exactly its own binding |
| Blocks.ImportFromTable | circa/blocks.py:82-89 | the definition of `visit_ImportFrom` on the table: unchanged for a foreign module, the assertion failure of a missing module with aliases, else `FromBindings` written in order |
| Blocks.Block.VisitImportFrom | circa/blocks.py:82-89 | the loop ends in the table `ImportFromTable` gives: unchanged for a foreign module, else every alias bound to its resolved import, or the assertion failure of a missing module |
| Blocks.ForeignImportFromIgnored | circa/blocks.py:82-84 | an import from a module that is not first-party leaves the rest of the visit as if it were absent |
| Blocks.Block.VisitClassDef | circa/blocks.py:91-93 | binds the class name to the block's qualified name dotted with it, and records no call |
| Blocks.Block.VisitFunctionDef | circa/blocks.py:95-96 | binds the function name to the block's qualified name dotted with it, and records no call |
| Blocks.DefinitionBindsQualifiedName | circa/blocks.py:91-96 | among a block's statements, a nested `def` or `class` only binds its name; its body adds no binding and no call |
| Blocks.Block.VisitCall | circa/blocks.py:98-102 | appends one call exactly when leaf-to-root lookup finds the callee text, targeted at the found binding; the table is unchanged |
| Blocks.WithCall | circa/blocks.py:98-102 | the definition of `visit_Call` on a built state: one call appended when the merged table binds the callee text |
| Blocks.CallSeesEarlierBindings | circa/blocks.py:98-102 | a call statement is recorded iff its callee is a key of the merged table built from the statements before it; its arguments are not visited, and later statements continue from there |
| Blocks.VisitNode | circa/blocks.py:76-102 | visiting only ever appends calls, and the only failure is an assertion |
| Blocks.VisitNodes | circa/blocks.py:26 | visiting children in order only appends calls, and the first failure stops it |
| Blocks.VisitNodesAppend | circa/blocks.py:26 | visiting `xs + ys` is visiting `xs`, then `ys` from the resulting state |
| Blocks.VisitNodesSnoc | circa/blocks.py:26 | visiting one more child continues from the state the earlier ones left |
| Blocks.Block.GenericVisit | circa/blocks.py:26 | the loop over the child nodes ends in the state `VisitNodes` gives, or in its error |
| Blocks.Block.Visit | circa/blocks.py:76-102 | dispatch by node kind ends in the state `VisitNode` gives, or in its error |
| Blocks.Construct | circa/blocks.py:17-26 | a constructed block keeps its node, has the qualified name of its chain, and fails only by an assertion |
| Blocks.Block.Create | circa/blocks.py:17-26 | constructing a block with an empty table and no calls, then visiting the node's children, gives a fresh block equal to `Construct`, or `Construct`'s error |
| Blocks.Descend | circa/program.py:32-33 | the definition of the loop of `_load_block`: `get` for each definition in turn, stopping at the first error |
| Blocks.DescendName | circa/program.py:32-33 | descending appends each definition, in order, to the qualified name |
| Programs.Program.Open | circa/program.py:12-16 | construction fails with ProgramNotFound iff the root path does not exist, and otherwise starts with an empty cache |
| Programs.Program.DefaultEntrypoint | circa/program.py:18-22 | a file root's default entrypoint is its stem, which resolves to the root file with no definitions; a directory root's is exactly `__main__` |
| Programs.LongestPrefixIn | circa/program.py:44-53 | the prefix found names a module file, and no longer prefix does |
| Programs.FindSpec | circa/program.py:36-53 | file root: the root file, with the name less the stem as the only definition when anything is left. Directory root: a non-empty module prefix plus definitions that give back the split name, with the longest prefix winning; BlockNotFound iff no non-empty prefix names a module |
| Programs.Program.FindBlock | circa/program.py:36-53 | the loop that pops parts into the definitions computes `FindSpec` |
| Programs.FileRootKeepsDot | circa/program.py:38-39 | under a file root, `stem.d` resolves to the definition `.d` with its leading dot |
| Programs.ModuleName | circa/program.py:31 | the name a file's root block gets: the root file's stem, or the module parts joined with dots |
| Programs.ReadSpec | circa/program.py:31 | a file's root block has no parent, and its qualified name is the module name of the file |
| Programs.LoadSpec | circa/program.py:29-34 | the definition `LoadBlock` is proved against: resolve, read the file's root block, then descend the definitions |
| Programs.DirectoryLoadKeepsName | circa/program.py:29-34 | under a directory root a loaded block's qualified name is the requested name |
| Programs.Program.LoadBlock | circa/program.py:29-34 | reading the file's block, then `get` for each definition in turn, gives a fresh block equal to `LoadSpec`, or its error |
| Programs.Program.GetBlock | circa/program.py:24-27 | the cache then maps the name to the returned block and nothing else changes; a cached name returns its cached block; an error leaves the cache alone and means the name was not cached |
| Programs.CallRecords | circa/blocks.py:8-13 | a block's calls become records field by field, in order |
| Programs.RecordOf | circa/program.py:61-64 | the record emitted for a block: its qualified name, file, position and calls, standing in for the tracer |
| Programs.Targets | circa/program.py:66-67 | the names queued after a record are its calls' target names, in order |
| Programs.Enqueue | circa/program.py:66-67 | the loop appends each call's target name to the queue in order |
| Programs.TraceRun | circa/program.py:55-67 | a run under fuel emits at most `fuel` records, and exactly `fuel` when the fuel stops it |
| Programs.TraceStartsAtEntrypoint | circa/program.py:55-64 | the first record is the entrypoint's block's; an entrypoint that does not load stops the trace with its error |
| Programs.TraceBreadthFirst | circa/program.py:55-67 | the i-th record is the record of the i-th name of the start queue followed by the call targets of the earlier records, in order |
| Programs.CycleNeverDrains | circa/program.py:57-67 | without a visited set, the trace never drains once a name of a set is queued whose every name loads and calls some name of the set (mutual recursion) |
| Programs.SelfCallNeverDrains | circa/program.py:57-67 | the one-name case: a queued name whose block calls itself keeps the trace from ever draining |
| Programs.Program.Trace | circa/program.py:55-67 | the records emitted and the reason the loop stops are those of `TraceRun` from the entrypoint, or from `main` when none is given; the cache stays consistent, keeps every entry it had, and gains exactly the names whose records were emitted, i.e. the first `|traces|` names of the entrypoint followed by the call targets of the records |
| Results.Locate | circa/results.py:4-5 | `locate` itself: file name, colon, line, colon, column; `LocateRoundTrip` is its partner |
| Results.LocateRoundTrip | circa/results.py:4-5 | `filename:lineno:offset` reads back, from the right, as the same file name, line and column, whatever the file name holds |
| Results.LocationOnOneLine | circa/results.py:4-5 | a location holds a newline only if its file name does |
| Results.CallText | circa/results.py:15-17 | `Call.__str__` itself: name, one space, location; `CallRoundTrip` is its partner |
| Results.CallRoundTrip | circa/results.py:15-17 | a call renders as its name, one space and its location, and reads back as itself when the name has no space |
| Results.Renderings | circa/results.py:30 | one rendering per call, in list order |
| Results.RenderingsOnOneLine | circa/results.py:15-17 | no rendering of a call holds a newline unless its name or file does |
| Results.CallsText | circa/results.py:30 | the calls section: `-` for no calls, else the renderings joined by newlines; `CallsSplit` states its lines |
| Results.CallsSplit | circa/results.py:30 | the indented calls section is `-` when there are no calls, else one line per rendering in order |
| Results.TraceText | circa/results.py:28-31 | `Trace.__str__` itself: `Block: ` and the location, `Calls:`, then the indented calls section; `TraceLines` states its lines |
| Results.HeaderLines | circa/results.py:31 | a trace begins with the `Block:` line and the `Calls:` line |
| Results.TraceLines | circa/results.py:28-31 | a trace's lines are the `Block: location` line, `Calls:`, then `    -` or one line per call with only the first indented |
| Results.TraceTextIgnoresName | circa/results.py:28-31 | the trace's name does not affect its text |

## Left out

- `circa/main.py`, the command-line interface, is not part of this model. That covers colour, the pager and how a directory entrypoint is chosen; they are user interface and filesystem queries.
- `circa/tracer.py` is a stub that raises `NotImplementedError`. It is not part of this model. Each emitted record is the block's own data: its qualified name, file, position and recorded calls (`RecordOf`).
- `Block.read`, which `_load_block` calls, is not defined in `circa/blocks.py`. The model reads a file's root block as a block over the parsed file, named by its module path (the root file's stem for a file root).
- Parsing and `ast.unparse`: the filesystem value supplies each file's tree, and a call node carries its rendered callee text.
- The filesystem: `exists`, `is_file`, `resolve` and `with_suffix` become fields of the filesystem value. Reported file names are the root location joined with the module path; no path normalisation is modelled.
- `sys.stdlib_module_names` is a set parameter.
- Nodes the visitor has no method for are visited through their children. Besides `async def`, which carries its name and position, they are `Other` nodes without a name or position: no block other than a file's root block wraps one, and `get` never matches one. Python 3.12 type parameters, which carry a name, are not modelled.
- Programs.Program.Trace: the generator's laziness is not modelled. The method runs at most `fuel` turns and returns the records in order, with the reason it stopped. An unbounded trace is the limit of large fuel.
- Blocks.Block.Get: the child receives this block's own name and table as an immutable frame, not a live reference to the parent object. The core never writes a parent's table once a child exists, so lookups agree.
