/**
 * The program model of circa/program.py: a root path (a single source file
 * or a package directory), a resolver from dotted names to a file and the
 * definitions nested in it, a cache of loaded blocks, and the breadth-first
 * trace that starts at an entrypoint and follows every recorded call.
 *
 * The filesystem is a value: which candidate module files exist, what each
 * file parses to, and the directories around each file. The resolver and the
 * trace are stated as functions (`FindSpec`, `LoadSpec`, `TraceRun`); the
 * class `Program` runs the source's loops and is proved to agree with them.
 */
module Programs {
  import opened Wrappers
  import opened Text
  import Ast
  import opened Blocks
  import Results

  /** A source file of the program: the root file itself, or the module file named by some dotted parts. */
  datatype FilePath = RootFile | ModuleFile(parts: seq<string>)

  /**
   * What the program reads from the filesystem. `rootName` is the final
   * component of the root path; `modules` holds the part lists `p` for which
   * `(path / "/".join(p)).with_suffix(".py")` exists; `source` is the parser
   * and `dirs` the resolved directory names around each file.
   */
  datatype FileSystem = FileSystem(
    location: string,
    rootExists: bool,
    rootIsFile: bool,
    rootName: string,
    modules: set<seq<string>>,
    source: FilePath -> Ast.Node,
    dirs: FilePath -> seq<string>,
    stdlib: set<string>)

  /** The file name a block of this file reports. */
  function FileName(fs: FileSystem, f: FilePath): string
  {
    match f
    case RootFile => fs.location
    case ModuleFile(parts) => fs.location + "/" + Join(parts, '/') + ".py"
  }

  function SourceOf(fs: FileSystem, f: FilePath): SourceFile
  {
    SourceFile(FileName(fs, f), fs.dirs(f))
  }

  /** The own name of a file's root block: the stem of the root file, or the dotted module path. */
  function ModuleName(fs: FileSystem, f: FilePath): string
  {
    match f
    case RootFile => Stem(fs.rootName)
    case ModuleFile(parts) => Join(parts, '.')
  }

  /** The root block of a file (what the source calls `Block.read`). */
  function ReadSpec(fs: FileSystem, f: FilePath): (r: Result<Snapshot, Error>)
    ensures r.Ok? ==> r.value.ancestors == [] && r.value.FullName() == ModuleName(fs, f)
  {
    Construct(fs.source(f), ModuleName(fs, f), SourceOf(fs, f), [], fs.stdlib)
  }

  // ---------------------------------------------------------------------------
  // Resolving a dotted name.

  /** Where `_find_block` finds a name: the file, and the definitions to descend inside it. */
  datatype Found = Found(definitions: seq<string>, file: FilePath)

  /** The length of the longest non-empty prefix of `parts` in `modules`, or 0 when there is none. */
  function LongestPrefixIn(modules: set<seq<string>>, parts: seq<string>): (k: nat)
    ensures k <= |parts|
    ensures k > 0 ==> parts[..k] in modules
    ensures forall j :: k < j <= |parts| ==> parts[..j] !in modules
    decreases |parts|
  {
    if |parts| == 0 then 0
    else if parts in modules then (assert parts[..|parts|] == parts; |parts|)
    else
      var front := parts[..|parts| - 1];
      var k := LongestPrefixIn(modules, front);
      assert forall j :: 0 <= j <= |front| ==> front[..j] == parts[..j];
      assert parts[..|parts|] == parts;
      k
  }

  /**
   * `_find_block`. Under a file root every name resolves to the root file,
   * with the name less the stem as the only definition when anything is left.
   * Under a directory root the longest prefix of the dotted parts that names a
   * module file wins, and the remaining parts are the definitions.
   */
  function FindSpec(fs: FileSystem, name: string): (r: Result<Found, Error>)
    ensures fs.rootIsFile ==> r.Ok? && r.value.file == RootFile
    ensures fs.rootIsFile ==> var rest := RemovePrefix(name, Stem(fs.rootName));
      r.value.definitions == if rest == "" then [] else [rest]
    ensures !fs.rootIsFile && r.Ok? ==>
      var parts := Split(name, '.');
      r.value.file.ModuleFile? && |r.value.file.parts| >= 1 && r.value.file.parts in fs.modules &&
      r.value.file.parts + r.value.definitions == parts &&
      forall j :: |r.value.file.parts| < j <= |parts| ==> parts[..j] !in fs.modules
    ensures !fs.rootIsFile ==>
      (r.Err? <==> forall j :: 1 <= j <= |Split(name, '.')| ==> Split(name, '.')[..j] !in fs.modules)
    ensures r.Err? ==> r.error == BlockNotFound(name)
  {
    if fs.rootIsFile then
      var rest := RemovePrefix(name, Stem(fs.rootName));
      Ok(Found(if rest == "" then [] else [rest], RootFile))
    else
      var parts := Split(name, '.');
      var k := LongestPrefixIn(fs.modules, parts);
      assert parts[..k] + parts[k..] == parts;
      if k == 0 then Err(BlockNotFound(name)) else Ok(Found(parts[k..], ModuleFile(parts[..k])))
  }

  /** `_load_block`: the root block of the file, then `get` for each definition in turn. */
  function LoadSpec(fs: FileSystem, name: string): Result<Snapshot, Error>
  {
    match FindSpec(fs, name)
    case Err(e) => Err(e)
    case Ok(found) =>
      match ReadSpec(fs, found.file)
      case Err(e) => Err(e)
      case Ok(root) => Descend(root, found.definitions, fs.stdlib)
  }

  /**
   * Under a directory root, a block that loads has the requested name as its
   * qualified name: the module path and the definitions dot back together.
   */
  lemma DirectoryLoadKeepsName(fs: FileSystem, name: string)
    requires !fs.rootIsFile
    requires LoadSpec(fs, name).Ok?
    ensures LoadSpec(fs, name).value.FullName() == name
  {
    var found := FindSpec(fs, name).value;
    var root := ReadSpec(fs, found.file).value;
    DescendName(root, found.definitions, fs.stdlib);
    JoinFlatten(found.file.parts, found.definitions, '.');
    JoinSplit(name, '.');
  }

  /**
   * Under a file root, the part of a name after the stem keeps its leading
   * dot: `stem.f` leaves the definition `.f`, which no definition is named.
   */
  lemma FileRootKeepsDot(fs: FileSystem, d: string)
    requires fs.rootIsFile
    ensures FindSpec(fs, Stem(fs.rootName) + "." + d) == Ok(Found(["." + d], RootFile))
  {
    var stem := Stem(fs.rootName);
    assert stem <= stem + "." + d;
    assert (stem + "." + d)[|stem|..] == "." + d;
  }

  // ---------------------------------------------------------------------------
  // Tracing.

  /** The calls of a block as the tracer reports them. */
  function CallRecords(calls: seq<Blocks.Call>): (r: seq<Results.Call>)
    ensures |r| == |calls|
    ensures forall i :: 0 <= i < |calls| ==>
      r[i] == Results.Call(calls[i].name, calls[i].filename, calls[i].lineno, calls[i].offset)
  {
    if |calls| == 0 then []
    else
      var c := calls[|calls| - 1];
      CallRecords(calls[..|calls| - 1]) + [Results.Call(c.name, c.filename, c.lineno, c.offset)]
  }

  /** The record of one block: its qualified name, where it is, and its calls. */
  function RecordOf(s: Snapshot): Results.Trace
  {
    Results.Trace(s.FullName(), s.file.path, Ast.Lineno(s.node), Ast.ColOffset(s.node), CallRecords(s.calls))
  }

  /** The target names of some calls, in order. */
  function Targets(calls: seq<Results.Call>): (r: seq<string>)
    ensures |r| == |calls|
    ensures forall i :: 0 <= i < |calls| ==> r[i] == calls[i].name
  {
    if |calls| == 0 then [] else Targets(calls[..|calls| - 1]) + [calls[|calls| - 1].name]
  }

  /** The target names of the calls of some records, record after record. */
  function CallTargets(ts: seq<Results.Trace>): seq<string>
  {
    if |ts| == 0 then [] else Targets(ts[0].calls) + CallTargets(ts[1..])
  }

  /** Why a trace stops: the queue ran dry, the fuel ran out, or loading a block raised. */
  datatype Stop = Drained | OutOfFuel | Raised(error: Error)

  datatype Run = Run(traces: seq<Results.Trace>, stop: Stop)

  /** The record of the block a name loads to, or the error loading it raises. */
  function Record(fs: FileSystem, name: string): Result<Results.Trace, Error>
  {
    match LoadSpec(fs, name)
    case Err(e) => Err(e)
    case Ok(s) => Ok(RecordOf(s))
  }

  function Loader(fs: FileSystem): string -> Result<Results.Trace, Error>
  {
    name => Record(fs, name)
  }

  /**
   * `trace` from a queue of names, for at most `fuel` blocks, given the
   * record each name loads to: pop the first name, emit its record, append
   * the targets of its calls to the queue.
   */
  function TraceRun(load: string -> Result<Results.Trace, Error>, queue: seq<string>, fuel: nat): (r: Run)
    ensures |r.traces| <= fuel
    ensures r.stop == OutOfFuel ==> |r.traces| == fuel
    decreases fuel
  {
    if |queue| == 0 then Run([], Drained)
    else if fuel == 0 then Run([], OutOfFuel)
    else
      match load(queue[0])
      case Err(e) => Run([], Raised(e))
      case Ok(t) =>
        var rest := TraceRun(load, queue[1..] + Targets(t.calls), fuel - 1);
        Run([t] + rest.traces, rest.stop)
  }

  /** One turn of the loop: the head's record, then the run from the rest of the queue and its call targets. */
  lemma TraceRunStep(load: string -> Result<Results.Trace, Error>, queue: seq<string>, fuel: nat)
    requires |queue| > 0 && fuel > 0
    ensures load(queue[0]).Err? ==> TraceRun(load, queue, fuel) == Run([], Raised(load(queue[0]).error))
    ensures load(queue[0]).Ok? ==>
      var t := load(queue[0]).value;
      var rest := TraceRun(load, queue[1..] + Targets(t.calls), fuel - 1);
      TraceRun(load, queue, fuel) == Run([t] + rest.traces, rest.stop)
  {
  }

  /** The loop's invariant after a turn that emitted `t` and queued the targets of its calls. */
  lemma TraceRunAdvance(load: string -> Result<Results.Trace, Error>, whole: Run, traces: seq<Results.Trace>,
                        queue: seq<string>, fuel: nat, t: Results.Trace,
                        next: seq<string>, emitted: seq<Results.Trace>, left: nat)
    requires |queue| > 0 && fuel > 0 && load(queue[0]) == Ok(t)
    requires whole == Run(traces + TraceRun(load, queue, fuel).traces, TraceRun(load, queue, fuel).stop)
    requires next == queue[1..] + Targets(t.calls) && emitted == traces + [t] && left == fuel - 1
    ensures whole == Run(emitted + TraceRun(load, next, left).traces, TraceRun(load, next, left).stop)
  {
    TraceRunStep(load, queue, fuel);
    var rest := TraceRun(load, next, left);
    assert traces + ([t] + rest.traces) == (traces + [t]) + rest.traces;
  }

  /** The loop's invariant after a turn whose load raised. */
  lemma TraceRunRaise(load: string -> Result<Results.Trace, Error>, whole: Run, traces: seq<Results.Trace>,
                      queue: seq<string>, fuel: nat)
    requires |queue| > 0 && fuel > 0 && load(queue[0]).Err?
    requires whole == Run(traces + TraceRun(load, queue, fuel).traces, TraceRun(load, queue, fuel).stop)
    ensures whole == Run(traces, Raised(load(queue[0]).error))
  {
    TraceRunStep(load, queue, fuel);
    assert traces + [] == traces;
  }

  /**
   * Breadth-first emission: the i-th record is the record of the i-th name
   * of the queue followed by the call targets of the records before it.
   */
  lemma {:induction false} TraceBreadthFirst(load: string -> Result<Results.Trace, Error>, queue: seq<string>, fuel: nat, i: nat)
    requires i < |TraceRun(load, queue, fuel).traces|
    ensures var ts := TraceRun(load, queue, fuel).traces;
      var order := queue + CallTargets(ts[..i]);
      i < |order| && load(order[i]) == Ok(ts[i])
    decreases fuel
  {
    var ts := TraceRun(load, queue, fuel).traces;
    var t := load(queue[0]).value;
    var next := queue[1..] + Targets(t.calls);
    var rest := TraceRun(load, next, fuel - 1).traces;
    assert ts == [t] + rest;
    if i == 0 {
      assert ts[..0] == [];
      assert queue + CallTargets(ts[..0]) == queue;
    } else {
      TraceBreadthFirst(load, next, fuel - 1, i - 1);
      var before := CallTargets(rest[..i - 1]);
      assert ts[..i] == [t] + rest[..i - 1];
      assert ([t] + rest[..i - 1])[1..] == rest[..i - 1];
      assert CallTargets(ts[..i]) == Targets(t.calls) + before;
      QueueShift(queue, Targets(t.calls), before, i);
    }
  }

  /** The queue after popping its head, indexed one lower. */
  lemma QueueShift(queue: seq<string>, added: seq<string>, later: seq<string>, i: nat)
    requires |queue| >= 1 && 1 <= i
    requires i - 1 < |queue[1..] + added + later|
    ensures i < |queue + (added + later)|
    ensures (queue + (added + later))[i] == (queue[1..] + added + later)[i - 1]
  {
    assert queue + (added + later) == [queue[0]] + (queue[1..] + added + later);
  }

  /** The first record of a trace is the entrypoint's; an entrypoint that does not load stops the trace at once. */
  lemma TraceStartsAtEntrypoint(fs: FileSystem, entrypoint: string, fuel: nat)
    requires fuel > 0
    ensures LoadSpec(fs, entrypoint).Err? ==>
      TraceRun(Loader(fs), [entrypoint], fuel) == Run([], Raised(LoadSpec(fs, entrypoint).error))
    ensures LoadSpec(fs, entrypoint).Ok? ==>
      |TraceRun(Loader(fs), [entrypoint], fuel).traces| >= 1 &&
      TraceRun(Loader(fs), [entrypoint], fuel).traces[0] == RecordOf(LoadSpec(fs, entrypoint).value)
  {
    assert Loader(fs)(entrypoint) == Record(fs, entrypoint);
  }

  /**
   * Without a visited set the trace never runs dry on a recursive call graph:
   * when every name of `cycle` loads and its record calls some name of
   * `cycle`, and one of them is queued, each visit queues another.
   */
  lemma {:induction false} CycleNeverDrains(load: string -> Result<Results.Trace, Error>, queue: seq<string>, fuel: nat,
                                            cycle: set<string>)
    requires forall n {:trigger load(n)} :: n in cycle ==> load(n).Ok? && exists m :: m in cycle && m in Targets(load(n).value.calls)
    requires exists n :: n in cycle && n in queue
    ensures TraceRun(load, queue, fuel).stop != Drained
    decreases fuel
  {
    var n :| n in cycle && n in queue;
    if fuel > 0 {
      TraceRunStep(load, queue, fuel);
    }
    if fuel > 0 && load(queue[0]).Ok? {
      var t := load(queue[0]).value;
      var next := queue[1..] + Targets(t.calls);
      if queue[0] == n {
        var m :| m in cycle && m in Targets(t.calls);
        assert m in next;
      } else {
        assert queue == [queue[0]] + queue[1..];
        assert n in next;
      }
      CycleNeverDrains(load, next, fuel - 1, cycle);
    }
  }

  /** A queued name whose record calls that name itself keeps the trace from running dry. */
  lemma SelfCallNeverDrains(load: string -> Result<Results.Trace, Error>, queue: seq<string>, fuel: nat, name: string)
    requires name in queue
    requires load(name).Ok? && name in Targets(load(name).value.calls)
    ensures TraceRun(load, queue, fuel).stop != Drained
  {
    CycleNeverDrains(load, queue, fuel, {name});
  }

  /** The call targets of one more record follow those of the records before it. */
  lemma {:induction false} CallTargetsSnoc(ts: seq<Results.Trace>, t: Results.Trace)
    ensures CallTargets(ts + [t]) == CallTargets(ts) + Targets(t.calls)
    decreases |ts|
  {
    if |ts| == 0 {
      assert [t][1..] == [];
    } else {
      assert (ts + [t])[1..] == ts[1..] + [t];
      CallTargetsSnoc(ts[1..], t);
    }
  }

  /**
   * The names the loop has taken from the queue, followed by the queue, are
   * the entrypoint followed by the call targets of the records emitted.
   */
  lemma DequeueStep(taken: seq<string>, names: seq<string>, traces: seq<Results.Trace>, entry: string,
                    t: Results.Trace, taken': seq<string>, next: seq<string>, emitted: seq<Results.Trace>)
    requires taken + names == [entry] + CallTargets(traces) && |taken| == |traces| && |names| > 0
    requires taken' == taken + [names[0]] && next == names[1..] + Targets(t.calls) && emitted == traces + [t]
    ensures taken' + next == [entry] + CallTargets(emitted) && |taken'| == |emitted|
  {
    var first, rest, targets := names[0], names[1..], Targets(t.calls);
    assert names == [first] + rest;
    CallTargetsSnoc(traces, t);
    AppendAssoc(taken + [first], rest, targets);
    AppendAssoc(taken, [first], rest);
    AppendAssoc([entry], CallTargets(traces), targets);
  }

  /** A cache that keeps every entry of `before` and gains exactly the names in `taken`. */
  ghost predicate Grown<V>(before: map<string, V>, after: map<string, V>, taken: seq<string>)
  {
    (forall n :: n in before ==> n in after && after[n] == before[n]) &&
    after.Keys == before.Keys + (set n | n in taken)
  }

  /** A cache grown by the names taken so far from the front of `order`. */
  lemma GrownPrefix<V>(before: map<string, V>, after: map<string, V>, taken: seq<string>, names: seq<string>,
                       order: seq<string>, k: nat)
    requires Grown(before, after, taken) && taken + names == order && |taken| == k
    ensures forall n :: n in before ==> n in after && after[n] == before[n]
    ensures k <= |order| && after.Keys == before.Keys + (set n | n in order[..k])
  {
    assert order[..k] == taken;
  }

  /** Storing a name that is missing, or storing again what it holds, grows the cache by that name. */
  lemma GrownStep<V>(before: map<string, V>, cache: map<string, V>, taken: seq<string>, name: string, v: V,
                     cache': map<string, V>, taken': seq<string>)
    requires Grown(before, cache, taken)
    requires name in cache ==> cache[name] == v
    requires cache' == cache[name := v] && taken' == taken + [name]
    ensures Grown(before, cache', taken')
  {
    assert (set n | n in taken') == (set n | n in taken) + {name};
  }

  /** The loop of `trace` that appends the target of each call to the queue, in order. */
  method Enqueue(queue: seq<string>, calls: seq<Results.Call>) returns (r: seq<string>)
    ensures r == queue + Targets(calls)
  {
    r := queue;
    var i := 0;
    while i < |calls|
      invariant i <= |calls|
      invariant r == queue + Targets(calls[..i])
    {
      assert calls[..i + 1][..i] == calls[..i];
      r := r + [calls[i].name];
      i := i + 1;
    }
    assert calls[..i] == calls;
  }

  // ---------------------------------------------------------------------------
  // The program object.

  class Program {
    const fs: FileSystem
    /** `_blocks`: the loaded blocks by requested name. */
    var cache: map<string, Block>

    constructor Init(fs: FileSystem)
      ensures this.fs == fs && cache == map[]
    {
      this.fs := fs;
      cache := map[];
    }

    /** Every cached block is the block its name loads to. */
    predicate Valid()
      reads this, cache.Values
    {
      forall name :: name in cache ==> LoadSpec(fs, name) == Ok(cache[name].Freeze())
    }

    /** `Program(location)`: fails with ProgramNotFound when the root path does not exist. */
    static method Open(fs: FileSystem) returns (r: Result<Program, Error>)
      ensures r.Err? <==> !fs.rootExists
      ensures r.Err? ==> r.error == ProgramNotFound(fs.location)
      ensures r.Ok? ==> fresh(r.value) && r.value.fs == fs && r.value.cache == map[] && r.value.Valid()
    {
      if !fs.rootExists {
        return Err(ProgramNotFound(fs.location));
      }
      var p := new Program.Init(fs);
      return Ok(p);
    }

    /** The `main` property: the root file's stem, which resolves to the root file itself, or "__main__". */
    function DefaultEntrypoint(): (r: string)
      ensures fs.rootIsFile ==> r == Stem(fs.rootName) && FindSpec(fs, r) == Ok(Found([], RootFile))
      ensures !fs.rootIsFile ==> r == "__main__"
    {
      if fs.rootIsFile then
        var stem := Stem(fs.rootName);
        assert stem[|stem|..] == "";
        stem
      else "__main__"
    }

    /** `_find_block`: tries the parts from the longest prefix down, moving one part at a time to the definitions. */
    method FindBlock(name: string) returns (r: Result<Found, Error>)
      ensures r == FindSpec(fs, name)
    {
      if fs.rootIsFile {
        var definition := RemovePrefix(name, Stem(fs.rootName));
        return Ok(Found(if definition != "" then [definition] else [], RootFile));
      }
      var parts := Split(name, '.');
      ghost var all := parts;
      var definitions: seq<string> := [];
      var tries := |parts|;
      var step := 0;
      while step < tries
        invariant step <= tries == |all|
        invariant |parts| == tries - step
        invariant parts == all[..|parts|] && parts + definitions == all
        invariant forall j :: |parts| < j <= |all| ==> all[..j] !in fs.modules
      {
        if parts in fs.modules {
          return Ok(Found(definitions, ModuleFile(parts)));
        }
        assert all[..|parts|] == parts;
        definitions := [parts[|parts| - 1]] + definitions;
        parts := parts[..|parts| - 1];
        step := step + 1;
      }
      return Err(BlockNotFound(name));
    }

    /** `_load_block`. */
    method LoadBlock(name: string) returns (r: Result<Block, Error>)
      ensures r.Ok? ==> fresh(r.value) && LoadSpec(fs, name) == Ok(r.value.Freeze())
      ensures r.Err? ==> LoadSpec(fs, name) == Err(r.error)
    {
      var found := FindBlock(name);
      if found.Err? {
        return Err(found.error);
      }
      var definitions, file := found.value.definitions, found.value.file;
      var root := Block.Create(fs.source(file), ModuleName(fs, file), SourceOf(fs, file), [], fs.stdlib);
      if root.Err? {
        return Err(root.error);
      }
      var block := root.value;
      ghost var start := block.Freeze();
      var i := 0;
      while i < |definitions|
        invariant i <= |definitions|
        invariant fresh(block) && block.stdlib == fs.stdlib
        invariant Descend(start, definitions, fs.stdlib) == Descend(block.Freeze(), definitions[i..], fs.stdlib)
      {
        var next := block.Get(definitions[i]);
        DescendStep(block.Freeze(), definitions[i..], fs.stdlib);
        assert definitions[i..][0] == definitions[i] && definitions[i..][1..] == definitions[i + 1..];
        if next.Err? {
          return Err(next.error);
        }
        block := next.value;
        i := i + 1;
      }
      return Ok(block);
    }

    /**
     * `get_block`: the cached block when there is one, else the loaded one,
     * cached under `name`. The load runs first either way, as the default
     * argument of `dict.get`; every cached name loads, so a hit never raises.
     */
    method GetBlock(name: string) returns (r: Result<Block, Error>)
      requires Valid()
      modifies this
      ensures Valid()
      ensures r.Err? ==> name !in old(cache) && LoadSpec(fs, name) == Err(r.error) && cache == old(cache)
      ensures r.Ok? ==> LoadSpec(fs, name) == Ok(r.value.Freeze()) && cache == old(cache)[name := r.value]
      ensures r.Ok? && name in old(cache) ==> r.value == old(cache)[name]
      ensures r.Ok? && name !in old(cache) ==> fresh(r.value)
    {
      var loaded := LoadBlock(name);
      if loaded.Err? {
        return Err(loaded.error);
      }
      var block := if name in cache then cache[name] else loaded.value;
      cache := cache[name := block];
      return Ok(block);
    }

    /**
     * `trace`, for at most `fuel` blocks: the emitted records and why the
     * loop stopped are those of `TraceRun` from the entrypoint (`main` when
     * none is given).
     */
    method Trace(entrypoint: Option<string>, fuel: nat) returns (traces: seq<Results.Trace>, stop: Stop)
      requires Valid()
      modifies this
      ensures Valid()
      ensures TraceRun(Loader(fs), [if entrypoint.Some? then entrypoint.value else DefaultEntrypoint()], fuel) == Run(traces, stop)
      ensures forall n :: n in old(cache) ==> n in cache && cache[n] == old(cache)[n]
      ensures var order := [if entrypoint.Some? then entrypoint.value else DefaultEntrypoint()] + CallTargets(traces);
        |traces| <= |order| && cache.Keys == old(cache).Keys + (set n | n in order[..|traces|])
    {
      var entry := if entrypoint.Some? then entrypoint.value else DefaultEntrypoint();
      ghost var load := Loader(fs);
      ghost var whole := TraceRun(load, [entry], fuel);
      var names := [entry];
      traces := [];
      var left := fuel;
      ghost var taken: seq<string> := [];
      while |names| > 0 && left > 0
        invariant Valid()
        invariant whole == Run(traces + TraceRun(load, names, left).traces, TraceRun(load, names, left).stop)
        invariant taken + names == [entry] + CallTargets(traces) && |taken| == |traces|
        invariant Grown(old(cache), cache, taken)
        decreases left
      {
        var name := names[0];
        ghost var queue := names;
        names := names[1..];
        ghost var cached := cache;
        var block := GetBlock(name);
        assert load(name) == Record(fs, name);
        if block.Err? {
          TraceRunRaise(load, whole, traces, queue, left);
          GrownPrefix(old(cache), cache, taken, queue, [entry] + CallTargets(traces), |traces|);
          return traces, Raised(block.error);
        }
        var t := RecordOf(block.value.Freeze());
        ghost var before := traces;
        ghost var dequeued := taken;
        taken := taken + [name];
        traces := traces + [t];
        names := Enqueue(names, t.calls);
        left := left - 1;
        TraceRunAdvance(load, whole, before, queue, left + 1, t, names, traces, left);
        DequeueStep(dequeued, queue, before, entry, t, taken, names, traces);
        GrownStep(old(cache), cached, dequeued, name, block.value, cache, taken);
      }
      assert traces + [] == traces;
      GrownPrefix(old(cache), cache, taken, names, [entry] + CallTargets(traces), |traces|);
      stop := if |names| == 0 then Drained else OutOfFuel;
    }
  }
}
