/**
 * The syntax-tree based sharing script: it rewrites the top-level statements
 * of an analysis module so that every `from sandbox.utils import ...` is
 * replaced by the utilities module's own imports (once) and by the
 * definitions of the imported utility functions together with every
 * utility function they call, each definition emitted once and after the
 * definitions it calls.
 *
 * Modules are already parsed: a module is its sequence of top-level
 * statements, and a function definition carries the nodes `ast.walk`
 * visits inside it.
 */
module SandboxShare {
  import PyPath
  import PyStr

  type Name = string

  /** What a call node calls: a bare name (`ast.Name`) or anything else (`obj.attr`, a call result, ...). */
  datatype Callee = NameCallee(id: Name) | OtherCallee

  /** A node visited by `ast.walk`: a call, or any other node. */
  datatype Node = CallNode(func: Callee) | OtherNode

  /** A top-level `def`: its name and the nodes `ast.walk` yields for it. */
  datatype FuncDef = FuncDef(name: Name, walk: seq<Node>)

  /**
   * A top-level statement. `fromModule` of an `ImportFrom` is "" for a relative
   * import without a module (`from . import x`).
   */
  datatype Stmt =
    | Import(modules: seq<Name>)
    | ImportFrom(fromModule: string, names: seq<Name>)
    | FunctionDef(def: FuncDef)
    | Other(text: string)

  const UTILS_MODULE := "sandbox.utils"

  /** The keys of `FUNCTIONS_MAP`: the utility functions a module may import. */
  const FUNCTIONS_MAP: set<Name> := {"format_args", "ts_plot"}

  // ---------------------------------------------------------------------------
  // find_called_functions

  /** Somewhere inside `def` there is a call of the bare name `n`. */
  predicate Calls(def: FuncDef, n: Name) {
    exists i :: 0 <= i < |def.walk| && def.walk[i] == CallNode(NameCallee(n))
  }

  /** `find_called_functions`: the set of bare names called inside `def`. */
  method FindCalledFunctions(def: FuncDef) returns (called: set<Name>)
    ensures forall n :: n in called <==> Calls(def, n)
  {
    called := {};
    for i := 0 to |def.walk|
      invariant forall n :: n in called <==> exists k :: 0 <= k < i && def.walk[k] == CallNode(NameCallee(n))
    {
      var node := def.walk[i];
      if node.CallNode? && node.func.NameCallee? {
        called := called + {node.func.id};
      }
    }
  }

  // ---------------------------------------------------------------------------
  // get_utils_imports_and_functions

  predicate IsImport(s: Stmt) {
    s.Import? || s.ImportFrom?
  }

  /** `s` defines the function `n`. */
  predicate Defines(s: Stmt, n: Name) {
    s.FunctionDef? && s.def.name == n
  }

  /** The import statements of a module, in order. */
  function ImportsOf(body: seq<Stmt>): (r: seq<Stmt>)
    ensures forall k :: 0 <= k < |r| ==> IsImport(r[k])
    ensures |r| <= |body|
  {
    if body == [] then []
    else
      var last := body[|body| - 1];
      ImportsOf(body[..|body| - 1]) + (if IsImport(last) then [last] else [])
  }

  /** The function map as filled statement by statement: a later `def` replaces an earlier one. */
  function FunctionsOf(body: seq<Stmt>): map<Name, FuncDef> {
    if body == [] then map[]
    else
      var last := body[|body| - 1];
      var m := FunctionsOf(body[..|body| - 1]);
      if last.FunctionDef? then m[last.def.name := last.def] else m
  }

  /**
   * `get_utils_imports_and_functions`, on the parsed utilities module: the
   * imports in order, and the definitions by name.
   */
  method GetUtilsImportsAndFunctions(utilsBody: seq<Stmt>)
    returns (imports: seq<Stmt>, functions: map<Name, FuncDef>)
    ensures imports == ImportsOf(utilsBody)
    ensures functions == FunctionsOf(utilsBody)
  {
    imports := [];
    functions := map[];
    for i := 0 to |utilsBody|
      invariant imports == ImportsOf(utilsBody[..i])
      invariant functions == FunctionsOf(utilsBody[..i])
    {
      var node := utilsBody[i];
      assert utilsBody[..i + 1][..i] == utilsBody[..i];
      if IsImport(node) {
        imports := imports + [node];
      } else if node.FunctionDef? {
        functions := functions[node.def.name := node.def];
      }
    }
    assert utilsBody[..|utilsBody|] == utilsBody;
  }

  /** The imports of two consecutive parts are those of the first, then those of the second. */
  lemma {:induction false} ImportsOfAppend(a: seq<Stmt>, b: seq<Stmt>)
    ensures ImportsOf(a + b) == ImportsOf(a) + ImportsOf(b)
    decreases |b|
  {
    if b != [] {
      var ab := a + b;
      assert ab[..|ab| - 1] == a + b[..|b| - 1];
      ImportsOfAppend(a, b[..|b| - 1]);
    } else {
      assert a + b == a;
    }
  }

  /** Every import statement of the module is kept, and nothing else. */
  lemma {:induction false} ImportsOfMembers(body: seq<Stmt>)
    ensures forall s :: s in ImportsOf(body) <==> s in body && IsImport(s)
    decreases |body|
  {
    if body != [] {
      ImportsOfMembers(body[..|body| - 1]);
      assert body == body[..|body| - 1] + [body[|body| - 1]];
    }
  }

  /** The map holds exactly the defined names. */
  lemma {:induction false} FunctionsOfKeys(body: seq<Stmt>)
    ensures forall n :: n in FunctionsOf(body) <==> exists i :: 0 <= i < |body| && Defines(body[i], n)
    decreases |body|
  {
    if body != [] {
      var init := body[..|body| - 1];
      var last := body[|body| - 1];
      FunctionsOfKeys(init);
      forall n ensures n in FunctionsOf(body) <==> exists i :: 0 <= i < |body| && Defines(body[i], n) {
        if Defines(last, n) {
          assert Defines(body[|body| - 1], n);
        } else {
          assert n in FunctionsOf(body) <==> n in FunctionsOf(init);
          if n in FunctionsOf(init) {
            var i :| 0 <= i < |init| && Defines(init[i], n);
            assert Defines(body[i], n);
          }
          if exists i :: 0 <= i < |body| && Defines(body[i], n) {
            var i :| 0 <= i < |body| && Defines(body[i], n);
            assert i < |init| && Defines(init[i], n);
          }
        }
      }
    }
  }

  /** The entry for a name is keyed by its own name and is the last definition of that name. */
  lemma {:induction false} FunctionsOfEntry(body: seq<Stmt>, n: Name)
    requires n in FunctionsOf(body)
    ensures FunctionsOf(body)[n].name == n
    ensures exists i :: 0 <= i < |body| && body[i] == FunctionDef(FunctionsOf(body)[n])
                        && forall j :: i < j < |body| ==> !Defines(body[j], n)
    decreases |body|
  {
    var init := body[..|body| - 1];
    var last := body[|body| - 1];
    if Defines(last, n) {
      assert body[|body| - 1] == FunctionDef(FunctionsOf(body)[n]);
    } else {
      assert FunctionsOf(body)[n] == FunctionsOf(init)[n];
      FunctionsOfEntry(init, n);
      var i :| 0 <= i < |init| && init[i] == FunctionDef(FunctionsOf(init)[n])
               && forall j :: i < j < |init| ==> !Defines(init[j], n);
      assert body[i] == FunctionDef(FunctionsOf(body)[n]);
    }
  }

  /**
   * The map holds exactly the defined names; the entry for a name is the
   * last definition of that name and is keyed by its own name.
   */
  lemma FunctionsOfSpec(body: seq<Stmt>)
    ensures forall n :: n in FunctionsOf(body) <==> exists i :: 0 <= i < |body| && Defines(body[i], n)
    ensures forall n :: n in FunctionsOf(body) ==>
              && FunctionsOf(body)[n].name == n
              && exists i :: 0 <= i < |body| && body[i] == FunctionDef(FunctionsOf(body)[n])
                             && forall j :: i < j < |body| ==> !Defines(body[j], n)
  {
    FunctionsOfKeys(body);
    forall n | n in FunctionsOf(body)
      ensures FunctionsOf(body)[n].name == n
      ensures exists i :: 0 <= i < |body| && body[i] == FunctionDef(FunctionsOf(body)[n])
                          && forall j :: i < j < |body| ==> !Defines(body[j], n)
    {
      FunctionsOfEntry(body, n);
    }
  }

  // ---------------------------------------------------------------------------
  // resolve_dependencies

  /** The names of a sequence, as a set. */
  function Elems(names: seq<Name>): set<Name> {
    set x | x in names
  }

  /** No name occurs twice. */
  predicate Distinct(names: seq<Name>) {
    forall i, j :: 0 <= i < j < |names| ==> names[i] != names[j]
  }

  /** Every emitted definition is the map's entry for the name recorded beside it. */
  predicate FromMap(functions: map<Name, FuncDef>, deps: seq<FuncDef>, names: seq<Name>) {
    |deps| == |names| && forall i :: 0 <= i < |names| ==> names[i] in functions && deps[i] == functions[names[i]]
  }

  /** Every utility function an emitted definition calls is in `resolved`. */
  predicate Closed(functions: map<Name, FuncDef>, deps: seq<FuncDef>, resolved: set<Name>) {
    forall i, g :: 0 <= i < |deps| && g in functions && Calls(deps[i], g) ==> g in resolved
  }

  /**
   * Dependencies first: every utility function an emitted definition calls
   * was resolved `before`, or is emitted earlier in `names`.
   */
  predicate DepsFirst(functions: map<Name, FuncDef>, deps: seq<FuncDef>, names: seq<Name>, before: set<Name>)
    requires |deps| == |names|
  {
    forall i, g :: 0 <= i < |deps| && g in functions && Calls(deps[i], g) ==> g in before || g in names[..i]
  }

  /** Every emitted name but the last is called by a later emitted definition. */
  predicate CalledLater(deps: seq<FuncDef>, names: seq<Name>)
    requires |deps| == |names|
  {
    forall i :: 0 <= i < |names| - 1 ==> exists j :: i < j < |names| && Calls(deps[j], names[i])
  }

  /**
   * `rank` witnesses that the call graph among the utility functions is
   * acyclic: every utility function is ranked, and a callee ranks lower than
   * its caller.
   */
  predicate Ranked(functions: map<Name, FuncDef>, rank: map<Name, nat>) {
    && functions.Keys <= rank.Keys
    && forall f, g :: f in functions && g in functions && Calls(functions[f], g) ==> rank[g] < rank[f]
  }

  /** Every emitted name ranks at most `bound`. */
  predicate RankedAtMost(rank: map<Name, nat>, names: seq<Name>, bound: int) {
    forall i :: 0 <= i < |names| ==> names[i] in rank && rank[names[i]] <= bound
  }

  /**
   * `resolve_dependencies(func_name, functions, added)`. The shared `added`
   * set is passed in and its new value returned. Nothing is emitted for a
   * name already added or not a utility function; otherwise the name is
   * added first, each callee not yet added is resolved in turn, and the
   * function's own definition comes last. `names` records the name of each
   * emitted definition; `rank` is a witness used only to state ordering on
   * an acyclic call graph.
   */
  method ResolveDependencies(funcName: Name, functions: map<Name, FuncDef>, added: set<Name>,
                             ghost rank: map<Name, nat>)
    returns (deps: seq<FuncDef>, addedOut: set<Name>, ghost names: seq<Name>)
    ensures FromMap(functions, deps, names)
    ensures Distinct(names) && Elems(names) !! added
    ensures addedOut == added + Elems(names)
    ensures funcName in added || funcName !in functions ==> deps == [] && addedOut == added
    ensures funcName !in added && funcName in functions ==> names != [] && names[|names| - 1] == funcName
    ensures Closed(functions, deps, addedOut)
    ensures CalledLater(deps, names)
    ensures Ranked(functions, rank) && funcName in functions ==> RankedAtMost(rank, names, rank[funcName])
    ensures Ranked(functions, rank) ==> DepsFirst(functions, deps, names, added)
    decreases functions.Keys - added
  {
    if funcName in added {
      return [], added, [];
    }
    if funcName !in functions {
      return [], added, [];
    }
    var node := functions[funcName];
    addedOut := added + {funcName};
    deps, names := [], [];
    var called := FindCalledFunctions(node);
    var todo := called;
    ghost var done: set<Name> := {};
    assert Elems(names) == {};
    while todo != {}
      invariant todo <= called && done == called - todo
      invariant Resolving(functions, rank, funcName, added, done, deps, names, addedOut)
      decreases todo
    {
      var c :| c in todo;
      todo := todo - {c};
      if c in functions && c !in addedOut {
        var d, a, n := ResolveDependencies(c, functions, addedOut, rank);
        ResolvingStep(functions, rank, funcName, added, done, deps, names, addedOut, c, d, n);
        deps, names, addedOut := deps + d, names + n, a;
      }
      done := done + {c};
    }
    AppendOwn(functions, rank, funcName, added, addedOut, deps, names, done);
    deps, names := deps + [node], names + [funcName];
  }

  lemma FromMapAppend(functions: map<Name, FuncDef>, deps: seq<FuncDef>, names: seq<Name>, d: seq<FuncDef>, n: seq<Name>)
    requires FromMap(functions, deps, names) && FromMap(functions, d, n)
    ensures FromMap(functions, deps + d, names + n)
  {
    var dd, nn := deps + d, names + n;
    forall i | 0 <= i < |nn| ensures nn[i] in functions && dd[i] == functions[nn[i]] {
      if i >= |names| {
        assert nn[i] == n[i - |names|] && dd[i] == d[i - |names|];
      }
    }
  }

  lemma ElemsAppend(a: seq<Name>, b: seq<Name>)
    ensures Elems(a + b) == Elems(a) + Elems(b)
  {
    var ab := a + b;
    forall x | x in Elems(a) + Elems(b) ensures x in Elems(ab) {
      if x in Elems(a) {
        var k :| 0 <= k < |a| && a[k] == x;
        assert ab[k] == x;
      } else {
        var k :| 0 <= k < |b| && b[k] == x;
        assert ab[|a| + k] == x;
      }
    }
  }

  lemma DistinctAppend(a: seq<Name>, b: seq<Name>)
    requires Distinct(a) && Distinct(b) && Elems(a) !! Elems(b)
    ensures Distinct(a + b)
  {
    var ab := a + b;
    forall i, j | 0 <= i < j < |ab| ensures ab[i] != ab[j] {
      if i < |a| && |a| <= j {
        assert ab[i] in Elems(a) && ab[j] == b[j - |a|] && ab[j] in Elems(b);
      }
    }
  }

  lemma ClosedAppend(functions: map<Name, FuncDef>, deps: seq<FuncDef>, d: seq<FuncDef>,
                     resolved: set<Name>, resolved': set<Name>)
    requires Closed(functions, deps, resolved) && Closed(functions, d, resolved')
    requires resolved <= resolved'
    ensures Closed(functions, deps + d, resolved')
  {
    var dd := deps + d;
    forall i, g | 0 <= i < |dd| && g in functions && Calls(dd[i], g) ensures g in resolved' {
      if i >= |deps| {
        assert dd[i] == d[i - |deps|];
      }
    }
  }

  /** Appending a callee's resolution keeps every emitted name called by the caller or by a later definition. */
  lemma CalledAppend(node: FuncDef, deps: seq<FuncDef>, names: seq<Name>, c: Name, d: seq<FuncDef>, n: seq<Name>)
    requires |deps| == |names| && |d| == |n|
    requires forall i :: 0 <= i < |names| ==> Calls(node, names[i]) || exists j :: i < j < |names| && Calls(deps[j], names[i])
    requires Calls(node, c) && n != [] && n[|n| - 1] == c
    requires CalledLater(d, n)
    ensures var dd, nn := deps + d, names + n;
            forall i :: 0 <= i < |nn| ==> Calls(node, nn[i]) || exists j :: i < j < |nn| && Calls(dd[j], nn[i])
  {
    var dd, nn := deps + d, names + n;
    forall i | 0 <= i < |nn| && !Calls(node, nn[i])
      ensures exists j :: i < j < |nn| && Calls(dd[j], nn[i])
    {
      if i < |names| {
        var j :| i < j < |names| && Calls(deps[j], names[i]);
        assert dd[j] == deps[j] && nn[i] == names[i];
      } else {
        var k := i - |names|;
        assert nn[i] == n[k];
        if k < |n| - 1 {
          var j :| k < j < |n| && Calls(d[j], n[k]);
          assert dd[|names| + j] == d[j];
        }
      }
    }
  }

  /** On an acyclic call graph, appending a callee's resolution keeps dependencies first. */
  lemma DepsFirstAppend(functions: map<Name, FuncDef>, rank: map<Name, nat>, funcName: Name, added: set<Name>,
                        deps: seq<FuncDef>, names: seq<Name>, c: Name, d: seq<FuncDef>, n: seq<Name>)
    requires Ranked(functions, rank) && funcName in functions
    requires c in functions && Calls(functions[funcName], c)
    requires FromMap(functions, deps, names) && FromMap(functions, d, n)
    requires RankedAtMost(rank, names, rank[funcName] as int - 1)
    requires DepsFirst(functions, deps, names, added)
    requires RankedAtMost(rank, n, rank[c])
    requires DepsFirst(functions, d, n, added + {funcName} + Elems(names))
    ensures FromMap(functions, deps + d, names + n)
    ensures RankedAtMost(rank, names + n, rank[funcName] as int - 1)
    ensures DepsFirst(functions, deps + d, names + n, added)
  {
    var dd, nn := deps + d, names + n;
    assert rank[c] < rank[funcName];
    forall i, g | 0 <= i < |dd| && g in functions && Calls(dd[i], g)
      ensures g in added || g in nn[..i]
    {
      if i < |names| {
        assert dd[i] == deps[i] && nn[..i] == names[..i];
      } else {
        var k := i - |names|;
        assert dd[i] == d[k] == functions[n[k]];
        assert rank[g] < rank[n[k]] <= rank[c];
        assert g != funcName;
        assert nn[..i] == names + n[..k];
        if g in Elems(names) {
          var m :| 0 <= m < |names| && names[m] == g;
          assert nn[..i][m] == g;
        }
      }
    }
  }

  /**
   * The state of `resolve_dependencies(funcName, ...)` once the callees in
   * `done` have been handled: `funcName` is added, the definitions emitted so
   * far come from the map, are new and distinct, are each called by
   * `funcName` or a later one, and every handled callee is resolved.
   */
  predicate Resolving(functions: map<Name, FuncDef>, rank: map<Name, nat>, funcName: Name, added: set<Name>,
                      done: set<Name>, deps: seq<FuncDef>, names: seq<Name>, addedOut: set<Name>)
  {
    && funcName in functions && funcName !in added
    && FromMap(functions, deps, names)
    && Distinct(names) && Elems(names) !! added && funcName !in Elems(names)
    && addedOut == added + {funcName} + Elems(names)
    && Closed(functions, deps, addedOut)
    && (forall c :: c in done && c in functions ==> c in addedOut)
    && (forall c :: c in done ==> Calls(functions[funcName], c))
    && (forall i :: 0 <= i < |names| ==>
          Calls(functions[funcName], names[i]) || exists j :: i < j < |names| && Calls(deps[j], names[i]))
    && (Ranked(functions, rank) ==> RankedAtMost(rank, names, rank[funcName] as int - 1))
    && (Ranked(functions, rank) ==> DepsFirst(functions, deps, names, added))
  }

  /** Resolving a callee `c` not yet added and appending what it emits keeps the state consistent. */
  lemma ResolvingStep(functions: map<Name, FuncDef>, rank: map<Name, nat>, funcName: Name, added: set<Name>,
                      done: set<Name>, deps: seq<FuncDef>, names: seq<Name>, addedOut: set<Name>,
                      c: Name, d: seq<FuncDef>, n: seq<Name>)
    requires Resolving(functions, rank, funcName, added, done, deps, names, addedOut)
    requires Calls(functions[funcName], c) && c in functions && c !in addedOut
    requires FromMap(functions, d, n) && Distinct(n) && Elems(n) !! addedOut
    requires n != [] && n[|n| - 1] == c
    requires Closed(functions, d, addedOut + Elems(n))
    requires CalledLater(d, n)
    requires Ranked(functions, rank) ==> RankedAtMost(rank, n, rank[c])
    requires Ranked(functions, rank) ==> DepsFirst(functions, d, n, addedOut)
    ensures Resolving(functions, rank, funcName, added, done + {c}, deps + d, names + n, addedOut + Elems(n))
  {
    var dd, nn, out := deps + d, names + n, addedOut + Elems(n);
    ElemsAppend(names, n);
    assert c in Elems(n) by {
      assert n[|n| - 1] == c;
    }
    FromMapAppend(functions, deps, names, d, n);
    DistinctAppend(names, n);
    assert Elems(nn) !! added && funcName !in Elems(nn);
    assert out == added + {funcName} + Elems(nn);
    ClosedAppend(functions, deps, d, addedOut, out);
    assert forall x :: x in done + {c} && x in functions ==> x in out;
    assert forall x :: x in done + {c} ==> Calls(functions[funcName], x);
    CalledAppend(functions[funcName], deps, names, c, d, n);
    if Ranked(functions, rank) {
      DepsFirstAppend(functions, rank, funcName, added, deps, names, c, d, n);
    }
  }

  /** Emitting the function itself after its callees' resolutions completes the resolution. */
  lemma AppendOwn(functions: map<Name, FuncDef>, rank: map<Name, nat>, funcName: Name,
                  added: set<Name>, addedOut: set<Name>, deps: seq<FuncDef>, names: seq<Name>, done: set<Name>)
    requires Resolving(functions, rank, funcName, added, done, deps, names, addedOut)
    requires forall c :: Calls(functions[funcName], c) ==> c in done
    ensures var dd, nn := deps + [functions[funcName]], names + [funcName];
            && FromMap(functions, dd, nn)
            && Distinct(nn) && Elems(nn) !! added
            && addedOut == added + Elems(nn)
            && Closed(functions, dd, addedOut)
            && CalledLater(dd, nn)
            && (Ranked(functions, rank) ==> RankedAtMost(rank, nn, rank[funcName]))
            && (Ranked(functions, rank) ==> DepsFirst(functions, dd, nn, added))
  {
    var node := functions[funcName];
    var dd, nn := deps + [node], names + [funcName];
    ElemsAppend(names, [funcName]);
    assert Elems([funcName]) == {funcName} by {
      assert [funcName][0] == funcName;
    }
    DistinctAppend(names, [funcName]);
    assert Closed(functions, dd, addedOut) by {
      forall i, g | 0 <= i < |dd| && g in functions && Calls(dd[i], g) ensures g in addedOut {
        if i < |deps| {
          assert dd[i] == deps[i];
        }
      }
    }
    assert CalledLater(dd, nn) by {
      forall i | 0 <= i < |nn| - 1 ensures exists j :: i < j < |nn| && Calls(dd[j], nn[i]) {
        assert nn[i] == names[i];
        if Calls(node, names[i]) {
          assert dd[|names|] == node;
        } else {
          var j :| i < j < |names| && Calls(deps[j], names[i]);
          assert dd[j] == deps[j];
        }
      }
    }
    if Ranked(functions, rank) {
      forall i, g | 0 <= i < |dd| && g in functions && Calls(dd[i], g)
        ensures g in added || g in nn[..i]
      {
        if i < |deps| {
          assert dd[i] == deps[i] && nn[..i] == names[..i];
        } else {
          assert rank[g] < rank[funcName];
          assert nn[..i] == names;
          if g in Elems(names) {
            var m :| 0 <= m < |names| && names[m] == g;
            assert nn[..i][m] == g;
          }
        }
      }
    }
  }

  // ---------------------------------------------------------------------------
  // inline_functions

  /** `from sandbox.utils import ...`. */
  predicate IsUtilsImport(s: Stmt) {
    s.ImportFrom? && s.fromModule == UTILS_MODULE
  }

  predicate HasUtilsImport(body: seq<Stmt>) {
    exists i :: 0 <= i < |body| && IsUtilsImport(body[i])
  }

  /** A utility function the module imports from `sandbox.utils` and `FUNCTIONS_MAP` lists. */
  predicate Requested(body: seq<Stmt>, a: Name) {
    a in FUNCTIONS_MAP && exists i :: 0 <= i < |body| && IsUtilsImport(body[i]) && a in body[i].names
  }

  /** Definitions as top-level statements. */
  function DefStmts(deps: seq<FuncDef>): (r: seq<Stmt>)
    ensures |r| == |deps| && forall k :: 0 <= k < |deps| ==> r[k] == FunctionDef(deps[k])
  {
    seq(|deps|, k requires 0 <= k < |deps| => FunctionDef(deps[k]))
  }

  /** The parts one after another: all resolved definitions, statement after statement. */
  function Flatten<T>(parts: seq<seq<T>>): seq<T> {
    if parts == [] then [] else Flatten(parts[..|parts| - 1]) + parts[|parts| - 1]
  }

  /**
   * What one statement becomes: a statement other than a `sandbox.utils`
   * import stays; such an import becomes the utilities' imports, unless they
   * were `inserted` already, followed by the definitions resolved for it.
   */
  function Piece(s: Stmt, imports: seq<Stmt>, defs: seq<FuncDef>, inserted: bool): seq<Stmt> {
    if IsUtilsImport(s) then (if inserted then [] else imports) + DefStmts(defs) else [s]
  }

  /**
   * The rebuilt body, given what each statement resolved to, statement by
   * statement with the `inserted_imports` flag.
   */
  function Rebuild(body: seq<Stmt>, imports: seq<Stmt>, resolved: seq<seq<FuncDef>>, inserted: bool): seq<Stmt>
    requires |resolved| == |body|
  {
    if body == [] then []
    else
      Piece(body[0], imports, resolved[0], inserted)
      + Rebuild(body[1..], imports, resolved[1..], inserted || IsUtilsImport(body[0]))
  }

  /** The statements that are not `sandbox.utils` imports, in order. */
  function Others(body: seq<Stmt>): seq<Stmt> {
    if body == [] then []
    else (if IsUtilsImport(body[0]) then [] else [body[0]]) + Others(body[1..])
  }

  lemma HasUtilsImportCons(body: seq<Stmt>)
    requires body != []
    ensures HasUtilsImport(body) <==> IsUtilsImport(body[0]) || HasUtilsImport(body[1..])
  {
    if HasUtilsImport(body) && !IsUtilsImport(body[0]) {
      var k :| 0 <= k < |body| && IsUtilsImport(body[k]);
      assert body[1..][k - 1] == body[k];
    }
    if HasUtilsImport(body[1..]) {
      var k :| 0 <= k < |body| - 1 && IsUtilsImport(body[1..][k]);
      assert body[k + 1] == body[1..][k];
    }
  }

  /** Rebuilding one more statement appends that statement's piece. */
  lemma RebuildAppend(body: seq<Stmt>, imports: seq<Stmt>, resolved: seq<seq<FuncDef>>,
                      inserted: bool, s: Stmt, defs: seq<FuncDef>)
    requires |resolved| == |body|
    ensures Rebuild(body + [s], imports, resolved + [defs], inserted)
            == Rebuild(body, imports, resolved, inserted) + Piece(s, imports, defs, inserted || HasUtilsImport(body))
  {
    var flag := inserted || HasUtilsImport(body);
    RebuildSplit(body, [s], imports, resolved, [defs], inserted);
    assert [s][1..] == [] && [defs][1..] == [];
    assert Rebuild([s], imports, [defs], flag) == Piece(s, imports, defs, flag) + [];
  }

  /** Every emitted name is requested by the module or called by a later emitted definition. */
  predicate Justified(body: seq<Stmt>, defs: seq<FuncDef>, names: seq<Name>)
    requires |defs| == |names|
  {
    forall i :: 0 <= i < |names| ==>
      Requested(body, names[i]) || exists j :: i < j < |names| && Calls(defs[j], names[i])
  }

  /** Every utility function that the `sandbox.utils` imports among the first `upto` statements request is in `added`. */
  predicate RequestsResolved(body: seq<Stmt>, upto: int, functions: map<Name, FuncDef>, added: set<Name>) {
    forall k, a :: 0 <= k < upto && k < |body| && IsUtilsImport(body[k]) && a in body[k].names ==>
      (a in FUNCTIONS_MAP && a in functions ==> a in added)
  }

  lemma JustifiedAppend(body: seq<Stmt>, defs: seq<FuncDef>, names: seq<Name>, alias: Name, d: seq<FuncDef>, n: seq<Name>)
    requires |defs| == |names| && |d| == |n|
    requires Justified(body, defs, names) && Requested(body, alias)
    requires n != [] ==> n[|n| - 1] == alias
    requires CalledLater(d, n)
    ensures Justified(body, defs + d, names + n)
  {
    var dd, nn := defs + d, names + n;
    forall i | 0 <= i < |nn|
      ensures Requested(body, nn[i]) || exists j :: i < j < |nn| && Calls(dd[j], nn[i])
    {
      if i < |names| {
        assert nn[i] == names[i];
        if !Requested(body, names[i]) {
          var j :| i < j < |names| && Calls(defs[j], names[i]);
          assert dd[j] == defs[j];
        }
      } else {
        var k := i - |names|;
        assert nn[i] == n[k];
        if k < |n| - 1 {
          var j :| k < j < |n| && Calls(d[j], n[k]);
          assert dd[|names| + j] == d[j];
        }
      }
    }
  }

  lemma DepsFirstAppendAll(functions: map<Name, FuncDef>, defs: seq<FuncDef>, names: seq<Name>,
                           d: seq<FuncDef>, n: seq<Name>)
    requires |defs| == |names| && |d| == |n|
    requires DepsFirst(functions, defs, names, {})
    requires DepsFirst(functions, d, n, Elems(names))
    ensures DepsFirst(functions, defs + d, names + n, {})
  {
    var dd, nn := defs + d, names + n;
    forall i, g | 0 <= i < |dd| && g in functions && Calls(dd[i], g)
      ensures g in nn[..i]
    {
      if i < |defs| {
        assert dd[i] == defs[i] && nn[..i] == names[..i];
      } else {
        var k := i - |defs|;
        assert dd[i] == d[k];
        assert nn[..i] == names + n[..k];
        if g in Elems(names) {
          var m :| 0 <= m < |names| && names[m] == g;
          assert nn[..i][m] == g;
        }
      }
    }
  }

  /** A module without a `sandbox.utils` import is rebuilt unchanged. */
  lemma {:induction false} RebuildUnchanged(body: seq<Stmt>, imports: seq<Stmt>, resolved: seq<seq<FuncDef>>, inserted: bool)
    requires |resolved| == |body| && !HasUtilsImport(body)
    ensures Rebuild(body, imports, resolved, inserted) == body
    decreases |body|
  {
    if body != [] {
      HasUtilsImportCons(body);
      RebuildUnchanged(body[1..], imports, resolved[1..], inserted);
      assert body == [body[0]] + body[1..];
    }
  }

  /** Once the imports are inserted, the import list plays no further part. */
  lemma {:induction false} RebuildInserted(body: seq<Stmt>, imports: seq<Stmt>, resolved: seq<seq<FuncDef>>)
    requires |resolved| == |body|
    ensures Rebuild(body, imports, resolved, true) == Rebuild(body, [], resolved, true)
    decreases |body|
  {
    if body != [] {
      RebuildInserted(body[1..], imports, resolved[1..]);
    }
  }

  /**
   * The utilities' imports go in exactly once, where the first
   * `sandbox.utils` import stood: the statements before it are kept as they
   * are, that import is replaced by the imports and its definitions, and
   * the rest is rebuilt with no imports to insert.
   */
  lemma RebuildAtFirst(body: seq<Stmt>, imports: seq<Stmt>, resolved: seq<seq<FuncDef>>, k: nat)
    requires |resolved| == |body| && k < |body|
    requires IsUtilsImport(body[k]) && !HasUtilsImport(body[..k])
    ensures Rebuild(body, imports, resolved, false)
            == body[..k] + imports + DefStmts(resolved[k]) + Rebuild(body[k + 1..], [], resolved[k + 1..], true)
  {
    var pre, rest, rr := body[..k], body[k..], resolved[k..];
    var defs := DefStmts(resolved[k]);
    var after := Rebuild(body[k + 1..], imports, resolved[k + 1..], true);
    var after' := Rebuild(body[k + 1..], [], resolved[k + 1..], true);
    assert rest[0] == body[k] && rest[1..] == body[k + 1..] && rr[0] == resolved[k] && rr[1..] == resolved[k + 1..];
    calc {
      Rebuild(body, imports, resolved, false);
      { assert pre + rest == body && resolved[..k] + rr == resolved; }
      Rebuild(pre + rest, imports, resolved[..k] + rr, false);
      { RebuildSplit(pre, rest, imports, resolved[..k], rr, false); }
      Rebuild(pre, imports, resolved[..k], false) + Rebuild(rest, imports, rr, false);
      { RebuildUnchanged(pre, imports, resolved[..k], false); }
      pre + Rebuild(rest, imports, rr, false);
      pre + (Piece(rest[0], imports, rr[0], false) + Rebuild(rest[1..], imports, rr[1..], true));
      pre + ((imports + defs) + after);
      { RebuildInserted(body[k + 1..], imports, resolved[k + 1..]); }
      pre + ((imports + defs) + after');
      { PyStr.AppendAssoc(pre, imports + defs, after'); }
      (pre + (imports + defs)) + after';
      { PyStr.AppendAssoc(pre, imports, defs); }
      pre + imports + defs + after';
    }
  }

  /** Rebuilding two consecutive parts rebuilds the first, then the second with the flag the first leaves. */
  lemma {:induction false} RebuildSplit(a: seq<Stmt>, b: seq<Stmt>, imports: seq<Stmt>,
                                        ra: seq<seq<FuncDef>>, rb: seq<seq<FuncDef>>, inserted: bool)
    requires |ra| == |a| && |rb| == |b|
    ensures Rebuild(a + b, imports, ra + rb, inserted)
            == Rebuild(a, imports, ra, inserted) + Rebuild(b, imports, rb, inserted || HasUtilsImport(a))
    decreases |a|
  {
    if a == [] {
      assert a + b == b && ra + rb == rb;
    } else {
      var ab, rab := a + b, ra + rb;
      var flag := inserted || IsUtilsImport(a[0]);
      var head := Piece(a[0], imports, ra[0], inserted);
      assert ab[0] == a[0] && rab[0] == ra[0];
      assert ab[1..] == a[1..] + b && rab[1..] == ra[1..] + rb;
      assert (flag || HasUtilsImport(a[1..])) == (inserted || HasUtilsImport(a)) by {
        HasUtilsImportCons(a);
      }
      var tail := Rebuild(b, imports, rb, inserted || HasUtilsImport(a));
      RebuildSplit(a[1..], b, imports, ra[1..], rb, flag);
      calc {
        Rebuild(ab, imports, rab, inserted);
        head + Rebuild(ab[1..], imports, rab[1..], flag);
        head + Rebuild(a[1..] + b, imports, ra[1..] + rb, flag);
        head + (Rebuild(a[1..], imports, ra[1..], flag) + tail);
        { PyStr.AppendAssoc(head, Rebuild(a[1..], imports, ra[1..], flag), tail); }
        (head + Rebuild(a[1..], imports, ra[1..], flag)) + tail;
      }
    }
  }

  /**
   * A statement that is not a `sandbox.utils` import is copied to the
   * position right after what the statements before it rebuild to.
   */
  lemma RebuildAt(body: seq<Stmt>, imports: seq<Stmt>, resolved: seq<seq<FuncDef>>, inserted: bool, i: nat)
    requires |resolved| == |body| && i < |body| && !IsUtilsImport(body[i])
    ensures var p := |Rebuild(body[..i], imports, resolved[..i], inserted)|;
            && p < |Rebuild(body, imports, resolved, inserted)|
            && Rebuild(body, imports, resolved, inserted)[p] == body[i]
  {
    RebuildSplit(body[..i], body[i..], imports, resolved[..i], resolved[i..], inserted);
    assert body[..i] + body[i..] == body && resolved[..i] + resolved[i..] == resolved;
    assert body[i..][0] == body[i];
  }

  /**
   * The statements that are not `sandbox.utils` imports all survive the
   * rebuild and keep their relative order.
   */
  lemma RebuildKeepsOrder(body: seq<Stmt>, imports: seq<Stmt>, resolved: seq<seq<FuncDef>>, inserted: bool,
                          i: nat, j: nat)
    requires |resolved| == |body| && i < j < |body|
    requires !IsUtilsImport(body[i]) && !IsUtilsImport(body[j])
    ensures var out := Rebuild(body, imports, resolved, inserted);
            var p := |Rebuild(body[..i], imports, resolved[..i], inserted)|;
            var q := |Rebuild(body[..j], imports, resolved[..j], inserted)|;
            p < q < |out| && out[p] == body[i] && out[q] == body[j]
  {
    RebuildAt(body, imports, resolved, inserted, i);
    RebuildAt(body, imports, resolved, inserted, j);
    var b, r := body[..j], resolved[..j];
    RebuildAt(b, imports, r, inserted, i);
    assert b[..i] == body[..i] && r[..i] == resolved[..i];
  }

  /** Without imports to insert or definitions to splice, rebuilding keeps exactly the other statements, in order. */
  lemma {:induction false} RebuildWithoutInsertions(body: seq<Stmt>, resolved: seq<seq<FuncDef>>, inserted: bool)
    requires |resolved| == |body| && forall i :: 0 <= i < |body| ==> resolved[i] == []
    ensures Rebuild(body, [], resolved, inserted) == Others(body)
    decreases |body|
  {
    if body != [] {
      RebuildWithoutInsertions(body[1..], resolved[1..], inserted || IsUtilsImport(body[0]));
      assert DefStmts(resolved[0]) == [];
    }
  }

  /** No `sandbox.utils` import survives, unless the utilities module itself has one among its imports. */
  lemma {:induction false} RebuildDropsUtilsImports(body: seq<Stmt>, imports: seq<Stmt>, resolved: seq<seq<FuncDef>>, inserted: bool)
    requires |resolved| == |body| && forall s :: s in imports ==> !IsUtilsImport(s)
    ensures forall s :: s in Rebuild(body, imports, resolved, inserted) ==> !IsUtilsImport(s)
    decreases |body|
  {
    if body != [] {
      RebuildDropsUtilsImports(body[1..], imports, resolved[1..], inserted || IsUtilsImport(body[0]));
    }
  }

  /** The bookkeeping of `inline_functions` across resolutions: one shared `added` set. */
  predicate Inlined(functions: map<Name, FuncDef>, rank: map<Name, nat>, body: seq<Stmt>,
                    added: set<Name>, defs: seq<FuncDef>, names: seq<Name>)
  {
    && FromMap(functions, defs, names)
    && Distinct(names)
    && added == Elems(names)
    && Closed(functions, defs, added)
    && Justified(body, defs, names)
    && (Ranked(functions, rank) ==> DepsFirst(functions, defs, names, {}))
  }

  /** Appending the resolution of one requested name keeps the bookkeeping consistent. */
  lemma InlinedStep(functions: map<Name, FuncDef>, rank: map<Name, nat>, body: seq<Stmt>,
                    added: set<Name>, defs: seq<FuncDef>, names: seq<Name>,
                    alias: Name, d: seq<FuncDef>, n: seq<Name>)
    requires Inlined(functions, rank, body, added, defs, names)
    requires Requested(body, alias)
    requires FromMap(functions, d, n) && Distinct(n) && Elems(n) !! added
    requires alias in added || alias !in functions ==> d == []
    requires alias !in added && alias in functions ==> n != [] && n[|n| - 1] == alias
    requires Closed(functions, d, added + Elems(n))
    requires CalledLater(d, n)
    requires Ranked(functions, rank) ==> DepsFirst(functions, d, n, added)
    ensures Inlined(functions, rank, body, added + Elems(n), defs + d, names + n)
  {
    FromMapAppend(functions, defs, names, d, n);
    ElemsAppend(names, n);
    DistinctAppend(names, n);
    ClosedAppend(functions, defs, d, added, added + Elems(n));
    JustifiedAppend(body, defs, names, alias, d, n);
    if Ranked(functions, rank) {
      DepsFirstAppendAll(functions, defs, names, d, n);
    }
  }

  /**
   * What statement `s` spliced in, given the names emitted `before` it:
   * `defs`, named `names`, each imported by `s` or called by a later one of
   * them. For a `sandbox.utils` import these are its names resolved in the
   * order they are listed, and afterwards every utility function it
   * imports is emitted.
   */
  ghost predicate StmtSpliced(s: Stmt, functions: map<Name, FuncDef>, rank: map<Name, nat>, before: set<Name>,
                              defs: seq<FuncDef>, names: seq<Name>)
  {
    && |defs| == |names| && Justified([s], defs, names)
    && (IsUtilsImport(s) ==>
          && ImportResolves(functions, rank, s.names, before, defs, names)
          && forall a :: a in s.names && a in FUNCTIONS_MAP && a in functions ==> a in before + Elems(names))
  }

  /**
   * What the first `upto` statements resolved to, statement by statement:
   * `resolved[k]`, named `emitted[k]`, is what statement `k` spliced in
   * given the names emitted at the statements before it, and after every
   * statement the definitions emitted so far are closed under calls.
   */
  ghost predicate SplicedAt(body: seq<Stmt>, functions: map<Name, FuncDef>, rank: map<Name, nat>,
                            resolved: seq<seq<FuncDef>>, emitted: seq<seq<Name>>, upto: nat)
    decreases upto
  {
    && upto <= |body| && |resolved| == upto && |emitted| == upto
    && (upto > 0 ==>
          var k := upto - 1;
          && SplicedAt(body, functions, rank, resolved[..k], emitted[..k], k)
          && StmtSpliced(body[k], functions, rank, Elems(Flatten(emitted[..k])), resolved[k], emitted[k])
          && Closed(functions, Flatten(resolved), Elems(Flatten(emitted))))
  }

  /** Every statement's part of the record, and closure after it. */
  lemma {:induction false} SplicedAtEach(body: seq<Stmt>, functions: map<Name, FuncDef>, rank: map<Name, nat>,
                                         resolved: seq<seq<FuncDef>>, emitted: seq<seq<Name>>, upto: nat, k: nat)
    requires SplicedAt(body, functions, rank, resolved, emitted, upto) && k < upto
    ensures StmtSpliced(body[k], functions, rank, Elems(Flatten(emitted[..k])), resolved[k], emitted[k])
    ensures Closed(functions, Flatten(resolved[..k + 1]), Elems(Flatten(emitted[..k + 1])))
    decreases upto
  {
    var last := upto - 1;
    if k == last {
      assert resolved[..k + 1] == resolved && emitted[..k + 1] == emitted;
    } else {
      var r, e := resolved[..last], emitted[..last];
      SplicedAtEach(body, functions, rank, r, e, last, k);
      assert r[k] == resolved[k] && e[k] == emitted[k];
      assert e[..k] == emitted[..k];
      assert r[..k + 1] == resolved[..k + 1] && e[..k + 1] == emitted[..k + 1];
    }
  }

  /** Resolving one more statement extends the statement-by-statement record. */
  lemma SplicedStep(body: seq<Stmt>, functions: map<Name, FuncDef>, rank: map<Name, nat>,
                    resolved: seq<seq<FuncDef>>, emitted: seq<seq<Name>>, i: nat,
                    cur: seq<FuncDef>, n: seq<Name>)
    requires SplicedAt(body, functions, rank, resolved, emitted, i) && i < |body|
    requires StmtSpliced(body[i], functions, rank, Elems(Flatten(emitted)), cur, n)
    requires Closed(functions, Flatten(resolved) + cur, Elems(Flatten(emitted) + n))
    ensures SplicedAt(body, functions, rank, resolved + [cur], emitted + [n], i + 1)
  {
    var r, e := resolved + [cur], emitted + [n];
    assert r[..i] == resolved && e[..i] == emitted;
    FlattenStep(resolved, cur);
    FlattenStep(emitted, n);
  }

  /**
   * `deps`, named by `names`, is what `resolve_dependencies(funcName,
   * functions, added)` returns: the definitions come from the map, are new
   * and distinct, nothing for a name already added or not a utility
   * function, otherwise `funcName` last, closed under calls, each but the
   * last called by a later one, and dependencies first on an acyclic graph.
   */
  predicate Resolves(functions: map<Name, FuncDef>, rank: map<Name, nat>, funcName: Name, added: set<Name>,
                     deps: seq<FuncDef>, names: seq<Name>)
  {
    && FromMap(functions, deps, names)
    && Distinct(names) && Elems(names) !! added
    && (funcName in added || funcName !in functions ==> names == [])
    && (funcName !in added && funcName in functions ==> names != [] && names[|names| - 1] == funcName)
    && Closed(functions, deps, added + Elems(names))
    && CalledLater(deps, names)
    && (Ranked(functions, rank) ==> DepsFirst(functions, deps, names, added))
  }

  /**
   * `segs[j]` (with definitions `dsegs[j]`) is what the `j`-th imported
   * name resolves to against `added` grown by the segments before it; a
   * name `FUNCTIONS_MAP` does not list resolves to nothing.
   */
  predicate ResolvesEach(functions: map<Name, FuncDef>, rank: map<Name, nat>, aliases: seq<Name>, added: set<Name>,
                         dsegs: seq<seq<FuncDef>>, segs: seq<seq<Name>>)
    decreases |aliases|
  {
    && |dsegs| == |aliases| && |segs| == |aliases|
    && (aliases != [] ==>
          var i := |aliases| - 1;
          && ResolvesEach(functions, rank, aliases[..i], added, dsegs[..i], segs[..i])
          && if aliases[i] in FUNCTIONS_MAP
             then Resolves(functions, rank, aliases[i], added + Elems(Flatten(segs[..i])), dsegs[i], segs[i])
             else dsegs[i] == [] && segs[i] == [])
  }

  /** The definitions one import splices in: its names resolved one after another, in the order listed. */
  ghost predicate ImportResolves(functions: map<Name, FuncDef>, rank: map<Name, nat>, aliases: seq<Name>,
                                 added: set<Name>, deps: seq<FuncDef>, names: seq<Name>)
  {
    exists dsegs, segs :: ResolvesEach(functions, rank, aliases, added, dsegs, segs)
                         && deps == Flatten(dsegs) && names == Flatten(segs)
  }

  /** Resolving one more imported name extends the record by its segment. */
  lemma ResolvesEachStep(functions: map<Name, FuncDef>, rank: map<Name, nat>, aliases: seq<Name>, added: set<Name>,
                         dsegs: seq<seq<FuncDef>>, segs: seq<seq<Name>>, alias: Name, d: seq<FuncDef>, m: seq<Name>)
    requires ResolvesEach(functions, rank, aliases, added, dsegs, segs)
    requires alias in FUNCTIONS_MAP ==> Resolves(functions, rank, alias, added + Elems(Flatten(segs)), d, m)
    requires alias !in FUNCTIONS_MAP ==> d == [] && m == []
    ensures ResolvesEach(functions, rank, aliases + [alias], added, dsegs + [d], segs + [m])
  {
    var al, ds, ss := aliases + [alias], dsegs + [d], segs + [m];
    assert al[..|aliases|] == aliases && ds[..|aliases|] == dsegs && ss[..|aliases|] == segs;
  }

  /** The first `j` names of `aliases` resolved one after another into `segs`, concatenated into `n`. */
  ghost predicate Segmented(functions: map<Name, FuncDef>, rank: map<Name, nat>, aliases: seq<Name>,
                            added: set<Name>, j: nat, deps: seq<FuncDef>, n: seq<Name>,
                            dsegs: seq<seq<FuncDef>>, segs: seq<seq<Name>>)
  {
    && j <= |aliases|
    && ResolvesEach(functions, rank, aliases[..j], added, dsegs, segs)
    && deps == Flatten(dsegs) && n == Flatten(segs)
  }

  /** One more name's segment extends the record. */
  lemma SegmentedStep(functions: map<Name, FuncDef>, rank: map<Name, nat>, aliases: seq<Name>,
                      added: set<Name>, j: nat, deps: seq<FuncDef>, n: seq<Name>,
                      dsegs: seq<seq<FuncDef>>, segs: seq<seq<Name>>, d: seq<FuncDef>, m: seq<Name>)
    requires Segmented(functions, rank, aliases, added, j, deps, n, dsegs, segs) && j < |aliases|
    requires aliases[j] in FUNCTIONS_MAP ==> Resolves(functions, rank, aliases[j], added + Elems(n), d, m)
    requires aliases[j] !in FUNCTIONS_MAP ==> d == [] && m == []
    ensures Segmented(functions, rank, aliases, added, j + 1, deps + d, n + m, dsegs + [d], segs + [m])
  {
    ResolvesEachStep(functions, rank, aliases[..j], added, dsegs, segs, aliases[j], d, m);
    FlattenStep(dsegs, d);
    FlattenStep(segs, m);
    assert aliases[..j + 1] == aliases[..j] + [aliases[j]];
  }

  /** What `ResolveDependencies` promises is what `Resolves` states. */
  lemma ResolvesIntro(functions: map<Name, FuncDef>, rank: map<Name, nat>, funcName: Name, added: set<Name>,
                      deps: seq<FuncDef>, addedOut: set<Name>, names: seq<Name>)
    requires FromMap(functions, deps, names)
    requires Distinct(names) && Elems(names) !! added
    requires addedOut == added + Elems(names)
    requires funcName in added || funcName !in functions ==> deps == [] && addedOut == added
    requires funcName !in added && funcName in functions ==> names != [] && names[|names| - 1] == funcName
    requires Closed(functions, deps, addedOut)
    requires CalledLater(deps, names)
    requires Ranked(functions, rank) ==> DepsFirst(functions, deps, names, added)
    ensures Resolves(functions, rank, funcName, added, deps, names)
  {
  }

  /** Appending the resolution of the `j`-th imported name keeps the inner loop's state. */
  lemma ResolvedStep(functions: map<Name, FuncDef>, rank: map<Name, nat>, body: seq<Stmt>, k: nat, j: nat,
                     added: set<Name>, defs: seq<FuncDef>, names: seq<Name>,
                     deps: seq<FuncDef>, addedOut: set<Name>, n: seq<Name>,
                     dsegs: seq<seq<FuncDef>>, segs: seq<seq<Name>>, d: seq<FuncDef>, m: seq<Name>)
    requires k < |body| && IsUtilsImport(body[k]) && j < |body[k].names| && body[k].names[j] in FUNCTIONS_MAP
    requires Inlined(functions, rank, body, addedOut, defs + deps, names + n)
    requires addedOut == added + Elems(n)
    requires |deps| == |n| && Justified([body[k]], deps, n)
    requires Segmented(functions, rank, body[k].names, added, j, deps, n, dsegs, segs)
    requires Resolves(functions, rank, body[k].names[j], addedOut, d, m)
    ensures Inlined(functions, rank, body, addedOut + Elems(m), defs + (deps + d), names + (n + m))
    ensures addedOut + Elems(m) == added + Elems(n + m)
    ensures |deps + d| == |n + m| && Justified([body[k]], deps + d, n + m)
    ensures Segmented(functions, rank, body[k].names, added, j + 1, deps + d, n + m, dsegs + [d], segs + [m])
  {
    var node, alias := body[k], body[k].names[j];
    assert Requested(body, alias) by {
      assert IsUtilsImport(body[k]) && alias in body[k].names;
    }
    InlinedStep(functions, rank, body, addedOut, defs + deps, names + n, alias, d, m);
    assert Requested([node], alias) by {
      assert IsUtilsImport([node][0]) && alias in [node][0].names;
    }
    JustifiedAppend([node], deps, n, alias, d, m);
    ElemsAppend(n, m);
    PyStr.AppendAssoc(defs, deps, d);
    PyStr.AppendAssoc(names, n, m);
    SegmentedStep(functions, rank, node.names, added, j, deps, n, dsegs, segs, d, m);
  }

  /**
   * The state of the inner loop of `inline_functions` at statement `k` once
   * the first `j` imported names are handled: `deps` (named `n`) appended
   * after `defs`, `addedOut` the shared set, `segs` what each name resolved to.
   */
  ghost predicate Importing(functions: map<Name, FuncDef>, rank: map<Name, nat>, body: seq<Stmt>, k: nat, j: nat,
                            added: set<Name>, defs: seq<FuncDef>, names: seq<Name>,
                            deps: seq<FuncDef>, addedOut: set<Name>, n: seq<Name>,
                            dsegs: seq<seq<FuncDef>>, segs: seq<seq<Name>>)
  {
    && k < |body| && IsUtilsImport(body[k]) && j <= |body[k].names|
    && Inlined(functions, rank, body, addedOut, defs + deps, names + n)
    && addedOut == added + Elems(n)
    && |deps| == |n| && Justified([body[k]], deps, n)
    && (forall a :: a in body[k].names[..j] ==> (a in FUNCTIONS_MAP && a in functions ==> a in addedOut))
    && Segmented(functions, rank, body[k].names, added, j, deps, n, dsegs, segs)
  }

  /** Handling the `j`-th imported name keeps the inner loop's state: `d` and `m` are what resolving it returned, or nothing when `FUNCTIONS_MAP` does not list it. */
  lemma ImportingStep(functions: map<Name, FuncDef>, rank: map<Name, nat>, body: seq<Stmt>, k: nat, j: nat,
                      added: set<Name>, defs: seq<FuncDef>, names: seq<Name>,
                      deps: seq<FuncDef>, addedOut: set<Name>, n: seq<Name>,
                      dsegs: seq<seq<FuncDef>>, segs: seq<seq<Name>>, d: seq<FuncDef>, m: seq<Name>)
    requires Importing(functions, rank, body, k, j, added, defs, names, deps, addedOut, n, dsegs, segs)
    requires j < |body[k].names|
    requires body[k].names[j] in FUNCTIONS_MAP ==> Resolves(functions, rank, body[k].names[j], addedOut, d, m)
    requires body[k].names[j] !in FUNCTIONS_MAP ==> d == [] && m == []
    ensures Importing(functions, rank, body, k, j + 1, added, defs, names,
                      deps + d, addedOut + Elems(m), n + m, dsegs + [d], segs + [m])
  {
    var aliases := body[k].names;
    if aliases[j] in FUNCTIONS_MAP {
      ResolvedStep(functions, rank, body, k, j, added, defs, names, deps, addedOut, n, dsegs, segs, d, m);
    } else {
      SegmentedStep(functions, rank, aliases, added, j, deps, n, dsegs, segs, [], []);
      assert deps + d == deps && n + m == n && addedOut + Elems(m) == addedOut;
    }
    assert aliases[..j + 1] == aliases[..j] + [aliases[j]];
  }

  /** Once every imported name is handled, the inner loop's state gives what the whole import splices in. */
  lemma ImportingDone(functions: map<Name, FuncDef>, rank: map<Name, nat>, body: seq<Stmt>, k: nat,
                      added: set<Name>, defs: seq<FuncDef>, names: seq<Name>,
                      deps: seq<FuncDef>, addedOut: set<Name>, n: seq<Name>,
                      dsegs: seq<seq<FuncDef>>, segs: seq<seq<Name>>)
    requires k < |body| && IsUtilsImport(body[k])
    requires Importing(functions, rank, body, k, |body[k].names|, added, defs, names, deps, addedOut, n, dsegs, segs)
    ensures Inlined(functions, rank, body, addedOut, defs + deps, names + n)
    ensures addedOut == added + Elems(n)
    ensures |deps| == |n| && Justified([body[k]], deps, n)
    ensures forall a :: a in body[k].names ==> (a in FUNCTIONS_MAP && a in functions ==> a in addedOut)
    ensures ImportResolves(functions, rank, body[k].names, added, deps, n)
  {
    assert body[k].names[..|body[k].names|] == body[k].names;
  }

  /**
   * The inner loop of `inline_functions` for one `sandbox.utils` import
   * (statement `k` of the module): each imported name `FUNCTIONS_MAP` lists
   * is resolved, in the order listed, against the shared `added` set and
   * its definitions appended.
   */
  method ResolveImported(node: Stmt, functions: map<Name, FuncDef>, added: set<Name>,
                         ghost rank: map<Name, nat>, ghost body: seq<Stmt>, ghost k: nat,
                         ghost defs: seq<FuncDef>, ghost names: seq<Name>)
    returns (deps: seq<FuncDef>, addedOut: set<Name>, ghost n: seq<Name>)
    requires k < |body| && body[k] == node && IsUtilsImport(node)
    requires Inlined(functions, rank, body, added, defs, names)
    ensures Inlined(functions, rank, body, addedOut, defs + deps, names + n)
    ensures addedOut == added + Elems(n)
    ensures |deps| == |n| && Justified([node], deps, n)
    ensures forall a :: a in node.names ==> (a in FUNCTIONS_MAP && a in functions ==> a in addedOut)
    ensures ImportResolves(functions, rank, node.names, added, deps, n)
  {
    deps, addedOut, n := [], added, [];
    ghost var dsegs: seq<seq<FuncDef>>, segs: seq<seq<Name>> := [], [];
    assert defs + deps == defs && names + n == names;
    for j := 0 to |node.names|
      invariant Importing(functions, rank, body, k, j, added, defs, names, deps, addedOut, n, dsegs, segs)
    {
      var alias := node.names[j];
      var d: seq<FuncDef>, a := [], addedOut;
      ghost var m: seq<Name> := [];
      if alias in FUNCTIONS_MAP {
        d, a, m := ResolveDependencies(alias, functions, addedOut, rank);
        ResolvesIntro(functions, rank, alias, addedOut, d, a, m);
      }
      ImportingStep(functions, rank, body, k, j, added, defs, names, deps, addedOut, n, dsegs, segs, d, m);
      deps, addedOut, n := deps + d, a, n + m;
      dsegs, segs := dsegs + [d], segs + [m];
    }
    ImportingDone(functions, rank, body, k, added, defs, names, deps, addedOut, n, dsegs, segs);
  }

  lemma PrefixStep<T>(s: seq<T>, i: nat)
    requires i < |s|
    ensures s[..i] + [s[i]] == s[..i + 1]
  {
  }

  lemma FlattenStep<T>(resolved: seq<seq<T>>, cur: seq<T>)
    ensures Flatten(resolved + [cur]) == Flatten(resolved) + cur
  {
    assert (resolved + [cur])[..|resolved|] == resolved;
  }

  lemma HasUtilsImportStep(body: seq<Stmt>, i: nat)
    requires i < |body|
    ensures HasUtilsImport(body[..i + 1]) <==> HasUtilsImport(body[..i]) || IsUtilsImport(body[i])
  {
    var b := body[..i + 1];
    if HasUtilsImport(b) {
      var k :| 0 <= k < |b| && IsUtilsImport(b[k]);
      if k < i {
        assert body[..i][k] == b[k];
      }
    }
    if HasUtilsImport(body[..i]) {
      var k :| 0 <= k < i && IsUtilsImport(body[..i][k]);
      assert b[k] == body[..i][k];
    }
    if IsUtilsImport(body[i]) {
      assert b[i] == body[i];
    }
  }

  lemma RequestsResolvedStep(body: seq<Stmt>, i: nat, functions: map<Name, FuncDef>, added: set<Name>, addedOut: set<Name>)
    requires i < |body| && RequestsResolved(body, i, functions, added) && added <= addedOut
    requires IsUtilsImport(body[i]) ==>
               forall a :: a in body[i].names ==> (a in FUNCTIONS_MAP && a in functions ==> a in addedOut)
    ensures RequestsResolved(body, i + 1, functions, addedOut)
  {
  }

  /**
   * The state of `inline_functions` after the first `i` statements:
   * `resolved[k]` and `emitted[k]` are the definitions spliced at statement
   * `k` and their names, and `added` is the shared set.
   */
  ghost predicate Progress(body: seq<Stmt>, functions: map<Name, FuncDef>, rank: map<Name, nat>, i: nat,
                           resolved: seq<seq<FuncDef>>, emitted: seq<seq<Name>>, names: seq<Name>, added: set<Name>)
  {
    && |resolved| == i && i <= |body|
    && (forall k :: 0 <= k < i && !IsUtilsImport(body[k]) ==> resolved[k] == [])
    && names == Flatten(emitted)
    && Inlined(functions, rank, body, added, Flatten(resolved), names)
    && RequestsResolved(body, i, functions, added)
    && SplicedAt(body, functions, rank, resolved, emitted, i)
  }

  /** After the last statement, the state gives every whole-module property. */
  lemma ProgressDone(body: seq<Stmt>, functions: map<Name, FuncDef>, rank: map<Name, nat>,
                     resolved: seq<seq<FuncDef>>, emitted: seq<seq<Name>>, names: seq<Name>, added: set<Name>)
    requires Progress(body, functions, rank, |body|, resolved, emitted, names, added)
    ensures forall i :: 0 <= i < |body| && !IsUtilsImport(body[i]) ==> resolved[i] == []
    ensures && FromMap(functions, Flatten(resolved), names)
            && Distinct(names)
            && Closed(functions, Flatten(resolved), Elems(names))
            && RequestsResolved(body, |body|, functions, Elems(names))
            && Justified(body, Flatten(resolved), names)
            && (Ranked(functions, rank) ==> DepsFirst(functions, Flatten(resolved), names, {}))
  {
  }

  /** One more statement, with what it resolved to, keeps the state consistent. */
  lemma ProgressStep(body: seq<Stmt>, functions: map<Name, FuncDef>, rank: map<Name, nat>, i: nat,
                     resolved: seq<seq<FuncDef>>, emitted: seq<seq<Name>>, names: seq<Name>, added: set<Name>,
                     cur: seq<FuncDef>, curNames: seq<Name>, addedOut: set<Name>)
    requires Progress(body, functions, rank, i, resolved, emitted, names, added) && i < |body|
    requires !IsUtilsImport(body[i]) ==> cur == [] && curNames == [] && addedOut == added
    requires IsUtilsImport(body[i]) ==>
               && Inlined(functions, rank, body, addedOut, Flatten(resolved) + cur, names + curNames)
               && addedOut == added + Elems(curNames)
               && |cur| == |curNames| && Justified([body[i]], cur, curNames)
               && (forall a :: a in body[i].names ==> (a in FUNCTIONS_MAP && a in functions ==> a in addedOut))
               && ImportResolves(functions, rank, body[i].names, added, cur, curNames)
    ensures Progress(body, functions, rank, i + 1, resolved + [cur], emitted + [curNames], names + curNames, addedOut)
  {
    if !IsUtilsImport(body[i]) {
      assert Flatten(resolved) + cur == Flatten(resolved) && names + curNames == names;
    }
    RequestsResolvedStep(body, i, functions, added, addedOut);
    assert StmtSpliced(body[i], functions, rank, added, cur, curNames);
    SplicedStep(body, functions, rank, resolved, emitted, i, cur, curNames);
    FlattenStep(emitted, curNames);
    FlattenStep(resolved, cur);
    var r := resolved + [cur];
    forall k | 0 <= k < i + 1 && !IsUtilsImport(body[k]) ensures r[k] == [] {
      if k < i {
        assert r[k] == resolved[k];
      }
    }
  }

  /**
   * The branch of `inline_functions` for a `sandbox.utils` import, statement
   * `i`: the utilities' imports go in unless they already did, then the
   * definitions resolved for the statement's names.
   */
  method SpliceImport(node: Stmt, newBody: seq<Stmt>, insertedImports: bool, utilsImports: seq<Stmt>,
                      functions: map<Name, FuncDef>, added: set<Name>, ghost rank: map<Name, nat>,
                      ghost body: seq<Stmt>, ghost i: nat, ghost resolved: seq<seq<FuncDef>>,
                      ghost emitted: seq<seq<Name>>, ghost names: seq<Name>)
    returns (newBodyOut: seq<Stmt>, deps: seq<FuncDef>, addedOut: set<Name>, ghost n: seq<Name>)
    requires i < |body| && body[i] == node && IsUtilsImport(node)
    requires Progress(body, functions, rank, i, resolved, emitted, names, added)
    ensures newBodyOut == newBody + Piece(node, utilsImports, deps, insertedImports)
    ensures Progress(body, functions, rank, i + 1, resolved + [deps], emitted + [n], names + n, addedOut)
  {
    var head: seq<Stmt> := [];
    if !insertedImports {
      head := utilsImports;
    }
    deps, addedOut, n := ResolveImported(node, functions, added, rank, body, i, Flatten(resolved), names);
    newBodyOut := newBody + head + DefStmts(deps);
    PyStr.AppendAssoc(newBody, head, DefStmts(deps));
    ProgressStep(body, functions, rank, i, resolved, emitted, names, added, deps, n, addedOut);
  }

  /**
   * `inline_functions`, on parsed modules: the body-rebuilding loop. The
   * result is `Rebuild` of the body, where `resolved` records what each
   * statement resolved to; over the whole module no definition is emitted
   * twice, every requested utility function and everything it calls is
   * emitted, nothing else is, and on an acyclic call graph every
   * definition comes after the definitions it calls. `outPath` is the
   * shared copy's path.
   */
  method InlineFunctions(filePath: string, body: seq<Stmt>, utilsBody: seq<Stmt>, ghost rank: map<Name, nat>)
    returns (newBody: seq<Stmt>, outPath: string, ghost resolved: seq<seq<FuncDef>>, ghost names: seq<Name>,
             ghost emitted: seq<seq<Name>>)
    ensures |resolved| == |body| && newBody == Rebuild(body, ImportsOf(utilsBody), resolved, false)
    ensures names == Flatten(emitted) && SplicedAt(body, FunctionsOf(utilsBody), rank, resolved, emitted, |body|)
    ensures forall i :: 0 <= i < |body| && !IsUtilsImport(body[i]) ==> resolved[i] == []
    ensures var functions := FunctionsOf(utilsBody);
            && FromMap(functions, Flatten(resolved), names)
            && Distinct(names)
            && Closed(functions, Flatten(resolved), Elems(names))
            && RequestsResolved(body, |body|, functions, Elems(names))
            && Justified(body, Flatten(resolved), names)
            && (Ranked(functions, rank) ==> DepsFirst(functions, Flatten(resolved), names, {}))
    ensures outPath == "share/" + PyPath.OutputName(filePath)
  {
    var utilsImports, utilsFunctions := GetUtilsImportsAndFunctions(utilsBody);
    newBody := [];
    var insertedImports := false;
    var addedFuncs: set<Name> := {};
    resolved, names, emitted := [], [], [];
    for i := 0 to |body|
      invariant |resolved| == i && newBody == Rebuild(body[..i], utilsImports, resolved, false)
      invariant insertedImports == HasUtilsImport(body[..i])
      invariant Progress(body, utilsFunctions, rank, i, resolved, emitted, names, addedFuncs)
    {
      var node := body[i];
      ghost var cur, curNames := [], [];
      HasUtilsImportStep(body, i);
      if IsUtilsImport(node) {
        var nb, deps, a, n := SpliceImport(node, newBody, insertedImports, utilsImports, utilsFunctions,
                                           addedFuncs, rank, body, i, resolved, emitted, names);
        newBody, insertedImports := nb, true;
        names, addedFuncs := names + n, a;
        cur, curNames := deps, n;
      } else {
        ProgressStep(body, utilsFunctions, rank, i, resolved, emitted, names, addedFuncs, [], [], addedFuncs);
        newBody := newBody + [node];
        assert names + [] == names;
      }
      RebuildAppend(body[..i], utilsImports, resolved, false, node, cur);
      PrefixStep(body, i);
      resolved, emitted := resolved + [cur], emitted + [curNames];
    }
    assert body[..|body|] == body;
    ProgressDone(body, utilsFunctions, rank, resolved, emitted, names, addedFuncs);
    outPath := "share/" + PyPath.OutputName(filePath);
  }
}
