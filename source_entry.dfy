/**
 * The source-directory engine (`SourceEntry`). It reads the project's module
 * map from the build file at the first source path. For every module that no
 * earlier module listed among its dependencies, it derives a module name from
 * each dependency path, runs every rule checker once over the module, and
 * then clears the call-graph and field-initialisation caches. Any exception
 * ends the scan, and the analysis is stopped either way.
 *
 * The effects on shared state (`startAnalysis`, the two cache resets,
 * `stopAnalysis`) and the checker calls are recorded, in order, as the events
 * of a `Trace`.
 */
module RuleEngine {
  import opened Wrappers
  import opened JavaStrings
  import opened Findings

  /** The parts of `EnvironmentInformation` the engine reads. */
  datatype Environment = Environment(
    source: seq<string>,                // the source paths; the first is the project root
    dependencies: Option<seq<string>>,  // the global dependency paths, `null` when none were set
    printOut: bool,
    sourcePaths: seq<string>)

  /** The engine type a checker is told it runs under; this engine always passes `DIR`. */
  datatype EngineType = Dir

  /** The arguments of one `checkRule` call; `toStream` says whether a stream writer is passed. */
  datatype Invocation = Invocation(
    engine: EngineType,
    sources: seq<string>,
    otherDependencies: seq<string>,
    printOut: bool,
    sourcePaths: seq<string>,
    toStream: bool)

  /** A rule checker: its `checkRule` result for a call, or the exception it throws. */
  type Checker = Invocation -> Result<Option<seq<AnalysisIssue>>>

  /** The build-file parser for a project root: its module-to-dependencies map, or the exception it throws. */
  type BuildFileParser = string -> Result<map<string, seq<string>>>

  /** What the engine does to the world outside it, in order. */
  datatype Event =
    | StartAnalysis
    | Checked(checker: nat, call: Invocation)   // the `checker`-th rule checker is called
    | ClearCallerCalleeGraph
    | ResetFieldInitializationMap
    | StopAnalysis

  // ------------------------------------------------ dependency names

  const MainJava: string := "/src/main/java"

  /**
   * The module a dependency path belongs to: the root's last path segment
   * for the root's own source folder, otherwise the text between the root
   * and the trailing 14 characters, which `substring` rejects when the path
   * is too short.
   */
  function DependencyModuleName(root: string, dependency: string): (r: Result<string>)
    ensures r.Thrown? <==> dependency != root + MainJava && |dependency| < |root| + 15
    ensures r.Thrown? ==> r.exception == IndexOutOfBounds
  {
    if dependency == root + MainJava then Ok(root[LastIndexOf(root, '/') + 1..])
    else if |root| + 1 <= |dependency| - 14 then Ok(dependency[|root| + 1..|dependency| - 14])
    else Thrown(IndexOutOfBounds)
  }

  /** The root's own source folder is named by the part of the root after its last `/`. */
  lemma RootModuleName(root: string)
    ensures DependencyModuleName(root, root + MainJava).Ok?
    ensures var name := DependencyModuleName(root, root + MainJava).value;
      '/' !in name && EndsWith(root, name) && (|name| < |root| ==> root[|root| - |name| - 1] == '/')
  {
    var name := root[LastIndexOf(root, '/') + 1..];
    assert root[|root| - |name|..] == name;
  }

  /** A sub-module's folder `<root>/<name>/src/main/java` gives back `name`. */
  lemma SubmoduleName(root: string, name: string)
    ensures DependencyModuleName(root, root + "/" + name + MainJava) == Ok(name)
  {
    var dependency := root + "/" + name + MainJava;
    assert |dependency| == |root| + |name| + 15;
    assert dependency != root + MainJava;
    assert dependency[|root| + 1..|dependency| - 14] == name;
  }

  // ------------------------------------------------- dependency loop

  /** The module list and the `otherdependencies` list as a module's dependency loop leaves them. */
  datatype Dependencies = Dependencies(analyzed: seq<string>, other: seq<string>)

  /** One dependency: derive its module name, append the global dependencies, record the name. */
  function DependencyStep(root: string, dependency: string, global: Option<seq<string>>, acc: Dependencies): Result<Dependencies> {
    match DependencyModuleName(root, dependency)
    case Thrown(e) => Thrown(e)
    case Ok(name) =>
      if global.None? then Thrown(NullPointer)
      else Ok(Dependencies(acc.analyzed + [name], acc.other + global.value))
  }

  /** The dependency loop over `deps`, starting from the modules analysed so far. */
  function DependencyPass(root: string, deps: seq<string>, global: Option<seq<string>>, analyzed: seq<string>): Result<Dependencies> {
    if deps == [] then Ok(Dependencies(analyzed, []))
    else
      match DependencyPass(root, deps[..|deps| - 1], global, analyzed)
      case Thrown(e) => Thrown(e)
      case Ok(acc) => DependencyStep(root, deps[|deps| - 1], global, acc)
  }

  /** `n` copies of `xs`, one after the other. */
  function Copies(xs: seq<string>, n: nat): (r: seq<string>)
    ensures |r| == n * |xs|
  {
    if n == 0 then [] else Copies(xs, n - 1) + xs
  }

  /** The loop completes exactly when there is nothing to do or every name is derivable and the global list is set. */
  lemma {:induction false} DependencyPassThrows(root: string, deps: seq<string>, global: Option<seq<string>>, analyzed: seq<string>)
    ensures DependencyPass(root, deps, global, analyzed).Ok? <==>
      deps == [] || (global.Some? && forall i :: 0 <= i < |deps| ==> DependencyModuleName(root, deps[i]).Ok?)
  {
    if deps != [] {
      var init := deps[..|deps| - 1];
      DependencyPassThrows(root, init, global, analyzed);
      assert forall i :: 0 <= i < |init| ==> init[i] == deps[i];
    }
  }

  /**
   * `d` holds, after the modules analysed so far, each dependency's module
   * name in order, and one copy of the global dependencies per dependency.
   */
  predicate Extends(d: Dependencies, root: string, deps: seq<string>, global: Option<seq<string>>, analyzed: seq<string>) {
    && |d.analyzed| == |analyzed| + |deps|
    && d.analyzed[..|analyzed|] == analyzed
    && (forall i :: 0 <= i < |deps| ==> Ok(d.analyzed[|analyzed| + i]) == DependencyModuleName(root, deps[i]))
    && d.other == (if global.Some? then Copies(global.value, |deps|) else [])
  }

  /** A completed loop extends the modules analysed so far as `Extends` says. */
  lemma {:induction false} DependencyPassValue(root: string, deps: seq<string>, global: Option<seq<string>>, analyzed: seq<string>)
    requires DependencyPass(root, deps, global, analyzed).Ok?
    ensures Extends(DependencyPass(root, deps, global, analyzed).value, root, deps, global, analyzed)
  {
    if deps != [] {
      var init := deps[..|deps| - 1];
      DependencyPassValue(root, init, global, analyzed);
      ExtendsStep(DependencyPass(root, init, global, analyzed).value, DependencyPass(root, deps, global, analyzed).value, root, deps, global, analyzed);
    }
  }

  lemma ExtendsStep(acc: Dependencies, d: Dependencies, root: string, deps: seq<string>, global: Option<seq<string>>, analyzed: seq<string>)
    requires deps != [] && Extends(acc, root, deps[..|deps| - 1], global, analyzed)
    requires DependencyStep(root, deps[|deps| - 1], global, acc) == Ok(d)
    ensures Extends(d, root, deps, global, analyzed)
  {
    var name := DependencyModuleName(root, deps[|deps| - 1]).value;
    assert d.analyzed == acc.analyzed + [name];
    assert d.analyzed[..|acc.analyzed|] == acc.analyzed;
    assert d.other == acc.other + global.value;
    forall i | 0 <= i < |deps|
      ensures Ok(d.analyzed[|analyzed| + i]) == DependencyModuleName(root, deps[i])
    {
      if i < |deps| - 1 {
        assert deps[..|deps| - 1][i] == deps[i];
      }
    }
  }

  /** Once the loop has thrown on a prefix, the whole loop ends with that exception. */
  lemma DependencyPassThrownPrefix(root: string, deps: seq<string>, global: Option<seq<string>>, analyzed: seq<string>, j: nat)
    requires j <= |deps|
    requires DependencyPass(root, deps[..j], global, analyzed).Thrown?
    ensures DependencyPass(root, deps, global, analyzed) == DependencyPass(root, deps[..j], global, analyzed)
    decreases |deps|
  {
    if j < |deps| {
      var init := deps[..|deps| - 1];
      assert init[..j] == deps[..j];
      DependencyPassThrownPrefix(root, init, global, analyzed, j);
    } else {
      assert deps[..j] == deps;
    }
  }

  // --------------------------------------------------- checker loop

  /** The state of a scan: the modules analysed, the issues collected, the events so far, and whether it threw. */
  datatype Progress = Progress(analyzed: seq<string>, issues: seq<AnalysisIssue>, events: seq<Event>, halted: bool)

  /**
   * Whether a checker's call ends the scan: it throws, or, when issues are
   * collected, it returns `null` and `addAll` throws.
   */
  predicate Halts(checker: Checker, call: Invocation, collect: bool) {
    checker(call).Thrown? || (collect && !call.printOut && checker(call).value.None?)
  }

  /** The `k`-th checker is the first of `checkers` that halts. */
  predicate FirstHalting(checkers: seq<Checker>, k: nat, call: Invocation, collect: bool)
    requires k < |checkers|
  {
    Halts(checkers[k], call, collect) && forall i :: 0 <= i < k ==> !Halts(checkers[i], call, collect)
  }

  /** Calling the `index`-th checker. */
  function RunChecker(q: Progress, index: nat, checker: Checker, call: Invocation, collect: bool): Progress {
    var called := q.(events := q.events + [Checked(index, call)]);
    match checker(call)
    case Thrown(_) => called.(halted := true)
    case Ok(found) =>
      if !collect || call.printOut then called
      else if found.None? then called.(halted := true)
      else called.(issues := called.issues + found.value)
  }

  /** The checker loop over the first `n` checkers, stopping at the first that throws. */
  function CheckerPass(checkers: seq<Checker>, n: nat, call: Invocation, collect: bool, p: Progress): Progress
    requires n <= |checkers|
  {
    if n == 0 then p
    else
      var q := CheckerPass(checkers, n - 1, call, collect, p);
      if q.halted then q else RunChecker(q, n - 1, checkers[n - 1], call, collect)
  }

  /** The calls of the first `n` checkers, in list order. */
  function CheckerEvents(n: nat, call: Invocation): seq<Event> {
    if n == 0 then [] else CheckerEvents(n - 1, call) + [Checked(n - 1, call)]
  }

  lemma {:induction false} CheckerEventsSpec(n: nat, call: Invocation)
    ensures |CheckerEvents(n, call)| == n
    ensures forall i :: 0 <= i < n ==> CheckerEvents(n, call)[i] == Checked(i, call)
  {
    if n > 0 {
      CheckerEventsSpec(n - 1, call);
    }
  }

  /**
   * Each checker is called once, in list order, with the same arguments.
   * The loop completes exactly when no checker halts; otherwise it stops
   * right after the first checker that halts.
   */
  lemma {:induction false} CheckerPassEvents(checkers: seq<Checker>, n: nat, call: Invocation, collect: bool, p: Progress)
    requires n <= |checkers| && !p.halted
    ensures var q := CheckerPass(checkers, n, call, collect, p);
      && q.analyzed == p.analyzed
      && (!q.halted <==> forall k :: 0 <= k < n ==> !Halts(checkers[k], call, collect))
      && (!q.halted ==> q.events == p.events + CheckerEvents(n, call))
      && (q.halted ==> exists k :: 0 <= k < n && FirstHalting(checkers, k, call, collect) && q.events == p.events + CheckerEvents(k + 1, call))
  {
    if n > 0 {
      CheckerPassEvents(checkers, n - 1, call, collect, p);
      var q := CheckerPass(checkers, n - 1, call, collect, p);
      if !q.halted {
        assert p.events + CheckerEvents(n - 1, call) + [Checked(n - 1, call)] == p.events + CheckerEvents(n, call);
        if CheckerPass(checkers, n, call, collect, p).halted {
          assert FirstHalting(checkers, n - 1, call, collect);
        }
      }
    }
  }

  lemma {:induction false} CheckerPassAnalyzed(checkers: seq<Checker>, n: nat, call: Invocation, collect: bool, p: Progress)
    requires n <= |checkers|
    ensures CheckerPass(checkers, n, call, collect, p).analyzed == p.analyzed
  {
    if n > 0 {
      CheckerPassAnalyzed(checkers, n - 1, call, collect, p);
    }
  }

  /** Once the loop has halted after `j` checkers, the rest are not called. */
  lemma CheckerPassHaltedFrom(checkers: seq<Checker>, j: nat, call: Invocation, collect: bool, p: Progress)
    requires j <= |checkers|
    requires CheckerPass(checkers, j, call, collect, p).halted
    ensures CheckerPass(checkers, |checkers|, call, collect, p) == CheckerPass(checkers, j, call, collect, p)
    decreases |checkers| - j
  {
    if j < |checkers| {
      CheckerPassHaltedFrom(checkers, j + 1, call, collect, p);
    }
  }

  // ------------------------------------------------------ modules

  /** The arguments every checker gets for a module. */
  function CallFor(env: Environment, sources: seq<string>, other: seq<string>, collect: bool): Invocation {
    Invocation(Dir, sources, other, env.printOut, env.sourcePaths, !collect)
  }

  const Resets: seq<Event> := [ClearCallerCalleeGraph, ResetFieldInitializationMap]

  /** One iteration of the module loop. */
  function Visit(root: string, env: Environment, modules: map<string, seq<string>>, moduleName: string,
                 checkers: seq<Checker>, collect: bool, p: Progress): Progress
    requires moduleName in modules
  {
    if p.halted || moduleName in p.analyzed then p
    else
      match DependencyPass(root, modules[moduleName], env.dependencies, p.analyzed)
      case Thrown(_) => p.(halted := true)
      case Ok(d) =>
        var q := CheckerPass(checkers, |checkers|, CallFor(env, modules[moduleName], d.other, collect), collect, p.(analyzed := d.analyzed));
        if q.halted then q else q.(events := q.events + Resets)
  }

  predicate ModulesIn(order: seq<string>, modules: map<string, seq<string>>) {
    forall i :: 0 <= i < |order| ==> order[i] in modules
  }

  /** The module loop over `order`. */
  function Modules(root: string, env: Environment, modules: map<string, seq<string>>, order: seq<string>,
                   checkers: seq<Checker>, collect: bool, p: Progress): Progress
    requires ModulesIn(order, modules)
  {
    if order == [] then p
    else Visit(root, env, modules, order[|order| - 1], checkers, collect, Modules(root, env, modules, order[..|order| - 1], checkers, collect, p))
  }

  /** `order` is an iteration order of the parsed module map, when there is one. */
  ghost predicate ModuleOrder(env: Environment, parser: BuildFileParser, order: seq<string>) {
    env.source != [] && parser(env.source[0]).Ok? ==> Enumerates(order, parser(env.source[0]).value.Keys)
  }

  predicate ParsedOrder(env: Environment, parser: BuildFileParser, order: seq<string>) {
    env.source != [] && parser(env.source[0]).Ok? ==> ModulesIn(order, parser(env.source[0]).value)
  }

  lemma OrderCoversModules(env: Environment, parser: BuildFileParser, order: seq<string>)
    requires ModuleOrder(env, parser, order)
    ensures ParsedOrder(env, parser, order)
  {
    if env.source != [] && parser(env.source[0]).Ok? {
      var modules := parser(env.source[0]).value;
      forall i | 0 <= i < |order| ensures order[i] in modules {
        assert order[i] in order;
      }
    }
  }

  /** The try block: a missing root or a throwing parser ends it before any module. */
  function ScanRun(env: Environment, parser: BuildFileParser, order: seq<string>, checkers: seq<Checker>, collect: bool): Progress
    requires ParsedOrder(env, parser, order)
  {
    if env.source == [] then Progress([], [], [], true)
    else
      match parser(env.source[0])
      case Thrown(_) => Progress([], [], [], true)
      case Ok(modules) => Modules(env.source[0], env, modules, order, checkers, collect, Progress([], [], [], false))
  }

  /**
   * One module's events: nothing when it was already listed as analysed or
   * its dependency loop threw; otherwise every checker's call, then both
   * cache resets, unless a checker halts, in which case the calls stop after
   * it and no reset follows.
   */
  lemma VisitEvents(root: string, env: Environment, modules: map<string, seq<string>>, moduleName: string,
                    checkers: seq<Checker>, collect: bool, p: Progress)
    requires moduleName in modules && !p.halted
    ensures var q := Visit(root, env, modules, moduleName, checkers, collect, p);
      var deps := DependencyPass(root, modules[moduleName], env.dependencies, p.analyzed);
      && (moduleName in p.analyzed ==> q == p)
      && (moduleName !in p.analyzed && deps.Thrown? ==> q == p.(halted := true))
      && (moduleName !in p.analyzed && deps.Ok? ==>
            var call := CallFor(env, modules[moduleName], deps.value.other, collect);
            && q.analyzed == deps.value.analyzed
            && (!q.halted ==> q.events == p.events + CheckerEvents(|checkers|, call) + Resets)
            && (q.halted ==> exists k :: 0 <= k < |checkers| && FirstHalting(checkers, k, call, collect) && q.events == p.events + CheckerEvents(k + 1, call)))
  {
    var deps := DependencyPass(root, modules[moduleName], env.dependencies, p.analyzed);
    if moduleName !in p.analyzed && deps.Ok? {
      var call := CallFor(env, modules[moduleName], deps.value.other, collect);
      CheckerPassEvents(checkers, |checkers|, call, collect, p.(analyzed := deps.value.analyzed));
    }
  }

  lemma {:induction false} ModulesHalted(root: string, env: Environment, modules: map<string, seq<string>>, order: seq<string>,
                                         checkers: seq<Checker>, collect: bool, p: Progress)
    requires ModulesIn(order, modules) && p.halted
    ensures Modules(root, env, modules, order, checkers, collect, p) == p
  {
    if order != [] {
      ModulesHalted(root, env, modules, order[..|order| - 1], checkers, collect, p);
    }
  }

  /** Once a module has thrown, no later module is looked at. */
  lemma ModulesHaltedPrefix(root: string, env: Environment, modules: map<string, seq<string>>, order: seq<string>,
                            checkers: seq<Checker>, collect: bool, p: Progress, j: nat)
    requires ModulesIn(order, modules) && j <= |order|
    requires Modules(root, env, modules, order[..j], checkers, collect, p).halted
    ensures Modules(root, env, modules, order, checkers, collect, p) == Modules(root, env, modules, order[..j], checkers, collect, p)
    decreases |order|
  {
    if j < |order| {
      var init := order[..|order| - 1];
      assert init[..j] == order[..j];
      ModulesHaltedPrefix(root, env, modules, init, checkers, collect, p, j);
    } else {
      assert order[..j] == order;
    }
  }

  lemma ModulesStep(root: string, env: Environment, modules: map<string, seq<string>>, order: seq<string>,
                    checkers: seq<Checker>, collect: bool, p: Progress, j: nat)
    requires ModulesIn(order, modules) && j < |order|
    ensures ModulesIn(order[..j], modules) && ModulesIn(order[..j + 1], modules)
    ensures Modules(root, env, modules, order[..j + 1], checkers, collect, p)
         == Visit(root, env, modules, order[j], checkers, collect, Modules(root, env, modules, order[..j], checkers, collect, p))
  {
    assert order[..j + 1][..j] == order[..j];
  }

  // ------------------------------------------------ collected issues

  /** The issues a checker call adds to the list: its result, when it returned one. */
  function Contribution(e: Event, checkers: seq<Checker>): seq<AnalysisIssue> {
    if e.Checked? && e.checker < |checkers| then
      match checkers[e.checker](e.call)
      case Ok(Some(found)) => found
      case _ => []
    else []
  }

  /** The results of the checker calls among `events`, concatenated in call order. */
  function Collected(events: seq<Event>, checkers: seq<Checker>): seq<AnalysisIssue> {
    if events == [] then [] else Collected(events[..|events| - 1], checkers) + Contribution(events[|events| - 1], checkers)
  }

  lemma CollectedSnoc(es: seq<Event>, e: Event, checkers: seq<Checker>)
    ensures Collected(es + [e], checkers) == Collected(es, checkers) + Contribution(e, checkers)
  {
    assert (es + [e])[..|es|] == es;
  }

  predicate Collects(p: Progress, checkers: seq<Checker>) {
    p.issues == Collected(p.events, checkers)
  }

  lemma {:induction false} CheckerPassCollects(checkers: seq<Checker>, n: nat, call: Invocation, p: Progress)
    requires n <= |checkers| && !call.printOut && Collects(p, checkers)
    ensures Collects(CheckerPass(checkers, n, call, true, p), checkers)
  {
    if n > 0 {
      CheckerPassCollects(checkers, n - 1, call, p);
      CheckerStepCollects(checkers, n - 1, call, p);
    }
  }

  lemma CheckerStepCollects(checkers: seq<Checker>, i: nat, call: Invocation, p: Progress)
    requires i < |checkers| && !call.printOut && Collects(CheckerPass(checkers, i, call, true, p), checkers)
    ensures Collects(CheckerPass(checkers, i + 1, call, true, p), checkers)
  {
    var q := CheckerPass(checkers, i, call, true, p);
    if !q.halted {
      CollectedSnoc(q.events, Checked(i, call), checkers);
      var r := CheckerPass(checkers, i + 1, call, true, p);
      match checkers[i](call)
      case Thrown(_) =>
        assert r.issues == q.issues;
      case Ok(None) =>
        assert r.issues == q.issues;
      case Ok(Some(found)) =>
        assert r.issues == q.issues + found;
    }
  }

  lemma VisitCollects(root: string, env: Environment, modules: map<string, seq<string>>, moduleName: string,
                      checkers: seq<Checker>, p: Progress)
    requires moduleName in modules && !env.printOut && Collects(p, checkers)
    ensures Collects(Visit(root, env, modules, moduleName, checkers, true, p), checkers)
  {
    if !p.halted && moduleName !in p.analyzed {
      var deps := DependencyPass(root, modules[moduleName], env.dependencies, p.analyzed);
      if deps.Ok? {
        var call := CallFor(env, modules[moduleName], deps.value.other, true);
        CheckerPassCollects(checkers, |checkers|, call, p.(analyzed := deps.value.analyzed));
        var q := CheckerPass(checkers, |checkers|, call, true, p.(analyzed := deps.value.analyzed));
        CollectedSnoc(q.events, ClearCallerCalleeGraph, checkers);
        CollectedSnoc(q.events + [ClearCallerCalleeGraph], ResetFieldInitializationMap, checkers);
        assert q.events + Resets == q.events + [ClearCallerCalleeGraph] + [ResetFieldInitializationMap];
      }
    }
  }

  lemma {:induction false} ModulesCollect(root: string, env: Environment, modules: map<string, seq<string>>, order: seq<string>,
                                          checkers: seq<Checker>, p: Progress)
    requires ModulesIn(order, modules) && !env.printOut && Collects(p, checkers)
    ensures Collects(Modules(root, env, modules, order, checkers, true, p), checkers)
  {
    if order != [] {
      ModulesCollect(root, env, modules, order[..|order| - 1], checkers, p);
      VisitCollects(root, env, modules, order[|order| - 1], checkers, Modules(root, env, modules, order[..|order| - 1], checkers, true, p));
    }
  }

  /** When issues are collected, they are the checkers' results, concatenated in the order of the calls. */
  lemma ScanCollects(env: Environment, parser: BuildFileParser, order: seq<string>, checkers: seq<Checker>)
    requires ParsedOrder(env, parser, order) && !env.printOut
    ensures var run := ScanRun(env, parser, order, checkers, true);
      run.issues == Collected(run.events, checkers)
  {
    if env.source != [] && parser(env.source[0]).Ok? {
      ModulesCollect(env.source[0], env, parser(env.source[0]).value, order, checkers, Progress([], [], [], false));
    }
  }

  lemma {:induction false} CheckerPassKeeps(checkers: seq<Checker>, n: nat, call: Invocation, collect: bool, p: Progress)
    requires n <= |checkers| && (!collect || call.printOut)
    ensures CheckerPass(checkers, n, call, collect, p).issues == p.issues
  {
    if n > 0 {
      CheckerPassKeeps(checkers, n - 1, call, collect, p);
    }
  }

  lemma {:induction false} ModulesKeep(root: string, env: Environment, modules: map<string, seq<string>>, order: seq<string>,
                                       checkers: seq<Checker>, collect: bool, p: Progress)
    requires ModulesIn(order, modules) && (!collect || env.printOut)
    ensures Modules(root, env, modules, order, checkers, collect, p).issues == p.issues
  {
    if order != [] {
      var init := order[..|order| - 1];
      var q := Modules(root, env, modules, init, checkers, collect, p);
      ModulesKeep(root, env, modules, init, checkers, collect, p);
      var moduleName := order[|order| - 1];
      if !q.halted && moduleName !in q.analyzed {
        var deps := DependencyPass(root, modules[moduleName], env.dependencies, q.analyzed);
        if deps.Ok? {
          CheckerPassKeeps(checkers, |checkers|, CallFor(env, modules[moduleName], deps.value.other, collect), collect, q.(analyzed := deps.value.analyzed));
        }
      }
    }
  }

  /** A scan that prints, or that streams, collects no issue. */
  lemma ScanKeeps(env: Environment, parser: BuildFileParser, order: seq<string>, checkers: seq<Checker>, collect: bool)
    requires ParsedOrder(env, parser, order) && (!collect || env.printOut)
    ensures ScanRun(env, parser, order, checkers, collect).issues == []
  {
    if env.source != [] && parser(env.source[0]).Ok? {
      ModulesKeep(env.source[0], env, parser(env.source[0]).value, order, checkers, collect, Progress([], [], [], false));
    }
  }

  // ------------------------------------------------------ the calls

  /** Every checker call is a `DIR` call with the environment's settings, and passes a stream writer exactly when streaming. */
  predicate CallsFrom(events: seq<Event>, env: Environment, collect: bool, checkers: seq<Checker>) {
    forall i :: 0 <= i < |events| && events[i].Checked? ==>
      && events[i].checker < |checkers|
      && events[i].call.engine == Dir
      && events[i].call.printOut == env.printOut
      && events[i].call.sourcePaths == env.sourcePaths
      && events[i].call.toStream == !collect
  }

  lemma CallsFromAppend(xs: seq<Event>, ys: seq<Event>, env: Environment, collect: bool, checkers: seq<Checker>)
    requires CallsFrom(xs, env, collect, checkers) && CallsFrom(ys, env, collect, checkers)
    ensures CallsFrom(xs + ys, env, collect, checkers)
  {
    forall i | 0 <= i < |xs + ys| && (xs + ys)[i].Checked?
      ensures (xs + ys)[i].checker < |checkers| && (xs + ys)[i].call.toStream == !collect
    {
      if i >= |xs| {
        assert (xs + ys)[i] == ys[i - |xs|];
      }
    }
  }

  lemma CheckerCallsFrom(n: nat, env: Environment, sources: seq<string>, other: seq<string>, collect: bool, checkers: seq<Checker>)
    requires n <= |checkers|
    ensures CallsFrom(CheckerEvents(n, CallFor(env, sources, other, collect)), env, collect, checkers)
  {
    CheckerEventsSpec(n, CallFor(env, sources, other, collect));
  }

  lemma VisitCallsFrom(root: string, env: Environment, modules: map<string, seq<string>>, moduleName: string,
                       checkers: seq<Checker>, collect: bool, p: Progress)
    requires moduleName in modules && CallsFrom(p.events, env, collect, checkers)
    ensures CallsFrom(Visit(root, env, modules, moduleName, checkers, collect, p).events, env, collect, checkers)
  {
    if !p.halted && moduleName !in p.analyzed {
      var deps := DependencyPass(root, modules[moduleName], env.dependencies, p.analyzed);
      if deps.Ok? {
        VisitEvents(root, env, modules, moduleName, checkers, collect, p);
        var q := Visit(root, env, modules, moduleName, checkers, collect, p);
        var call := CallFor(env, modules[moduleName], deps.value.other, collect);
        if q.halted {
          var k :| 0 <= k < |checkers| && q.events == p.events + CheckerEvents(k + 1, call);
          CheckerCallsFrom(k + 1, env, modules[moduleName], deps.value.other, collect, checkers);
          CallsFromAppend(p.events, CheckerEvents(k + 1, call), env, collect, checkers);
        } else {
          CheckerCallsFrom(|checkers|, env, modules[moduleName], deps.value.other, collect, checkers);
          CallsFromAppend(p.events, CheckerEvents(|checkers|, call), env, collect, checkers);
          CallsFromAppend(p.events + CheckerEvents(|checkers|, call), Resets, env, collect, checkers);
        }
      }
    }
  }

  lemma {:induction false} ModulesCallsFrom(root: string, env: Environment, modules: map<string, seq<string>>, order: seq<string>,
                                            checkers: seq<Checker>, collect: bool, p: Progress)
    requires ModulesIn(order, modules) && CallsFrom(p.events, env, collect, checkers)
    ensures CallsFrom(Modules(root, env, modules, order, checkers, collect, p).events, env, collect, checkers)
  {
    if order != [] {
      ModulesCallsFrom(root, env, modules, order[..|order| - 1], checkers, collect, p);
      VisitCallsFrom(root, env, modules, order[|order| - 1], checkers, collect, Modules(root, env, modules, order[..|order| - 1], checkers, collect, p));
    }
  }

  /** Every checker call of a scan has the engine's fixed arguments; a streaming scan passes the writer to each. */
  lemma ScanCallsFrom(env: Environment, parser: BuildFileParser, order: seq<string>, checkers: seq<Checker>, collect: bool)
    requires ParsedOrder(env, parser, order)
    ensures CallsFrom(ScanRun(env, parser, order, checkers, collect).events, env, collect, checkers)
  {
    if env.source != [] && parser(env.source[0]).Ok? {
      ModulesCallsFrom(env.source[0], env, parser(env.source[0]).value, order, checkers, collect, Progress([], [], [], false));
    }
  }

  // ------------------------------------------------------- the engine

  /** The record of the engine's effects on the world outside it. */
  class Trace {
    var events: seq<Event>

    constructor ()
      ensures events == []
    {
      events := [];
    }

    method Emit(e: Event)
      modifies this
      ensures events == old(events) + [e]
    {
      events := events + [e];
    }
  }

  /** The dependency loop of one module. */
  method DependencyLoop(root: string, dependencies: seq<string>, global: Option<seq<string>>, analyzedModules: seq<string>)
    returns (r: Result<Dependencies>)
    ensures r == DependencyPass(root, dependencies, global, analyzedModules)
  {
    var analyzed := analyzedModules;
    var other := [];
    var j := 0;
    while j < |dependencies|
      invariant 0 <= j <= |dependencies|
      invariant DependencyPass(root, dependencies[..j], global, analyzedModules) == Ok(Dependencies(analyzed, other))
    {
      assert dependencies[..j + 1][..j] == dependencies[..j];
      var dependencyModule := DependencyModuleName(root, dependencies[j]);
      if dependencyModule.Thrown? {
        r := Thrown(dependencyModule.exception);
        DependencyPassThrownPrefix(root, dependencies, global, analyzedModules, j + 1);
        return;
      }
      if global.None? {
        r := Thrown(NullPointer);
        DependencyPassThrownPrefix(root, dependencies, global, analyzedModules, j + 1);
        return;
      }
      other := other + global.value;
      analyzed := analyzed + [dependencyModule.value];
      j := j + 1;
    }
    assert dependencies[..j] == dependencies;
    r := Ok(Dependencies(analyzed, other));
  }

  /** The checker loop of one module, recording each call in `trace`. */
  method CheckerLoop(checkers: seq<Checker>, call: Invocation, collect: bool, trace: Trace,
                     issues: seq<AnalysisIssue>, ghost base: seq<Event>, ghost p: Progress)
    returns (halted: bool, issuesOut: seq<AnalysisIssue>)
    requires !p.halted && p.issues == issues && trace.events == base + p.events
    modifies trace
    ensures var q := CheckerPass(checkers, |checkers|, call, collect, p);
      halted == q.halted && issuesOut == q.issues && trace.events == base + q.events
  {
    halted := false;
    issuesOut := issues;
    var i := 0;
    while i < |checkers|
      invariant 0 <= i <= |checkers|
      invariant var q := CheckerPass(checkers, i, call, collect, p);
        !q.halted && issuesOut == q.issues && trace.events == base + q.events
    {
      ghost var q := CheckerPass(checkers, i, call, collect, p);
      trace.Emit(Checked(i, call));
      assert trace.events == base + (q.events + [Checked(i, call)]);
      var tempIssues := checkers[i](call);
      if tempIssues.Thrown? {
        halted := true;
        CheckerPassHaltedFrom(checkers, i + 1, call, collect, p);
        return;
      }
      if collect && !call.printOut {
        if tempIssues.value.None? {
          halted := true;
          CheckerPassHaltedFrom(checkers, i + 1, call, collect, p);
          return;
        }
        issuesOut := issuesOut + tempIssues.value.value;
      }
      i := i + 1;
    }
  }

  /** One iteration of the module loop. */
  method VisitModule(root: string, env: Environment, modules: map<string, seq<string>>, moduleName: string,
                     checkers: seq<Checker>, collect: bool, trace: Trace,
                     analyzed: seq<string>, issues: seq<AnalysisIssue>, ghost base: seq<Event>, ghost p: Progress)
    returns (halted: bool, analyzedOut: seq<string>, issuesOut: seq<AnalysisIssue>)
    requires moduleName in modules && !p.halted && p.analyzed == analyzed && p.issues == issues
    requires trace.events == base + p.events
    modifies trace
    ensures var q := Visit(root, env, modules, moduleName, checkers, collect, p);
      halted == q.halted && analyzedOut == q.analyzed && issuesOut == q.issues && trace.events == base + q.events
  {
    if moduleName in analyzed {
      return false, analyzed, issues;
    }
    var dependencies := modules[moduleName];
    var deps := DependencyLoop(root, dependencies, env.dependencies, analyzed);
    if deps.Thrown? {
      return true, analyzed, issues;
    }
    analyzedOut := deps.value.analyzed;
    var call := Invocation(Dir, dependencies, deps.value.other, env.printOut, env.sourcePaths, !collect);
    ghost var q := CheckerPass(checkers, |checkers|, call, collect, p.(analyzed := analyzedOut));
    CheckerPassAnalyzed(checkers, |checkers|, call, collect, p.(analyzed := analyzedOut));
    halted, issuesOut := CheckerLoop(checkers, call, collect, trace, issues, base, p.(analyzed := analyzedOut));
    if !halted {
      trace.Emit(ClearCallerCalleeGraph);
      trace.Emit(ResetFieldInitializationMap);
      assert trace.events == base + (q.events + Resets);
    }
  }

  /** The try block shared by both scans; `collect` says whether checker results are gathered. */
  method ScanProject(env: Environment, parser: BuildFileParser, order: seq<string>, checkers: seq<Checker>,
                     collect: bool, trace: Trace, ghost base: seq<Event>)
    returns (issues: seq<AnalysisIssue>)
    requires trace.events == base && ParsedOrder(env, parser, order)
    modifies trace
    ensures var run := ScanRun(env, parser, order, checkers, collect);
      issues == run.issues && trace.events == base + run.events
  {
    issues := [];
    if |env.source| == 0 {
      return;
    }
    var root := env.source[0];
    var parsed := parser(root);
    if parsed.Thrown? {
      return;
    }
    var modules := parsed.value;
    ghost var start := Progress([], [], [], false);
    var analyzed := [];
    var j := 0;
    while j < |order|
      invariant 0 <= j <= |order| && ModulesIn(order[..j], modules)
      invariant var p := Modules(root, env, modules, order[..j], checkers, collect, start);
        !p.halted && p.analyzed == analyzed && p.issues == issues && trace.events == base + p.events
    {
      ModulesStep(root, env, modules, order, checkers, collect, start, j);
      ghost var p := Modules(root, env, modules, order[..j], checkers, collect, start);
      var halted;
      halted, analyzed, issues := VisitModule(root, env, modules, order[j], checkers, collect, trace, analyzed, issues, base, p);
      if halted {
        ModulesHaltedPrefix(root, env, modules, order, checkers, collect, start, j + 1);
        return;
      }
      j := j + 1;
    }
    assert order[..j] == order;
  }

  /**
   * `NonStreamScan`: no list when printing, otherwise the checkers' results
   * in call order; the analysis is started first and stopped last, whether
   * or not the scan threw.
   */
  method NonStreamScan(env: Environment, parser: BuildFileParser, order: seq<string>, checkers: seq<Checker>, trace: Trace)
    returns (issues: Option<seq<AnalysisIssue>>)
    requires ModuleOrder(env, parser, order)
    modifies trace
    ensures ParsedOrder(env, parser, order)
    ensures trace.events == old(trace.events) + [StartAnalysis] + ScanRun(env, parser, order, checkers, true).events + [StopAnalysis]
    ensures issues.None? <==> env.printOut
    ensures issues.Some? ==> issues.value == Collected(ScanRun(env, parser, order, checkers, true).events, checkers)
  {
    OrderCoversModules(env, parser, order);
    trace.Emit(StartAnalysis);
    var found := ScanProject(env, parser, order, checkers, true, trace, trace.events);
    trace.Emit(StopAnalysis);
    if env.printOut {
      issues := None;
    } else {
      ScanCollects(env, parser, order, checkers);
      issues := Some(found);
    }
  }

  /** `StreamScan`: the same scan with a stream writer passed to every checker, returning nothing. */
  method StreamScan(env: Environment, parser: BuildFileParser, order: seq<string>, checkers: seq<Checker>, trace: Trace)
    requires ModuleOrder(env, parser, order)
    modifies trace
    ensures ParsedOrder(env, parser, order)
    ensures trace.events == old(trace.events) + [StartAnalysis] + ScanRun(env, parser, order, checkers, false).events + [StopAnalysis]
  {
    OrderCoversModules(env, parser, order);
    trace.Emit(StartAnalysis);
    var _ := ScanProject(env, parser, order, checkers, false, trace, trace.events);
    trace.Emit(StopAnalysis);
  }
}
