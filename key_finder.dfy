/**
 * Rule 5 of Cryptoguard, `DefaultExportGradeKeyFinder`: a `KeyPairGenerator`
 * obtained with `getInstance` whose forward slice never reaches `initialize(`
 * uses the provider's default key size. The slicer and the Soot scene are
 * parameters; the rule's own filtering, call-site bookkeeping and routing of
 * findings are modelled step by step.
 */
module ExportGradeKey {
  import opened Wrappers
  import opened JavaStrings
  import opened Findings

  // ------------------------------------------------------------ inputs

  /** A Jimple unit of a slice: its text (`unit.toString()`) and its source line. */
  datatype Unit = Unit(text: string, line: int)

  /** What the slicer reports for one method: the line of the call site and the influenced units. */
  datatype SlicingResult = SlicingResult(callSiteLine: int, analysisResult: seq<Unit>)

  /** A method of a loaded class: its Soot signature and whether it has a body. */
  datatype SootMethod = SootMethod(signature: string, isConcrete: bool)

  /** The forward slicer for a criterion and a concrete method; `None` when it finds nothing. */
  type Slicer = (string, SootMethod) -> Option<SlicingResult>

  /** The three `getInstance` signatures that start a slice, in the order they are processed. */
  const SlicingCriteria: seq<string> := [
    "<java.security.KeyPairGenerator: java.security.KeyPairGenerator getInstance(java.lang.String)>",
    "<java.security.KeyPairGenerator: java.security.KeyPairGenerator getInstance(java.lang.String,java.lang.String)>",
    "<java.security.KeyPairGenerator: java.security.KeyPairGenerator getInstance(java.lang.String,java.security.Provider)>"
  ]

  /** A unit calling this sets the key size explicitly. */
  const MethodToFind: string := "<java.security.KeyPairGenerator: void initialize("

  const RuleId: int := 5
  const Cause: string := "Cause: Used default key size"
  const Banner: string := "======================================="

  // ------------------------------------------------------ forward slice

  /** `getInfluencingInstructions`: only a concrete method is sliced. */
  function InfluencingInstructions(criterion: string, m: SootMethod, slicer: Slicer): (r: Option<SlicingResult>)
    ensures !m.isConcrete ==> r == None
    ensures m.isConcrete ==> r == slicer(criterion, m)
  {
    if m.isConcrete then slicer(criterion, m) else None
  }

  /** The key a slice is filed under: the method signature with the call-site line in brackets. */
  function MethodKey(signature: string, line: int): string {
    signature + "[" + IntToString(line) + "]"
  }

  /** The methods of the named classes, class by class, each class's methods in order. */
  function AllMethods(classNames: seq<string>, methodsOf: string -> seq<SootMethod>): seq<SootMethod> {
    if classNames == [] then []
    else AllMethods(classNames[..|classNames| - 1], methodsOf) + methodsOf(classNames[|classNames| - 1])
  }

  /** The slice map after `put` for each method in turn; a later method with the same key overwrites. */
  function PutSlices(m: map<string, seq<Unit>>, methods: seq<SootMethod>, criterion: string, slicer: Slicer): map<string, seq<Unit>> {
    if methods == [] then m
    else
      var before := PutSlices(m, methods[..|methods| - 1], criterion, slicer);
      var last := methods[|methods| - 1];
      match InfluencingInstructions(criterion, last, slicer)
      case None => before
      case Some(res) => before[MethodKey(last.signature, res.callSiteLine) := res.analysisResult]
  }

  /** The map `getForwardSlice(classNames, criterion)` returns. */
  function ForwardSliceOf(classNames: seq<string>, criterion: string, methodsOf: string -> seq<SootMethod>, slicer: Slicer): map<string, seq<Unit>> {
    PutSlices(map[], AllMethods(classNames, methodsOf), criterion, slicer)
  }

  /** Method `m` is sliced and filed under `key`. */
  predicate FiledUnder(criterion: string, m: SootMethod, slicer: Slicer, key: string) {
    var r := InfluencingInstructions(criterion, m, slicer);
    r.Some? && MethodKey(m.signature, r.value.callSiteLine) == key
  }

  /** Whether some method of `methods` is filed under `key`. */
  predicate SomeFiledUnder(methods: seq<SootMethod>, criterion: string, slicer: Slicer, key: string) {
    exists j :: 0 <= j < |methods| && FiledUnder(criterion, methods[j], slicer, key)
  }

  lemma SomeFiledUnderSnoc(methods: seq<SootMethod>, criterion: string, slicer: Slicer, key: string)
    requires methods != []
    ensures SomeFiledUnder(methods, criterion, slicer, key) <==>
      SomeFiledUnder(methods[..|methods| - 1], criterion, slicer, key)
      || FiledUnder(criterion, methods[|methods| - 1], slicer, key)
  {
    var init := methods[..|methods| - 1];
    if SomeFiledUnder(methods, criterion, slicer, key) {
      var j :| 0 <= j < |methods| && FiledUnder(criterion, methods[j], slicer, key);
      SomeFiledUnderWitness(methods, criterion, slicer, key, j);
    }
    if SomeFiledUnder(init, criterion, slicer, key) {
      var j :| 0 <= j < |init| && FiledUnder(criterion, init[j], slicer, key);
      assert methods[j] == init[j];
    }
    if FiledUnder(criterion, methods[|methods| - 1], slicer, key) {
      assert 0 <= |methods| - 1 < |methods|;
    }
  }

  lemma SomeFiledUnderWitness(methods: seq<SootMethod>, criterion: string, slicer: Slicer, key: string, j: nat)
    requires j < |methods| && FiledUnder(criterion, methods[j], slicer, key)
    ensures SomeFiledUnder(methods[..|methods| - 1], criterion, slicer, key) || FiledUnder(criterion, methods[|methods| - 1], slicer, key)
  {
    if j < |methods| - 1 {
      assert methods[..|methods| - 1][j] == methods[j];
    }
  }

  /** A key is in the map exactly when it was there before or some method is filed under it. */
  lemma {:induction false} PutSlicesKeys(m: map<string, seq<Unit>>, methods: seq<SootMethod>, criterion: string, slicer: Slicer, key: string)
    ensures key in PutSlices(m, methods, criterion, slicer) <==> key in m || SomeFiledUnder(methods, criterion, slicer, key)
  {
    if methods != [] {
      PutSlicesKeys(m, methods[..|methods| - 1], criterion, slicer, key);
      SomeFiledUnderSnoc(methods, criterion, slicer, key);
    }
  }

  /**
   * The keys of the forward slice are exactly the keys of the concrete methods
   * the slicer finds something in; an abstract method never gets an entry.
   */
  lemma ForwardSliceKeys(classNames: seq<string>, criterion: string, methodsOf: string -> seq<SootMethod>, slicer: Slicer, key: string)
    ensures key in ForwardSliceOf(classNames, criterion, methodsOf, slicer) <==>
      SomeFiledUnder(AllMethods(classNames, methodsOf), criterion, slicer, key)
  {
    PutSlicesKeys(map[], AllMethods(classNames, methodsOf), criterion, slicer, key);
  }

  lemma PutSlicesAppend(m: map<string, seq<Unit>>, xs: seq<SootMethod>, ys: seq<SootMethod>, criterion: string, slicer: Slicer)
    ensures PutSlices(m, xs + ys, criterion, slicer) == PutSlices(PutSlices(m, xs, criterion, slicer), ys, criterion, slicer)
  {
    if ys != [] {
      assert (xs + ys)[..|xs + ys| - 1] == xs + ys[..|ys| - 1];
      PutSlicesAppend(m, xs, ys[..|ys| - 1], criterion, slicer);
    } else {
      assert xs + ys == xs;
    }
  }

  /** A method key contains a `[`, and when the signature has none, the first `[` is the one before the line. */
  lemma MethodKeyBracket(signature: string, line: int)
    ensures 0 <= IndexOf(MethodKey(signature, line), '[') <= |signature|
    ensures '[' !in signature ==> IndexOf(MethodKey(signature, line), '[') == |signature|
  {
    if '[' in signature {
      BracketedCutLeft(signature, IntToString(line));
    } else {
      BracketedCutRight(signature, IntToString(line));
    }
  }

  /** `getInfluencingInstructions` gives null for an abstract method, so it is filed under no key. */
  lemma AbstractMethodNeverFiled(criterion: string, m: SootMethod, slicer: Slicer, key: string)
    requires !m.isConcrete
    ensures !FiledUnder(criterion, m, slicer, key)
  {
  }

  /** Putting the result of an abstract method leaves the slice map as it was. */
  lemma PutSlicesSkipsAbstract(m: map<string, seq<Unit>>, methods: seq<SootMethod>, a: SootMethod, criterion: string, slicer: Slicer)
    requires !a.isConcrete
    ensures PutSlices(m, methods + [a], criterion, slicer) == PutSlices(m, methods, criterion, slicer)
  {
    assert (methods + [a])[..|methods + [a]| - 1] == methods;
  }

  /**
   * The keys of the forward slice, stated through the guard: a key is present
   * exactly when some concrete method gets a slicing result filed under it.
   */
  lemma ForwardSliceConcreteKeys(classNames: seq<string>, criterion: string, methodsOf: string -> seq<SootMethod>, slicer: Slicer, key: string)
    ensures var ms := AllMethods(classNames, methodsOf);
      key in ForwardSliceOf(classNames, criterion, methodsOf, slicer) <==>
      exists j :: 0 <= j < |ms| && ms[j].isConcrete && slicer(criterion, ms[j]).Some?
        && MethodKey(ms[j].signature, slicer(criterion, ms[j]).value.callSiteLine) == key
  {
    ForwardSliceKeys(classNames, criterion, methodsOf, slicer, key);
  }



  /** Putting one more method's slice extends the map of the methods before it. */
  lemma PutSlicesStep(m: map<string, seq<Unit>>, methods: seq<SootMethod>, j: nat, criterion: string, slicer: Slicer, r: map<string, seq<Unit>>)
    requires j < |methods| && r == PutSlices(m, methods[..j], criterion, slicer)
    ensures PutSlices(m, methods[..j + 1], criterion, slicer)
      == match InfluencingInstructions(criterion, methods[j], slicer)
         case None => r
         case Some(res) => r[MethodKey(methods[j].signature, res.callSiteLine) := res.analysisResult]
  {
    assert methods[..j + 1][..j] == methods[..j];
  }

  /** The methods of one more class come after those of the classes before it. */
  lemma AllMethodsStep(classNames: seq<string>, i: nat, methodsOf: string -> seq<SootMethod>, criterion: string, slicer: Slicer, r: map<string, seq<Unit>>)
    requires i < |classNames| && r == PutSlices(map[], AllMethods(classNames[..i], methodsOf), criterion, slicer)
    ensures PutSlices(map[], AllMethods(classNames[..i + 1], methodsOf), criterion, slicer)
      == PutSlices(r, methodsOf(classNames[i]), criterion, slicer)
  {
    assert classNames[..i + 1][..i] == classNames[..i];
    PutSlicesAppend(map[], AllMethods(classNames[..i], methodsOf), methodsOf(classNames[i]), criterion, slicer);
  }

  /** The inner loop of `getForwardSlice`: one class's methods, each slice put into the map. */
  method SliceMethods(m: map<string, seq<Unit>>, methods: seq<SootMethod>, criterion: string, slicer: Slicer)
    returns (analysisListMap: map<string, seq<Unit>>)
    ensures analysisListMap == PutSlices(m, methods, criterion, slicer)
  {
    analysisListMap := m;
    var j := 0;
    assert methods[..0] == [];
    while j < |methods|
      invariant 0 <= j <= |methods|
      invariant analysisListMap == PutSlices(m, methods[..j], criterion, slicer)
    {
      PutSlicesStep(m, methods, j, criterion, slicer, analysisListMap);
      var sootMethod := methods[j];
      var slicingResult := InfluencingInstructions(criterion, sootMethod, slicer);
      if slicingResult.Some? {
        analysisListMap := analysisListMap[MethodKey(sootMethod.signature, slicingResult.value.callSiteLine) := slicingResult.value.analysisResult];
      }
      j := j + 1;
    }
    assert methods[..j] == methods;
  }

  /** `getForwardSlice`: every method of every class, in order, through the concrete guard. */
  method ForwardSlice(classNames: seq<string>, criterion: string, methodsOf: string -> seq<SootMethod>, slicer: Slicer)
    returns (analysisListMap: map<string, seq<Unit>>)
    ensures analysisListMap == ForwardSliceOf(classNames, criterion, methodsOf, slicer)
  {
    analysisListMap := map[];
    var i := 0;
    while i < |classNames|
      invariant 0 <= i <= |classNames|
      invariant analysisListMap == PutSlices(map[], AllMethods(classNames[..i], methodsOf), criterion, slicer)
    {
      AllMethodsStep(classNames, i, methodsOf, criterion, slicer, analysisListMap);
      analysisListMap := SliceMethods(analysisListMap, methodsOf(classNames[i]), criterion, slicer);
      i := i + 1;
    }
    assert classNames[..i] == classNames;
  }

  // ------------------------------------------------------- one method

  /** The first unit that calls `initialize(`: where the unit loop breaks. */
  function FirstInitialize(units: seq<Unit>): (r: Option<nat>)
    ensures r.Some? ==> r.value < |units|
  {
    if units == [] then None
    else if Contains(units[0].text, MethodToFind) then Some(0)
    else match FirstInitialize(units[1..])
      case None => None
      case Some(i) => Some(i + 1)
  }

  /** The index found calls `initialize(` and no unit before it does; none is found only when no unit does. */
  lemma {:induction false} FirstInitializeSpec(units: seq<Unit>)
    ensures var r := FirstInitialize(units);
      r.Some? ==> (Contains(units[r.value].text, MethodToFind) && forall i :: 0 <= i < r.value ==> !Contains(units[i].text, MethodToFind))
    ensures FirstInitialize(units).None? <==> forall i :: 0 <= i < |units| ==> !Contains(units[i].text, MethodToFind)
  {
    if units != [] && !Contains(units[0].text, MethodToFind) {
      FirstInitializeSpec(units[1..]);
      assert forall i :: 1 <= i < |units| ==> units[i] == units[1..][i - 1];
    }
  }

  /**
   * The recorded call site: the key up to its first `[`, then the line of the
   * `initialize(` unit in brackets. `substring(0, -1)` throws when the key has no `[`.
   */
  function CallSiteOf(key: string, line: int): (r: Result<string>)
    ensures r.Thrown? <==> '[' !in key
  {
    var bracket := IndexOf(key, '[');
    if bracket < 0 then Thrown(IndexOutOfBounds)
    else Ok(key[..bracket] + "[" + IntToString(line) + "]")
  }

  /**
   * The unit loop with its `break`: the call site of the first unit that calls
   * `initialize(`, or the exception computing it throws; `None` when no unit does.
   */
  method ScanUnits(key: string, analysis: seq<Unit>) returns (site: Option<Result<string>>)
    ensures site.None? <==> FirstInitialize(analysis).None?
    ensures site.Some? ==> site.value == CallSiteOf(key, analysis[FirstInitialize(analysis).value].line)
  {
    FirstInitializeSpec(analysis);
    var u := 0;
    while u < |analysis|
      invariant 0 <= u <= |analysis|
      invariant forall i :: 0 <= i < u ==> !Contains(analysis[i].text, MethodToFind)
    {
      if Contains(analysis[u].text, MethodToFind) {
        var bracket := IndexOf(key, '[');
        if bracket < 0 {
          return Some(Thrown(IndexOutOfBounds));
        }
        var containingMethod := key[..bracket];
        return Some(Ok(containingMethod + "[" + IntToString(analysis[u].line) + "]"));
      }
      u := u + 1;
    }
    return None;
  }

  /**
   * For a signature without `[` the call site is the method key with the slice's
   * line replaced by the `initialize(` line; a signature with an array type is
   * cut at its first `[`.
   */
  lemma CallSiteOfMethodKey(signature: string, sliceLine: int, line: int)
    ensures '[' !in signature ==> CallSiteOf(MethodKey(signature, sliceLine), line) == Ok(MethodKey(signature, line))
    ensures '[' in signature ==>
      CallSiteOf(MethodKey(signature, sliceLine), line) == Ok(MethodKey(signature[..IndexOf(signature, '[')], line))
  {
    if '[' in signature {
      CallSiteCutAtBracket(signature, sliceLine, line);
    } else {
      CallSiteReplacesLine(signature, sliceLine, line);
    }
  }

  lemma CallSiteReplacesLine(signature: string, sliceLine: int, line: int)
    requires '[' !in signature
    ensures CallSiteOf(MethodKey(signature, sliceLine), line) == Ok(MethodKey(signature, line))
  {
    BracketedCutRight(signature, IntToString(sliceLine));
  }

  lemma CallSiteCutAtBracket(signature: string, sliceLine: int, line: int)
    requires '[' in signature
    ensures CallSiteOf(MethodKey(signature, sliceLine), line) == Ok(MethodKey(signature[..IndexOf(signature, '[')], line))
  {
    BracketedCutLeft(signature, IntToString(sliceLine));
  }

  /** In `s[x]` with a `[` already in `s`, the first `[` is that of `s`. */
  lemma BracketedCutLeft(s: string, x: string)
    requires '[' in s
    ensures IndexOf(s + "[" + x + "]", '[') == IndexOf(s, '[')
    ensures (s + "[" + x + "]")[..IndexOf(s, '[')] == s[..IndexOf(s, '[')]
  {
    assert s + "[" + x + "]" == s + ("[" + x + "]");
    IndexOfAppendLeft(s, "[" + x + "]", '[', IndexOf(s, '['));
  }

  /** In `s[x]` with no `[` in `s`, the first `[` is the one after `s`. */
  lemma BracketedCutRight(s: string, x: string)
    requires '[' !in s
    ensures IndexOf(s + "[" + x + "]", '[') == |s|
    ensures (s + "[" + x + "]")[..|s|] == s
  {
    var rest := "[" + x + "]";
    assert s + "[" + x + "]" == s + rest;
    assert rest[0] == '[';
    IndexOfAppendRight(s, rest, '[', 0);
  }




  /** What the rule makes of one method key and its slice. */
  datatype Verdict =
    | NotLookedFor              // the key is not in `methodsToLook.toString()`
    | EmptySlice                // nothing is influenced by the criterion
    | Initialized(callSite: string)  // an `initialize(` unit was found
    | SecureByDefault           // no `initialize(`, but the default is taken as secure
    | DefaultKeySize            // a rule-5 violation
    | Failed(exception: JavaException)

  function Judge(methodsToLook: Option<seq<string>>, defaultSecure: bool, key: string, units: seq<Unit>): Verdict {
    if methodsToLook.None? then Failed(NullPointer)
    else if !Contains(ListToString(methodsToLook.value), key) then NotLookedFor
    else if units == [] then EmptySlice
    else match FirstInitialize(units)
      case Some(i) => (
        match CallSiteOf(key, units[i].line)
        case Ok(site) => Initialized(site)
        case Thrown(e) => Failed(e))
      case None => if defaultSecure then SecureByDefault else DefaultKeySize
  }

  /**
   * A method is reported exactly when it is looked for, its slice is non-empty,
   * no unit of the slice calls `initialize(` and the default is not secure.
   */
  lemma JudgeDefaultKeySize(methodsToLook: Option<seq<string>>, defaultSecure: bool, key: string, units: seq<Unit>)
    ensures Judge(methodsToLook, defaultSecure, key, units) == DefaultKeySize <==>
      methodsToLook.Some? && Contains(ListToString(methodsToLook.value), key) && units != []
      && (forall i :: 0 <= i < |units| ==> !Contains(units[i].text, MethodToFind)) && !defaultSecure
  {
    FirstInitializeSpec(units);
  }

  /** The first `initialize(` unit decides the one call site, and the method is not reported. */
  lemma JudgeInitialized(methodsToLook: seq<string>, defaultSecure: bool, key: string, units: seq<Unit>, i: nat)
    requires Contains(ListToString(methodsToLook), key) && '[' in key
    requires i < |units| && Contains(units[i].text, MethodToFind)
    requires forall k :: 0 <= k < i ==> !Contains(units[k].text, MethodToFind)
    ensures Judge(Some(methodsToLook), defaultSecure, key, units)
         == Initialized(key[..IndexOf(key, '[')] + "[" + IntToString(units[i].line) + "]")
  {
    FirstInitializeSpec(units);
    var r := FirstInitialize(units);
    assert r.Some?;
    assert r.value == i;
  }

  // ------------------------------------------------------- the whole scan

  /** A method key with its slice, as the rule visits them. */
  type Entry = (string, seq<Unit>)

  /**
   * The rule's effect so far: call sites recorded, keys reported, and the
   * exception that ended the scan, if one did.
   */
  datatype Tally = Tally(callSites: seq<string>, violations: seq<string>, thrown: Option<JavaException>)

  const NoTally: Tally := Tally([], [], None)

  /** One verdict applied to the tally; nothing happens after an exception. */
  function Record(t: Tally, key: string, v: Verdict): Tally {
    if t.thrown.Some? then t
    else match v
      case Initialized(site) => t.(callSites := t.callSites + [site])
      case DefaultKeySize => t.(violations := t.violations + [key])
      case Failed(e) => t.(thrown := Some(e))
      case _ => t
  }

  function Scan(t: Tally, entries: seq<Entry>, methodsToLook: Option<seq<string>>, defaultSecure: bool): Tally {
    if entries == [] then t
    else
      var e := entries[|entries| - 1];
      Record(Scan(t, entries[..|entries| - 1], methodsToLook, defaultSecure), e.0, Judge(methodsToLook, defaultSecure, e.0, e.1))
  }

  /** One method adds a call site or a finding, never both, and only before an exception. */
  lemma RecordOneMethod(t: Tally, methodsToLook: Option<seq<string>>, defaultSecure: bool, key: string, units: seq<Unit>)
    ensures var t' := Record(t, key, Judge(methodsToLook, defaultSecure, key, units));
      t'.callSites == t.callSites || t'.violations == t.violations
    ensures var t' := Record(t, key, Judge(methodsToLook, defaultSecure, key, units));
      t.thrown.Some? ==> t' == t
    ensures var t' := Record(t, key, Judge(methodsToLook, defaultSecure, key, units));
      t.thrown.None? && methodsToLook.Some? && (!Contains(ListToString(methodsToLook.value), key) || units == []) ==> t' == t
  {
  }

  /** Visiting `xs` then `ys` is visiting `xs + ys`: process order is list order. */
  lemma {:induction false} ScanAppend(t: Tally, xs: seq<Entry>, ys: seq<Entry>, methodsToLook: Option<seq<string>>, defaultSecure: bool)
    ensures Scan(t, xs + ys, methodsToLook, defaultSecure) == Scan(Scan(t, xs, methodsToLook, defaultSecure), ys, methodsToLook, defaultSecure)
  {
    if ys != [] {
      assert (xs + ys)[..|xs + ys| - 1] == xs + ys[..|ys| - 1];
      ScanAppend(t, xs, ys[..|ys| - 1], methodsToLook, defaultSecure);
    } else {
      assert xs + ys == xs;
    }
  }

  /** After an exception, the remaining entries change nothing. */
  lemma {:induction false} ScanAfterThrow(t: Tally, entries: seq<Entry>, methodsToLook: Option<seq<string>>, defaultSecure: bool)
    requires t.thrown.Some?
    ensures Scan(t, entries, methodsToLook, defaultSecure) == t
  {
    if entries != [] {
      ScanAfterThrow(t, entries[..|entries| - 1], methodsToLook, defaultSecure);
    }
  }

  /** Once a prefix has thrown, the whole scan ends as that prefix did. */
  lemma ScanPrefixThrown(t: Tally, xs: seq<Entry>, ys: seq<Entry>, methodsToLook: Option<seq<string>>, defaultSecure: bool)
    requires xs <= ys
    requires Scan(t, xs, methodsToLook, defaultSecure).thrown.Some?
    ensures Scan(t, ys, methodsToLook, defaultSecure) == Scan(t, xs, methodsToLook, defaultSecure)
  {
    assert ys == xs + ys[|xs|..];
    ScanAppend(t, xs, ys[|xs|..], methodsToLook, defaultSecure);
    ScanAfterThrow(Scan(t, xs, methodsToLook, defaultSecure), ys[|xs|..], methodsToLook, defaultSecure);
  }

  /** A `null` `methodsToLook` throws at the first key, before anything is recorded. */
  lemma {:induction false} ScanNullMethodsToLook(entries: seq<Entry>, defaultSecure: bool)
    requires entries != []
    ensures Scan(NoTally, entries, None, defaultSecure) == Tally([], [], Some(NullPointer))
  {
    if |entries| > 1 {
      ScanNullMethodsToLook(entries[..|entries| - 1], defaultSecure);
    }
  }

  /** With keys that all contain `[`, the scan completes when `methodsToLook` is set. */
  lemma {:induction false} ScanCompletes(t: Tally, entries: seq<Entry>, methodsToLook: seq<string>, defaultSecure: bool)
    requires t.thrown.None?
    requires forall i :: 0 <= i < |entries| ==> '[' in entries[i].0
    ensures Scan(t, entries, Some(methodsToLook), defaultSecure).thrown.None?
  {
    if entries != [] {
      ScanCompletes(t, entries[..|entries| - 1], methodsToLook, defaultSecure);
    }
  }

  /** Whether the entry at some position has key `key` and is a violation. */
  predicate ReportedAt(entries: seq<Entry>, methodsToLook: Option<seq<string>>, defaultSecure: bool, key: string) {
    exists i :: 0 <= i < |entries| && entries[i].0 == key && Judge(methodsToLook, defaultSecure, key, entries[i].1) == DefaultKeySize
  }

  lemma ReportedAtSnoc(entries: seq<Entry>, methodsToLook: Option<seq<string>>, defaultSecure: bool, key: string)
    requires entries != []
    ensures ReportedAt(entries, methodsToLook, defaultSecure, key) <==>
      ReportedAt(entries[..|entries| - 1], methodsToLook, defaultSecure, key)
      || (entries[|entries| - 1].0 == key && Judge(methodsToLook, defaultSecure, key, entries[|entries| - 1].1) == DefaultKeySize)
  {
    var init := entries[..|entries| - 1];
    if ReportedAt(entries, methodsToLook, defaultSecure, key) {
      var i :| 0 <= i < |entries| && entries[i].0 == key && Judge(methodsToLook, defaultSecure, key, entries[i].1) == DefaultKeySize;
      if i < |init| {
        assert init[i] == entries[i];
      }
    }
    if ReportedAt(init, methodsToLook, defaultSecure, key) {
      var i :| 0 <= i < |init| && init[i].0 == key && Judge(methodsToLook, defaultSecure, key, init[i].1) == DefaultKeySize;
      assert entries[i] == init[i];
    }
  }

  /**
   * Every reported key is a violation of some entry, and when the scan does not
   * throw, every violation is reported.
   */
  lemma {:induction false} ScanViolations(entries: seq<Entry>, methodsToLook: Option<seq<string>>, defaultSecure: bool, key: string)
    ensures key in Scan(NoTally, entries, methodsToLook, defaultSecure).violations ==> ReportedAt(entries, methodsToLook, defaultSecure, key)
    ensures Scan(NoTally, entries, methodsToLook, defaultSecure).thrown.None? && ReportedAt(entries, methodsToLook, defaultSecure, key) ==>
      key in Scan(NoTally, entries, methodsToLook, defaultSecure).violations
  {
    if entries != [] {
      var init := entries[..|entries| - 1];
      ScanViolations(init, methodsToLook, defaultSecure, key);
      ReportedAtSnoc(entries, methodsToLook, defaultSecure, key);
      var t0 := Scan(NoTally, init, methodsToLook, defaultSecure);
      if t0.thrown.Some? {
        ScanAfterThrow(t0, [entries[|entries| - 1]], methodsToLook, defaultSecure);
      }
    }
  }

  /** Every key of `keys` is a key of `m`. */
  predicate KeysIn(keys: seq<string>, m: map<string, seq<Unit>>) {
    forall i :: 0 <= i < |keys| ==> keys[i] in m
  }

  /** The entries of a slice map in the order its keys are visited. */
  function EntriesOf(m: map<string, seq<Unit>>, keys: seq<string>): seq<Entry>
    requires KeysIn(keys, m)
  {
    if keys == [] then [] else EntriesOf(m, keys[..|keys| - 1]) + [(keys[|keys| - 1], m[keys[|keys| - 1]])]
  }

  /** Entry `i` is key `i` with its slice. */
  lemma {:induction false} EntriesOfShape(m: map<string, seq<Unit>>, keys: seq<string>)
    requires KeysIn(keys, m)
    ensures |EntriesOf(m, keys)| == |keys|
    ensures forall i :: 0 <= i < |keys| ==> EntriesOf(m, keys)[i] == (keys[i], m[keys[i]])
  {
    if keys != [] {
      var init := keys[..|keys| - 1];
      EntriesOfShape(m, init);
      forall i | 0 <= i < |keys| ensures EntriesOf(m, keys)[i] == (keys[i], m[keys[i]]) {
        if i < |init| {
          assert init[i] == keys[i];
        }
      }
    }
  }

  /** The first `n` key orders each list keys of the slice map of their criterion. */
  predicate KeyOrdersFit(classNames: seq<string>, methodsOf: string -> seq<SootMethod>, slicer: Slicer, keyOrders: seq<seq<string>>, n: nat) {
    n <= |SlicingCriteria| && n <= |keyOrders|
    && forall c :: 0 <= c < n ==>
      KeysIn(keyOrders[c], ForwardSliceOf(classNames, SlicingCriteria[c], methodsOf, slicer))
  }

  /** Everything the rule visits for the first `n` criteria: criterion by criterion, keys in their order. */
  function RuleEntries(classNames: seq<string>, methodsOf: string -> seq<SootMethod>, slicer: Slicer, keyOrders: seq<seq<string>>, n: nat): seq<Entry>
    requires KeyOrdersFit(classNames, methodsOf, slicer, keyOrders, n)
  {
    if n == 0 then []
    else
      RuleEntries(classNames, methodsOf, slicer, keyOrders, n - 1)
      + EntriesOf(ForwardSliceOf(classNames, SlicingCriteria[n - 1], methodsOf, slicer), keyOrders[n - 1])
  }

  lemma {:induction false} RuleEntriesPrefix(classNames: seq<string>, methodsOf: string -> seq<SootMethod>, slicer: Slicer, keyOrders: seq<seq<string>>, c: nat, n: nat)
    requires c <= n && KeyOrdersFit(classNames, methodsOf, slicer, keyOrders, n)
    ensures KeyOrdersFit(classNames, methodsOf, slicer, keyOrders, c)
    ensures RuleEntries(classNames, methodsOf, slicer, keyOrders, c) <= RuleEntries(classNames, methodsOf, slicer, keyOrders, n)
  {
    if c < n {
      RuleEntriesSnoc(classNames, methodsOf, slicer, keyOrders, n);
      RuleEntriesPrefix(classNames, methodsOf, slicer, keyOrders, c, n - 1);
      PrefixTransitive(RuleEntries(classNames, methodsOf, slicer, keyOrders, c),
                       RuleEntries(classNames, methodsOf, slicer, keyOrders, n - 1),
                       RuleEntries(classNames, methodsOf, slicer, keyOrders, n));
    }
  }

  /** The entries of one criterion fewer are a prefix. */
  lemma RuleEntriesSnoc(classNames: seq<string>, methodsOf: string -> seq<SootMethod>, slicer: Slicer, keyOrders: seq<seq<string>>, n: nat)
    requires 0 < n && KeyOrdersFit(classNames, methodsOf, slicer, keyOrders, n)
    ensures KeyOrdersFit(classNames, methodsOf, slicer, keyOrders, n - 1)
    ensures RuleEntries(classNames, methodsOf, slicer, keyOrders, n - 1) <= RuleEntries(classNames, methodsOf, slicer, keyOrders, n)
  {
    PrefixOfAppend(RuleEntries(classNames, methodsOf, slicer, keyOrders, n - 1),
                   EntriesOf(ForwardSliceOf(classNames, SlicingCriteria[n - 1], methodsOf, slicer), keyOrders[n - 1]));
  }

  lemma PrefixOfAppend(xs: seq<Entry>, ys: seq<Entry>)
    ensures xs <= xs + ys
  {
  }

  lemma PrefixTransitive(xs: seq<Entry>, ys: seq<Entry>, zs: seq<Entry>)
    requires xs <= ys && ys <= zs
    ensures xs <= zs
  {
  }

  /** Every key the rule visits is a method key, so it contains a `[`. */
  lemma RuleEntriesKeys(classNames: seq<string>, methodsOf: string -> seq<SootMethod>, slicer: Slicer, keyOrders: seq<seq<string>>, n: nat)
    requires KeyOrdersFit(classNames, methodsOf, slicer, keyOrders, n)
    ensures forall i :: 0 <= i < |RuleEntries(classNames, methodsOf, slicer, keyOrders, n)| ==>
      '[' in RuleEntries(classNames, methodsOf, slicer, keyOrders, n)[i].0
  {
    if n > 0 {
      RuleEntriesKeys(classNames, methodsOf, slicer, keyOrders, n - 1);
      var prev := RuleEntries(classNames, methodsOf, slicer, keyOrders, n - 1);
      var slice := ForwardSliceOf(classNames, SlicingCriteria[n - 1], methodsOf, slicer);
      var more := EntriesOf(slice, keyOrders[n - 1]);
      EntriesOfShape(slice, keyOrders[n - 1]);
      forall i | 0 <= i < |more| ensures '[' in more[i].0 {
        var key := keyOrders[n - 1][i];
        ForwardSliceKeys(classNames, SlicingCriteria[n - 1], methodsOf, slicer, key);
        var ms := AllMethods(classNames, methodsOf);
        var j :| 0 <= j < |ms| && FiledUnder(SlicingCriteria[n - 1], ms[j], slicer, key);
        var res := InfluencingInstructions(SlicingCriteria[n - 1], ms[j], slicer).value;
        MethodKeyBracket(ms[j].signature, res.callSiteLine);
      }
      forall i | 0 <= i < |prev + more| ensures '[' in (prev + more)[i].0 {
        if i >= |prev| {
          assert (prev + more)[i] == more[i - |prev|];
        }
      }
    }
  }

  /**
   * So the rule never throws once `methodsToLook` is set; with a `null`
   * `methodsToLook` it throws at the first key and records nothing.
   */
  lemma RuleOutcome(classNames: seq<string>, methodsOf: string -> seq<SootMethod>, slicer: Slicer, keyOrders: seq<seq<string>>, methodsToLook: Option<seq<string>>, defaultSecure: bool)
    requires KeyOrdersFit(classNames, methodsOf, slicer, keyOrders, |SlicingCriteria|)
    ensures var entries := RuleEntries(classNames, methodsOf, slicer, keyOrders, |SlicingCriteria|);
      methodsToLook.Some? ==> Scan(NoTally, entries, methodsToLook, defaultSecure).thrown.None?
    ensures var entries := RuleEntries(classNames, methodsOf, slicer, keyOrders, |SlicingCriteria|);
      methodsToLook.None? && entries != [] ==> Scan(NoTally, entries, methodsToLook, defaultSecure) == Tally([], [], Some(NullPointer))
  {
    var entries := RuleEntries(classNames, methodsOf, slicer, keyOrders, |SlicingCriteria|);
    RuleEntriesKeys(classNames, methodsOf, slicer, keyOrders, |SlicingCriteria|);
    if methodsToLook.Some? {
      ScanCompletes(NoTally, entries, methodsToLook.value, defaultSecure);
    } else if entries != [] {
      ScanNullMethodsToLook(entries, defaultSecure);
    }
  }

  // ------------------------------------------------------------ output

  /** The finding for a reported method key. */
  function IssueFor(key: string, sourcePaths: seq<string>): AnalysisIssue {
    AnalysisIssue(key, RuleId, Cause, sourcePaths)
  }

  function IssuesFor(keys: seq<string>, sourcePaths: seq<string>): seq<AnalysisIssue> {
    if keys == [] then [] else IssuesFor(keys[..|keys| - 1], sourcePaths) + [IssueFor(keys[|keys| - 1], sourcePaths)]
  }

  /** One rule-5 issue per reported key, in order, each naming its method. */
  lemma {:induction false} IssuesForShape(keys: seq<string>, sourcePaths: seq<string>)
    ensures |IssuesFor(keys, sourcePaths)| == |keys|
    ensures forall i :: 0 <= i < |keys| ==>
      IssuesFor(keys, sourcePaths)[i] == AnalysisIssue(keys[i], 5, "Cause: Used default key size", sourcePaths)
  {
    if keys != [] {
      IssuesForShape(keys[..|keys| - 1], sourcePaths);
    }
  }

  /** The three lines printed for a violation in print mode. */
  function ViolationBlock(key: string): seq<string> {
    [Banner, "***Violated Rule 5: Used export grade public Key " + "\n***Cause: Used default key size in method: " + key, Banner]
  }

  function Report(keys: seq<string>): seq<string> {
    if keys == [] then [] else Report(keys[..|keys| - 1]) + ViolationBlock(keys[|keys| - 1])
  }

  /** Three printed lines per reported key, block `i` naming key `i`. */
  lemma {:induction false} ReportShape(keys: seq<string>)
    ensures |Report(keys)| == 3 * |keys|
    ensures forall i :: 0 <= i < |keys| ==> Report(keys)[3 * i..3 * i + 3] == ViolationBlock(keys[i])
  {
    if keys != [] {
      var init := keys[..|keys| - 1];
      ReportShape(init);
      var r := Report(keys);
      assert r == Report(init) + ViolationBlock(keys[|keys| - 1]);
      forall i | 0 <= i < |keys|
        ensures r[3 * i..3 * i + 3] == ViolationBlock(keys[i])
      {
        if i < |init| {
          assert r[3 * i..3 * i + 3] == Report(init)[3 * i..3 * i + 3];
        } else {
          assert r[3 * i..3 * i + 3] == ViolationBlock(keys[|keys| - 1]);
        }
      }
    }
  }

  /** The stream a non-null `baseStreamWriter` writes findings into. */
  class StreamWriter {
    var streamed: seq<AnalysisIssue>

    constructor ()
      ensures streamed == []
    {
      streamed := [];
    }

    method StreamIntoBody(issue: AnalysisIssue)
      modifies this
      ensures streamed == old(streamed) + [issue]
    {
      streamed := streamed + [issue];
    }
  }

  lemma EntriesOfStep(m: map<string, seq<Unit>>, keys: seq<string>, j: nat)
    requires KeysIn(keys, m)
    requires j < |keys|
    ensures KeysIn(keys[..j], m)
    ensures KeysIn(keys[..j + 1], m)
    ensures EntriesOf(m, keys[..j + 1]) == EntriesOf(m, keys[..j]) + [(keys[j], m[keys[j]])]
  {
    assert keys[..j + 1][..j] == keys[..j];
  }

  lemma EntriesOfPrefix(m: map<string, seq<Unit>>, keys: seq<string>, j: nat)
    requires KeysIn(keys, m)
    requires j <= |keys|
    ensures KeysIn(keys[..j], m)
    ensures EntriesOf(m, keys[..j]) <= EntriesOf(m, keys)
  {
    if j < |keys| {
      EntriesOfPrefix(m, keys[..|keys| - 1], j);
      assert keys[..|keys| - 1][..j] == keys[..j];
    } else {
      assert keys[..j] == keys;
    }
  }

  /** The printed lines and the issue list of one more reported key. */
  lemma OutputStep(violations: seq<string>, key: string, sourcePaths: seq<string>)
    ensures Report(violations + [key]) == Report(violations) + ViolationBlock(key)
    ensures IssuesFor(violations + [key], sourcePaths) == IssuesFor(violations, sourcePaths) + [IssueFor(key, sourcePaths)]
  {
    assert (violations + [key])[..|violations|] == violations;
  }

  lemma ScanStepFrom(t: Tally, done: seq<Entry>, e: Entry, methodsToLook: Option<seq<string>>, defaultSecure: bool)
    ensures Scan(t, done + [e], methodsToLook, defaultSecure)
         == Record(Scan(t, done, methodsToLook, defaultSecure), e.0, Judge(methodsToLook, defaultSecure, e.0, e.1))
  {
    assert (done + [e])[..|done|] == done;
  }

  /**
   * The outputs of a run, as values, agree with the tally `t` relative to the
   * baselines: the recorded call sites, the lines printed, the streamed
   * findings (when there is a stream) and the collected list, by route.
   */
  ghost predicate Mirrors(t: Tally, printOut: bool, sourcePaths: seq<string>, hasStream: bool,
                          callSites: seq<string>, streamed: seq<AnalysisIssue>, issues: seq<AnalysisIssue>, printed: seq<string>,
                          callSites0: seq<string>, streamed0: seq<AnalysisIssue>) {
    && callSites == callSites0 + t.callSites
    && printed == (if printOut then Report(t.violations) else [])
    && (hasStream ==> streamed == streamed0 + (if printOut then [] else IssuesFor(t.violations, sourcePaths)))
    && issues == (if !printOut && !hasStream then IssuesFor(t.violations, sourcePaths) else [])
  }

  /** What one examined method adds to each output keeps the outputs in step with the tally. */
  lemma MirrorsRecord(t: Tally, key: string, v: Verdict, printOut: bool, sourcePaths: seq<string>, hasStream: bool,
                      callSites: seq<string>, streamed: seq<AnalysisIssue>, issues: seq<AnalysisIssue>, printed: seq<string>,
                      callSites': seq<string>, streamed': seq<AnalysisIssue>, issues': seq<AnalysisIssue>, printed': seq<string>,
                      callSites0: seq<string>, streamed0: seq<AnalysisIssue>)
    requires t.thrown.None?
    requires Mirrors(t, printOut, sourcePaths, hasStream, callSites, streamed, issues, printed, callSites0, streamed0)
    requires callSites' == callSites + (if v.Initialized? then [v.callSite] else [])
    requires printed' == printed + (if v.DefaultKeySize? && printOut then ViolationBlock(key) else [])
    requires hasStream ==> streamed' == streamed + (if v.DefaultKeySize? && !printOut then [IssueFor(key, sourcePaths)] else [])
    requires issues' == issues + (if v.DefaultKeySize? && !printOut && !hasStream then [IssueFor(key, sourcePaths)] else [])
    ensures Mirrors(Record(t, key, v), printOut, sourcePaths, hasStream, callSites', streamed', issues', printed', callSites0, streamed0)
  {
    if v.DefaultKeySize? {
      MirrorsViolation(t, key, printOut, sourcePaths, hasStream, callSites, streamed, issues, printed,
                       callSites', streamed', issues', printed', callSites0, streamed0);
    } else {
      MirrorsQuiet(t, key, v, printOut, sourcePaths, hasStream, callSites, streamed, issues, printed,
                   callSites', streamed', issues', printed', callSites0, streamed0);
    }
  }

  /** A verdict other than a violation adds at most a call site. */
  lemma MirrorsQuiet(t: Tally, key: string, v: Verdict, printOut: bool, sourcePaths: seq<string>, hasStream: bool,
                     callSites: seq<string>, streamed: seq<AnalysisIssue>, issues: seq<AnalysisIssue>, printed: seq<string>,
                     callSites': seq<string>, streamed': seq<AnalysisIssue>, issues': seq<AnalysisIssue>, printed': seq<string>,
                     callSites0: seq<string>, streamed0: seq<AnalysisIssue>)
    requires t.thrown.None? && !v.DefaultKeySize?
    requires Mirrors(t, printOut, sourcePaths, hasStream, callSites, streamed, issues, printed, callSites0, streamed0)
    requires callSites' == callSites + (if v.Initialized? then [v.callSite] else [])
    requires printed' == printed && issues' == issues && (hasStream ==> streamed' == streamed)
    ensures Mirrors(Record(t, key, v), printOut, sourcePaths, hasStream, callSites', streamed', issues', printed', callSites0, streamed0)
  {
    var t' := Record(t, key, v);
    assert t'.violations == t.violations;
    assert t'.callSites == t.callSites + (if v.Initialized? then [v.callSite] else []);
  }

  /** A reported key goes to exactly one output, by route. */
  lemma MirrorsViolation(t: Tally, key: string, printOut: bool, sourcePaths: seq<string>, hasStream: bool,
                         callSites: seq<string>, streamed: seq<AnalysisIssue>, issues: seq<AnalysisIssue>, printed: seq<string>,
                         callSites': seq<string>, streamed': seq<AnalysisIssue>, issues': seq<AnalysisIssue>, printed': seq<string>,
                         callSites0: seq<string>, streamed0: seq<AnalysisIssue>)
    requires Mirrors(t, printOut, sourcePaths, hasStream, callSites, streamed, issues, printed, callSites0, streamed0)
    requires callSites' == callSites
    requires printed' == printed + (if printOut then ViolationBlock(key) else [])
    requires hasStream ==> streamed' == streamed + (if !printOut then [IssueFor(key, sourcePaths)] else [])
    requires issues' == issues + (if !printOut && !hasStream then [IssueFor(key, sourcePaths)] else [])
    ensures Mirrors(t.(violations := t.violations + [key]), printOut, sourcePaths, hasStream, callSites', streamed', issues', printed', callSites0, streamed0)
  {
    OutputStep(t.violations, key, sourcePaths);
  }


  /**
   * One more key of the key loop: its verdict extends the scan of the keys
   * before it, and a verdict that throws ends the scan of all the keys.
   */
  lemma ScanKeyStep(t0: Tally, m: map<string, seq<Unit>>, keys: seq<string>, j: nat,
                    methodsToLook: Option<seq<string>>, defaultSecure: bool, t: Tally, v: Verdict)
    requires KeysIn(keys, m) && j < |keys|
    requires KeysIn(keys[..j], m)
    requires t == Scan(t0, EntriesOf(m, keys[..j]), methodsToLook, defaultSecure) && t.thrown.None?
    requires v == Judge(methodsToLook, defaultSecure, keys[j], m[keys[j]])
    ensures KeysIn(keys[..j + 1], m)
    ensures Record(t, keys[j], v) == Scan(t0, EntriesOf(m, keys[..j + 1]), methodsToLook, defaultSecure)
    ensures !v.Failed? ==> Record(t, keys[j], v).thrown.None?
    ensures v.Failed? ==> Scan(t0, EntriesOf(m, keys), methodsToLook, defaultSecure) == Record(t, keys[j], v)
    ensures v.Failed? ==> Record(t, keys[j], v).thrown == Some(v.exception)
  {
    EntriesOfStep(m, keys, j);
    ScanStepFrom(t0, EntriesOf(m, keys[..j]), (keys[j], m[keys[j]]), methodsToLook, defaultSecure);
    if v.Failed? {
      EntriesOfPrefix(m, keys, j + 1);
      ScanPrefixThrown(t0, EntriesOf(m, keys[..j + 1]), EntriesOf(m, keys), methodsToLook, defaultSecure);
    }
  }

  /** Each criterion's key order lists exactly the keys of that criterion's slice map. */
  ghost predicate KeyOrdersEnumerate(classNames: seq<string>, methodsOf: string -> seq<SootMethod>, slicer: Slicer, keyOrders: seq<seq<string>>) {
    |keyOrders| == |SlicingCriteria|
    && forall c :: 0 <= c < |SlicingCriteria| ==>
      Enumerates(keyOrders[c], ForwardSliceOf(classNames, SlicingCriteria[c], methodsOf, slicer).Keys)
  }

  lemma KeyOrdersEnumerateFit(classNames: seq<string>, methodsOf: string -> seq<SootMethod>, slicer: Slicer, keyOrders: seq<seq<string>>)
    requires KeyOrdersEnumerate(classNames, methodsOf, slicer, keyOrders)
    ensures KeyOrdersFit(classNames, methodsOf, slicer, keyOrders, |SlicingCriteria|)
  {
  }

  /** The rule object: its two settings and the call sites it has recorded so far. */
  class DefaultExportGradeKeyFinder {
    var defaultSecure: bool
    var methodsToLook: Option<seq<string>>
    var initializeCallsites: seq<string>

    /** A new checker: not secure by default, no `methodsToLook` list (`null`), no call sites. */
    constructor ()
      ensures !defaultSecure && methodsToLook == None && initializeCallsites == []
    {
      defaultSecure := false;
      methodsToLook := None;
      initializeCallsites := [];
    }

    method SetMethodsToLook(methods: Option<seq<string>>)
      modifies this
      ensures methodsToLook == methods
      ensures defaultSecure == old(defaultSecure) && initializeCallsites == old(initializeCallsites)
    {
      methodsToLook := methods;
    }

    method SetDefaultSecure(secure: bool)
      modifies this
      ensures defaultSecure == secure
      ensures methodsToLook == old(methodsToLook) && initializeCallsites == old(initializeCallsites)
    {
      defaultSecure := secure;
    }

    /** The call sites recorded by every `checkRule` run on this object, oldest first. */
    method GetInitializationCallsites() returns (r: seq<string>)
      ensures r == initializeCallsites
    {
      r := initializeCallsites;
    }

    /**
     * The body of the key loop for one method key: the filter, the unit loop
     * with its `break`, and the route of a finding.
     */
    method ExamineMethod(key: string, analysis: seq<Unit>, printOut: bool, sourcePaths: seq<string>,
                         streamWriter: StreamWriter?, issues: seq<AnalysisIssue>)
      returns (verdict: Verdict, printed: seq<string>, issuesOut: seq<AnalysisIssue>)
      modifies this, streamWriter
      ensures verdict == Judge(methodsToLook, defaultSecure, key, analysis)
      ensures defaultSecure == old(defaultSecure) && methodsToLook == old(methodsToLook)
      ensures initializeCallsites == old(initializeCallsites) + (if verdict.Initialized? then [verdict.callSite] else [])
      ensures printed == (if verdict.DefaultKeySize? && printOut then ViolationBlock(key) else [])
      ensures streamWriter != null ==>
        streamWriter.streamed == old(streamWriter.streamed) + (if verdict.DefaultKeySize? && !printOut then [IssueFor(key, sourcePaths)] else [])
      ensures issuesOut == issues
        + (if verdict.DefaultKeySize? && !printOut && streamWriter == null then [IssueFor(key, sourcePaths)] else [])
    {
      printed := [];
      issuesOut := issues;
      if methodsToLook.None? {
        verdict := Failed(NullPointer);
        return;
      }
      if !Contains(ListToString(methodsToLook.value), key) {
        verdict := NotLookedFor;
        return;
      }
      if analysis == [] {
        verdict := EmptySlice;
        return;
      }
      var site := ScanUnits(key, analysis);
      if site.Some? {
        if site.value.Thrown? {
          verdict := Failed(site.value.exception);
          return;
        }
        initializeCallsites := initializeCallsites + [site.value.value];
        verdict := Initialized(site.value.value);
        return;
      }
      if defaultSecure {
        verdict := SecureByDefault;
        return;
      }
      verdict := DefaultKeySize;
      if printOut {
        printed := ViolationBlock(key);
      } else {
        var issue := IssueFor(key, sourcePaths);
        if streamWriter != null {
          streamWriter.StreamIntoBody(issue);
        } else {
          issuesOut := issues + [issue];
        }
      }
    }

    /**
     * The state reflects the tally `t` relative to the ghost baselines: the
     * recorded call sites, the lines printed, the streamed findings and the
     * collected list, depending on the route.
     */
    ghost predicate Reflects(t: Tally, printOut: bool, sourcePaths: seq<string>, streamWriter: StreamWriter?,
                             issues: seq<AnalysisIssue>, printed: seq<string>, callSites0: seq<string>, streamed0: seq<AnalysisIssue>)
      reads this, streamWriter
    {
      Mirrors(t, printOut, sourcePaths, streamWriter != null, initializeCallsites,
              if streamWriter != null then streamWriter.streamed else [], issues, printed, callSites0, streamed0)
    }

    /** One method key: examine it and keep the state in step with the tally. */
    method CheckKey(methodKey: string, analysis: seq<Unit>, printOut: bool, sourcePaths: seq<string>,
                    streamWriter: StreamWriter?, issues: seq<AnalysisIssue>, printed: seq<string>,
                    ghost t: Tally, ghost callSites0: seq<string>, ghost streamed0: seq<AnalysisIssue>)
      returns (verdict: Verdict, issuesOut: seq<AnalysisIssue>, printedOut: seq<string>)
      requires t.thrown.None?
      requires Reflects(t, printOut, sourcePaths, streamWriter, issues, printed, callSites0, streamed0)
      modifies this, streamWriter
      ensures defaultSecure == old(defaultSecure) && methodsToLook == old(methodsToLook)
      ensures verdict == Judge(methodsToLook, defaultSecure, methodKey, analysis)
      ensures Reflects(Record(t, methodKey, verdict), printOut, sourcePaths, streamWriter, issuesOut, printedOut, callSites0, streamed0)
    {
      ghost var callSites := initializeCallsites;
      ghost var streamed := if streamWriter != null then streamWriter.streamed else [];
      var blockLines;
      verdict, blockLines, issuesOut := ExamineMethod(methodKey, analysis, printOut, sourcePaths, streamWriter, issues);
      printedOut := printed + blockLines;
      MirrorsRecord(t, methodKey, verdict, printOut, sourcePaths, streamWriter != null,
                    callSites, streamed, issues, printed, initializeCallsites,
                    if streamWriter != null then streamWriter.streamed else [], issuesOut, printedOut, callSites0, streamed0);
    }

    /**
     * Key `j` of the key loop: its verdict extends the scan of the keys before
     * it, and a verdict that throws ends the scan of all the keys.
     */
    method NextKey(analysisLists: map<string, seq<Unit>>, keys: seq<string>, j: nat, printOut: bool, sourcePaths: seq<string>,
                   streamWriter: StreamWriter?, issues: seq<AnalysisIssue>, printed: seq<string>,
                   ghost t0: Tally, ghost t: Tally, ghost callSites0: seq<string>, ghost streamed0: seq<AnalysisIssue>)
      returns (verdict: Verdict, issuesOut: seq<AnalysisIssue>, printedOut: seq<string>, ghost t': Tally)
      requires KeysIn(keys, analysisLists) && j < |keys| && KeysIn(keys[..j], analysisLists)
      requires t == Scan(t0, EntriesOf(analysisLists, keys[..j]), methodsToLook, defaultSecure) && t.thrown.None?
      requires Reflects(t, printOut, sourcePaths, streamWriter, issues, printed, callSites0, streamed0)
      modifies this, streamWriter
      ensures defaultSecure == old(defaultSecure) && methodsToLook == old(methodsToLook)
      ensures KeysIn(keys[..j + 1], analysisLists)
      ensures t' == Scan(t0, EntriesOf(analysisLists, keys[..j + 1]), methodsToLook, defaultSecure)
      ensures verdict.Failed? <==> t'.thrown.Some?
      ensures verdict.Failed? ==> t' == Scan(t0, EntriesOf(analysisLists, keys), methodsToLook, defaultSecure) && t'.thrown == Some(verdict.exception)
      ensures Reflects(t', printOut, sourcePaths, streamWriter, issuesOut, printedOut, callSites0, streamed0)
    {
      ghost var mtl, ds := methodsToLook, defaultSecure;
      verdict, issuesOut, printedOut := CheckKey(keys[j], analysisLists[keys[j]], printOut, sourcePaths, streamWriter,
                                                 issues, printed, t, callSites0, streamed0);
      ScanKeyStep(t0, analysisLists, keys, j, mtl, ds, t, verdict);
      t' := Record(t, keys[j], verdict);
    }

    /**
     * The key loop of `checkRule` for one criterion's slice map, `keys` being
     * the iteration order of its key set. The ghost `t0` is the effect of the
     * criteria before this one, which the state already reflects.
     */
    method CheckKeys(analysisLists: map<string, seq<Unit>>, keys: seq<string>, printOut: bool, sourcePaths: seq<string>,
                     streamWriter: StreamWriter?, issues: seq<AnalysisIssue>, printed: seq<string>,
                     ghost t0: Tally, ghost callSites0: seq<string>, ghost streamed0: seq<AnalysisIssue>)
      returns (thrown: Option<JavaException>, issuesOut: seq<AnalysisIssue>, printedOut: seq<string>)
      requires KeysIn(keys, analysisLists)
      requires t0.thrown.None?
      requires Reflects(t0, printOut, sourcePaths, streamWriter, issues, printed, callSites0, streamed0)
      modifies this, streamWriter
      ensures defaultSecure == old(defaultSecure) && methodsToLook == old(methodsToLook)
      ensures thrown == Scan(t0, EntriesOf(analysisLists, keys), methodsToLook, defaultSecure).thrown
      ensures Reflects(Scan(t0, EntriesOf(analysisLists, keys), methodsToLook, defaultSecure),
                       printOut, sourcePaths, streamWriter, issuesOut, printedOut, callSites0, streamed0)
    {
      ghost var t := t0;
      issuesOut := issues;
      printedOut := printed;
      var j := 0;
      while j < |keys|
        invariant 0 <= j <= |keys|
        invariant defaultSecure == old(defaultSecure) && methodsToLook == old(methodsToLook)
        invariant KeysIn(keys[..j], analysisLists)
        invariant t == Scan(t0, EntriesOf(analysisLists, keys[..j]), methodsToLook, defaultSecure) && t.thrown.None?
        invariant Reflects(t, printOut, sourcePaths, streamWriter, issuesOut, printedOut, callSites0, streamed0)
      {
        var verdict;
        verdict, issuesOut, printedOut, t := NextKey(analysisLists, keys, j, printOut, sourcePaths, streamWriter,
                                                     issuesOut, printedOut, t0, t, callSites0, streamed0);
        if verdict.Failed? {
          thrown := Some(verdict.exception);
          return;
        }
        j := j + 1;
      }
      assert keys[..j] == keys;
      thrown := None;
    }

    /**
     * `checkRule`: for each criterion in order, the forward slice of the
     * project's classes and each of its method keys in `keyOrders[c]`, the
     * iteration order of that slice's key set. Returns `None` for the `null`
     * of print mode, and the lines printed to standard output.
     */
    method CheckRule(classNames: seq<string>, methodsOf: string -> seq<SootMethod>, slicer: Slicer,
                     keyOrders: seq<seq<string>>, printOut: bool, sourcePaths: seq<string>, streamWriter: StreamWriter?)
      returns (r: Result<Option<seq<AnalysisIssue>>>, printed: seq<string>)
      requires KeyOrdersEnumerate(classNames, methodsOf, slicer, keyOrders)
      modifies this, streamWriter
      ensures defaultSecure == old(defaultSecure) && methodsToLook == old(methodsToLook)
      ensures KeyOrdersFit(classNames, methodsOf, slicer, keyOrders, |SlicingCriteria|)
      ensures var t := Scan(NoTally, RuleEntries(classNames, methodsOf, slicer, keyOrders, |SlicingCriteria|), methodsToLook, defaultSecure);
        && initializeCallsites == old(initializeCallsites) + t.callSites
        && printed == (if printOut then Report(t.violations) else [])
        && (streamWriter != null ==>
              streamWriter.streamed == old(streamWriter.streamed) + (if printOut then [] else IssuesFor(t.violations, sourcePaths)))
        && (t.thrown.Some? ==> r == Thrown(t.thrown.value))
        && (t.thrown.None? && printOut ==> r == Ok(None))
        && (t.thrown.None? && !printOut && streamWriter != null ==> r == Ok(Some([])))
        && (t.thrown.None? && !printOut && streamWriter == null ==> r == Ok(Some(IssuesFor(t.violations, sourcePaths))))
    {
      KeyOrdersEnumerateFit(classNames, methodsOf, slicer, keyOrders);
      ghost var callSites0 := initializeCallsites;
      ghost var streamed0 := if streamWriter != null then streamWriter.streamed else [];
      ghost var done: seq<Entry> := [];
      ghost var t := NoTally;
      var issues: seq<AnalysisIssue> := [];
      printed := [];
      var c := 0;
      while c < |SlicingCriteria|
        invariant 0 <= c <= |SlicingCriteria|
        invariant defaultSecure == old(defaultSecure) && methodsToLook == old(methodsToLook)
        invariant done == RuleEntries(classNames, methodsOf, slicer, keyOrders, c)
        invariant t == Scan(NoTally, done, methodsToLook, defaultSecure) && t.thrown.None?
        invariant Reflects(t, printOut, sourcePaths, streamWriter, issues, printed, callSites0, streamed0)
      {
        RuleEntriesPrefix(classNames, methodsOf, slicer, keyOrders, c + 1, |SlicingCriteria|);
        var analysisLists := ForwardSlice(classNames, SlicingCriteria[c], methodsOf, slicer);
        var keys := keyOrders[c];
        var thrown;
        thrown, issues, printed := CheckKeys(analysisLists, keys, printOut, sourcePaths, streamWriter, issues, printed, t, callSites0, streamed0);
        ghost var more := EntriesOf(analysisLists, keys);
        ScanAppend(NoTally, done, more, methodsToLook, defaultSecure);
        done := done + more;
        t := Scan(t, more, methodsToLook, defaultSecure);
        if thrown.Some? {
          ScanPrefixThrown(NoTally, done, RuleEntries(classNames, methodsOf, slicer, keyOrders, |SlicingCriteria|), methodsToLook, defaultSecure);
          r := Thrown(thrown.value);
          return;
        }
        c := c + 1;
      }
      r := if printOut then Ok(None) else Ok(Some(issues));
    }
  }
}
