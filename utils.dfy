/**
 * The string and path helpers of `main.util.Utils`: joining, file-name
 * trimming, recognising special invocations and parameter references, and
 * the per-entry logic that turns archive entries into class and package names.
 * Archives, the Soot scene and system properties are not read here: their
 * contents arrive as parameters.
 */
module Utils {
  import opened Wrappers
  import opened JavaStrings

  // ---------------------------------------------------------------- join

  /**
   * What `join` builds for a list whose last element is `last`: every element
   * in order, each followed by the delimiter unless it equals `last`.
   */
  function JoinedWith(xs: seq<string>, last: string, d: string): string {
    if xs == [] then ""
    else JoinedWith(xs[..|xs| - 1], last, d) + xs[|xs| - 1] + (if xs[|xs| - 1] != last then d else "")
  }

  /** No element before the last one equals the last one. */
  predicate LastIsUnique(xs: seq<string>) {
    forall i :: 0 <= i < |xs| - 1 ==> xs[i] != xs[|xs| - 1]
  }

  lemma {:induction false} JoinedPrefix(xs: seq<string>, last: string, d: string, k: nat)
    requires 1 <= k <= |xs|
    requires forall i :: 0 <= i < k ==> xs[i] != last
    ensures JoinedWith(xs[..k], last, d) == Intercalate(xs[..k], d) + d
  {
    assert xs[..k][..k - 1] == xs[..k - 1];
    if k > 1 {
      JoinedPrefix(xs, last, d, k - 1);
      assert xs[..k] == xs[..k - 1] + [xs[k - 1]];
      IntercalateSnoc(xs[..k - 1], xs[k - 1], d);
    }
  }

  /** When the last element occurs only at the end, `join` is the ordinary delimiter-separated join. */
  lemma JoinOfUniqueLast(xs: seq<string>, d: string)
    requires xs != [] && LastIsUnique(xs)
    ensures JoinedWith(xs, xs[|xs| - 1], d) == Intercalate(xs, d)
  {
    var n := |xs|;
    if n > 1 {
      JoinedPrefix(xs, xs[n - 1], d, n - 1);
      assert xs[..n - 1] + [xs[n - 1]] == xs;
      IntercalateSnoc(xs[..n - 1], xs[n - 1], d);
    }
  }

  /** The delimiter is suppressed after an earlier element that equals the last one. */
  lemma JoinSuppressesDelimiterAfterCopiesOfLast(a: string, b: string, d: string)
    requires a != b
    ensures JoinedWith([a, b, a], a, d) == a + b + d + a
    ensures Intercalate([a, b, a], d) == a + d + b + d + a
  {
    var xs := [a, b, a];
    assert xs[..2] == [a, b] && [a, b][..1] == [a] && [a][..0] == [];
    assert JoinedWith([a], a, d) == a;
    assert JoinedWith([a, b], a, d) == a + b + d;
    assert xs[1..] == [b, a] && [b, a][1..] == [a];
    assert Intercalate([b, a], d) == b + d + a;
  }

  /** `join(delimiter, elements)`: the StringBuilder loop. */
  method Join(delimiter: string, elements: seq<string>) returns (r: string)
    ensures elements == [] ==> r == ""
    ensures elements != [] ==> r == JoinedWith(elements, elements[|elements| - 1], delimiter)
    ensures elements != [] && LastIsUnique(elements) ==> r == Intercalate(elements, delimiter)
  {
    r := "";
    var i := 0;
    while i < |elements|
      invariant 0 <= i <= |elements|
      invariant elements == [] ==> r == ""
      invariant elements != [] ==> r == JoinedWith(elements[..i], elements[|elements| - 1], delimiter)
    {
      assert elements[..i + 1][..i] == elements[..i];
      r := r + elements[i];
      if elements[i] != elements[|elements| - 1] {
        r := r + delimiter;
      }
      i := i + 1;
    }
    assert elements[..|elements|] == elements;
    if elements != [] && LastIsUnique(elements) {
      JoinOfUniqueLast(elements, delimiter);
    }
  }

  /** `osPathJoin(elements)`: `join` with the file separator as delimiter. */
  method OsPathJoin(fileSep: char, elements: seq<string>) returns (r: string)
    ensures elements == [] ==> r == ""
    ensures elements != [] ==> r == JoinedWith(elements, elements[|elements| - 1], [fileSep])
    ensures elements != [] && LastIsUnique(elements) ==> r == Intercalate(elements, [fileSep])
  {
    r := Join([fileSep], elements);
  }

  // ---------------------------------------------------------- trimFilePath

  /**
   * `trimFilePath(path)`: the last element of `path.split(separator)`. Java's
   * `split` drops trailing empty pieces, so a non-empty path made of separators
   * only yields an empty array and the index `length - 1` throws.
   */
  function TrimFilePath(fullFilePath: string, fileSep: char): (r: Result<string>)
    ensures r.Thrown? <==> fullFilePath != "" && AllChar(fullFilePath, fileSep)
    ensures r.Thrown? ==> r.exception == IndexOutOfBounds
    ensures r.Ok? ==> r.value == LastSegment(fullFilePath, fileSep) && fileSep !in r.value
    ensures fileSep !in fullFilePath ==> r == Ok(fullFilePath)
  {
    DropPiecesLast(fullFilePath, fileSep);
    assert fileSep !in fullFilePath ==> LastSegment(fullFilePath, fileSep) == fullFilePath by {
      if fileSep !in fullFilePath && fullFilePath != "" {
        assert fullFilePath[|fullFilePath| - 1] in fullFilePath;
        assert StripTrailing(fullFilePath, fileSep) == fullFilePath;
      }
    }
    var folderSplit := Split(fullFilePath, fileSep);
    if |folderSplit| == 0 then Thrown(IndexOutOfBounds) else Ok(folderSplit[|folderSplit| - 1])
  }

  // ------------------------------------------------------ isSpecialInvokeOn

  /** `isSpecialInvokeOn(unit, usebox)` on the unit's text. */
  predicate IsSpecialInvokeOn(instruction: string, usebox: string) {
    Contains(instruction, "specialinvoke") && Contains(instruction, usebox + ".<")
  }

  /**
   * The test is textual: it holds exactly when both markers occur somewhere in
   * the text, so it survives any text around the instruction.
   */
  lemma SpecialInvokeInContext(before: string, instruction: string, after: string, usebox: string)
    requires IsSpecialInvokeOn(instruction, usebox)
    ensures IsSpecialInvokeOn(before + instruction + after, usebox)
  {
    ContainsInfix(before, instruction, after, "specialinvoke");
    ContainsInfix(before, instruction, after, usebox + ".<");
  }

  /**
   * A `specialinvoke` whose receiver text ends in the local is recognised; the
   * test is a plain substring test, so `$r1` also counts as an invocation on `r1`.
   */
  lemma SpecialInvokeOnLocal(receiverPrefix: string, local: string, signature: string)
    ensures IsSpecialInvokeOn("specialinvoke " + receiverPrefix + local + ".<" + signature, local)
  {
    var t := "specialinvoke " + receiverPrefix + local + ".<" + signature;
    assert t == "specialinvoke" + (" " + receiverPrefix) + (local + ".<") + signature;
    assert OccursAt(t, "specialinvoke", 0);
    assert OccursAt(t, local + ".<", 14 + |receiverPrefix|);
  }

  /**
   * Because the test only looks for `usebox + ".<"`, a unit that passes for a
   * local also passes for every suffix of that local's name.
   */
  lemma SpecialInvokeOnSuffix(instruction: string, receiverPrefix: string, local: string)
    requires IsSpecialInvokeOn(instruction, receiverPrefix + local)
    ensures IsSpecialInvokeOn(instruction, local)
  {
    var t := receiverPrefix + local + ".<";
    var i :| 0 <= i <= |instruction| - |t| && OccursAt(instruction, t, i);
    var j := i + |receiverPrefix|;
    assert instruction[i..i + |t|] == t;
    assert instruction[j..j + |local + ".<"|] == instruction[i..i + |t|][|receiverPrefix|..];
    assert t[|receiverPrefix|..] == local + ".<";
    assert OccursAt(instruction, local + ".<", j);
  }

  // ------------------------------------------------- findInfluencingParamters

  const ParameterMarker: string := "@parameter"

  /**
   * What one use box contributes: nothing when its text does not contain
   * `@parameter`, otherwise `Integer.valueOf` of the text between index 10 and
   * the first `:` (which throws when that range is not a valid substring).
   */
  function ParameterOf(useBox: string): (r: Option<Result<int>>)
    ensures r.None? <==> !Contains(useBox, ParameterMarker)
    ensures r.Some? && r.value.Ok? ==> IntMin <= r.value.value <= IntMax
  {
    if !Contains(useBox, ParameterMarker) then None
    else
      var colon := IndexOf(useBox, ':');
      if colon < |ParameterMarker| then Some(Thrown(IndexOutOfBounds))
      else Some(ParseInt(useBox[|ParameterMarker|..colon]))
  }

  /** A Jimple parameter reference `@parameterN: T` yields N. */
  lemma ParameterOfReference(n: int, typeName: string)
    requires 0 <= n <= IntMax
    ensures ParameterOf(ParameterMarker + IntToString(n) + ": " + typeName) == Some(Ok(n))
  {
    var digits := IntToString(n);
    NatToStringDigits(n);
    var box := ParameterMarker + digits + ": " + typeName;
    assert OccursAt(box, ParameterMarker, 0);
    var colon := |ParameterMarker| + |digits|;
    assert box[colon] == ':';
    assert box[..colon] == ParameterMarker + digits;
    assert ':' !in box[..colon] by {
      forall i | 0 <= i < colon ensures box[..colon][i] != ':' {
        if i >= |ParameterMarker| {
          assert box[..colon][i] == digits[i - |ParameterMarker|];
        }
      }
    }
    assert IndexOf(box, ':') == colon;
    assert box[|ParameterMarker|..colon] == digits;
    IntToStringRoundTrip(n);
  }

  /** The use boxes in the order the loop visits them: units from last to first, boxes in order. */
  function ScanOrder(units: seq<seq<string>>): seq<string> {
    if units == [] then [] else ScanOrder(units[1..]) + units[0]
  }

  lemma {:induction false} ScanOrderSplit(units: seq<seq<string>>, k: nat)
    requires k <= |units|
    ensures ScanOrder(units) == ScanOrder(units[k..]) + ScanOrder(units[..k])
  {
    if k > 0 {
      ScanOrderSplit(units[1..], k - 1);
      assert units[1..][k - 1..] == units[k..];
      assert units[..k][1..] == units[1..][..k - 1];
    } else {
      assert units[0..] == units;
    }
  }

  /** The parameter indices of a sequence of use boxes, or the exception its first bad box raises. */
  function Parameters(boxes: seq<string>): Result<seq<int>> {
    if boxes == [] then Ok([])
    else
      match Parameters(boxes[..|boxes| - 1])
      case Thrown(e) => Thrown(e)
      case Ok(ps) =>
        match ParameterOf(boxes[|boxes| - 1])
        case None => Ok(ps)
        case Some(Thrown(e)) => Thrown(e)
        case Some(Ok(v)) => Ok(ps + [v])
  }

  /** The number of use boxes whose text contains `@parameter`. */
  function ParameterBoxCount(boxes: seq<string>): nat {
    if boxes == [] then 0
    else ParameterBoxCount(boxes[..|boxes| - 1]) + (if Contains(boxes[|boxes| - 1], ParameterMarker) then 1 else 0)
  }

  /** One index per `@parameter` box, in visiting order. */
  lemma {:induction false} ParametersCount(boxes: seq<string>)
    ensures Parameters(boxes).Ok? ==> |Parameters(boxes).value| == ParameterBoxCount(boxes)
  {
    if boxes != [] {
      ParametersCount(boxes[..|boxes| - 1]);
    }
  }

  lemma {:induction false} ParametersThrownPersists(xs: seq<string>, ys: seq<string>)
    requires Parameters(xs).Thrown?
    ensures Parameters(xs + ys) == Parameters(xs)
  {
    if ys != [] {
      assert (xs + ys)[..|xs + ys| - 1] == xs + ys[..|ys| - 1];
      ParametersThrownPersists(xs, ys[..|ys| - 1]);
    } else {
      assert xs + ys == xs;
    }
  }

  /** One more use box: the running result extends by what that box contributes. */
  lemma ParametersSnoc(xs: seq<string>, b: string, ps: seq<int>)
    requires Parameters(xs) == Ok(ps)
    ensures ParameterOf(b).None? ==> Parameters(xs + [b]) == Ok(ps)
    ensures ParameterOf(b).Some? && ParameterOf(b).value.Ok? ==> Parameters(xs + [b]) == Ok(ps + [ParameterOf(b).value.value])
    ensures ParameterOf(b).Some? && ParameterOf(b).value.Thrown? ==> Parameters(xs + [b]) == Thrown(ParameterOf(b).value.exception)
  {
    assert (xs + [b])[..|xs|] == xs;
  }

  /** The boxes seen once the loop is at box `j` of unit `index`, before and after it. */
  lemma ScanPosition(units: seq<seq<string>>, index: nat, j: nat)
    requires index < |units| && j < |units[index]|
    ensures ScanOrder(units[index + 1..]) + units[index][..j + 1]
         == (ScanOrder(units[index + 1..]) + units[index][..j]) + [units[index][j]]
    ensures ScanOrder(units) == (ScanOrder(units[index + 1..]) + units[index][..j + 1])
         + (units[index][j + 1..] + ScanOrder(units[..index]))
  {
    var u := units[index];
    assert u[..j + 1] == u[..j] + [u[j]];
    ScanOrderSplit(units, index);
    assert units[index..][1..] == units[index + 1..];
    assert ScanOrder(units[index..]) == ScanOrder(units[index + 1..]) + u;
    assert u == u[..j + 1] + u[j + 1..];
  }

  /** After a whole unit, the boxes seen are those of the suffix starting at that unit. */
  lemma ScanUnitDone(units: seq<seq<string>>, index: nat)
    requires index < |units|
    ensures ScanOrder(units[index + 1..]) + units[index][..|units[index]|] == ScanOrder(units[index..])
  {
    assert units[index..][1..] == units[index + 1..];
    assert units[index][..|units[index]|] == units[index];
  }

  /**
   * `findInfluencingParamters(analysisResult)`, with each unit given as the
   * texts of its use boxes.
   */
  method FindInfluencingParameters(analysisResult: seq<seq<string>>) returns (r: Result<seq<int>>)
    ensures r == Parameters(ScanOrder(analysisResult))
    ensures r.Ok? ==> |r.value| == ParameterBoxCount(ScanOrder(analysisResult))
  {
    ParametersCount(ScanOrder(analysisResult));
    var influencingParam: seq<int> := [];
    var index := |analysisResult| - 1;
    while index >= 0
      invariant -1 <= index < |analysisResult|
      invariant Parameters(ScanOrder(analysisResult[index + 1..])) == Ok(influencingParam)
    {
      var useBoxes := analysisResult[index];
      ghost var done := ScanOrder(analysisResult[index + 1..]);
      var j := 0;
      assert done + useBoxes[..0] == done;
      while j < |useBoxes|
        invariant 0 <= j <= |useBoxes|
        invariant Parameters(done + useBoxes[..j]) == Ok(influencingParam)
      {
        ScanPosition(analysisResult, index, j);
        var param := ParameterOf(useBoxes[j]);
        ParametersSnoc(done + useBoxes[..j], useBoxes[j], influencingParam);
        if param.Some? && param.value.Thrown? {
          r := Thrown(param.value.exception);
          ParametersThrownPersists(done + useBoxes[..j + 1], useBoxes[j + 1..] + ScanOrder(analysisResult[..index]));
          return;
        }
        if param.Some? {
          influencingParam := influencingParam + [param.value.value];
        }
        j := j + 1;
      }
      ScanUnitDone(analysisResult, index);
      index := index - 1;
    }
    assert analysisResult[0..] == analysisResult;
    r := Ok(influencingParam);
  }

  // ------------------------------------------------- retrieveBaseSourcePath

  /** Whether every path equals `first`: the loop that breaks at the first mismatch. */
  function AllEqualTo(paths: seq<string>, first: string): (r: bool)
    ensures r <==> forall i :: 0 <= i < |paths| ==> paths[i] == first
  {
    paths == [] || (paths[0] == first && AllEqualTo(paths[1..], first))
  }

  /**
   * `retrieveBaseSourcePath(sourcePaths, dependencyPath)`: the common source
   * path when all source paths agree, the working directory otherwise, followed
   * by the separator and the dependency path. `get(0)` throws on an empty list.
   */
  function RetrieveBaseSourcePath(sourcePaths: seq<string>, dependencyPath: string, userDir: string, fileSep: char): (r: Result<string>)
    ensures r.Thrown? <==> sourcePaths == []
    ensures r.Ok? && (forall i :: 0 <= i < |sourcePaths| ==> sourcePaths[i] == sourcePaths[0]) ==>
      r.value == sourcePaths[0] + [fileSep] + dependencyPath
    ensures r.Ok? && (exists i :: 0 <= i < |sourcePaths| && sourcePaths[i] != sourcePaths[0]) ==>
      r.value == userDir + [fileSep] + dependencyPath
  {
    if sourcePaths == [] then Thrown(IndexOutOfBounds)
    else
      var base := if AllEqualTo(sourcePaths, sourcePaths[0]) then sourcePaths[0] else userDir;
      Ok(base + [fileSep] + dependencyPath)
  }

  // ------------------------------------------------------- archive entries

  /** An entry of a jar (zip) archive as `ZipInputStream` reports it. */
  datatype ZipEntry = ZipEntry(name: string, isDirectory: bool)

  const ClassSuffix: string := ".class"

  /** A non-directory `.class` entry. */
  predicate IsClassEntry(entry: ZipEntry) {
    !entry.isDirectory && EndsWith(entry.name, ClassSuffix)
  }

  /** The class name of a class entry: `/` replaced by `.` and the `.class` suffix removed. */
  function EntryClassName(entry: ZipEntry): (r: string)
    requires IsClassEntry(entry)
    ensures '/' !in r
    ensures r + ClassSuffix == Replace(entry.name, '/', '.')
  {
    var className := Replace(entry.name, '/', '.');
    assert className[|className| - |ClassSuffix|..] == ClassSuffix;
    assert className[..|className| - |ClassSuffix|] + ClassSuffix == className;
    className[..|className| - |ClassSuffix|]
  }

  /** The class names of the class entries, in entry order. */
  function JarClassNames(entries: seq<ZipEntry>): seq<string> {
    if entries == [] then []
    else
      var last := entries[|entries| - 1];
      JarClassNames(entries[..|entries| - 1]) + (if IsClassEntry(last) then [EntryClassName(last)] else [])
  }

  /** The entry of class `c` (with `/` separating packages) is read back as `c`. */
  lemma JarClassNameRoundTrip(c: string)
    requires '/' !in c
    ensures IsClassEntry(ZipEntry(Replace(c, '.', '/') + ClassSuffix, false))
    ensures EntryClassName(ZipEntry(Replace(c, '.', '/') + ClassSuffix, false)) == c
  {
    var entry := ZipEntry(Replace(c, '.', '/') + ClassSuffix, false);
    assert entry.name[|entry.name| - |ClassSuffix|..] == ClassSuffix;
    assert Replace(entry.name, '/', '.') == c + ClassSuffix;
  }

  /** `getClassNamesFromJarArchive` over the entries of the archive. */
  method ClassNamesFromJarArchive(entries: seq<ZipEntry>) returns (classNames: seq<string>)
    ensures classNames == JarClassNames(entries)
    ensures |classNames| <= |entries|
    ensures forall k :: 0 <= k < |classNames| ==> '/' !in classNames[k]
  {
    classNames := [];
    var i := 0;
    while i < |entries|
      invariant 0 <= i <= |entries|
      invariant classNames == JarClassNames(entries[..i])
      invariant |classNames| <= i
      invariant forall k :: 0 <= k < |classNames| ==> '/' !in classNames[k]
    {
      assert entries[..i + 1][..i] == entries[..i];
      if IsClassEntry(entries[i]) {
        classNames := classNames + [EntryClassName(entries[i])];
      }
      i := i + 1;
    }
    assert entries[..|entries|] == entries;
  }

  /**
   * The base package of one class name: the first three dot-separated segments
   * when there are more than three, the first two when there are exactly three,
   * the first otherwise (`splits[0]` throws when the split is empty).
   */
  function BasePackageOf(className: string): (r: Result<string>)
    ensures r.Thrown? <==> Split(className, '.') == []
  {
    var splits := Split(className, '.');
    if |splits| > 3 then Ok(splits[0] + "." + splits[1] + "." + splits[2])
    else if |splits| == 3 then Ok(splits[0] + "." + splits[1])
    else if |splits| == 0 then Thrown(IndexOutOfBounds)
    else Ok(splits[0])
  }

  /** For a class name made of dot-free non-empty segments, the base package is the segments kept by the rule. */
  lemma BasePackageOfSegments(segments: seq<string>)
    requires segments != []
    requires forall k :: 0 <= k < |segments| ==> segments[k] != "" && '.' !in segments[k]
    ensures |segments| > 3 ==> BasePackageOf(Intercalate(segments, ".")) == Ok(Intercalate(segments[..3], "."))
    ensures |segments| == 3 ==> BasePackageOf(Intercalate(segments, ".")) == Ok(Intercalate(segments[..2], "."))
    ensures |segments| < 3 ==> BasePackageOf(Intercalate(segments, ".")) == Ok(segments[0])
  {
    var s := segments;
    assert "." == ['.'];
    SplitOfIntercalate(s, '.');
    assert Split(Intercalate(s, "."), '.') == s;
    if |s| > 3 {
      IntercalateThree(s[..3]);
    } else if |s| == 3 {
      IntercalateTwo(s[..2]);
    }
  }

  lemma IntercalateThree(s: seq<string>)
    requires |s| == 3
    ensures Intercalate(s, ".") == s[0] + "." + s[1] + "." + s[2]
  {
    assert s[1..][1..] == [s[2]];
    assert Intercalate(s[1..], ".") == s[1] + "." + s[2];
  }

  lemma IntercalateTwo(s: seq<string>)
    requires |s| == 2
    ensures Intercalate(s, ".") == s[0] + "." + s[1]
  {
    assert s[1..] == [s[1]];
  }

  /** A base package is added unless the list's `toString` text already contains it. */
  function AddCandidate(packages: seq<string>, basePackage: string): seq<string> {
    if Contains(ListToString(packages), basePackage) then packages else packages + [basePackage]
  }

  /** The candidate base packages of the entries, in first-seen order, or the exception an entry raises. */
  function Candidates(entries: seq<ZipEntry>): Result<seq<string>> {
    if entries == [] then Ok([])
    else
      var last := entries[|entries| - 1];
      match Candidates(entries[..|entries| - 1])
      case Thrown(e) => Thrown(e)
      case Ok(packages) =>
        if !IsClassEntry(last) then Ok(packages)
        else
          match BasePackageOf(EntryClassName(last))
          case Thrown(e) => Thrown(e)
          case Ok(b) => Ok(AddCandidate(packages, b))
  }

  predicate NoDuplicates(xs: seq<string>) {
    forall i, j :: 0 <= i < j < |xs| ==> xs[i] != xs[j]
  }

  /** The substring test never lets a base package in twice. */
  lemma {:induction false} CandidatesAreDistinct(entries: seq<ZipEntry>)
    ensures Candidates(entries).Ok? ==> NoDuplicates(Candidates(entries).value)
  {
    if entries != [] {
      var init := entries[..|entries| - 1];
      CandidatesAreDistinct(init);
      var last := entries[|entries| - 1];
      if Candidates(init).Ok? && IsClassEntry(last) && BasePackageOf(EntryClassName(last)).Ok? {
        var packages := Candidates(init).value;
        var b := BasePackageOf(EntryClassName(last)).value;
        if b in packages {
          ListToStringContains(packages, b);
        }
      }
    }
  }

  /** A candidate names its origin jar when its third segment occurs in the jar path. */
  predicate NamesJar(basePackage: string, jarPath: string) {
    var splits := Split(basePackage, '.');
    |splits| > 2 && Contains(jarPath, splits[2])
  }

  /** `packages[k]` names the jar and no earlier candidate does. */
  predicate FirstToNameJar(packages: seq<string>, k: int, jarPath: string)
    requires 0 <= k < |packages|
  {
    NamesJar(packages[k], jarPath) && forall j :: 0 <= j < k ==> !NamesJar(packages[j], jarPath)
  }

  /** The first candidate that names the jar, if any. */
  function FirstNamingJar(packages: seq<string>, jarPath: string): (r: Option<string>)
    ensures r.Some? ==> exists k :: 0 <= k < |packages| && packages[k] == r.value && FirstToNameJar(packages, k, jarPath)
    ensures r.None? ==> forall k :: 0 <= k < |packages| ==> !NamesJar(packages[k], jarPath)
  {
    if packages == [] then None
    else if NamesJar(packages[0], jarPath) then Some(packages[0])
    else
      var rest := FirstNamingJar(packages[1..], jarPath);
      assert rest.Some? ==> exists k :: 1 <= k < |packages| && packages[k] == rest.value && FirstToNameJar(packages, k, jarPath) by {
        if rest.Some? {
          var k :| 0 <= k < |packages[1..]| && packages[1..][k] == rest.value && FirstToNameJar(packages[1..], k, jarPath);
          assert FirstToNameJar(packages, k + 1, jarPath) by {
            forall j | 0 <= j < k + 1 ensures !NamesJar(packages[j], jarPath) {
              if j > 0 { assert packages[j] == packages[1..][j - 1]; }
            }
          }
        }
      }
      rest
  }

  /** The choice after the entry loop: the only candidate, or the first that names the jar, or none. */
  function ChooseBasePackage(packages: seq<string>, jarPath: string): (r: Option<string>)
    ensures |packages| == 0 ==> r == None
    ensures |packages| == 1 ==> r == Some(packages[0])
    ensures |packages| > 1 ==> r == FirstNamingJar(packages, jarPath)
    ensures r.Some? ==> r.value in packages
  {
    if |packages| == 1 then Some(packages[0])
    else if |packages| > 1 then FirstNamingJar(packages, jarPath)
    else None
  }

  /** `getBasePackageNameFromJar(jarPath, isMain)` over the entries of the archive; `isMain` has no effect. */
  method BasePackageNameFromJar(jarPath: string, isMain: bool, entries: seq<ZipEntry>) returns (r: Result<Option<string>>)
    ensures Candidates(entries).Thrown? ==> r == Thrown(Candidates(entries).exception)
    ensures Candidates(entries).Ok? ==> r == Ok(ChooseBasePackage(Candidates(entries).value, jarPath))
  {
    var basePackages: seq<string> := [];
    var i := 0;
    while i < |entries|
      invariant 0 <= i <= |entries|
      invariant Candidates(entries[..i]) == Ok(basePackages)
    {
      assert entries[..i + 1][..i] == entries[..i];
      var entry := entries[i];
      if IsClassEntry(entry) {
        var basePackage := BasePackageOf(EntryClassName(entry));
        if basePackage.Thrown? {
          CandidatesThrownPersists(entries, i + 1);
          return Thrown(basePackage.exception);
        }
        if !Contains(ListToString(basePackages), basePackage.value) {
          basePackages := basePackages + [basePackage.value];
        }
      }
      i := i + 1;
    }
    assert entries[..|entries|] == entries;
    r := Ok(ChooseBasePackage(basePackages, jarPath));
  }

  lemma {:induction false} CandidatesThrownPersists(entries: seq<ZipEntry>, k: nat)
    requires k <= |entries| && Candidates(entries[..k]).Thrown?
    ensures Candidates(entries) == Candidates(entries[..k])
    decreases |entries| - k
  {
    if k < |entries| {
      assert entries[..k + 1][..k] == entries[..k];
      CandidatesThrownPersists(entries, k + 1);
    } else {
      assert entries[..k] == entries;
    }
  }

  /**
   * The class name of one dex class type descriptor (`Lcom/example/Foo;`):
   * excluded when the dotted form contains `android.`, otherwise the dotted form
   * without its first and last character (`substring(1, length - 1)` throws on
   * fewer than two characters).
   */
  function ApkClassName(descriptor: string): (r: Option<Result<string>>)
    ensures r.None? <==> Contains(Replace(descriptor, '/', '.'), "android.")
    ensures r.Some? && r.value.Ok? ==> |r.value.value| + 2 == |descriptor|
  {
    var className := Replace(descriptor, '/', '.');
    if Contains(className, "android.") then None
    else if |className| < 2 then Some(Thrown(IndexOutOfBounds))
    else Some(Ok(className[1..|className| - 1]))
  }

  /** A descriptor built from a dotted class name gives that name back. */
  lemma ApkClassNameRoundTrip(c: string)
    requires '/' !in c
    requires !Contains("L" + c + ";", "android.")
    ensures ApkClassName("L" + Replace(c, '.', '/') + ";") == Some(Ok(c))
  {
    var d := "L" + Replace(c, '.', '/') + ";";
    assert Replace(d, '/', '.') == "L" + c + ";";
    assert ("L" + c + ";")[1..|c| + 1] == c;
  }

  /** The class names of the descriptors, in order, or the exception a short descriptor raises. */
  function ApkClassNames(descriptors: seq<string>): Result<seq<string>> {
    if descriptors == [] then Ok([])
    else
      match ApkClassNames(descriptors[..|descriptors| - 1])
      case Thrown(e) => Thrown(e)
      case Ok(names) =>
        match ApkClassName(descriptors[|descriptors| - 1])
        case None => Ok(names)
        case Some(Thrown(e)) => Thrown(e)
        case Some(Ok(n)) => Ok(names + [n])
  }

  lemma {:induction false} ApkClassNamesThrownPersists(descriptors: seq<string>, k: nat)
    requires k <= |descriptors| && ApkClassNames(descriptors[..k]).Thrown?
    ensures ApkClassNames(descriptors) == ApkClassNames(descriptors[..k])
    decreases |descriptors| - k
  {
    if k < |descriptors| {
      assert descriptors[..k + 1][..k] == descriptors[..k];
      ApkClassNamesThrownPersists(descriptors, k + 1);
    } else {
      assert descriptors[..k] == descriptors;
    }
  }

  /** `getClassNamesFromApkArchive` over the type descriptors of the classes in `classes.dex`. */
  method ClassNamesFromApkArchive(descriptors: seq<string>) returns (r: Result<seq<string>>)
    ensures r == ApkClassNames(descriptors)
    ensures r.Ok? ==> |r.value| <= |descriptors|
  {
    var classNames: seq<string> := [];
    var i := 0;
    while i < |descriptors|
      invariant 0 <= i <= |descriptors|
      invariant ApkClassNames(descriptors[..i]) == Ok(classNames)
      invariant |classNames| <= i
    {
      assert descriptors[..i + 1][..i] == descriptors[..i];
      var name := ApkClassName(descriptors[i]);
      if name.Some? {
        if name.value.Thrown? {
          ApkClassNamesThrownPersists(descriptors, i + 1);
          return Thrown(name.value.exception);
        }
        classNames := classNames + [name.value.value];
      }
      i := i + 1;
    }
    assert descriptors[..|descriptors|] == descriptors;
    r := Ok(classNames);
  }

  // ----------------------------------------------- getClassHierarchyAnalysis

  /** What the Soot scene says about a class: its superclass, if any, and its interfaces in order. */
  datatype ClassInfo = ClassInfo(superclass: Option<string>, interfaces: seq<string>)

  /** The parents the loop visits for one class: the superclass first, then each interface. */
  function ParentsOf(info: ClassInfo): seq<string> {
    (if info.superclass.Some? then [info.superclass.value] else []) + info.interfaces
  }

  /** The list a parent starts with: the one already in the map, or the parent alone. */
  function ListFor(m: map<string, seq<string>>, p: string): seq<string> {
    if p in m then m[p] else [p]
  }

  /** Recording `c` as a child of `p`: a new list begins with `p` itself. */
  function AddChild(m: map<string, seq<string>>, p: string, c: string): map<string, seq<string>> {
    m[p := ListFor(m, p) + [c]]
  }

  function AddToParents(m: map<string, seq<string>>, parents: seq<string>, c: string): map<string, seq<string>> {
    if parents == [] then m
    else AddChild(AddToParents(m, parents[..|parents| - 1], c), parents[|parents| - 1], c)
  }

  /** The map after the loop has processed `classNames` in order. */
  function Hierarchy(classNames: seq<string>, scene: string -> ClassInfo): map<string, seq<string>> {
    if classNames == [] then map[]
    else
      var c := classNames[|classNames| - 1];
      AddToParents(Hierarchy(classNames[..|classNames| - 1], scene), ParentsOf(scene(c)), c)
  }

  /** How often `p` occurs in `xs`. */
  function Count(p: string, xs: seq<string>): nat {
    if xs == [] then 0 else Count(p, xs[..|xs| - 1]) + (if xs[|xs| - 1] == p then 1 else 0)
  }

  /** `k` copies of `c`. */
  function Repeat(c: string, k: nat): (r: seq<string>)
    ensures |r| == k && forall i :: 0 <= i < k ==> r[i] == c
  {
    if k == 0 then [] else Repeat(c, k - 1) + [c]
  }

  /** Every parent named by some class of `classNames`. */
  function AllParents(classNames: seq<string>, scene: string -> ClassInfo): set<string> {
    if classNames == [] then {}
    else
      var ps := ParentsOf(scene(classNames[|classNames| - 1]));
      AllParents(classNames[..|classNames| - 1], scene) + (set p | p in ps)
  }

  /** The children of `p` in `classNames` order, a class once per time it names `p` as a parent. */
  function ChildrenOf(p: string, classNames: seq<string>, scene: string -> ClassInfo): seq<string> {
    if classNames == [] then []
    else
      var c := classNames[|classNames| - 1];
      ChildrenOf(p, classNames[..|classNames| - 1], scene) + Repeat(c, Count(p, ParentsOf(scene(c))))
  }

  lemma {:induction false} CountPresent(p: string, xs: seq<string>)
    ensures Count(p, xs) > 0 <==> p in xs
  {
    if xs != [] {
      CountPresent(p, xs[..|xs| - 1]);
      assert xs == xs[..|xs| - 1] + [xs[|xs| - 1]];
    }
  }

  lemma AddToParentsSnoc(m: map<string, seq<string>>, parents: seq<string>, p: string, c: string)
    ensures AddToParents(m, parents + [p], c) == AddChild(AddToParents(m, parents, c), p, c)
  {
    assert (parents + [p])[..|parents|] == parents;
  }

  /** Adding one class under each of its parents creates a list for each parent that has none. */
  lemma {:induction false} AddToParentsKeys(m: map<string, seq<string>>, parents: seq<string>, c: string)
    ensures AddToParents(m, parents, c).Keys == m.Keys + (set p | p in parents)
  {
    if parents != [] {
      var init := parents[..|parents| - 1];
      AddToParentsKeys(m, init, c);
      assert parents == init + [parents[|parents| - 1]];
      assert (set p | p in parents) == (set p | p in init) + {parents[|parents| - 1]};
    }
  }

  /** Adding one class under each of its parents appends it once per occurrence of that parent. */
  lemma {:induction false} AddToParentsSpec(m: map<string, seq<string>>, parents: seq<string>, c: string)
    ensures AddToParents(m, parents, c).Keys == m.Keys + (set p | p in parents)
    ensures forall p | p in AddToParents(m, parents, c) ::
      AddToParents(m, parents, c)[p] == ListFor(m, p) + Repeat(c, Count(p, parents))
  {
    AddToParentsKeys(m, parents, c);
    if parents != [] {
      var init := parents[..|parents| - 1];
      var last := parents[|parents| - 1];
      AddToParentsSpec(m, init, c);
      forall p | p in AddToParents(m, parents, c)
        ensures AddToParents(m, parents, c)[p] == ListFor(m, p) + Repeat(c, Count(p, parents))
      {
        assert parents == init + [last];
        AddChildAt(m, init, last, c, p);
      }
    }
  }

  lemma AddChildAt(m: map<string, seq<string>>, init: seq<string>, last: string, c: string, p: string)
    requires p in AddToParents(m, init, c) <==> p in m || p in init
    requires p in AddToParents(m, init, c) ==>
      AddToParents(m, init, c)[p] == ListFor(m, p) + Repeat(c, Count(p, init))
    requires p in AddToParents(m, init + [last], c)
    ensures AddToParents(m, init + [last], c)[p] == ListFor(m, p) + Repeat(c, Count(p, init + [last]))
  {
    var parents := init + [last];
    assert parents[..|parents| - 1] == init;
    var m1 := AddToParents(m, init, c);
    var m2 := AddToParents(m, parents, c);
    var k := Count(p, init);
    assert Count(p, parents) == k + (if last == p then 1 else 0);
    if p == last {
      assert Repeat(c, k + 1) == Repeat(c, k) + [c];
      if p !in m1 {
        CountPresent(p, init);
      }
    }
  }

  lemma ChildrenOfAbsent(p: string, classNames: seq<string>, scene: string -> ClassInfo)
    requires p !in AllParents(classNames, scene)
    ensures ChildrenOf(p, classNames, scene) == []
  {
    if classNames != [] {
      var ps := ParentsOf(scene(classNames[|classNames| - 1]));
      ChildrenOfAbsent(p, classNames[..|classNames| - 1], scene);
      CountPresent(p, ps);
    }
  }

  /**
   * The map holds an entry for exactly the parents some class names, and each
   * entry is the parent itself followed by its children in `classNames` order.
   */
  lemma {:induction false} HierarchyShape(classNames: seq<string>, scene: string -> ClassInfo)
    ensures Hierarchy(classNames, scene).Keys == AllParents(classNames, scene)
    ensures forall p | p in Hierarchy(classNames, scene) ::
      Hierarchy(classNames, scene)[p] == [p] + ChildrenOf(p, classNames, scene)
  {
    if classNames != [] {
      HierarchyShape(classNames[..|classNames| - 1], scene);
      HierarchyShapeStep(classNames, scene);
    }
  }

  lemma HierarchyShapeStep(classNames: seq<string>, scene: string -> ClassInfo)
    requires classNames != []
    requires var init := classNames[..|classNames| - 1];
      && Hierarchy(init, scene).Keys == AllParents(init, scene)
      && forall p | p in Hierarchy(init, scene) :: Hierarchy(init, scene)[p] == [p] + ChildrenOf(p, init, scene)
    ensures Hierarchy(classNames, scene).Keys == AllParents(classNames, scene)
    ensures forall p | p in Hierarchy(classNames, scene) ::
      Hierarchy(classNames, scene)[p] == [p] + ChildrenOf(p, classNames, scene)
  {
    var init := classNames[..|classNames| - 1];
    var c := classNames[|classNames| - 1];
    var h0 := Hierarchy(init, scene);
    AddToParentsSpec(h0, ParentsOf(scene(c)), c);
    var h := Hierarchy(classNames, scene);
    assert h == AddToParents(h0, ParentsOf(scene(c)), c);
    forall p | p in h
      ensures h[p] == [p] + ChildrenOf(p, classNames, scene)
    {
      assert ChildrenOf(p, classNames, scene) == ChildrenOf(p, init, scene) + Repeat(c, Count(p, ParentsOf(scene(c))));
      HierarchyEntry(init, c, scene, p, h0, h);
    }
  }

  /** One parent's entry after a class is filed, given the entry before. */
  lemma HierarchyEntry(init: seq<string>, c: string, scene: string -> ClassInfo, p: string,
                       h0: map<string, seq<string>>, h: map<string, seq<string>>)
    requires h0.Keys == AllParents(init, scene)
    requires p in h0 ==> h0[p] == [p] + ChildrenOf(p, init, scene)
    requires p in h && h[p] == ListFor(h0, p) + Repeat(c, Count(p, ParentsOf(scene(c))))
    ensures h[p] == [p] + ChildrenOf(p, init, scene) + Repeat(c, Count(p, ParentsOf(scene(c))))
  {
    if p !in h0 {
      ChildrenOfAbsent(p, init, scene);
    }
  }

  /** Whether some class of `classNames` is `x` and names `p` as a parent. */
  predicate NamesParent(classNames: seq<string>, scene: string -> ClassInfo, x: string, p: string) {
    exists i :: 0 <= i < |classNames| && classNames[i] == x && p in ParentsOf(scene(classNames[i]))
  }

  lemma NamesParentSnoc(classNames: seq<string>, scene: string -> ClassInfo, x: string, p: string)
    requires classNames != []
    ensures NamesParent(classNames, scene, x, p) <==>
      NamesParent(classNames[..|classNames| - 1], scene, x, p)
      || (classNames[|classNames| - 1] == x && p in ParentsOf(scene(x)))
  {
    var init := classNames[..|classNames| - 1];
    if NamesParent(classNames, scene, x, p) {
      var i :| 0 <= i < |classNames| && classNames[i] == x && p in ParentsOf(scene(classNames[i]));
      if i < |init| {
        assert init[i] == x;
      }
    }
    if NamesParent(init, scene, x, p) {
      var i :| 0 <= i < |init| && init[i] == x && p in ParentsOf(scene(init[i]));
      assert classNames[i] == x;
    }
  }

  /** A class is listed under `p` exactly when it is one of `classNames` and names `p` as a parent. */
  lemma {:induction false} ChildrenOfMembers(p: string, x: string, classNames: seq<string>, scene: string -> ClassInfo)
    ensures x in ChildrenOf(p, classNames, scene) <==> NamesParent(classNames, scene, x, p)
  {
    if classNames != [] {
      var c := classNames[|classNames| - 1];
      ChildrenOfMembers(p, x, classNames[..|classNames| - 1], scene);
      CountPresent(p, ParentsOf(scene(c)));
      NamesParentSnoc(classNames, scene, x, p);
    }
  }

  lemma HierarchySnoc(classNames: seq<string>, i: nat, scene: string -> ClassInfo)
    requires i < |classNames|
    ensures Hierarchy(classNames[..i + 1], scene)
         == AddToParents(Hierarchy(classNames[..i], scene), ParentsOf(scene(classNames[i])), classNames[i])
  {
    assert classNames[..i + 1][..i] == classNames[..i];
  }

  /** One iteration of the class loop: file `sClass` under its superclass, then under each interface. */
  method AddClassToHierarchy(classHierarchyMap: map<string, seq<string>>, sClass: string, info: ClassInfo)
    returns (r: map<string, seq<string>>)
    ensures r == AddToParents(classHierarchyMap, ParentsOf(info), sClass)
  {
    r := classHierarchyMap;
    ghost var supers: seq<string> := [];
    if info.superclass.Some? {
      r := FileUnder(r, info.superclass.value, sClass);
      supers := [info.superclass.value];
      assert supers[..0] == [];
    }
    r := FileUnderEach(r, info.interfaces, sClass);
    AddToParentsAppend(classHierarchyMap, supers, info.interfaces, sClass);
  }

  /** The loop over a class's interfaces. */
  method FileUnderEach(classHierarchyMap: map<string, seq<string>>, parents: seq<string>, sClass: string)
    returns (r: map<string, seq<string>>)
    ensures r == AddToParents(classHierarchyMap, parents, sClass)
  {
    r := classHierarchyMap;
    var j := 0;
    while j < |parents|
      invariant 0 <= j <= |parents|
      invariant r == AddToParents(classHierarchyMap, parents[..j], sClass)
    {
      ParentsPrefixStep(classHierarchyMap, parents, j, sClass, r);
      r := FileUnder(r, parents[j], sClass);
      j := j + 1;
    }
    assert parents[..j] == parents;
  }

  /** Filing under `xs + ys` is filing under `xs`, then under `ys`. */
  lemma {:induction false} AddToParentsAppend(m: map<string, seq<string>>, xs: seq<string>, ys: seq<string>, c: string)
    ensures AddToParents(m, xs + ys, c) == AddToParents(AddToParents(m, xs, c), ys, c)
    decreases |ys|
  {
    if ys == [] {
      assert xs + ys == xs;
    } else {
      var init := ys[..|ys| - 1];
      assert (xs + ys)[..|xs + ys| - 1] == xs + init;
      assert (xs + ys)[|xs + ys| - 1] == ys[|ys| - 1];
      AddToParentsAppend(m, xs, init, c);
    }
  }

  lemma ParentsPrefixStep(m: map<string, seq<string>>, ps: seq<string>, n: nat, c: string, r: map<string, seq<string>>)
    requires n < |ps| && r == AddToParents(m, ps[..n], c)
    ensures AddToParents(m, ps[..n + 1], c) == AddChild(r, ps[n], c)
  {
    assert ps[..n + 1][..n] == ps[..n];
  }

  /** Filing `sClass` under `parent`: the parent's list, or a new one holding the parent, gets `sClass` at its end. */
  method FileUnder(classHierarchyMap: map<string, seq<string>>, parent: string, sClass: string)
    returns (r: map<string, seq<string>>)
    ensures r.Keys == classHierarchyMap.Keys + {parent}
    ensures r[parent] == (if parent in classHierarchyMap then classHierarchyMap[parent] else [parent]) + [sClass]
    ensures forall p | p in classHierarchyMap && p != parent :: r[p] == classHierarchyMap[p]
    ensures r == AddChild(classHierarchyMap, parent, sClass)
  {
    var childList := if parent in classHierarchyMap then classHierarchyMap[parent] else [parent];
    r := classHierarchyMap[parent := childList + [sClass]];
  }

  /** `getClassHierarchyAnalysis(classNames)`, with classes identified by name and the scene as a parameter. */
  method ClassHierarchyAnalysis(classNames: seq<string>, scene: string -> ClassInfo)
    returns (classHierarchyMap: map<string, seq<string>>)
    ensures classHierarchyMap == Hierarchy(classNames, scene)
    ensures classHierarchyMap.Keys == AllParents(classNames, scene)
    ensures forall p | p in classHierarchyMap :: classHierarchyMap[p] == [p] + ChildrenOf(p, classNames, scene)
  {
    classHierarchyMap := map[];
    var i := 0;
    while i < |classNames|
      invariant 0 <= i <= |classNames|
      invariant classHierarchyMap == Hierarchy(classNames[..i], scene)
    {
      HierarchySnoc(classNames, i, scene);
      classHierarchyMap := AddClassToHierarchy(classHierarchyMap, classNames[i], scene(classNames[i]));
      i := i + 1;
    }
    assert classNames[..i] == classNames;
    HierarchyShape(classNames, scene);
  }
}
