# Cryptoguard core, modelled in Dafny

Cryptoguard is a static analyser for Java cryptographic API misuse. This
project models the parts of it that surround the program slicer:

- **Rule 5** (`DefaultExportGradeKeyFinder`). Each `KeyPairGenerator.getInstance`
  call site is sliced forward. A slice that never reaches
  `KeyPairGenerator.initialize(` means the provider's default key size is used.
  - A method key is recorded with its call site only when it passes the
    `methodsToLook` filter.
  - Each finding goes to exactly one route: printed, streamed, or collected.
- **The source-directory engine** (`SourceEntry`). It walks the modules of a
  build file and derives module names from dependency paths.
  - Each module not yet analysed gets every rule checker, in list order.
  - After the checkers, the two analysis caches are reset.
  - An exception ends the whole scan, but the analysis is still stopped.
- **The string and path helpers** of `Utils`: `join`, `trimFilePath`,
  `isSpecialInvokeOn`, the `@parameterN:` index parser, base source path
  choice, class and base-package names from archive entries, and the
  class-hierarchy map.
- **The output-type enumeration** `Listing`: flag lookup with its Legacy
  default, `toString`, the reflective choice of structure class, and
  `getInputHelp`.
- **The Legacy block report** (`block/Legacy.handleOutput`): findings
  grouped by rule and filtered by the paper's rule list, one block per rule.

## Layout

| file | module | contents |
|---|---|---|
| `wrappers.dfy` | `Wrappers` | `Option` (Java `null`), `Result` with the Java exceptions the modelled paths can raise, and `Enumerates`, the iteration order of a hash map's keys |
| `java_strings.dfy` | `JavaStrings` | the `java.lang.String` and `ArrayList.toString` behaviour the source relies on: `contains`, `indexOf`, `lastIndexOf`, `split` with its trailing-empty removal, `replace`, `Integer.toString`, `Integer.valueOf` |
| `findings.dfy` | `Findings` | `AnalysisIssue` |
| `key_finder.dfy` | `ExportGradeKey` | rule 5: the forward-slice map, the per-method verdict, the scan as a function (`Scan`), and the `DefaultExportGradeKeyFinder` class whose methods are proved against it |
| `source_entry.dfy` | `RuleEngine` | `NonStreamScan` and `StreamScan`. Their effects on shared state are kept as an event trace, proved against the function `ScanRun` |
| `utils.dfy` | `Utils` | the helpers: loops proved against reference functions, plus lemmas about those functions |
| `listing.dfy` | `Routing` | `Listing` and its lookups |
| `legacy_output.dfy` | `BlockLegacy` | `handleOutput`, proved against `LegacyReport` |

### How collaborators enter the model

Collaborators whose code is not part of this model are parameters:

- **Functions:** the slicer, the Soot scene (the methods and the parents of a
  class), the build-file parser, each rule checker, the marshalling of
  report lines, and the reflective class loader.
- **Order sequences:** a hash map's or hash set's iteration order is a sequence
  that `Enumerates` the keys. The model makes no claim that depends on which
  order it is.
- **Recorded effects:** the effects `SourceEntry` has on the world outside it
  are events in a `Trace` object: `startAnalysis`, each checker call, the two
  cache resets, and `stopAnalysis`.
- **Stream writer:** the stream writer of rule 5 is an object whose list of
  streamed findings grows.

## Model

| member | source | states |
|---|---|---|
| ExportGradeKey.AbstractMethodNeverFiled | main/src/main/java/main/rule/DefaultExportGradeKeyFinder.java:166-177 | the concrete guard of `getInfluencingInstructions`: an abstract method gets null and so is filed under no key |
| ExportGradeKey.PutSlicesSkipsAbstract | main/src/main/java/main/rule/DefaultExportGradeKeyFinder.java:147-152 | putting an abstract method leaves the slice map exactly as it was |
| ExportGradeKey.ForwardSliceConcreteKeys | main/src/main/java/main/rule/DefaultExportGradeKeyFinder.java:137-177 | a key is in the forward-slice map iff some concrete method has a slicing result whose `signature[callSiteLine]` is that key |
| ExportGradeKey.MethodKey | main/src/main/java/main/rule/DefaultExportGradeKeyFinder.java:151 | reference definition: the key a slice is filed under, the signature followed by `[line]`; `MethodKeyBracket` and `CallSiteOfMethodKey` state where its first `[` lies and what the call-site cut gives back |
| ExportGradeKey.PutSlices | main/src/main/java/main/rule/DefaultExportGradeKeyFinder.java:147-152 | reference definition of the method loop's map; `PutSlicesKeys` gives its keys in both directions and `PutSlicesSkipsAbstract` the effect of an abstract method |
| ExportGradeKey.ForwardSliceOf | main/src/main/java/main/rule/DefaultExportGradeKeyFinder.java:137-157 | reference definition of `getForwardSlice`'s result; `ForwardSliceKeys` and `ForwardSliceConcreteKeys` state its keys |
| ExportGradeKey.PutSlicesKeys | main/src/main/java/main/rule/DefaultExportGradeKeyFinder.java:147-152 | after the method loop, a key is in the map iff it was there before or some method's result is filed under `signature[line]` |
| ExportGradeKey.ForwardSliceKeys | main/src/main/java/main/rule/DefaultExportGradeKeyFinder.java:137-157 | the keys of `getForwardSlice` are exactly the `signature[callSiteLine]` keys of the concrete methods that the slicer finds something in |
| ExportGradeKey.SliceMethods | main/src/main/java/main/rule/DefaultExportGradeKeyFinder.java:147-153 | the inner method loop puts each method's slice in turn, a later method with the same key overwriting |
| ExportGradeKey.ForwardSlice | main/src/main/java/main/rule/DefaultExportGradeKeyFinder.java:137-157 | `getForwardSlice` visits every method of every class, in class order, through the concrete guard |
| ExportGradeKey.MethodKeyBracket | main/src/main/java/main/rule/DefaultExportGradeKeyFinder.java:151 | every method key contains a `[` no later than the end of the signature, and exactly there when the signature has none |
| ExportGradeKey.FirstInitialize | main/src/main/java/main/rule/DefaultExportGradeKeyFinder.java:72-80 | reference definition of where the unit loop breaks; `FirstInitializeSpec` states it is the first `initialize(` unit, or none iff there is none |
| ExportGradeKey.FirstInitializeSpec | main/src/main/java/main/rule/DefaultExportGradeKeyFinder.java:72-80 | the unit loop stops at the first unit whose text contains `initialize(`; there is none iff no unit contains it |
| ExportGradeKey.CallSiteOf | main/src/main/java/main/rule/DefaultExportGradeKeyFinder.java:76-77 | computing the call site throws iff the key has no `[` (`substring(0, -1)`) |
| ExportGradeKey.ScanUnits | main/src/main/java/main/rule/DefaultExportGradeKeyFinder.java:72-81 | the unit loop with its `break` yields a call site iff some unit calls `initialize(`, and that call site comes from the first such unit |
| ExportGradeKey.CallSiteOfMethodKey | main/src/main/java/main/rule/DefaultExportGradeKeyFinder.java:76-77 | for a signature without `[`, the call site is the method key with the slice's line replaced by the `initialize(` line; a signature with an array type is cut at its own first `[` |
| ExportGradeKey.Judge | main/src/main/java/main/rule/DefaultExportGradeKeyFinder.java:62-83 | reference definition of what one method key and its slice amount to; `JudgeDefaultKeySize` gives the violation condition in both directions and `JudgeInitialized` the call-site case |
| ExportGradeKey.Record | main/src/main/java/main/rule/DefaultExportGradeKeyFinder.java:72-101 | reference definition of one verdict's effect; `RecordOneMethod` states that it adds a call site or a finding, never both, and nothing after an exception |
| ExportGradeKey.Scan | main/src/main/java/main/rule/DefaultExportGradeKeyFinder.java:54-105 | reference definition of the rule's effect over its entries; `ScanAppend`, `ScanAfterThrow`, `ScanViolations`, `ScanCompletes` and `ScanNullMethodsToLook` state its meaning |
| ExportGradeKey.JudgeDefaultKeySize | main/src/main/java/main/rule/DefaultExportGradeKeyFinder.java:62-68 | a method is a rule-5 violation iff `methodsToLook` is set, its `toString` contains the key, the slice is non-empty, no unit calls `initialize(`, and the default is not taken as secure (source lines 62-68 and 83) |
| ExportGradeKey.JudgeInitialized | main/src/main/java/main/rule/DefaultExportGradeKeyFinder.java:72-80 | when the first `initialize(` unit is unit `i`, the verdict is the one call site `key-before-[` + `[line of unit i]`, and no finding |
| ExportGradeKey.RecordOneMethod | main/src/main/java/main/rule/DefaultExportGradeKeyFinder.java:62-80 | one method adds a call site or a finding, never both; an unlisted key or an empty slice changes nothing; nothing changes after an exception |
| ExportGradeKey.ScanAppend | main/src/main/java/main/rule/DefaultExportGradeKeyFinder.java:54-60 | scanning `xs` then `ys` is scanning `xs + ys`: entries are processed in list order, criterion after criterion |
| ExportGradeKey.ScanAfterThrow | main/src/main/java/main/rule/DefaultExportGradeKeyFinder.java:50 | once an exception is thrown, later entries change nothing |
| ExportGradeKey.ScanPrefixThrown | main/src/main/java/main/rule/DefaultExportGradeKeyFinder.java:50 | a scan whose prefix has thrown ends as that prefix ended |
| ExportGradeKey.ScanNullMethodsToLook | main/src/main/java/main/rule/DefaultExportGradeKeyFinder.java:62 | with `methodsToLook` null, the first key throws `NullPointerException` before any call site or finding is recorded |
| ExportGradeKey.ScanCompletes | main/src/main/java/main/rule/DefaultExportGradeKeyFinder.java:62-76 | when every key contains `[` and `methodsToLook` is set, the scan throws nothing |
| ExportGradeKey.ScanViolations | main/src/main/java/main/rule/DefaultExportGradeKeyFinder.java:83-101 | every reported key belongs to some entry that is a violation; a scan that does not throw reports every violation |
| ExportGradeKey.EntriesOfShape | main/src/main/java/main/rule/DefaultExportGradeKeyFinder.java:60-66 | the key loop visits entry `i` as key `i` of the iteration order with its slice |
| ExportGradeKey.RuleEntries | main/src/main/java/main/rule/DefaultExportGradeKeyFinder.java:54-60 | reference definition of the entries `checkRule` visits; `RuleEntriesPrefix` gives the criteria order and `RuleEntriesKeys` the shape of every key |
| ExportGradeKey.RuleEntriesPrefix | main/src/main/java/main/rule/DefaultExportGradeKeyFinder.java:54 | the entries of the first `c` criteria are a prefix of those of all three: criteria are processed in the declared order |
| ExportGradeKey.RuleEntriesKeys | main/src/main/java/main/rule/DefaultExportGradeKeyFinder.java:151 | every key the rule visits was built as `signature[line]`, so it contains `[` |
| ExportGradeKey.RuleOutcome | main/src/main/java/main/rule/DefaultExportGradeKeyFinder.java:62-77 | `checkRule` never throws once `methodsToLook` is set; with it null and any key present, it throws at the first key and records nothing |
| ExportGradeKey.IssuesFor | main/src/main/java/main/rule/DefaultExportGradeKeyFinder.java:91-95 | reference definition of the collected and streamed issues; `IssuesForShape` states one issue per key, in order, with its fields |
| ExportGradeKey.Report | main/src/main/java/main/rule/DefaultExportGradeKeyFinder.java:84-89 | reference definition of the printed lines; `ReportShape` states three lines per key in order |
| ExportGradeKey.IssuesForShape | main/src/main/java/main/rule/DefaultExportGradeKeyFinder.java:91-95 | one issue per reported key, in order, with the key as method, rule id 5, the cause `Cause: Used default key size` and the scan's source paths |
| ExportGradeKey.ReportShape | main/src/main/java/main/rule/DefaultExportGradeKeyFinder.java:84-89 | print mode prints three lines per reported key; block `i` is the banner, the violation text naming key `i`, and the banner |
| ExportGradeKey.OutputStep | main/src/main/java/main/rule/DefaultExportGradeKeyFinder.java:84-100 | one more reported key appends its three printed lines and its one issue |
| ExportGradeKey.StreamWriter.StreamIntoBody | main/src/main/java/main/rule/DefaultExportGradeKeyFinder.java:97-98 | streaming a finding appends it to the writer's findings |
| ExportGradeKey.DefaultExportGradeKeyFinder.constructor | main/src/main/java/main/rule/DefaultExportGradeKeyFinder.java:40-44 | a new checker is not secure by default, has a null `methodsToLook` and no call sites |
| ExportGradeKey.DefaultExportGradeKeyFinder.SetMethodsToLook | main/src/main/java/main/rule/DefaultExportGradeKeyFinder.java:115-117 | sets `methodsToLook` and nothing else |
| ExportGradeKey.DefaultExportGradeKeyFinder.SetDefaultSecure | main/src/main/java/main/rule/DefaultExportGradeKeyFinder.java:133-135 | sets `defaultSecure` and nothing else |
| ExportGradeKey.DefaultExportGradeKeyFinder.GetInitializationCallsites | main/src/main/java/main/rule/DefaultExportGradeKeyFinder.java:124-126 | returns the recorded call sites, oldest first |
| ExportGradeKey.DefaultExportGradeKeyFinder.ExamineMethod | main/src/main/java/main/rule/DefaultExportGradeKeyFinder.java:60-104 | the body of the key loop: its verdict is `Judge`; the call site list grows by the verdict's call site; the finding goes to print, stream or list by route, and to no other output |
| ExportGradeKey.DefaultExportGradeKeyFinder.CheckKey | main/src/main/java/main/rule/DefaultExportGradeKeyFinder.java:60-104 | one key keeps the object's state and outputs in step with the scan extended by that key |
| ExportGradeKey.DefaultExportGradeKeyFinder.NextKey | main/src/main/java/main/rule/DefaultExportGradeKeyFinder.java:60-105 | key `j` extends the scan of the keys before it; a verdict that throws ends the scan of all the keys |
| ExportGradeKey.DefaultExportGradeKeyFinder.CheckKeys | main/src/main/java/main/rule/DefaultExportGradeKeyFinder.java:60-105 | the key loop of one criterion leaves the state reflecting the scan of all its keys, and throws exactly when that scan does |
| ExportGradeKey.DefaultExportGradeKeyFinder.CheckRule | main/src/main/java/main/rule/DefaultExportGradeKeyFinder.java:50-108 | `checkRule`: call sites are appended in visit order over the three criteria; print mode prints the report and returns null; stream mode streams the findings and returns an empty list; otherwise the findings are the returned list; an exception propagates |
| RuleEngine.DependencyModuleName | main/src/main/java/main/rule/engine/SourceEntry.java:49-54 | the module name of a dependency path; it throws `IndexOutOfBounds` iff the path is not the root's own source folder and is shorter than the root plus 15 characters |
| RuleEngine.RootModuleName | main/src/main/java/main/rule/engine/SourceEntry.java:51-52 | the root's own `/src/main/java` gives the root's last path segment |
| RuleEngine.SubmoduleName | main/src/main/java/main/rule/engine/SourceEntry.java:53-54 | `<root>/<name>/src/main/java` gives `name` |
| RuleEngine.DependencyPass | main/src/main/java/main/rule/engine/SourceEntry.java:44-61 | reference definition of the dependency loop; `DependencyPassThrows` and `DependencyPassValue` state when it completes and what it appends |
| RuleEngine.DependencyPassThrows | main/src/main/java/main/rule/engine/SourceEntry.java:47-61 | the dependency loop completes iff there are no dependencies, or every name is derivable and the global dependency list is set |
| RuleEngine.DependencyPassValue | main/src/main/java/main/rule/engine/SourceEntry.java:47-61 | a completed loop appends each dependency's module name to `analyzedModules` in order, and one copy of the global dependency list per dependency to `otherdependencies` |
| RuleEngine.DependencyPassThrownPrefix | main/src/main/java/main/rule/engine/SourceEntry.java:47-61 | a dependency that throws ends the loop with that exception |
| RuleEngine.CheckerPass | main/src/main/java/main/rule/engine/SourceEntry.java:63-68 | reference definition of the checker loop; `CheckerPassEvents` and `CheckerPassHaltedFrom` state its calls, order and halting |
| RuleEngine.CheckerPassEvents | main/src/main/java/main/rule/engine/SourceEntry.java:63-68 | each checker is called once, in list order, with the same arguments; the loop completes iff no checker halts, and otherwise stops right after the first one that does |
| RuleEngine.CheckerPassHaltedFrom | main/src/main/java/main/rule/engine/SourceEntry.java:63-68 | after a checker halts, no later checker is called |
| RuleEngine.Visit | main/src/main/java/main/rule/engine/SourceEntry.java:40-72 | reference definition of one module's iteration; `VisitEvents` states the skip, the halt and the resets |
| RuleEngine.Modules | main/src/main/java/main/rule/engine/SourceEntry.java:34-77 | reference definition of the module loop inside the try; `ModulesHalted` and `ModulesHaltedPrefix` state that nothing runs after an exception |
| RuleEngine.ScanRun | main/src/main/java/main/rule/engine/SourceEntry.java:34-77 | reference definition of the whole try block; `ScanCollects`, `ScanKeeps` and `ScanCallsFrom` state what it collects and how each checker is called |
| RuleEngine.Collected | main/src/main/java/main/rule/engine/SourceEntry.java:66-67 | reference definition of the `issues.addAll` sequence: every checker result of a collecting call, in call order |
| RuleEngine.VisitEvents | main/src/main/java/main/rule/engine/SourceEntry.java:40-72 | an already-analysed module changes nothing; a failing dependency loop ends the scan; otherwise come all the checker calls and then both cache resets, with no reset after a checker that halts |
| RuleEngine.ModulesHalted | main/src/main/java/main/rule/engine/SourceEntry.java:34-74 | after an exception no further module is visited |
| RuleEngine.ModulesHaltedPrefix | main/src/main/java/main/rule/engine/SourceEntry.java:34-74 | a module loop whose prefix has thrown ends as that prefix ended |
| RuleEngine.ScanCollects | main/src/main/java/main/rule/engine/SourceEntry.java:63-67 | in collect mode, the issues are the checkers' results concatenated in call order, module after module |
| RuleEngine.ScanKeeps | main/src/main/java/main/rule/engine/SourceEntry.java:66-67 | a scan that prints, or one that streams, collects no issue |
| RuleEngine.ScanCallsFrom | main/src/main/java/main/rule/engine/SourceEntry.java:63-64 | every checker call has engine type `DIR` and the environment's `printOut` and source paths, and passes a stream writer exactly in a streaming scan (source lines 63-64 and 119-121) |
| RuleEngine.Trace.Emit | main/src/main/java/main/rule/engine/SourceEntry.java:63-71 | an effect is appended to the trace: a checker call or a cache reset |
| RuleEngine.DependencyLoop | main/src/main/java/main/rule/engine/SourceEntry.java:44-61 | the dependency loop computes `DependencyPass` |
| RuleEngine.CheckerLoop | main/src/main/java/main/rule/engine/SourceEntry.java:63-68 | the checker loop computes `CheckerPass`: the halt flag, the grown issue list, and the calls it appended to the trace |
| RuleEngine.VisitModule | main/src/main/java/main/rule/engine/SourceEntry.java:40-72 | one iteration of the module loop computes `Visit` on the trace and on the two lists |
| RuleEngine.ScanProject | main/src/main/java/main/rule/engine/SourceEntry.java:34-77 | the try block computes `ScanRun`: its issue list and the effects it appends to the trace |
| RuleEngine.NonStreamScan | main/src/main/java/main/rule/engine/SourceEntry.java:30-81 | returns null iff printing, otherwise the checkers' results in call order; `startAnalysis` comes first and `stopAnalysis` last, whether or not the scan threw |
| RuleEngine.StreamScan | main/src/main/java/main/rule/engine/SourceEntry.java:86-136 | the same scan with a stream writer passed to every checker, between `startAnalysis` and `stopAnalysis` |
| Utils.JoinedWith | main/src/main/java/main/util/Utils.java:527-535 | reference definition of `join`'s result; `JoinOfUniqueLast` and `JoinSuppressesDelimiterAfterCopiesOfLast` give its meaning against the ordinary join |
| Utils.JoinOfUniqueLast | main/src/main/java/main/util/Utils.java:527-535 | when the last element occurs only at the end, `join` is the ordinary delimiter-separated join, with no trailing delimiter |
| Utils.JoinSuppressesDelimiterAfterCopiesOfLast | main/src/main/java/main/util/Utils.java:527-535 | the delimiter is also left out after an earlier element equal to the last one: `join(d, [a, b, a])` is `a b d a`, not `a d b d a` |
| Utils.Join | main/src/main/java/main/util/Utils.java:527-535 | the StringBuilder loop: an empty list gives `""`; each element is followed by the delimiter unless it equals the last element; for a unique last element, this is the ordinary join |
| Utils.OsPathJoin | main/src/main/java/main/util/Utils.java:519-521 | `join` with the file separator |
| Utils.TrimFilePath | main/src/main/java/main/util/Utils.java:514-517 | the last separator-free segment, once trailing separators are ignored; a path without a separator is returned unchanged; a non-empty path made of separators only throws |
| Utils.IsSpecialInvokeOn | main/src/main/java/main/util/Utils.java:369-372 | reference definition of the textual test; `SpecialInvokeInContext` and `SpecialInvokeOnSuffix` state its all-inputs properties |
| Utils.SpecialInvokeInContext | main/src/main/java/main/util/Utils.java:369-372 | for every unit text that passes and all surrounding text, the text with that context added still passes |
| Utils.SpecialInvokeOnLocal | main/src/main/java/main/util/Utils.java:369-372 | an instance: a `specialinvoke` on a receiver whose text ends in the local is recognised, `$r1` counting for `r1` |
| Utils.SpecialInvokeOnSuffix | main/src/main/java/main/util/Utils.java:369-372 | for every unit text, receiver and local: passing for the receiver `p + local` implies passing for `local`, so the match is not on whole names |
| Utils.ParameterOf | main/src/main/java/main/util/Utils.java:351-355 | a use box contributes iff its text contains `@parameter`; a parsed index is a 32-bit value |
| Utils.ParameterOfReference | main/src/main/java/main/util/Utils.java:352-353 | `@parameterN: T` yields `N` |
| Utils.ScanOrder | main/src/main/java/main/util/Utils.java:347-350 | reference definition of the visiting order: units from last to first, each unit's boxes in order; `FindInfluencingParameters` is proved against it |
| Utils.Parameters | main/src/main/java/main/util/Utils.java:350-355 | reference definition of the indices read from the boxes; `ParametersCount`, `ParameterOf` and `ParameterOfReference` state its length and entries |
| Utils.ParametersCount | main/src/main/java/main/util/Utils.java:344-360 | one index per `@parameter` use box |
| Utils.FindInfluencingParameters | main/src/main/java/main/util/Utils.java:344-360 | units are scanned from last to first and each unit's boxes in order; the result is the indices in that order, or the first box's exception, and its length is the number of `@parameter` boxes |
| Utils.AllEqualTo | main/src/main/java/main/util/Utils.java:487-491 | the comparison loop with its `break` finds all paths equal iff every path equals the first |
| Utils.RetrieveBaseSourcePath | main/src/main/java/main/util/Utils.java:485-493 | the first path when all paths agree, `user.dir` otherwise, followed by the separator and the dependency path; an empty list throws |
| Utils.JarClassNames | main/src/main/java/main/util/Utils.java:54-58 | reference definition of the entry loop's names; `EntryClassName` and `JarClassNameRoundTrip` give each name's relation to its entry |
| Utils.EntryClassName | main/src/main/java/main/util/Utils.java:55-57 | the class name of a class entry has no `/`, and appending `.class` gives the entry name with `/` replaced by `.` |
| Utils.JarClassNameRoundTrip | main/src/main/java/main/util/Utils.java:55-57 | the entry of class `c` is read back as `c` |
| Utils.ClassNamesFromJarArchive | main/src/main/java/main/util/Utils.java:51-61 | class names come only from non-directory `.class` entries, in entry order |
| Utils.BasePackageOf | main/src/main/java/main/util/Utils.java:92-112 | the base package of a class name throws iff splitting it on `.` leaves nothing |
| Utils.BasePackageOfSegments | main/src/main/java/main/util/Utils.java:95-110 | more than three segments keep the first three, exactly three keep the first two, and fewer keep the first |
| Utils.Candidates | main/src/main/java/main/util/Utils.java:90-118 | reference definition of `basePackages` after the entry loop; `CandidatesAreDistinct` and `BasePackageOfSegments` state its contents |
| Utils.CandidatesAreDistinct | main/src/main/java/main/util/Utils.java:114-116 | the `toString` substring test never admits a candidate twice |
| Utils.FirstNamingJar | main/src/main/java/main/util/Utils.java:128-132 | the first candidate whose third segment occurs in the jar path, or none when no candidate qualifies |
| Utils.ChooseBasePackage | main/src/main/java/main/util/Utils.java:120-135 | no candidate gives null; one candidate gives it; several give the first that names the jar, or null |
| Utils.BasePackageNameFromJar | main/src/main/java/main/util/Utils.java:84-137 | the entry loop collects the candidates, then the choice is made; an entry that throws ends it |
| Utils.ApkClassName | main/src/main/java/main/util/Utils.java:153-157 | a descriptor is excluded iff its dotted form contains `android.`; a name read from any other descriptor is two characters shorter than it |
| Utils.ApkClassNameRoundTrip | main/src/main/java/main/util/Utils.java:154-156 | `L<c with / for .>;` gives back `c` |
| Utils.ApkClassNames | main/src/main/java/main/util/Utils.java:153-157 | reference definition of the descriptor loop's names; `ApkClassName` and `ApkClassNameRoundTrip` state each name |
| Utils.ClassNamesFromApkArchive | main/src/main/java/main/util/Utils.java:146-161 | the class loop over the dex descriptors, in order |
| Utils.AddToParents | main/src/main/java/main/util/Utils.java:254-282 | reference definition of filing one class under its parents; `AddToParentsSpec` states the resulting keys and lists |
| Utils.Hierarchy | main/src/main/java/main/util/Utils.java:245-286 | reference definition of `getClassHierarchyAnalysis`'s map; `HierarchyShape` and `ChildrenOfMembers` state its keys and lists |
| Utils.AddToParentsSpec | main/src/main/java/main/util/Utils.java:254-282 | filing one class under its parents creates a list for each new parent and appends the class once per time it names that parent |
| Utils.HierarchyShape | main/src/main/java/main/util/Utils.java:245-286 | the map has an entry for exactly the parents some class names; each entry is the parent itself, then its children in `classNames` order |
| Utils.ChildrenOfMembers | main/src/main/java/main/util/Utils.java:249-282 | a class is listed under `p` iff it is one of `classNames` and names `p` as superclass or interface |
| Utils.FileUnder | main/src/main/java/main/util/Utils.java:257-267 | the parent's list, or a new list holding the parent, gets the class at its end; other entries are unchanged |
| Utils.FileUnderEach | main/src/main/java/main/util/Utils.java:270-282 | the interface loop files the class under each interface in turn |
| Utils.AddClassToHierarchy | main/src/main/java/main/util/Utils.java:251-282 | one class is filed under its superclass first, then under each interface |
| Utils.ClassHierarchyAnalysis | main/src/main/java/main/util/Utils.java:245-286 | `getClassHierarchyAnalysis` builds the map `HierarchyShape` describes |
| JavaStrings.IndexOf | main/src/main/java/main/rule/DefaultExportGradeKeyFinder.java:76 | `indexOf` is -1 iff the character is absent; otherwise it is the index of its first occurrence |
| JavaStrings.LastIndexOf | main/src/main/java/main/rule/engine/SourceEntry.java:52 | `lastIndexOf` is -1 iff the character is absent; otherwise it is the index of its last occurrence |
| JavaStrings.DropPiecesLast | main/src/main/java/main/util/Utils.java:515-516 | `split` leaves nothing iff the text is non-empty and made of separators only; otherwise its last element is the last segment |
| JavaStrings.SplitOfIntercalate | main/src/main/java/main/util/Utils.java:95 | splitting a joined list of separator-free pieces, the last one non-empty, gives the pieces back |
| JavaStrings.ListToStringContains | main/src/main/java/main/util/Utils.java:114 | every element of a list occurs in the list's `toString` text |
| JavaStrings.IntToStringRoundTrip | main/src/main/java/main/util/Utils.java:353 | `Integer.valueOf` reads back what `Integer.toString` wrote, for every 32-bit value |
| JavaStrings.ParseInt | main/src/main/java/main/util/Utils.java:353 | every value read is within the 32-bit range; empty text fails with `NumberFormatException` |
| Routing.TypeName | main/src/main/java/main/frontEnd/MessagingSystem/routing/Listing.java:14-15 | the `type` attribute of each constant; `FlagsDistinct` states the names are distinct |
| Routing.Flag | main/src/main/java/main/frontEnd/MessagingSystem/routing/Listing.java:70-72 | `getFlag()` of each constant; `FlagsDistinct` states the flags are distinct and `RetrieveRoundTrip` that each flag selects its constant |
| Routing.RetrieveListingType | main/src/main/java/main/frontEnd/MessagingSystem/routing/Listing.java:55-61 | reference definition of `retrieveListingType`; `RetrieveKnownFlags`, `RetrieveDefault` and `RetrieveRoundTrip` state its meaning |
| Routing.ToString | main/src/main/java/main/frontEnd/MessagingSystem/routing/Listing.java:42-44 | reference definition of `toString`; `ToStringShape` and `ToStringDistinct` state its shape and that it tells the constants apart |
| Routing.ValuesComplete | main/src/main/java/main/frontEnd/MessagingSystem/routing/Listing.java:14-15 | `values()` lists each of the two types once |
| Routing.FlagsDistinct | main/src/main/java/main/frontEnd/MessagingSystem/routing/Listing.java:14-15 | different types have different flags and different type names |
| Routing.FirstWithFlag | main/src/main/java/main/frontEnd/MessagingSystem/routing/Listing.java:56-58 | the search finds a value whose flag equals the argument, or none iff no value's flag does; `null` matches nothing |
| Routing.RetrieveKnownFlags | main/src/main/java/main/frontEnd/MessagingSystem/routing/Listing.java:55-58 | `"L"` gives Legacy and `"SX"` gives ScarfXML |
| Routing.RetrieveDefault | main/src/main/java/main/frontEnd/MessagingSystem/routing/Listing.java:55-61 | any other flag, `null` included, gives Legacy, and only `"SX"` gives ScarfXML |
| Routing.RetrieveRoundTrip | main/src/main/java/main/frontEnd/MessagingSystem/routing/Listing.java:55-72 | `retrieveListingType(t.getFlag()) == t` for both types |
| Routing.ToStringShape | main/src/main/java/main/frontEnd/MessagingSystem/routing/Listing.java:42-44 | `toString` opens with the quoted type, closes with the quoted flag, and contains the flag |
| Routing.ToStringDistinct | main/src/main/java/main/frontEnd/MessagingSystem/routing/Listing.java:42-44 | different types print differently |
| Routing.StructureClass | main/src/main/java/main/frontEnd/MessagingSystem/routing/Listing.java:83-110 | the structure class is the type's own class or the package's Legacy class |
| Routing.StructureClassFallback | main/src/main/java/main/frontEnd/MessagingSystem/routing/Listing.java:83-110 | Legacy always gets the Legacy class; another type gets its own class iff that class loads |
| Routing.InputHelp | main/src/main/java/main/frontEnd/MessagingSystem/routing/Listing.java:117-133 | reference definition of `getInputHelp`'s text; `InputHelpOrder` and `HelpBlockFlag` state its layout |
| Routing.InputHelpOrder | main/src/main/java/main/frontEnd/MessagingSystem/routing/Listing.java:117-133 | the help is the header, then the Legacy block, then the ScarfXML block |
| Routing.HelpBlockFlag | main/src/main/java/main/frontEnd/MessagingSystem/routing/Listing.java:124-130 | each type's block contains `Flag : <flag>` |
| Routing.GetInputHelp | main/src/main/java/main/frontEnd/MessagingSystem/routing/Listing.java:117-133 | the StringBuilder loop builds the header and one block per value, in declaration order |
| BlockLegacy.OfRule | src/main/java/frontEnd/MessagingSystem/routing/outputStructures/block/Legacy.java:50-61 | one rule's findings in collection order; `OfRuleAppend` and `OfRuleMembers` state its order and members |
| BlockLegacy.Grouped | src/main/java/frontEnd/MessagingSystem/routing/outputStructures/block/Legacy.java:50-61 | reference definition of `groupedRules`; `GroupedSpec` states that its keys are the occurring rule ids and each list is `OfRule` |
| BlockLegacy.ShownRules | src/main/java/frontEnd/MessagingSystem/routing/outputStructures/block/Legacy.java:64-70 | reference definition of `ruleOrdering`; `ShownRulesSpec` states which rules it holds |
| BlockLegacy.OfRuleAppend | src/main/java/frontEnd/MessagingSystem/routing/outputStructures/block/Legacy.java:50-61 | filtering by rule keeps the collection's order |
| BlockLegacy.OfRuleMembers | src/main/java/frontEnd/MessagingSystem/routing/outputStructures/block/Legacy.java:50-61 | a rule's group holds exactly the collection's findings of that rule |
| BlockLegacy.GroupedSpec | src/main/java/frontEnd/MessagingSystem/routing/outputStructures/block/Legacy.java:50-61 | the grouping has a key for each rule number that occurs, and each list is that rule's findings in collection order |
| BlockLegacy.ShownRulesSpec | src/main/java/frontEnd/MessagingSystem/routing/outputStructures/block/Legacy.java:64-70 | a rule gets a block iff it is on the paper's list and some finding has it |
| BlockLegacy.Block | src/main/java/frontEnd/MessagingSystem/routing/outputStructures/block/Legacy.java:78-85 | reference definition of one rule's block; `AppendBlock` is proved against it |
| BlockLegacy.Blocks | src/main/java/frontEnd/MessagingSystem/routing/outputStructures/block/Legacy.java:76-86 | reference definition of the rule loop's text over the grouping; `BlocksByRule` states it equals `RuleBlocks` |
| BlockLegacy.LegacyReport | src/main/java/frontEnd/MessagingSystem/routing/outputStructures/block/Legacy.java:41-96 | reference definition of `handleOutput`'s text; `LegacyReportLayout` and `NoBlocks` state its layout |
| BlockLegacy.BlocksByRule | src/main/java/frontEnd/MessagingSystem/routing/outputStructures/block/Legacy.java:76-86 | the blocks built from the grouping are the blocks of the rules' findings filtered from the collection |
| BlockLegacy.LegacyReportLayout | src/main/java/frontEnd/MessagingSystem/routing/outputStructures/block/Legacy.java:41-96 | the report is the header, the Soot errors, one block per shown rule with its findings in order, then the times only when they are to be shown; every shown rule is on the paper's list and has a finding |
| BlockLegacy.NoBlocks | src/main/java/frontEnd/MessagingSystem/routing/outputStructures/block/Legacy.java:51-86 | a null collection, or one with no rule from the paper's list, prints no block |
| BlockLegacy.EntriesAppend | src/main/java/frontEnd/MessagingSystem/routing/outputStructures/block/Legacy.java:81-83 | a block has one marshalled entry per finding of its group, in order |
| BlockLegacy.GroupRules | src/main/java/frontEnd/MessagingSystem/routing/outputStructures/block/Legacy.java:50-61 | the grouping loop computes `Grouped`; a null collection leaves the map empty |
| BlockLegacy.OrderRules | src/main/java/frontEnd/MessagingSystem/routing/outputStructures/block/Legacy.java:64-70 | the loop over the paper's list collects the rules that have a group |
| BlockLegacy.AppendEntries | src/main/java/frontEnd/MessagingSystem/routing/outputStructures/block/Legacy.java:81-83 | the entry loop appends each finding's marshalled text in order |
| BlockLegacy.AppendBlock | src/main/java/frontEnd/MessagingSystem/routing/outputStructures/block/Legacy.java:78-85 | one block: the 39-`=` divider, the `***Violated Rule` line, the entries, the divider |
| BlockLegacy.AppendBlocks | src/main/java/frontEnd/MessagingSystem/routing/outputStructures/block/Legacy.java:76-86 | the rule loop appends one block per rule of the iteration order |
| BlockLegacy.HandleOutput | src/main/java/frontEnd/MessagingSystem/routing/outputStructures/block/Legacy.java:41-96 | `handleOutput` builds exactly `LegacyReport`, whose layout `LegacyReportLayout` states |

## Left out

- Iteration orders. The order of a `HashMap` key set or a `HashSet` is a
  parameter, constrained only to list each key once:
  - `keyOrders` in `CheckRule`;
  - `order` in `NonStreamScan` and `StreamScan`;
  - `ruleOrder` in `HandleOutput`.
- The slicer (`ForwardInfluenceInstructions`), `UniqueRuleAnalyzer.environmentRouting`,
  and Soot's `Scene`, `SootClass` and `SootMethod`. These are not part of this
  model, so they enter as parameters:
  - `CheckRule` takes the class names instead of the engine type and the jar
    and dependency paths;
  - a method's `toString()` is its `signature`;
  - the unit graph is not modelled.
- `BuildFileParserFactory` and `BuildFileParser` are not part of this model.
  The parser is a function from the project root to a module map or an
  exception.
- The rule checkers of `CommonRules`. The engine's view of a checker is a
  function from one call's arguments to its result. State a checker keeps
  across calls, as `DefaultExportGradeKeyFinder` does with its call sites, is
  not visible to the engine model.
- The two cache resets (`NamedMethodMap.clearCallerCalleeGraph`,
  `FieldInitializationInstructionMap.reset`) and `startAnalysis`/`stopAnalysis`.
  These are trace events, because their code is not part of this model.
- `StreamScan` prints each checker's class name to standard output. This line
  is not modelled, and neither is `e.printStackTrace()` in either scan.
- Printing cannot be observed in Dafny, so the standard-output lines become
  values:
  - `CheckRule` returns its print-mode lines as `printed`;
  - the stream writer is an object holding the streamed findings.
- `getInitializationCallsites` returns the live `ArrayList`, so a caller can
  change the checker's list through it. The model returns its value, not
  this aliasing.
- `Routing.StructureClass`: reflective loading (`Class.forName(...).newInstance()`)
  is the predicate `loads`, and the structure objects are their class names.
  `getInputHelp` takes each input structure's `helpInfo()` text as a parameter.
- Most of the Legacy report's text is produced by code that is not part of
  this model, so those texts are parameters: `marshallingHeader`,
  `marshallingSootErrors`, `marshalling`, `marshallingShowTimes`, and the rule
  heading from `RuleList`. The `ExceptionHandler` these can throw is not
  modelled.
- `JavaStrings.ParseInt`: `Integer.valueOf` is modelled for ASCII digits only.
  Java also accepts other Unicode decimal digits.
- RuleEngine.DependencyModuleName: lengths and indices count Unicode scalar values, where Java's `length()` and `substring` count UTF-16 code units. The two agree on text without supplementary characters (those outside the Basic Multilingual Plane). For a root that contains such a character and a dependency path outside the root, the model's name, and its throw condition, can differ from Java's.
- Utils.ParameterOf: the index text starts at offset 10 counted in scalar values, not UTF-16 units. It can differ from Java only when a supplementary character comes before the first `:`.
- Utils.ApkClassName: dropping the first and last character is counted in scalar values. Java drops a UTF-16 unit, so for a descriptor that ends in a supplementary character the results differ.
- The blocks of `handleOutput` come in the `HashSet` iteration order of `ruleOrdering`, which is the `ruleOrder` parameter. The paper's order only decides which rules are shown.
- `Utils.TrimFilePath`, `Utils.OsPathJoin`, `Utils.RetrieveBaseSourcePath`:
  the file separator is one character given as a parameter. `user.dir` is
  also a parameter.
- `Utils.ClassNamesFromJarArchive`, `Utils.BasePackageNameFromJar`,
  `Utils.ClassNamesFromApkArchive`: the zip and dex files are not read. Their
  entries, and the type descriptors of `classes.dex`, are given as lists, and
  the `IOException`s of reading are not modelled.
- `Utils.ClassHierarchyAnalysis`: classes are identified by name. The map's
  lists hold names where the source holds `SootClass` objects, and the scene
  gives each class's superclass and interfaces.
- The other members of `Utils` are not in the modelled core:
  - `buildSootClassPath`, `getJarsInDirectory`, `listf`, `getXmlFiles`;
  - `retrieveFullyQualifiedName`, `retrieveTrimmedSourcePaths`, `retrieveFullFilePath`;
  - `getClassNamesFromSnippet`, `getBasePackageNameFromApk`, `loadSootClasses`;
  - the `JAVA_HOME`, Android and Soot environment lookups.
  Each is file-system, environment or Soot access.
- `ApkEntry`, `ArgumentsCheck`, `JacksonSerializer`, the JAXB summary beans and
  the end-to-end tests are outside the modelled core.
- `SourceEntry` adds the names derived from the dependency paths to
  `analyzedModules`, not the module key itself. A module is therefore skipped
  only when an earlier module listed it as a dependency. The model does this as
  written.
