/**
 * The output types a user can choose (`Listing`): each value's type name and
 * command-line flag, the lookup by flag with its Legacy default, the JSON-like
 * `toString`, the reflective choice of the input and output structure classes,
 * and the help text built over all values.
 */
module Routing {
  import opened Wrappers
  import opened JavaStrings

  /** The messaging types, in declaration order. */
  datatype Listing = Legacy | ScarfXML

  /** `Listing.values()`. */
  const Values: seq<Listing> := [Legacy, ScarfXML]

  /** The `type` attribute: the simple name of the structure classes of this type. */
  function TypeName(l: Listing): string {
    match l
    case Legacy => "Legacy"
    case ScarfXML => "ScarfXML"
  }

  /** `getFlag()`. */
  function Flag(l: Listing): string {
    match l
    case Legacy => "L"
    case ScarfXML => "SX"
  }

  /** Every value appears once in `values()`. */
  lemma ValuesComplete(l: Listing)
    ensures l in Values
    ensures |Values| == 2 && Values[0] != Values[1]
  {
  }

  /** Different values have different flags and different type names. */
  lemma FlagsDistinct(a: Listing, b: Listing)
    ensures Flag(a) == Flag(b) <==> a == b
    ensures TypeName(a) == TypeName(b) <==> a == b
  {
    if a != b {
      assert Flag(a)[0] != Flag(b)[0] || |Flag(a)| != |Flag(b)|;
      assert TypeName(a)[0] != TypeName(b)[0];
    }
  }

  // ---------------------------------------------------------- lookup

  /** The first of `vs` whose flag equals `flag`; `equals(null)` is false for every flag. */
  function FirstWithFlag(vs: seq<Listing>, flag: Option<string>): (r: Option<Listing>)
    ensures r.Some? ==> r.value in vs && flag == Some(Flag(r.value))
    ensures r.None? <==> forall i :: 0 <= i < |vs| ==> flag != Some(Flag(vs[i]))
  {
    if vs == [] then None
    else if flag == Some(Flag(vs[0])) then Some(vs[0])
    else FirstWithFlag(vs[1..], flag)
  }

  /** `retrieveListingType(flag)`: the value with that flag, otherwise Legacy. */
  function RetrieveListingType(flag: Option<string>): Listing {
    match FirstWithFlag(Values, flag)
    case Some(l) => l
    case None => Legacy
  }

  /** `"L"` selects Legacy and `"SX"` selects ScarfXML. */
  lemma RetrieveKnownFlags()
    ensures RetrieveListingType(Some("L")) == Legacy
    ensures RetrieveListingType(Some("SX")) == ScarfXML
  {
    assert Flag(Values[0]) == "L";
    assert Flag(Values[1]) == "SX";
  }

  /** Every other flag, `null` included, falls back to Legacy, and only `"SX"` gives ScarfXML. */
  lemma {:induction false} RetrieveDefault(flag: Option<string>)
    ensures flag != Some("L") && flag != Some("SX") ==> RetrieveListingType(flag) == Legacy
    ensures RetrieveListingType(flag) == ScarfXML <==> flag == Some("SX")
  {
    if flag != Some("L") && flag != Some("SX") {
      assert forall i :: 0 <= i < |Values| ==> flag != Some(Flag(Values[i]));
    }
    if flag == Some("SX") {
      RetrieveKnownFlags();
    }
  }

  /** Looking a value up by its own flag gives the value back. */
  lemma RetrieveRoundTrip(l: Listing)
    ensures RetrieveListingType(Some(Flag(l))) == l
  {
    RetrieveKnownFlags();
  }

  // -------------------------------------------------------- toString

  /** `toString()`: `{ "type": "<type>", "flag": "<flag>"}`. */
  function ToString(l: Listing): string {
    "{ \"type\": \"" + TypeName(l) + "\", \"flag\": \"" + Flag(l) + "\"}"
  }

  /** The text opens with the quoted type and closes with the quoted flag. */
  lemma ToStringShape(l: Listing)
    ensures StartsWith(ToString(l), "{ \"type\": \"" + TypeName(l) + "\"")
    ensures EndsWith(ToString(l), "\"flag\": \"" + Flag(l) + "\"}")
    ensures Contains(ToString(l), Flag(l))
  {
    var r := ToString(l);
    var open := "{ \"type\": \"" + TypeName(l) + "\"";
    var close := "\"flag\": \"" + Flag(l) + "\"}";
    assert r == open + ", " + close;
    assert r[..|open|] == open;
    assert r[|r| - |close|..] == close;
    var at := |r| - |close| + 9;
    assert r[at..at + |Flag(l)|] == Flag(l);
    assert OccursAt(r, Flag(l), at);
  }

  /** Different values print differently. */
  lemma ToStringDistinct(a: Listing, b: Listing)
    ensures ToString(a) == ToString(b) <==> a == b
  {
    if a != b {
      assert ToString(a)[11] != ToString(b)[11];
    }
  }

  // -------------------------------------------- messaging structures

  const OutputStructures: string := "main.frontEnd.MessagingSystem.routing.outputStructures."
  const InputStructures: string := "main.frontEnd.MessagingSystem.routing.inputStructures."

  /**
   * `getTypeOfMessagingOutput` / `getTypeOfMessagingInput`: the class of the
   * package named after the type when `loads` says it can be instantiated,
   * otherwise the package's Legacy class.
   */
  function StructureClass(package: string, l: Listing, loads: string -> bool): (r: string)
    ensures r == package + TypeName(l) || r == package + "Legacy"
  {
    var name := package + TypeName(l);
    if loads(name) then name else package + "Legacy"
  }

  /** Legacy always gets the Legacy class; another type gets its own class exactly when it loads. */
  lemma StructureClassFallback(package: string, l: Listing, loads: string -> bool)
    ensures l == Legacy ==> StructureClass(package, l, loads) == package + "Legacy"
    ensures l != Legacy ==> (StructureClass(package, l, loads) == package + TypeName(l) <==> loads(package + TypeName(l)))
  {
    if l != Legacy {
      FlagsDistinct(l, Legacy);
      assert TypeName(l) != "Legacy";
      assert package + TypeName(l) != package + "Legacy" by {
        var i :| 0 <= i < |TypeName(l)| && (i >= 6 || TypeName(l)[i] != "Legacy"[i]);
        if i < 6 {
          assert (package + TypeName(l))[|package| + i] != (package + "Legacy")[|package| + i];
        }
      }
    }
  }

  // ------------------------------------------------------------- help

  const HelpRule: string := "===========================================================\n"

  const HelpHeader: string :=
    HelpRule
    + "key: {}=required ()=optional \n"
    + "General Useage : java -jar {thisJar} {.apk/.jar file or sourcecode dir} {dir of dependencies, \"\" if there are none} (outputType) ({required depending on the output Type}) \n"
    + HelpRule + "\n"

  /** The opening rule and the banner with the type name. */
  function HelpTitle(l: Listing): string {
    HelpRule + "===============" + TypeName(l) + "===============\n"
  }

  function FlagLine(l: Listing): string {
    "Flag : " + Flag(l) + "\n"
  }

  /** The `helpInfo()` text of the type's input structure and the closing rule. */
  function HelpInfoLines(info: string): string {
    info + "\n" + HelpRule + "\n"
  }

  /** The help block of one type. */
  function HelpBlock(l: Listing, info: string): string {
    HelpTitle(l) + FlagLine(l) + HelpInfoLines(info)
  }

  /** The blocks of `vs` in order. */
  function HelpBlocks(vs: seq<Listing>, helpInfo: Listing -> string): string {
    if vs == [] then "" else HelpBlocks(vs[..|vs| - 1], helpInfo) + HelpBlock(vs[|vs| - 1], helpInfo(vs[|vs| - 1]))
  }

  /** The whole help text, `helpInfo` standing for each type's reflectively loaded input structure. */
  function InputHelp(helpInfo: Listing -> string): string {
    HelpHeader + HelpBlocks(Values, helpInfo)
  }

  /** The help is the header, then the Legacy block, then the ScarfXML block. */
  lemma InputHelpOrder(helpInfo: Listing -> string)
    ensures InputHelp(helpInfo) == HelpHeader + HelpBlock(Legacy, helpInfo(Legacy)) + HelpBlock(ScarfXML, helpInfo(ScarfXML))
  {
    assert Values[..|Values| - 1] == [Legacy];
    assert [Legacy][..0] == [];
    assert HelpBlocks([Legacy], helpInfo) == HelpBlock(Legacy, helpInfo(Legacy));
    assert HelpBlocks(Values, helpInfo) == HelpBlocks([Legacy], helpInfo) + HelpBlock(ScarfXML, helpInfo(ScarfXML));
  }

  /** Each type's block carries its flag line. */
  lemma HelpBlockFlag(l: Listing, info: string)
    ensures Contains(HelpBlock(l, info), "Flag : " + Flag(l) + "\n")
  {
    var line := FlagLine(l);
    assert OccursAt(line, line, 0);
    ContainsInfix(HelpTitle(l), line, HelpInfoLines(info), line);
  }

  lemma HelpBlocksStep(vs: seq<Listing>, i: nat, helpInfo: Listing -> string)
    requires i < |vs|
    ensures HelpBlocks(vs[..i + 1], helpInfo) == HelpBlocks(vs[..i], helpInfo) + HelpBlock(vs[i], helpInfo(vs[i]))
  {
    assert vs[..i + 1][..i] == vs[..i];
  }

  /** Appending a block's three parts one after the other appends the block. */
  lemma AppendBlock(header: string, blocks: string, title: string, flag: string, info: string)
    ensures header + blocks + title + flag + info == header + (blocks + (title + flag + info))
  {
  }

  /** `getInputHelp()`: the header, then one block per value in declaration order. */
  method GetInputHelp(helpInfo: Listing -> string) returns (help: string)
    ensures help == InputHelp(helpInfo)
  {
    help := HelpHeader;
    var i := 0;
    while i < |Values|
      invariant 0 <= i <= |Values|
      invariant help == HelpHeader + HelpBlocks(Values[..i], helpInfo)
    {
      var l := Values[i];
      ghost var blocks := HelpBlocks(Values[..i], helpInfo);
      help := help + HelpTitle(l);
      help := help + FlagLine(l);
      help := help + HelpInfoLines(helpInfo(l));
      HelpBlocksStep(Values, i, helpInfo);
      AppendBlock(HelpHeader, blocks, HelpTitle(l), FlagLine(l), HelpInfoLines(helpInfo(l)));
      i := i + 1;
    }
    assert Values[..i] == Values;
  }
}
