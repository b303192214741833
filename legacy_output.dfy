/**
 * The Legacy block output structure (`handleOutput`): the findings grouped by
 * rule number, in collection order within a rule, one block per rule of the
 * paper's list that has findings, between the header, the Soot errors and the
 * optional timing section. The marshalling of the header, of an individual
 * finding, of the Soot errors and of the times is done elsewhere, so those
 * texts are parameters.
 */
module BlockLegacy {
  import opened Wrappers
  import opened Findings

  /** The rules the report prints, as listed in the paper. */
  const PaperOrdering: seq<int> := [3, 14, 6, 4, 12, 7, 11, 13, 9, 1, 10, 8, 5, 2]

  /** `n` copies of `=`. */
  function EqualSigns(n: nat): (r: string)
    ensures |r| == n
  {
    if n == 0 then "" else EqualSigns(n - 1) + "="
  }

  /** The line around each rule's block: 39 `=` and a newline. */
  const Divider: string := EqualSigns(39) + "\n"

  // -------------------------------------------------------- grouping

  /** The findings of `issues` for rule `rule`, in collection order. */
  function OfRule(issues: seq<AnalysisIssue>, rule: int): seq<AnalysisIssue> {
    if issues == [] then []
    else
      var last := issues[|issues| - 1];
      OfRule(issues[..|issues| - 1], rule) + (if last.ruleId == rule then [last] else [])
  }

  /** Filtering a concatenation filters each part: the filter keeps the collection's order. */
  lemma {:induction false} OfRuleAppend(xs: seq<AnalysisIssue>, ys: seq<AnalysisIssue>, rule: int)
    ensures OfRule(xs + ys, rule) == OfRule(xs, rule) + OfRule(ys, rule)
  {
    if ys == [] {
      assert xs + ys == xs;
    } else {
      assert (xs + ys)[..|xs + ys| - 1] == xs + ys[..|ys| - 1];
      OfRuleAppend(xs, ys[..|ys| - 1], rule);
    }
  }

  /** A rule's group holds exactly the collection's findings of that rule. */
  lemma {:induction false} OfRuleMembers(issues: seq<AnalysisIssue>, rule: int, x: AnalysisIssue)
    ensures x in OfRule(issues, rule) <==> x in issues && x.ruleId == rule
  {
    if issues != [] {
      var init := issues[..|issues| - 1];
      OfRuleMembers(init, rule, x);
      assert issues == init + [issues[|issues| - 1]];
    }
  }

  /** The rule numbers that occur in `issues`. */
  function RuleIds(issues: seq<AnalysisIssue>): set<int> {
    set i | 0 <= i < |issues| :: issues[i].ruleId
  }

  /** A rule that no finding has gets an empty filter. */
  lemma {:induction false} OfRuleAbsent(issues: seq<AnalysisIssue>, rule: int)
    requires rule !in RuleIds(issues)
    ensures OfRule(issues, rule) == []
  {
    if issues != [] {
      var init := issues[..|issues| - 1];
      assert issues[|issues| - 1].ruleId in RuleIds(issues);
      assert RuleIds(init) <= RuleIds(issues) by {
        forall r | r in RuleIds(init) ensures r in RuleIds(issues) {
          var i :| 0 <= i < |init| && init[i].ruleId == r;
          assert issues[i] == init[i];
        }
      }
      OfRuleAbsent(init, rule);
    }
  }

  /** `groupedRules` after the grouping loop: a rule's list grows by each of its findings in turn. */
  function Grouped(issues: seq<AnalysisIssue>): map<int, seq<AnalysisIssue>> {
    if issues == [] then map[]
    else
      var g := Grouped(issues[..|issues| - 1]);
      var issue := issues[|issues| - 1];
      g[issue.ruleId := (if issue.ruleId in g then g[issue.ruleId] else []) + [issue]]
  }

  lemma RuleIdsSnoc(issues: seq<AnalysisIssue>)
    requires issues != []
    ensures RuleIds(issues) == RuleIds(issues[..|issues| - 1]) + {issues[|issues| - 1].ruleId}
  {
    var init := issues[..|issues| - 1];
    forall r | r in RuleIds(issues) ensures r in RuleIds(init) + {issues[|issues| - 1].ruleId} {
      var i :| 0 <= i < |issues| && issues[i].ruleId == r;
      if i < |init| {
        assert init[i] == issues[i];
      }
    }
    forall r | r in RuleIds(init) ensures r in RuleIds(issues) {
      var i :| 0 <= i < |init| && init[i].ruleId == r;
      assert issues[i] == init[i];
    }
  }

  /**
   * The grouping has a key for each rule number that occurs, and each key's
   * list is that rule's findings in collection order.
   */
  lemma {:induction false} GroupedSpec(issues: seq<AnalysisIssue>)
    ensures Grouped(issues).Keys == RuleIds(issues)
    ensures forall r | r in Grouped(issues) :: Grouped(issues)[r] == OfRule(issues, r)
  {
    if issues != [] {
      var init := issues[..|issues| - 1];
      GroupedSpec(init);
      RuleIdsSnoc(issues);
      var issue := issues[|issues| - 1];
      var g := Grouped(init);
      forall r | r in Grouped(issues) ensures Grouped(issues)[r] == OfRule(issues, r) {
        if r != issue.ruleId {
          assert Grouped(issues)[r] == g[r];
        } else if r !in g {
          OfRuleAbsent(init, r);
        }
      }
    }
  }

  /** A `null` collection groups like an empty one: nothing. */
  function CollectionOf(collection: Option<seq<AnalysisIssue>>): seq<AnalysisIssue> {
    if collection.Some? then collection.value else []
  }

  /** `ruleOrdering`: the rules of the paper's list that have a group. */
  function ShownRules(g: map<int, seq<AnalysisIssue>>): set<int> {
    set r | r in PaperOrdering && r in g
  }

  /**
   * A rule gets a block exactly when it is one of the paper's rules and some
   * finding has it; a finding of any other rule never appears.
   */
  lemma ShownRulesSpec(collection: Option<seq<AnalysisIssue>>, r: int)
    ensures r in ShownRules(Grouped(CollectionOf(collection))) <==>
      r in PaperOrdering && collection.Some? && exists i :: 0 <= i < |collection.value| && collection.value[i].ruleId == r
  {
    GroupedSpec(CollectionOf(collection));
  }

  // ----------------------------------------------------------- blocks

  /** The marshalled entries of one group, in order. */
  function Entries(group: seq<AnalysisIssue>, marshal: AnalysisIssue -> string): string {
    if group == [] then "" else Entries(group[..|group| - 1], marshal) + marshal(group[|group| - 1])
  }

  /** The `***Violated Rule` line of a rule. */
  function RuleLine(rule: int, heading: int -> string): string {
    "***Violated Rule " + heading(rule) + "\n"
  }

  /** The opening of a rule's block: the divider and the rule's line. */
  function BlockHead(rule: int, heading: int -> string): string {
    Divider + RuleLine(rule, heading)
  }

  /** One rule's block: its head, one entry per finding, the closing divider. */
  function Block(rule: int, group: seq<AnalysisIssue>, heading: int -> string, marshal: AnalysisIssue -> string): string {
    BlockHead(rule, heading) + Entries(group, marshal) + Divider
  }

  /** Every rule of `order` has a group in `g`. */
  predicate Grouping(order: seq<int>, g: map<int, seq<AnalysisIssue>>) {
    forall k :: 0 <= k < |order| ==> order[k] in g
  }

  /** The blocks for `order`, each from its group in `g`. */
  function Blocks(g: map<int, seq<AnalysisIssue>>, order: seq<int>, heading: int -> string, marshal: AnalysisIssue -> string): string
    requires Grouping(order, g)
  {
    if order == [] then ""
    else
      var r := order[|order| - 1];
      Blocks(g, order[..|order| - 1], heading, marshal) + Block(r, g[r], heading, marshal)
  }

  /** The blocks for `order`, each rule's block made straight from the collection. */
  function RuleBlocks(issues: seq<AnalysisIssue>, order: seq<int>, heading: int -> string, marshal: AnalysisIssue -> string): string {
    if order == [] then ""
    else
      var r := order[|order| - 1];
      RuleBlocks(issues, order[..|order| - 1], heading, marshal) + Block(r, OfRule(issues, r), heading, marshal)
  }

  /** The text `handleOutput` returns. */
  function LegacyReport(header: string, sootErrors: string, collection: Option<seq<AnalysisIssue>>, ruleOrder: seq<int>,
                        heading: int -> string, marshal: AnalysisIssue -> string, showTimes: bool, times: string): string
    requires Grouping(ruleOrder, Grouped(CollectionOf(collection)))
  {
    header + sootErrors + Blocks(Grouped(CollectionOf(collection)), ruleOrder, heading, marshal)
    + (if showTimes then times else "")
  }

  /** The grouped blocks are the blocks of the rules' findings, filtered from the collection in order. */
  lemma {:induction false} BlocksByRule(issues: seq<AnalysisIssue>, order: seq<int>, heading: int -> string, marshal: AnalysisIssue -> string)
    requires Grouping(order, Grouped(issues))
    ensures Blocks(Grouped(issues), order, heading, marshal) == RuleBlocks(issues, order, heading, marshal)
  {
    if order != [] {
      BlocksByRule(issues, order[..|order| - 1], heading, marshal);
      GroupedSpec(issues);
    }
  }

  /** A rule order that lists the shown rules names only rules with a group. */
  lemma EnumeratedGrouping(ruleOrder: seq<int>, g: map<int, seq<AnalysisIssue>>)
    requires Enumerates(ruleOrder, ShownRules(g))
    ensures Grouping(ruleOrder, g)
  {
    forall k | 0 <= k < |ruleOrder| ensures ruleOrder[k] in g {
      assert ruleOrder[k] in ruleOrder;
    }
  }

  /**
   * The report is the header, the Soot errors, then one block per shown rule
   * in `ruleOrder` with that rule's findings in collection order, then the
   * times when they are to be shown.
   */
  lemma LegacyReportLayout(header: string, sootErrors: string, collection: Option<seq<AnalysisIssue>>, ruleOrder: seq<int>,
                           heading: int -> string, marshal: AnalysisIssue -> string, showTimes: bool, times: string)
    requires Enumerates(ruleOrder, ShownRules(Grouped(CollectionOf(collection))))
    ensures Grouping(ruleOrder, Grouped(CollectionOf(collection)))
    ensures LegacyReport(header, sootErrors, collection, ruleOrder, heading, marshal, showTimes, times)
         == header + sootErrors + RuleBlocks(CollectionOf(collection), ruleOrder, heading, marshal) + (if showTimes then times else "")
    ensures forall k :: 0 <= k < |ruleOrder| ==> ruleOrder[k] in PaperOrdering && ruleOrder[k] in RuleIds(CollectionOf(collection))
  {
    var g := Grouped(CollectionOf(collection));
    EnumeratedGrouping(ruleOrder, g);
    BlocksByRule(CollectionOf(collection), ruleOrder, heading, marshal);
    GroupedSpec(CollectionOf(collection));
    forall k | 0 <= k < |ruleOrder| ensures ruleOrder[k] in PaperOrdering && ruleOrder[k] in RuleIds(CollectionOf(collection)) {
      assert ruleOrder[k] in ruleOrder;
    }
  }

  /** A `null` collection, or one with no rule of the paper's list, prints no block. */
  lemma NoBlocks(header: string, sootErrors: string, collection: Option<seq<AnalysisIssue>>, ruleOrder: seq<int>,
                 heading: int -> string, marshal: AnalysisIssue -> string, showTimes: bool, times: string)
    requires Enumerates(ruleOrder, ShownRules(Grouped(CollectionOf(collection))))
    requires collection.None? || forall i :: 0 <= i < |collection.value| ==> collection.value[i].ruleId !in PaperOrdering
    ensures ruleOrder == []
    ensures Grouping(ruleOrder, Grouped(CollectionOf(collection)))
    ensures LegacyReport(header, sootErrors, collection, ruleOrder, heading, marshal, showTimes, times)
         == header + sootErrors + (if showTimes then times else "")
  {
    if ruleOrder != [] {
      var r := ruleOrder[0];
      assert r in ruleOrder;
      ShownRulesSpec(collection, r);
      assert false;
    }
  }

  /** A block holds its rule's findings, one marshalled entry per finding, in collection order. */
  lemma {:induction false} EntriesAppend(xs: seq<AnalysisIssue>, ys: seq<AnalysisIssue>, marshal: AnalysisIssue -> string)
    ensures Entries(xs + ys, marshal) == Entries(xs, marshal) + Entries(ys, marshal)
  {
    if ys == [] {
      assert xs + ys == xs;
    } else {
      assert (xs + ys)[..|xs + ys| - 1] == xs + ys[..|ys| - 1];
      EntriesAppend(xs, ys[..|ys| - 1], marshal);
    }
  }

  // ---------------------------------------------------------- methods

  /** The grouping loop; a `null` collection leaves the map empty. */
  method GroupRules(collection: Option<seq<AnalysisIssue>>) returns (groupedRules: map<int, seq<AnalysisIssue>>)
    ensures groupedRules == Grouped(CollectionOf(collection))
  {
    groupedRules := map[];
    if collection.Some? {
      var issues := collection.value;
      var i := 0;
      while i < |issues|
        invariant 0 <= i <= |issues|
        invariant groupedRules == Grouped(issues[..i])
      {
        GroupedStep(issues, i);
        var issue := issues[i];
        var tempList;
        if issue.ruleId in groupedRules {
          tempList := groupedRules[issue.ruleId] + [issue];
        } else {
          tempList := [issue];
          assert tempList == [] + [issue];
        }
        groupedRules := groupedRules[issue.ruleId := tempList];
        i := i + 1;
      }
      assert issues[..i] == issues;
    }
  }

  lemma GroupedStep(issues: seq<AnalysisIssue>, i: nat)
    requires i < |issues|
    ensures var g := Grouped(issues[..i]);
      Grouped(issues[..i + 1]) == g[issues[i].ruleId := (if issues[i].ruleId in g then g[issues[i].ruleId] else []) + [issues[i]]]
  {
    assert issues[..i + 1][..i] == issues[..i];
  }

  /** The loop over the paper's list that fills `ruleOrdering`. */
  method OrderRules(groupedRules: map<int, seq<AnalysisIssue>>) returns (ruleOrdering: set<int>)
    ensures ruleOrdering == ShownRules(groupedRules)
  {
    ruleOrdering := {};
    var k := 0;
    while k < |PaperOrdering|
      invariant 0 <= k <= |PaperOrdering|
      invariant ruleOrdering == set r | r in PaperOrdering[..k] && r in groupedRules
    {
      assert PaperOrdering[..k + 1] == PaperOrdering[..k] + [PaperOrdering[k]];
      var rule := PaperOrdering[k];
      if rule in groupedRules {
        ruleOrdering := ruleOrdering + {rule};
      }
      k := k + 1;
    }
    assert PaperOrdering[..k] == PaperOrdering;
  }

  /** The entry loop of one block. */
  method AppendEntries(output: string, group: seq<AnalysisIssue>, marshal: AnalysisIssue -> string) returns (out: string)
    ensures out == output + Entries(group, marshal)
  {
    out := output;
    var j := 0;
    while j < |group|
      invariant 0 <= j <= |group|
      invariant out == output + Entries(group[..j], marshal)
    {
      assert group[..j + 1][..j] == group[..j];
      out := out + marshal(group[j]);
      j := j + 1;
    }
    assert group[..j] == group;
  }

  /** The body of the rule loop: one rule's block. */
  method AppendBlock(output: string, ruleNumber: int, group: seq<AnalysisIssue>, heading: int -> string, marshal: AnalysisIssue -> string)
    returns (out: string)
    ensures out == output + Block(ruleNumber, group, heading, marshal)
  {
    out := output + Divider;
    out := out + ("***Violated Rule " + heading(ruleNumber) + "\n");
    out := AppendEntries(out, group, marshal);
    out := out + Divider;
    Regroup(output, Divider, RuleLine(ruleNumber, heading), Entries(group, marshal), Divider);
  }

  lemma Regroup(a: string, b: string, c: string, d: string, e: string)
    ensures a + b + c + d + e == a + ((b + c) + d + e)
  {
  }

  /** The rule loop: the blocks of the rules in `ruleOrder`, each from its group. */
  method AppendBlocks(output: string, groupedRules: map<int, seq<AnalysisIssue>>, ruleOrder: seq<int>,
                      heading: int -> string, marshal: AnalysisIssue -> string)
    returns (out: string)
    requires Grouping(ruleOrder, groupedRules)
    ensures out == output + Blocks(groupedRules, ruleOrder, heading, marshal)
  {
    out := output;
    var k := 0;
    while k < |ruleOrder|
      invariant 0 <= k <= |ruleOrder|
      invariant Grouping(ruleOrder[..k], groupedRules)
      invariant out == output + Blocks(groupedRules, ruleOrder[..k], heading, marshal)
    {
      var ruleNumber := ruleOrder[k];
      BlocksStep(output, groupedRules, ruleOrder, k, heading, marshal, out);
      out := AppendBlock(out, ruleNumber, groupedRules[ruleNumber], heading, marshal);
      k := k + 1;
    }
    assert ruleOrder[..k] == ruleOrder;
  }

  /**
   * `handleOutput()`. `ruleOrder` is the iteration order of the `ruleOrdering`
   * hash set that `OrderRules` fills: any order listing each shown rule once.
   * The paper's order `PaperOrdering` only decides which rules are shown;
   * once the rules are in the hash set, the blocks need not come in that order.
   * `header`, `sootErrors`, `marshal` and `times` are what the common Legacy
   * marshalling produces and `heading` the rule's id and description.
   */
  method HandleOutput(header: string, sootErrors: string, collection: Option<seq<AnalysisIssue>>, ruleOrder: seq<int>,
                      heading: int -> string, marshal: AnalysisIssue -> string, showTimes: bool, times: string)
    returns (output: string)
    requires Enumerates(ruleOrder, ShownRules(Grouped(CollectionOf(collection))))
    ensures Grouping(ruleOrder, Grouped(CollectionOf(collection)))
    ensures output == LegacyReport(header, sootErrors, collection, ruleOrder, heading, marshal, showTimes, times)
  {
    output := header;
    output := output + sootErrors;
    var groupedRules := GroupRules(collection);
    var ruleOrdering := OrderRules(groupedRules);
    EnumeratedGrouping(ruleOrder, groupedRules);
    output := AppendBlocks(output, groupedRules, ruleOrder, heading, marshal);
    if showTimes {
      output := output + times;
    }
  }

  lemma BlocksStep(output: string, g: map<int, seq<AnalysisIssue>>, order: seq<int>, k: nat,
                   heading: int -> string, marshal: AnalysisIssue -> string, out: string)
    requires Grouping(order, g) && k < |order| && Grouping(order[..k], g)
    requires out == output + Blocks(g, order[..k], heading, marshal)
    ensures Grouping(order[..k + 1], g)
    ensures out + Block(order[k], g[order[k]], heading, marshal) == output + Blocks(g, order[..k + 1], heading, marshal)
  {
    assert order[..k + 1][..k] == order[..k];
  }
}
