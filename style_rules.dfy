/**
 * The stylesheet text that `MyPlugin.updateStyles` writes into its style
 * element: an optional base rule hiding every file-tree item, and one
 * exception rule per configured path prefix, each of which gives the items
 * of that subtree the opposite display.
 */
module StyleRules {
  import opened Wrappers
  import opened Text

  /** The two values of the CSS `display` property the rules use. */
  datatype Display = DisplayNone | DisplayBlock

  function Keyword(d: Display): string {
    match d
    case DisplayNone => "none"
    case DisplayBlock => "block"
  }

  /**
   * The display the exception rules give: `block` in hide-by-default mode,
   * where they undo the base rule, and `none` otherwise (main.ts:57, main.ts:61).
   */
  function ExceptionDisplay(hideByDefault: bool): Display {
    if hideByDefault then DisplayBlock else DisplayNone
  }

  /** The base rule of hide-by-default mode. */
  const BaseRule: string := ".tree-item { display: none }"

  /**
   * The fixed whitespace of the hide-by-default template literal
   * (main.ts:54-59): its lines are indented by five tabs, and its closing
   * line by four.
   */
  const Indent: string := "\t\t\t\t\t"
  const ClosingIndent: string := "\t\t\t\t"
  const LeadIndent: string := "\n" + Indent
  const HideLead: string := LeadIndent + BaseRule + "\n" + Indent
  const HideTrail: string := "\n" + ClosingIndent

  /** The text of an exception rule before the path, and after it up to the keyword. */
  const RulePrefix: string := ".tree-item:has(> .tree-item-self[data-path^=\""
  const RuleInfix: string := "\"]) { display: "
  const RuleSuffix: string := " }"

  function RuleTail(d: Display): string {
    RuleInfix + Keyword(d) + RuleSuffix
  }

  /** The exception rule: the tree item whose own row has a `data-path` starting with `path`. */
  function ExceptionRule(path: string, d: Display): (r: string)
    ensures RulePath(r, d) == Some(path)
  {
    var r := RulePrefix + path + RuleTail(d);
    assert r[..|RulePrefix|] == RulePrefix;
    assert r[|RulePrefix|..|r| - |RuleTail(d)|] == path;
    r
  }

  /** `pathExceptions.map(path => …)`: one exception rule per path, in list order. */
  function ExceptionRules(paths: seq<string>, d: Display): (r: seq<string>)
    ensures |r| == |paths|
    ensures forall k :: 0 <= k < |r| ==> RulePath(r[k], d) == Some(paths[k])
  {
    var r := seq(|paths|, k requires 0 <= k < |paths| => ExceptionRule(paths[k], d));
    assert forall k :: 0 <= k < |r| ==> RulePath(r[k], d) == Some(paths[k]) by {
      forall k | 0 <= k < |r|
        ensures RulePath(r[k], d) == Some(paths[k])
      {
        RulePathOfRule(paths[k], d, d);
      }
    }
    r
  }

  /**
   * The style text for the enabled flag and the two settings, built as
   * main.ts:52-67 builds it. When disabled the sheet is empty; in
   * hide-by-default mode it starts with the base rule.
   */
  function CompileCss(enabled: bool, hideByDefault: bool, paths: seq<string>): (r: string)
    ensures !enabled ==> r == ""
    ensures enabled && hideByDefault ==> OccursAt(BaseRule, r, |LeadIndent|)
  {
    if enabled then
      if hideByDefault then
        var css := HideLead + Join(ExceptionRules(paths, DisplayBlock), "\n") + HideTrail;
        assert css[|LeadIndent|..|LeadIndent| + |BaseRule|] == BaseRule;
        css
      else
        Join(ExceptionRules(paths, DisplayNone), "\n")
    else
      ""
  }

  /** The path an exception rule with display `d` carries, if `line` is such a rule. */
  function RulePath(line: string, d: Display): Option<string> {
    var tail := RuleTail(d);
    if |RulePrefix| + |tail| <= |line| && line[..|RulePrefix|] == RulePrefix && line[|line| - |tail|..] == tail
    then Some(line[|RulePrefix|..|line| - |tail|])
    else None
  }

  /** The paths of a list of exception rules, if every line is one. */
  function RulePaths(lines: seq<string>, d: Display): Option<seq<string>> {
    if lines == [] then Some([])
    else
      match (RulePath(lines[0], d), RulePaths(lines[1..], d))
      case (Some(p), Some(ps)) => Some([p] + ps)
      case _ => None
  }

  /**
   * Reads the exception paths back out of a compiled sheet for the given
   * mode: strips the template whitespace and base rule in hide-by-default
   * mode, splits the rest into lines and takes each rule's path.
   */
  function ExceptionPaths(css: string, hideByDefault: bool): Option<seq<string>> {
    var body :=
      if !hideByDefault then Some(css)
      else if |HideLead| + |HideTrail| <= |css| && css[..|HideLead|] == HideLead && css[|css| - |HideTrail|..] == HideTrail
      then Some(css[|HideLead|..|css| - |HideTrail|])
      else None;
    match body
    case None => None
    case Some(b) =>
      if b == "" then Some([])
      else RulePaths(Split(b, '\n'), ExceptionDisplay(hideByDefault))
  }

  /** An exception rule gives back its path, verbatim, for its own display and no other. */
  lemma RulePathOfRule(path: string, d: Display, e: Display)
    ensures RulePath(ExceptionRule(path, d), e) == if d == e then Some(path) else None
  {
    var line := ExceptionRule(path, d);
    assert line[..|RulePrefix|] == RulePrefix;
    assert line[|RulePrefix|..|line| - |RuleTail(d)|] == path;
    if d != e {
      var te := RuleTail(e);
      assert line[|line| - 3] == RuleTail(d)[|RuleTail(d)| - 3] != te[|te| - 3];
      assert |line| < |te| || line[|line| - |te|..][|te| - 3] != te[|te| - 3];
    }
  }

  lemma {:induction false} RulePathsOfRules(paths: seq<string>, d: Display)
    ensures RulePaths(ExceptionRules(paths, d), d) == Some(paths)
  {
    if paths != [] {
      var rules := ExceptionRules(paths, d);
      assert rules[0] == ExceptionRule(paths[0], d);
      assert rules[1..] == ExceptionRules(paths[1..], d);
      assert [paths[0]] + paths[1..] == paths;
      RulePathOfRule(paths[0], d, d);
      RulePathsOfRules(paths[1..], d);
    }
  }

  predicate NewlineFree(paths: seq<string>) {
    forall k :: 0 <= k < |paths| ==> '\n' !in paths[k]
  }

  lemma RulesNewlineFree(paths: seq<string>, d: Display)
    requires NewlineFree(paths)
    ensures NewlineFree(ExceptionRules(paths, d))
  {
    forall k | 0 <= k < |paths|
      ensures '\n' !in ExceptionRules(paths, d)[k]
    {
      var line := ExceptionRules(paths, d)[k];
      assert line == RulePrefix + paths[k] + RuleTail(d);
      RulePiecesOneLine(d);
    }
  }

  /** The fixed text of an exception rule has no line break. */
  lemma RulePiecesOneLine(d: Display)
    ensures '\n' !in RulePrefix && '\n' !in RuleTail(d)
  {
    assert '\n' !in RulePrefix;
    assert '\n' !in RuleInfix && '\n' !in Keyword(d) && '\n' !in RuleSuffix;
  }

  /** Joined exception rules are empty exactly when there are no paths. */
  lemma JoinedRulesEmptyIff(paths: seq<string>, d: Display)
    ensures Join(ExceptionRules(paths, d), "\n") == "" <==> paths == []
  {
  }

  /**
   * The compiled sheet determines the exception list: when no path contains
   * a line break, reading the paths back out of the sheet gives the list in
   * its original order, and every rule carries the display opposite to the
   * mode's policy.
   */
  lemma CompileRoundTrip(hideByDefault: bool, paths: seq<string>)
    requires NewlineFree(paths)
    ensures ExceptionPaths(CompileCss(true, hideByDefault, paths), hideByDefault) == Some(paths)
  {
    var d := ExceptionDisplay(hideByDefault);
    var rules := ExceptionRules(paths, d);
    var body := Join(rules, "\n");
    JoinedRulesEmptyIff(paths, d);
    if hideByDefault {
      var css := HideLead + body + HideTrail;
      assert css[..|HideLead|] == HideLead;
      assert css[|css| - |HideTrail|..] == HideTrail;
      assert css[|HideLead|..|css| - |HideTrail|] == body;
    }
    if paths != [] {
      RulesNewlineFree(paths, d);
      SplitJoin(rules, '\n');
      RulePathsOfRules(paths, d);
    }
  }

  /** With exceptions shown rather than hidden, an empty list gives an empty sheet, and only then. */
  lemma ShowAllEmptyIff(paths: seq<string>)
    ensures CompileCss(true, false, paths) == "" <==> paths == []
  {
    JoinedRulesEmptyIff(paths, DisplayNone);
  }

  /**
   * Every configured path's rule appears verbatim in the enabled sheet, with
   * the display opposite to the policy; in hide-by-default mode it appears
   * after the base rule.
   */
  lemma ExceptionRuleOccurs(hideByDefault: bool, paths: seq<string>, k: nat)
    requires k < |paths|
    ensures exists i ::
      && OccursAt(ExceptionRule(paths[k], ExceptionDisplay(hideByDefault)), CompileCss(true, hideByDefault, paths), i)
      && (hideByDefault ==> |LeadIndent| + |BaseRule| <= i)
  {
    var d := ExceptionDisplay(hideByDefault);
    var rules := ExceptionRules(paths, d);
    JoinContains(rules, "\n", k);
    var i :| OccursAt(rules[k], Join(rules, "\n"), i);
    if hideByDefault {
      OccursInContext(rules[k], HideLead, Join(rules, "\n"), HideTrail, i);
      assert OccursAt(rules[k], CompileCss(true, hideByDefault, paths), |HideLead| + i);
    } else {
      assert OccursAt(rules[k], CompileCss(true, hideByDefault, paths), i);
    }
  }

  /** None of the fixed pieces of the sheet contains a line break. */
  lemma FixedPiecesOneLine()
    ensures '\n' !in Indent && '\n' !in ClosingIndent && '\n' !in BaseRule
    ensures '\n' !in Indent + BaseRule
  {
  }

  /**
   * Line by line, the sheet of show-by-default mode is one `display: none`
   * exception rule per path, in list order, and nothing else: there is no
   * base rule.
   */
  lemma ShowModeLines(paths: seq<string>)
    requires NewlineFree(paths) && paths != []
    ensures var lines := Split(CompileCss(true, false, paths), '\n');
      && |lines| == |paths|
      && forall k :: 0 <= k < |paths| ==> lines[k] == ExceptionRule(paths[k], DisplayNone)
  {
    RulesNewlineFree(paths, DisplayNone);
    SplitJoin(ExceptionRules(paths, DisplayNone), '\n');
  }

  /**
   * Line by line, the sheet of hide-by-default mode with no exceptions: an
   * empty first line, the indented base rule, the indented empty join and the
   * closing indentation. It holds exactly one rule.
   */
  lemma HideModeEmptyLines()
    ensures Split(CompileCss(true, true, []), '\n') == ["", Indent + BaseRule, Indent, ClosingIndent]
  {
    var parts := ["", Indent + BaseRule, Indent, ClosingIndent];
    FixedPiecesOneLine();
    HideModeEmptySheet();
    SplitJoin(parts, '\n');
  }

  /** The enabled hide-by-default sheet of an empty list is the join of its four lines. */
  lemma HideModeEmptySheet()
    ensures CompileCss(true, true, []) == Join(["", Indent + BaseRule, Indent, ClosingIndent], "\n")
  {
    assert ExceptionRules([], DisplayBlock) == [];
    assert CompileCss(true, true, []) == HideLead + HideTrail;
    JoinOfFour("", Indent + BaseRule, Indent, ClosingIndent, "\n");
    assert HideLead + HideTrail == "" + "\n" + (Indent + BaseRule) + "\n" + Indent + "\n" + ClosingIndent;
  }

  /**
   * The lines of the hide-by-default template around non-empty exception
   * rules: an empty line, the indented base rule, the rules with the first
   * one indented, and the closing indentation.
   */
  function HideModeParts(rules: seq<string>): (r: seq<string>)
    requires rules != []
    ensures |r| == |rules| + 3
    ensures r[0] == "" && r[1] == Indent + BaseRule && r[2] == Indent + rules[0]
    ensures forall k :: 1 <= k < |rules| ==> r[k + 2] == rules[k]
    ensures r[|rules| + 2] == ClosingIndent
  {
    var r := [""] + ([Indent + BaseRule] + (([Indent + rules[0]] + rules[1..]) + [ClosingIndent]));
    forall k | 1 <= k < |rules|
      ensures r[k + 2] == rules[k]
    {
      assert r[k + 2] == rules[1..][k - 1];
    }
    r
  }

  lemma HideModePartsJoin(rules: seq<string>)
    requires rules != []
    ensures Join(HideModeParts(rules), "\n") == HideLead + Join(rules, "\n") + HideTrail
  {
    JoinFramed("", Indent + BaseRule, Indent, rules, ClosingIndent, "\n");
    var joined := Join(rules, "\n");
    assert HideLead + joined + HideTrail == "" + "\n" + (Indent + BaseRule) + "\n" + Indent + joined + "\n" + ClosingIndent;
  }

  /** The enabled hide-by-default sheet is the template around the joined rules. */
  lemma HideModeSheet(paths: seq<string>)
    ensures CompileCss(true, true, paths) == HideLead + Join(ExceptionRules(paths, DisplayBlock), "\n") + HideTrail
  {
  }

  lemma HideModePartsOneLine(rules: seq<string>)
    requires rules != [] && NewlineFree(rules)
    ensures NewlineFree(HideModeParts(rules))
  {
    var parts := HideModeParts(rules);
    FixedPiecesOneLine();
    forall k | 0 <= k < |parts|
      ensures '\n' !in parts[k]
    {
      if k == 2 {
        assert parts[k] == Indent + rules[0];
        assert '\n' !in rules[0];
      } else if 2 < k < |parts| - 1 {
        assert parts[k] == rules[k - 2];
      }
    }
  }

  /** Splitting the hide-by-default template around one-line rules gives its lines. */
  lemma HideModeSplit(rules: seq<string>)
    requires rules != [] && NewlineFree(rules)
    ensures Split(HideLead + Join(rules, "\n") + HideTrail, '\n') == HideModeParts(rules)
  {
    HideModePartsJoin(rules);
    HideModePartsOneLine(rules);
    SplitJoin(HideModeParts(rules), '\n');
  }

  /**
   * Line by line, the sheet of hide-by-default mode: an empty first line,
   * the indented base rule, then one `display: block` exception rule per
   * path in list order (the first one carrying the template's indentation),
   * then the closing indentation.
   */
  lemma HideModeLines(paths: seq<string>)
    requires NewlineFree(paths) && paths != []
    ensures var lines := Split(CompileCss(true, true, paths), '\n');
      && |lines| == |paths| + 3
      && lines[0] == ""
      && lines[1] == Indent + BaseRule
      && lines[2] == Indent + ExceptionRule(paths[0], DisplayBlock)
      && (forall k :: 1 <= k < |paths| ==> lines[k + 2] == ExceptionRule(paths[k], DisplayBlock))
      && lines[|paths| + 2] == ClosingIndent
  {
    var rules := ExceptionRules(paths, DisplayBlock);
    RulesNewlineFree(paths, DisplayBlock);
    HideModeSheet(paths);
    HideModeSplit(rules);
    var lines := HideModeParts(rules);
    assert lines == Split(CompileCss(true, true, paths), '\n');
  }
}
