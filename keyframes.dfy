/** The per-field animation style sheet (`_getAnimationStyle`, js/main.js:280-293).

    The sheet holds one keyframes rule for the fall, whose distance depends
    on the field's height, and one drift rule per flake size, whose sideways
    shift grows with the size. Each rule is written twice, once with the
    `-webkit-` prefix and once without. */
module Keyframes {
  import opened Prelude
  import opened Style
  import opened Config
  import opened Flakes

  /** One keyframes rule: the fall by `travel` pixels, or the drift of flakes
      of size `size` by `shift` pixels. */
  datatype Rule = Fall(travel: int) | Drift(size: int, shift: int)

  const FallRuleName := "snowflake_y"

  function RuleName(rule: Rule): string
  {
    match rule
    case Fall(_) => FallRuleName
    case Drift(size, _) => DriftRuleName(size)
  }

  /** The axis the rule translates along. */
  function Axis(rule: Rule): string
  {
    if rule.Fall? then "Y" else "X"
  }

  /** How far the rule translates, in pixels. */
  function Distance(rule: Rule): int
  {
    match rule
    case Fall(travel) => travel
    case Drift(_, shift) => shift
  }

  const Webkit := "-webkit-"

  /** The pieces of the start of one form of a rule; `vendor` is `Webkit` or "". */
  function HeaderTokens(vendor: string, name: string): seq<string>
  {
    ["@", vendor, "keyframes ", name, "{"]
  }

  function Header(vendor: string, name: string): string
  {
    Concat(HeaderTokens(vendor, name))
  }

  /** The pieces of the rest of one form: from no translation to `px` along
      `axis`; `close` is the ";" the source writes after the `-webkit-`
      form's last value. */
  function FrameTokens(vendor: string, axis: string, px: string, close: string): seq<string>
  {
    ["from{", vendor, "transform:translate", axis, "(0px)}to{", vendor,
     "transform:translate", axis, "(", px, ")", close, "}}"]
  }

  /** The pieces of one rule, as the source writes it: the `-webkit-` form,
      a line break, and the unprefixed form. */
  function RuleTokens(rule: Rule): seq<string>
  {
    var name, axis, px := RuleName(rule), Axis(rule), IntToString(Distance(rule)) + "px";
    HeaderTokens(Webkit, name) + FrameTokens(Webkit, axis, px, ";") + ["\n"] +
    HeaderTokens("", name) + FrameTokens("", axis, px, "")
  }

  /** The text of one rule. */
  function RenderRule(rule: Rule): string
  {
    Concat(RuleTokens(rule))
  }

  /** The text of each rule of a sheet. */
  function RuleTexts(rules: seq<Rule>): (ts: seq<string>)
    ensures |ts| == |rules|
    ensures forall k :: 0 <= k < |rules| ==> ts[k] == RenderRule(rules[k])
  {
    seq(|rules|, k requires 0 <= k < |rules| => RenderRule(rules[k]))
  }

  /** The rules of a sheet, written one after the other. */
  function Render(rules: seq<Rule>): string
  {
    Concat(RuleTexts(rules))
  }

  /** The drift rules for sizes `MinSize` to `MaxSize`, in increasing size. */
  function DriftRules(): seq<Rule>
  {
    seq(MaxSize - MinSize + 1, k requires 0 <= k => Drift(MinSize + k, k * 4))
  }

  /** The rules of the sheet for a field of the given height. */
  function AnimationRules(height: int): seq<Rule>
  {
    [Fall(height + MaxSize)] + DriftRules()
  }

  /** Where each rule sits in the sheet: the fall first, then the drift
      rule of each size in increasing size. */
  lemma AnimationRuleAt(height: int, i: int)
    requires MinSize <= i <= MaxSize
    ensures |AnimationRules(height)| == MaxSize - MinSize + 2
    ensures AnimationRules(height)[0] == Fall(height + MaxSize)
    ensures AnimationRules(height)[i - MinSize + 1] == Drift(i, (i - MinSize) * 4)
  {
    var rules := AnimationRules(height);
    assert rules[0] == Fall(height + MaxSize);
    assert rules[i - MinSize + 1] == Drift(i, (i - MinSize) * 4);
  }

  /** `_getAnimationStyle()`, `height` being what `_height()` returns. */
  method AnimationStyle(height: int) returns (css: string)
    ensures css == Render(AnimationRules(height))
  {
    css := RenderRule(Fall(height + MaxSize));
    ghost var texts := RuleTexts(AnimationRules(height));
    AnimationRuleAt(height, MinSize);
    ConcatFirst(texts);
    for i := MinSize to MaxSize + 1
      invariant css == Concat(texts[..i - MinSize + 1])
    {
      AnimationRuleAt(height, i);
      css := css + RenderRule(Drift(i, (i - MinSize) * 4));
      ConcatSnoc(texts, i - MinSize + 1);
    }
    assert |texts| == MaxSize - MinSize + 2;
    assert texts[..|texts|] == texts;
  }

  // ----- what the sheet defines -----

  /** The first and the fourth of five runs of pieces occur in the text of all five. */
  lemma ConcatContainsFirstAndFourth(a: seq<string>, b: seq<string>, c: seq<string>, d: seq<string>, e: seq<string>)
    ensures Contains(Concat(a + b + c + d + e), Concat(a))
    ensures Contains(Concat(a + b + c + d + e), Concat(d))
  {
    var abc := a + b + c;
    var p := abc + d + e;
    ConcatAppend(abc + d, e);
    ConcatAppend(abc, d);
    var x, y, z := Concat(abc), Concat(d), Concat(e);
    assert Concat(p) == x + y + z;
    ContainsMiddle(x, y, z);
    ConcatSplitAt(p, |a|);
    assert p[..|a|] == a;
    ContainsStart(Concat(a), Concat(p[|a|..]));
  }

  /** The text of a rule holds the header of both of its forms. */
  lemma RuleTextNamesRule(rule: Rule)
    ensures Contains(RenderRule(rule), Header(Webkit, RuleName(rule)))
    ensures Contains(RenderRule(rule), Header("", RuleName(rule)))
  {
    var name, axis, px := RuleName(rule), Axis(rule), IntToString(Distance(rule)) + "px";
    ConcatContainsFirstAndFourth(HeaderTokens(Webkit, name), FrameTokens(Webkit, axis, px, ";"), ["\n"],
                                 HeaderTokens("", name), FrameTokens("", axis, px, ""));
  }

  /** Every rule of a sheet is defined in its text, in both forms. */
  lemma SheetDefinesRule(rules: seq<Rule>, k: nat)
    requires k < |rules|
    ensures Contains(Render(rules), Header(Webkit, RuleName(rules[k])))
    ensures Contains(Render(rules), Header("", RuleName(rules[k])))
  {
    var texts := RuleTexts(rules);
    ConcatContainsPiece(texts, k);
    RuleTextNamesRule(rules[k]);
    ContainsTrans(Render(rules), texts[k], Header(Webkit, RuleName(rules[k])));
    ContainsTrans(Render(rules), texts[k], Header("", RuleName(rules[k])));
  }

  /** The sheet of any field defines the fall and, for every flake size, the
      drift rule a flake of that size names in its inner style; the drift of
      size `size` shifts by `(size - MinSize) * 4` pixels. */
  lemma SheetServesEverySize(height: int, size: int)
    requires MinSize <= size <= MaxSize
    ensures var css := Render(AnimationRules(height));
      && Contains(css, Header("", FallRuleName))
      && Contains(css, Header("", DriftRuleName(size)))
      && Contains(css, Header(Webkit, DriftRuleName(size)))
    ensures Drift(size, (size - MinSize) * 4) in AnimationRules(height)
  {
    var rules := AnimationRules(height);
    AnimationRuleAt(height, size);
    assert rules[0] == Fall(height + MaxSize);
    assert rules[size - MinSize + 1] == Drift(size, (size - MinSize) * 4);
    SheetDefinesRule(rules, 0);
    SheetDefinesRule(rules, size - MinSize + 1);
  }

  /** A new flake's inner element names a drift rule that the sheet of any
      field defines, in both forms. */
  lemma FlakeDriftDefined(prefix: string, h: int, p: Params, d: FlakeDraws, height: int)
    requires p.speed != 0.0 && ValidDraws(d)
    ensures var l := InitialLook(prefix, h, p, d);
      var css := Render(AnimationRules(height));
      && StyleKey(prefix, "animationName") in l.innerStyle
      && l.innerStyle[StyleKey(prefix, "animationName")] == Keyword(DriftRuleName(l.size))
      && Contains(css, Header("", DriftRuleName(l.size)))
      && Contains(css, Header(Webkit, DriftRuleName(l.size)))
  {
    InitialInnerContents(prefix, h, p, d);
    SheetServesEverySize(height, InitialLook(prefix, h, p, d).size);
  }

  /** Rule names: the fall's differs from every drift's, and distinct sizes
      have distinct drift rules. */
  lemma DriftRuleNamesDistinct(s1: int, s2: int)
    requires 0 <= s1 && 0 <= s2
    ensures FallRuleName != DriftRuleName(s1)
    ensures s1 != s2 ==> DriftRuleName(s1) != DriftRuleName(s2)
  {
    assert FallRuleName[10] == 'y' && DriftRuleName(s1)[10] == 'x';
    if s1 != s2 {
      NatToStringInjective(s1, s2);
      var p := "snowflake_x_";
      assert DriftRuleName(s1)[|p|..] == IntToString(s1);
      assert DriftRuleName(s2)[|p|..] == IntToString(s2);
    }
  }

  /** No two rules of a sheet share a name, so no rule overrides another. */
  lemma AnimationRuleNamesUnique(height: int, i: nat, j: nat)
    requires i < j < |AnimationRules(height)|
    ensures RuleName(AnimationRules(height)[i]) != RuleName(AnimationRules(height)[j])
  {
    var rules := AnimationRules(height);
    var sj := MinSize + j - 1;
    AnimationRuleAt(height, sj);
    if i == 0 {
      DriftRuleNamesDistinct(sj, sj);
    } else {
      var si := MinSize + i - 1;
      AnimationRuleAt(height, si);
      DriftRuleNamesDistinct(si, sj);
    }
  }

  /** The text of two lists of rules is the text of the first followed by
      the text of the second. */
  lemma RenderAppend(r1: seq<Rule>, r2: seq<Rule>)
    ensures Render(r1 + r2) == Render(r1) + Render(r2)
  {
    var t1, t2 := RuleTexts(r1), RuleTexts(r2);
    assert RuleTexts(r1 + r2) == t1 + t2;
    ConcatAppend(t1, t2);
  }

  /** A new height changes the fall rule and leaves every drift rule as it
      was: the sheet is the fall rule followed by the same drift rules. */
  lemma SheetForHeight(height: int)
    ensures Render(AnimationRules(height)) == RenderRule(Fall(height + MaxSize)) + Render(DriftRules())
  {
    var fall := [Fall(height + MaxSize)];
    RenderAppend(fall, DriftRules());
    ConcatFirst(RuleTexts(fall));
    assert RuleTexts(fall)[..1] == RuleTexts(fall);
  }
}
