/**
 * The fundamentals checklist of the backend bot: seven independent criteria, one point
 * each, and a verdict band for the total.
 */
module FinanceBot {

  /** The seven attributes the checklist reads; text attributes are compared verbatim. */
  datatype Financials = Financials(
    revenueGrowth: real,
    profitConsistency: real,
    debtLevel: real,
    promoterHoldingTrend: real,
    valuation: string,
    keyRisks: string,
    businessModel: string)

  datatype Verdict = Buy | Watch | Avoid {
    /** The verdict text returned to the caller. */
    function Label(): string {
      match this
      case Buy => "Buy ✅"
      case Watch => "Watch ⏳"
      case Avoid => "Avoid ❌"
    }

    /** Ordering of verdicts from worst (0) to best (2). */
    function Rank(): nat {
      match this
      case Avoid => 0
      case Watch => 1
      case Buy => 2
    }
  }

  /** Outcome of each criterion, in the order the checklist evaluates them. */
  function Criteria(f: Financials): (c: seq<bool>)
    ensures |c| == 7
  {
    [ f.businessModel == "clear",
      f.revenueGrowth > 0.1,
      f.profitConsistency > 0.8,
      f.debtLevel < 0.5,
      f.promoterHoldingTrend > 0.0,
      f.valuation == "undervalued",
      f.keyRisks == "low" ]
  }

  /** Reasoning line for a passed criterion, in checklist order. */
  const PassLines: seq<string> := [
    "Business model is clear.",
    "Revenue growth trend is positive.",
    "Profit has been consistent.",
    "Debt level is manageable.",
    "Promoter holding trend is positive.",
    "Valuation looks attractive.",
    "Key risks are low."
  ]

  /** Reasoning line for a failed criterion, in checklist order. */
  const FailLines: seq<string> := [
    "Business model unclear.",
    "Revenue growth is weak.",
    "Profit is volatile.",
    "Debt level is high.",
    "Promoter holding is decreasing.",
    "Valuation seems high.",
    "Key risks present."
  ]

  function Point(passed: bool): nat
  {
    if passed then 1 else 0
  }

  /** Number of `true` entries. */
  function CountTrue(s: seq<bool>): nat
  {
    if |s| == 0 then 0 else CountTrue(s[..|s| - 1]) + Point(s[|s| - 1])
  }

  lemma CountSeven(c: seq<bool>)
    requires |c| == 7
    ensures CountTrue(c) == Point(c[0]) + Point(c[1]) + Point(c[2]) + Point(c[3]) + Point(c[4]) + Point(c[5]) + Point(c[6])
  {
    assert c[..1][..0] == [];
    assert CountTrue(c[..1]) == Point(c[0]);
    assert c[..2][..1] == c[..1];
    assert CountTrue(c[..2]) == CountTrue(c[..1]) + Point(c[1]);
    assert c[..3][..2] == c[..2];
    assert CountTrue(c[..3]) == CountTrue(c[..2]) + Point(c[2]);
    assert c[..4][..3] == c[..3];
    assert CountTrue(c[..4]) == CountTrue(c[..3]) + Point(c[3]);
    assert c[..5][..4] == c[..4];
    assert CountTrue(c[..5]) == CountTrue(c[..4]) + Point(c[4]);
    assert c[..6][..5] == c[..5];
    assert CountTrue(c[..6]) == CountTrue(c[..5]) + Point(c[5]);
    assert c[..7][..6] == c[..6];
    assert CountTrue(c[..7]) == CountTrue(c[..6]) + Point(c[6]);
    assert c[..7] == c;
  }

  /** The score the checklist accumulates, one point at a time, as `analyze_stock` adds them. */
  function Score(f: Financials): (score: nat)
    ensures score <= 7
    ensures score == CountTrue(Criteria(f))
  {
    CountSeven(Criteria(f));
    Point(f.businessModel == "clear")
      + Point(f.revenueGrowth > 0.1)
      + Point(f.profitConsistency > 0.8)
      + Point(f.debtLevel < 0.5)
      + Point(f.promoterHoldingTrend > 0.0)
      + Point(f.valuation == "undervalued")
      + Point(f.keyRisks == "low")
  }

  /** The verdict band of a score. */
  function VerdictFor(score: nat): (v: Verdict)
    ensures v == Buy <==> score >= 5
    ensures v == Watch <==> 3 <= score < 5
    ensures v == Avoid <==> score < 3
  {
    if score >= 5 then Buy else if score >= 3 then Watch else Avoid
  }

  /** A criterion's pass and fail lines differ, so a reasoning line tells which one it was. */
  lemma PassAndFailLinesDiffer()
    ensures forall k :: 0 <= k < 7 ==> PassLines[k] != FailLines[k]
  {
  }

  /**
   * One reasoning line per criterion, in checklist order: line k is the pass line of
   * criterion k exactly when the input passes it, and its fail line otherwise.
   */
  function Reasoning(f: Financials): (lines: seq<string>)
    ensures |lines| == 7
    ensures forall k :: 0 <= k < 7 ==> (lines[k] == PassLines[k] <==> Criteria(f)[k])
    ensures forall k :: 0 <= k < 7 ==> (lines[k] == FailLines[k] <==> !Criteria(f)[k])
  {
    PassAndFailLinesDiffer();
    var c := Criteria(f);
    seq(7, k requires 0 <= k < 7 => if c[k] then PassLines[k] else FailLines[k])
  }

  /** The number of pass lines in the reasoning is the score. */
  lemma PassLinesCountScore(f: Financials)
    ensures CountTrue(seq(7, k requires 0 <= k < 7 => Reasoning(f)[k] == PassLines[k])) == Score(f)
  {
    var passed := seq(7, k requires 0 <= k < 7 => Reasoning(f)[k] == PassLines[k]);
    forall k | 0 <= k < 7 ensures passed[k] == Criteria(f)[k] {
      assert passed[k] == (Reasoning(f)[k] == PassLines[k]);
    }
    assert passed == Criteria(f);
  }

  /** `"\n".join(lines)`. */
  function JoinLines(lines: seq<string>): string
  {
    if |lines| == 0 then ""
    else if |lines| == 1 then lines[0]
    else JoinLines(lines[..|lines| - 1]) + "\n" + lines[|lines| - 1]
  }

  /** The verdict label and the joined reasoning text, as the route returns them. */
  function AnalyzeStock(f: Financials): (r: (string, string))
    ensures r.0 == "Buy ✅" <==> Score(f) >= 5
    ensures r.0 == "Watch ⏳" <==> 3 <= Score(f) < 5
    ensures r.0 == "Avoid ❌" <==> Score(f) < 3
    ensures r.1 == JoinLines(Reasoning(f))
    ensures CountChar(r.1, '\n') == 6
  {
    ReasoningHasSevenLines(f);
    (VerdictFor(Score(f)).Label(), JoinLines(Reasoning(f)))
  }

  // ---------------------------------------------------------------------------------------
  // Properties
  // ---------------------------------------------------------------------------------------

  function CountChar(s: string, ch: char): nat
  {
    if |s| == 0 then 0 else CountChar(s[..|s| - 1], ch) + (if s[|s| - 1] == ch then 1 else 0)
  }

  lemma {:induction false} CountCharAppend(s: string, t: string, ch: char)
    ensures CountChar(s + t, ch) == CountChar(s, ch) + CountChar(t, ch)
  {
    if |t| > 0 {
      CountCharAppend(s, t[..|t| - 1], ch);
      assert (s + t)[..|s + t| - 1] == s + t[..|t| - 1];
    } else {
      assert s + t == s;
    }
  }

  /** Joining newline-free lines puts exactly one newline between consecutive lines. */
  lemma {:induction false} JoinedNewlines(lines: seq<string>)
    requires |lines| > 0
    requires forall k :: 0 <= k < |lines| ==> CountChar(lines[k], '\n') == 0
    ensures CountChar(JoinLines(lines), '\n') == |lines| - 1
  {
    if |lines| > 1 {
      var init := lines[..|lines| - 1];
      JoinedNewlines(init);
      CountCharAppend(JoinLines(init) + "\n", lines[|lines| - 1], '\n');
      CountCharAppend(JoinLines(init), "\n", '\n');
      assert CountChar("\n", '\n') == 1 by { assert "\n"[..0] == ""; }
    }
  }

  /** The reasoning text holds seven lines: none of the messages contains a line break. */
  lemma ReasoningHasSevenLines(f: Financials)
    ensures CountChar(JoinLines(Reasoning(f)), '\n') == 6
  {
    var lines := Reasoning(f);
    MessagesHaveNoBreak();
    forall k | 0 <= k < 7 ensures CountChar(lines[k], '\n') == 0 {
      assert lines[k] == PassLines[k] || lines[k] == FailLines[k];
      NoNewline(lines[k]);
    }
    JoinedNewlines(lines);
  }

  lemma MessagesHaveNoBreak()
    ensures forall k :: 0 <= k < 7 ==> '\n' !in PassLines[k] && '\n' !in FailLines[k]
  {
    PassHeadHasNoBreak();
    PassTailHasNoBreak();
    FailHeadHasNoBreak();
    FailTailHasNoBreak();
  }

  lemma PassHeadHasNoBreak()
    ensures forall k :: 0 <= k < 4 ==> '\n' !in PassLines[k]
  {
  }

  lemma PassTailHasNoBreak()
    ensures forall k :: 4 <= k < 7 ==> '\n' !in PassLines[k]
  {
  }

  lemma FailHeadHasNoBreak()
    ensures forall k :: 0 <= k < 4 ==> '\n' !in FailLines[k]
  {
  }

  lemma FailTailHasNoBreak()
    ensures forall k :: 4 <= k < 7 ==> '\n' !in FailLines[k]
  {
  }

  lemma {:induction false} NoNewline(s: string)
    requires '\n' !in s
    ensures CountChar(s, '\n') == 0
  {
    if |s| > 0 {
      NoNewline(s[..|s| - 1]);
    }
  }

  lemma {:induction false} CountTrueMonotone(a: seq<bool>, b: seq<bool>)
    requires |a| == |b|
    requires forall k :: 0 <= k < |a| ==> a[k] ==> b[k]
    ensures CountTrue(a) <= CountTrue(b)
  {
    if |a| > 0 {
      CountTrueMonotone(a[..|a| - 1], b[..|b| - 1]);
    }
  }

  /**
   * Passing more criteria never lowers the verdict; in particular turning any one failed
   * criterion into a passed one cannot.
   */
  lemma VerdictIsMonotone(f: Financials, g: Financials)
    requires forall k :: 0 <= k < 7 ==> Criteria(f)[k] ==> Criteria(g)[k]
    ensures Score(f) <= Score(g)
    ensures VerdictFor(Score(f)).Rank() <= VerdictFor(Score(g)).Rank()
  {
    CountTrueMonotone(Criteria(f), Criteria(g));
  }

  /** The numeric thresholds are strict: values exactly on them earn no point. */
  lemma ThresholdsAreStrict(f: Financials)
    ensures f.revenueGrowth <= 0.1 ==> !Criteria(f)[1]
    ensures f.profitConsistency <= 0.8 ==> !Criteria(f)[2]
    ensures f.debtLevel >= 0.5 ==> !Criteria(f)[3]
    ensures f.promoterHoldingTrend <= 0.0 ==> !Criteria(f)[4]
    ensures (f.revenueGrowth == 0.1 && f.profitConsistency == 0.8 && f.debtLevel == 0.5
             && f.promoterHoldingTrend == 0.0) ==> Score(f) <= 3
  {
  }

  /** The fixed input served by the analysis route earns all seven points and a Buy. */
  lemma StaticRouteInputIsBuy()
    ensures var f := Financials(0.12, 0.9, 0.3, 0.05, "undervalued", "low", "clear");
            Score(f) == 7 && AnalyzeStock(f).0 == "Buy ✅"
  {
  }
}
