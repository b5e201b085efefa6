/**
 * Columns and rows of the pandas frames used by the prediction pipelines.
 *
 * A column is a sequence of optional reals in which `None` stands for NaN. A row keeps
 * its index label (the position of the row in the originally fetched series) so that
 * rows surviving `dropna` can still be traced back to the input.
 */
module Frames {
  import opened Wrappers

  type Column = seq<Option<real>>

  datatype Row = Row(index: nat, cells: seq<Option<real>>)

  /** One bar of fetched price history; only the fields the pipelines read. */
  datatype Bar = Bar(close: real, volume: real)

  /** Closes are prices, so `pct_change` never divides by zero. */
  predicate PositiveCloses(bars: seq<Bar>)
  {
    forall i :: 0 <= i < |bars| ==> bars[i].close > 0.0
  }

  function Closes(bars: seq<Bar>): (s: seq<real>)
    ensures |s| == |bars|
    ensures forall i :: 0 <= i < |bars| ==> s[i] == bars[i].close
  {
    seq(|bars|, i requires 0 <= i < |bars| => bars[i].close)
  }

  function Volumes(bars: seq<Bar>): (s: seq<real>)
    ensures |s| == |bars|
    ensures forall i :: 0 <= i < |bars| ==> s[i] == bars[i].volume
  {
    seq(|bars|, i requires 0 <= i < |bars| => bars[i].volume)
  }

  /** Sum of a sequence of reals. */
  function Sum(s: seq<real>): real
  {
    if |s| == 0 then 0.0 else Sum(s[..|s| - 1]) + s[|s| - 1]
  }

  /** Peeling the first element off a sum; what a sliding window needs when it moves on. */
  lemma {:induction false} SumFront(s: seq<real>)
    requires |s| > 0
    ensures Sum(s) == s[0] + Sum(s[1..])
  {
    if |s| == 1 {
      assert s[..0] == [];
      assert s[1..] == [];
      assert s[1..][..0] == [];
    } else {
      var init := s[..|s| - 1];
      SumFront(init);
      assert init[1..] == s[1..][..|s[1..]| - 1];
      assert s[1..][|s[1..]| - 1] == s[|s| - 1];
    }
  }

  /** A sum of non-negative terms is non-negative. */
  lemma {:induction false} SumNonNegative(s: seq<real>)
    requires forall i :: 0 <= i < |s| ==> s[i] >= 0.0
    ensures Sum(s) >= 0.0
  {
    if |s| > 0 {
      SumNonNegative(s[..|s| - 1]);
    }
  }

  /** A sum of non-negative terms is zero only when every term is zero. */
  lemma {:induction false} SumZero(s: seq<real>)
    requires forall i :: 0 <= i < |s| ==> s[i] >= 0.0
    ensures Sum(s) == 0.0 <==> forall i :: 0 <= i < |s| ==> s[i] == 0.0
  {
    if |s| > 0 {
      var init := s[..|s| - 1];
      SumZero(init);
      SumNonNegative(init);
      if Sum(s) == 0.0 {
        forall i | 0 <= i < |s| ensures s[i] == 0.0 {
          if i < |s| - 1 { assert s[i] == init[i]; }
        }
      }
    }
  }

  /**
   * `rolling(window=w).mean()` over a fully defined series: the mean of the `w` trailing
   * values, undefined until the window is full.
   */
  function RollingMean(s: seq<real>, w: nat): (r: Column)
    requires w > 0
    ensures |r| == |s|
    ensures forall i :: 0 <= i < |s| ==> (r[i].Some? <==> i + 1 >= w)
    ensures forall i :: 0 <= i < |s| && i + 1 >= w ==> r[i].value * w as real == Sum(s[i + 1 - w..i + 1])
  {
    seq(|s|, i requires 0 <= i < |s| => if i + 1 >= w then Some(WindowMean(s, i, w)) else None)
  }

  /** Mean of the `w` values of `s` ending at position `i`. */
  function WindowMean(s: seq<real>, i: nat, w: nat): (m: real)
    requires 0 < w <= i + 1 <= |s|
    ensures m * w as real == Sum(s[i + 1 - w..i + 1])
  {
    var total := Sum(s[i + 1 - w..i + 1]);
    MeanTimesCount(total, w as real);
    total / w as real
  }

  lemma MeanTimesCount(total: real, count: real)
    requires count > 0.0
    ensures (total / count) * count == total
  {
  }

  /** Every defined trailing mean of non-negative values is non-negative. */
  lemma RollingMeanNonNegative(s: seq<real>, w: nat)
    requires w > 0
    requires forall i :: 0 <= i < |s| ==> s[i] >= 0.0
    ensures forall i :: 0 <= i < |s| && RollingMean(s, w)[i].Some? ==> RollingMean(s, w)[i].value >= 0.0
  {
    forall i | 0 <= i < |s| && RollingMean(s, w)[i].Some?
      ensures RollingMean(s, w)[i].value >= 0.0
    {
      SumNonNegative(s[i + 1 - w..i + 1]);
    }
  }

  /**
   * The rolling mean computed the way a streaming implementation does it: one running
   * window sum, adding the entering value and subtracting the leaving one.
   */
  method TrailingMeans(s: seq<real>, w: nat) returns (r: Column)
    requires w > 0
    ensures r == RollingMean(s, w)
  {
    r := [];
    var acc := 0.0;
    var i := 0;
    while i < |s|
      invariant 0 <= i <= |s|
      invariant r == RollingMean(s[..i], w)
      invariant acc == Sum(s[WindowStart(i, w)..i])
    {
      var lo := WindowStart(i, w);
      SlideWindow(s, i, w);
      acc := acc + s[i];
      if i >= w {
        acc := acc - s[lo];
      }
      assert acc == Sum(s[WindowStart(i + 1, w)..i + 1]);
      RollingMeanSnoc(s, i, w);
      r := r + [if i + 1 >= w then Some(acc / w as real) else None];
      i := i + 1;
    }
    assert s[..|s|] == s;
  }

  /** First position of the (possibly still filling) window that ends just before `i`. */
  function WindowStart(i: nat, w: nat): nat
  {
    if i >= w then i - w else 0
  }

  /** Moving the window one step: add the entering value, drop the leaving one once full. */
  lemma SlideWindow(s: seq<real>, i: nat, w: nat)
    requires w > 0 && i < |s|
    ensures Sum(s[WindowStart(i + 1, w)..i + 1])
         == Sum(s[WindowStart(i, w)..i]) + s[i] - (if i >= w then s[i - w] else 0.0)
  {
    var lo := WindowStart(i, w);
    assert s[lo..i + 1][..i - lo] == s[lo..i];
    if i >= w {
      SumFront(s[lo..i + 1]);
      assert s[lo..i + 1][1..] == s[lo + 1..i + 1];
    }
  }

  /** Extending a series by one value extends its rolling mean by that window's mean. */
  lemma RollingMeanSnoc(s: seq<real>, i: nat, w: nat)
    requires w > 0 && i < |s|
    ensures RollingMean(s[..i + 1], w)
         == RollingMean(s[..i], w) + [if i + 1 >= w then Some(Sum(s[i + 1 - w..i + 1]) / w as real) else None]
  {
    var a := RollingMean(s[..i + 1], w);
    var b := RollingMean(s[..i], w) + [if i + 1 >= w then Some(Sum(s[i + 1 - w..i + 1]) / w as real) else None];
    forall k | 0 <= k <= i ensures a[k] == b[k] {
      if k + 1 >= w {
        assert s[..i + 1][k + 1 - w..k + 1] == s[k + 1 - w..k + 1];
        if k < i {
          assert s[..i][k + 1 - w..k + 1] == s[k + 1 - w..k + 1];
        }
      }
    }
  }

  /** The value at position `p` of `c.shift(k)`: positive `k` looks back, negative `k` ahead. */
  function ShiftAt(c: Column, p: int, k: int): Option<real>
  {
    if 0 <= p - k < |c| then c[p - k] else None
  }

  /** `pct_change()` at position `p` of a fully defined series; undefined at the first row. */
  function PctChangeAt(s: seq<real>, p: nat): Option<real>
    requires p < |s|
    requires p > 0 ==> s[p - 1] != 0.0
  {
    if p == 0 then None else Some((s[p] - s[p - 1]) / s[p - 1])
  }

  /** `diff()` at position `p` of a fully defined series; undefined at the first row. */
  function DiffAt(s: seq<real>, p: nat): Option<real>
    requires p < |s|
  {
    if p == 0 then None else Some(s[p] - s[p - 1])
  }

  /** Lifts a fully defined series into a column. */
  function Lift(s: seq<real>): (c: Column)
    ensures |c| == |s|
    ensures forall i :: 0 <= i < |s| ==> c[i] == Some(s[i])
  {
    seq(|s|, i requires 0 <= i < |s| => Some(s[i]))
  }

  /** A row none of whose cells is NaN. */
  predicate Complete(cells: seq<Option<real>>)
  {
    forall j :: 0 <= j < |cells| ==> cells[j].Some?
  }

  /** The cells of a complete row as plain reals. */
  function Values(cells: seq<Option<real>>): (v: seq<real>)
    requires Complete(cells)
    ensures |v| == |cells|
    ensures forall j :: 0 <= j < |cells| ==> cells[j] == Some(v[j])
  {
    seq(|cells|, j requires 0 <= j < |cells| => cells[j].value)
  }

  /** Index labels strictly increase down the frame, as they do in a time series. */
  predicate Increasing(rows: seq<Row>)
  {
    forall i, j :: 0 <= i < j < |rows| ==> rows[i].index < rows[j].index
  }

  /**
   * `dropna()`: keeps, in order, exactly the rows none of whose cells is NaN.
   */
  function DropNa(rows: seq<Row>): (r: seq<Row>)
    ensures |r| <= |rows|
    ensures forall k :: 0 <= k < |r| ==> Complete(r[k].cells)
  {
    if |rows| == 0 then []
    else
      var rest := DropNa(rows[..|rows| - 1]);
      var last := rows[|rows| - 1];
      if Complete(last.cells) then rest + [last] else rest
  }

  /** Every row `dropna` keeps comes from its input, and an increasing frame stays increasing. */
  lemma {:induction false} DropNaKeepsRows(rows: seq<Row>)
    ensures forall k :: 0 <= k < |DropNa(rows)| ==> DropNa(rows)[k] in rows
    ensures Increasing(rows) ==> Increasing(DropNa(rows))
  {
    if |rows| > 0 {
      var init := rows[..|rows| - 1];
      var last := rows[|rows| - 1];
      DropNaKeepsRows(init);
      var rest := DropNa(init);
      assert forall k :: 0 <= k < |rest| ==> rest[k] in init;
      assert forall x :: x in init ==> x in rows;
      if Increasing(rows) {
        forall k | 0 <= k < |rest| ensures rest[k].index < last.index {
          var p :| 0 <= p < |init| && init[p] == rest[k];
        }
      }
    }
  }

  /** `dropna` drops no complete row. */
  lemma {:induction false} DropNaKeepsComplete(rows: seq<Row>)
    ensures forall x :: x in rows && Complete(x.cells) ==> x in DropNa(rows)
  {
    if |rows| > 0 {
      var init := rows[..|rows| - 1];
      DropNaKeepsComplete(init);
      assert forall x :: x in rows ==> x in init || x == rows[|rows| - 1];
    }
  }

  /**
   * When the complete rows form one contiguous block `lo..hi`, `dropna` returns exactly
   * that block.
   */
  lemma {:induction false} DropNaBlock(rows: seq<Row>, lo: nat, hi: nat)
    requires lo <= hi <= |rows|
    requires forall p :: 0 <= p < |rows| ==> (Complete(rows[p].cells) <==> lo <= p < hi)
    ensures DropNa(rows) == rows[lo..hi]
  {
    if |rows| > 0 {
      var n := |rows|;
      var init := rows[..n - 1];
      if hi == n && lo < hi {
        DropNaBlock(init, lo, hi - 1);
        assert rows[lo..hi] == init[lo..hi - 1] + [rows[n - 1]];
      } else if hi == n {
        DropNaBlock(init, n - 1, n - 1);
      } else {
        DropNaBlock(init, lo, hi);
        assert rows[lo..hi] == init[lo..hi];
      }
    }
  }

  /** Labels of an increasing frame grow by at least one per row. */
  lemma {:induction false} IndexGap(rows: seq<Row>, a: nat, b: nat)
    requires Increasing(rows) && a <= b < |rows|
    ensures rows[b].index >= rows[a].index + (b - a)
  {
    if a < b {
      IndexGap(rows, a, b - 1);
    }
  }

  /** When the first `m` rows each hold a NaN, `dropna` keeps at most the remaining rows. */
  lemma {:induction false} DropNaSkipsPrefix(rows: seq<Row>, m: nat)
    requires m <= |rows|
    requires forall p :: 0 <= p < m ==> !Complete(rows[p].cells)
    ensures |DropNa(rows)| <= |rows| - m
  {
    if |rows| > 0 {
      var init := rows[..|rows| - 1];
      if m == |rows| {
        DropNaSkipsPrefix(init, m - 1);
      } else {
        DropNaSkipsPrefix(init, m);
      }
    }
  }
}
