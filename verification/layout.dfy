/**
 * The arithmetic of the stage's horizontal layout, on plain values: the
 * x positions and widths of one row's views, the focused column, and the
 * vertical (cross-axis) sizing. The `Stage` class is specified by these
 * functions; the properties of the layout are proved here.
 */
module Layout {
  import opened Options
  import opened Geometry
  import opened ArrayExtensions

  /** Horizontal distance of a row's first view from the stage edge (`stagePadding`). */
  const Padding: real := 56.0
  /** Horizontal gap between neighbouring views (`stageSpacing`). */
  const Spacing: real := 24.0
  /** Fraction of the output height a view is given (`crossAxisFactor`), 0.9. */
  const CrossAxisFactor: real := 9.0 / 10.0

  /** Where a view lands when appended to a row: at the padding, or just after the last view. */
  function NextX(xs: seq<real>, widths: seq<int>): (x: real)
    requires |xs| == |widths|
  {
    if xs == [] then Padding else xs[|xs| - 1] + widths[|xs| - 1] as real + Spacing
  }

  /**
   * A row laid out as by consecutive inserts: the first view at the padding
   * and every other view one spacing after its predecessor's right edge.
   */
  ghost predicate Packed(xs: seq<real>, widths: seq<int>)
  {
    && |xs| == |widths|
    && (xs != [] ==> xs[0] == Padding)
    && forall j :: 0 < j < |xs| ==> xs[j] == xs[j - 1] + widths[j - 1] as real + Spacing
  }

  /** Appending at `NextX` keeps a packed row packed, whatever the new view's width. */
  lemma InsertKeepsPacked(xs: seq<real>, widths: seq<int>, w: int)
    requires Packed(xs, widths)
    ensures Packed(xs + [NextX(xs, widths)], widths + [w])
  {
  }

  /** In a packed row of views with non-negative widths, x strictly increases from left to right. */
  lemma {:induction false} PackedIncreasing(xs: seq<real>, widths: seq<int>, a: nat, b: nat)
    requires Packed(xs, widths)
    requires forall j :: 0 <= j < |widths| ==> widths[j] >= 0
    requires a < b < |xs|
    ensures xs[a] + Spacing <= xs[b]
    decreases b
  {
    if a < b - 1 {
      PackedIncreasing(xs, widths, a, b - 1);
    }
  }

  /**
   * The distance the views after index k move left when the view at k is
   * removed: its width plus the spacing, reduced when k is the first view so
   * that the new first view does not end up left of the padding.
   */
  function RemoveGap(xs: seq<real>, widths: seq<int>, k: nat): (gap: real)
    requires |xs| == |widths| && k < |xs|
    ensures (k != 0 || |xs| < 2) ==> gap == widths[k] as real + Spacing
    ensures k == 0 && |xs| >= 2 ==> gap <= widths[0] as real + Spacing
    ensures k == 0 && |xs| >= 2 && xs[1] - (widths[0] as real + Spacing) >= Padding ==> gap == widths[0] as real + Spacing
    ensures k == 0 && |xs| >= 2 && xs[1] - (widths[0] as real + Spacing) < Padding ==> xs[1] - gap == Padding
  {
    var gap := widths[k] as real + Spacing;
    if k == 0 && |xs| > 1 && xs[1] - gap < Padding then gap - (Padding - (xs[1] - gap)) else gap
  }

  /** The positions from index `from` on moved left by d. */
  function ShiftFrom(xs: seq<real>, from: nat, d: real): (r: seq<real>)
    requires from <= |xs|
    ensures |r| == |xs|
    ensures forall j :: 0 <= j < from ==> r[j] == xs[j]
    ensures forall j :: from <= j < |xs| ==> r[j] == xs[j] - d
  {
    xs[..from] + seq(|xs| - from, j requires 0 <= j < |xs| - from => xs[from + j] - d)
  }

  /** The x positions of a row after its view at index k is removed and the rest reflowed. */
  function ReflowAfterRemove(xs: seq<real>, widths: seq<int>, k: nat): (r: seq<real>)
    requires |xs| == |widths| && k < |xs|
    ensures |r| == |xs| - 1
    ensures forall j :: 0 <= j < k ==> r[j] == xs[j]
    ensures forall j :: k <= j < |r| ==> r[j] == xs[j + 1] - RemoveGap(xs, widths, k)
    ensures k == 0 && |xs| >= 2 ==> r[0] == Max(xs[1] - (widths[0] as real + Spacing), Padding)
  {
    ShiftFrom(RemoveAt(xs, k), k, RemoveGap(xs, widths, k))
  }

  function Max(a: real, b: real): real
  {
    if a < b then b else a
  }

  /** Removing any view from a packed row and reflowing leaves the row packed. */
  lemma RemoveKeepsPacked(xs: seq<real>, widths: seq<int>, k: nat)
    requires Packed(xs, widths) && k < |xs|
    ensures Packed(ReflowAfterRemove(xs, widths, k), RemoveAt(widths, k))
  {
    var r := ReflowAfterRemove(xs, widths, k);
    var ws := RemoveAt(widths, k);
    var gap := RemoveGap(xs, widths, k);
    if k == 0 && |xs| >= 2 {
      assert xs[1] == Padding + widths[0] as real + Spacing;
      assert gap == widths[0] as real + Spacing;
    }
    forall j | 0 < j < |r| ensures r[j] == r[j - 1] + ws[j - 1] as real + Spacing {
      if j < k {
      } else if j == k {
        assert r[j] == xs[j + 1] - gap && gap == widths[k] as real + Spacing;
        assert xs[j + 1] == xs[j] + widths[j] as real + Spacing;
      } else {
        assert xs[j + 1] == xs[j] + widths[j] as real + Spacing;
      }
    }
  }

  /**
   * The focused column after removing index k from a row of `count` views:
   * one less exactly when the removed view is not the first and the focus
   * was at or past the new last index.
   */
  function FocusAfterRemove(focus: nat, count: nat, k: nat): (f: nat)
    requires k < count
    ensures f == focus || f + 1 == focus
    ensures f + 1 == focus <==> (k != 0 && focus >= count - 1)
  {
    if k != 0 && focus >= count - 1 then focus - 1 else focus
  }

  /** Removing a view other than the first keeps an in-range focus in range. */
  lemma FocusStaysInRange(focus: nat, count: nat, k: nat)
    requires 0 < k < count && focus < count
    ensures FocusAfterRemove(focus, count, k) < count - 1
  {
  }

  /**
   * Removing the first view does not keep the focus in range: in a row of
   * two views focused on the second, the focus stays 1 with one view left.
   */
  lemma FocusCanLeaveRangeWhenFirstRemoved()
    ensures FocusAfterRemove(1, 2, 0) == 1
  {
  }

  /** `moveLeft` on the focused column: one step left unless already at the first column. */
  function StepLeft(focus: nat): (f: nat)
    ensures focus > 0 ==> f + 1 == focus
    ensures focus == 0 ==> f == 0
  {
    if focus > 0 then focus - 1 else focus
  }

  /** `moveRight` on the focused column: one step right unless already at the last column. */
  function StepRight(focus: nat, count: nat): (f: nat)
    ensures focus < count - 1 ==> f == focus + 1
    ensures focus >= count - 1 ==> f == focus
  {
    if focus < count - 1 then focus + 1 else focus
  }

  /** Stepping keeps an in-range focus in range, and at a bound another step changes nothing. */
  lemma StepsStayInRange(focus: nat, count: nat)
    requires focus < count
    ensures StepLeft(focus) < count && StepRight(focus, count) < count
    ensures StepLeft(StepLeft(0)) == StepLeft(0)
    ensures StepRight(StepRight(count - 1, count), count) == StepRight(count - 1, count)
  {
  }

  /** A step right followed by a step left returns to the start unless the step right was refused. */
  lemma StepRightThenLeft(focus: nat, count: nat)
    requires focus < count - 1
    ensures StepLeft(StepRight(focus, count)) == focus
  {
  }

  /** The height a view is given for an output of the given height (`Int32(height * 0.9)`). */
  function CrossHeight(height: int): (h: int)
    ensures 0 <= height ==> 0 <= h <= height && h == (9 * height) / 10
  {
    Trunc(height as real * CrossAxisFactor)
  }

  /** The y position of a view for an output of the given height (`height * (1 - 0.9) / 2`). */
  function CenterY(height: int): (y: real)
    ensures y * 20.0 == height as real
  {
    height as real * (1.0 - CrossAxisFactor) / 2.0
  }

  /** The margins above and below a view given the cross-axis factor of the height are equal. */
  lemma CenteredMarginsEqual(height: int)
    ensures CenterY(height) == height as real - (CenterY(height) + height as real * CrossAxisFactor)
  {
  }

  /** Where a view was found: the row and its column. */
  datatype Slot = Slot(row: nat, col: nat)

  /**
   * The first row containing `v` and the first index of `v` in it, as the
   * stage's `remove` searches them.
   */
  function Locate<T(==)>(rows: seq<seq<T>>, v: T): (r: Option<Slot>)
    ensures r.None? <==> forall i :: 0 <= i < |rows| ==> v !in rows[i]
    ensures r.Some? ==> r.value.row < |rows| && FirstIndex(rows[r.value.row], v) == Some(r.value.col)
    ensures r.Some? ==> forall i :: 0 <= i < r.value.row ==> v !in rows[i]
    decreases |rows|
  {
    if rows == [] then None
    else match FirstIndex(rows[0], v)
      case Some(k) => Some(Slot(0, k))
      case None =>
        match Locate(rows[1..], v)
        case None => None
        case Some(s) => Some(Slot(s.row + 1, s.col))
  }

  /** The rows after `remove`: the first occurrence of `v` is taken out of its row. */
  function RemoveFromRows<T(==)>(rows: seq<seq<T>>, v: T): (r: seq<seq<T>>)
    ensures |r| == |rows|
    ensures (forall i :: 0 <= i < |rows| ==> v !in rows[i]) ==> r == rows
    ensures Locate(rows, v).Some? ==>
      var s := Locate(rows, v).value;
      && |r[s.row]| == |rows[s.row]| - 1
      && r[s.row] == RemoveAt(rows[s.row], s.col)
      && multiset(r[s.row]) + multiset{v} == multiset(rows[s.row])
      && forall i :: 0 <= i < |rows| && i != s.row ==> r[i] == rows[i]
  {
    match Locate(rows, v)
    case None => rows
    case Some(s) =>
      var row := rows[s.row];
      assert FirstIndex(row, v).value == s.col;
      assert row == row[..s.col] + [row[s.col]] + row[s.col + 1..];
      rows[s.row := RemoveAt(row, s.col)]
  }
}
