/**
 * The stage (`PlywoodStage`): rows of views in left-to-right order, the
 * focused column of each row, and the height the views were last sized for.
 * Only the focused row (always row 0) is laid out, rendered and hit-tested.
 */
module StageEngine {
  import opened Options
  import opened Geometry
  import opened ArrayExtensions
  import opened Protocol
  import opened XdgView
  import opened Layout

  /** A view found under a point, with the (sub-)surface hit and the point in its coordinates. */
  datatype StageHit = StageHit(view: View, surface: Surface, coordinates: Point)

  /** The x positions of a row's views. */
  function Xs(row: seq<View>): (xs: seq<real>)
    reads set v | v in row
    ensures |xs| == |row| && forall j :: 0 <= j < |row| ==> xs[j] == row[j].position.x
  {
    seq(|row|, j requires 0 <= j < |row| reads set v | v in row => row[j].position.x)
  }

  /** The widths (`area.width`) of a row's views. */
  function Widths(row: seq<View>): (ws: seq<int>)
    reads set v | v in row :: v.surface
    ensures |ws| == |row| && forall j :: 0 <= j < |row| ==> ws[j] == row[j].CurrentArea().width
  {
    seq(|row|, j requires 0 <= j < |row| reads set v | v in row :: v.surface => row[j].CurrentArea().width)
  }

  /**
   * The hit-test of `findView` over one row: the first view, in row order,
   * whose surface tree reports a hit, or None when no view does.
   */
  function HitTest(row: seq<View>, p: Point): (r: Option<StageHit>)
    reads set v | v in row, set v | v in row :: v.surface
    ensures r.None? <==> forall k :: 0 <= k < |row| ==> row[k].FindSurface(p).None?
    ensures r.Some? ==> exists k :: (0 <= k < |row| && row[k] == r.value.view
      && row[k].FindSurface(p) == Some(SurfaceHit(r.value.surface, r.value.coordinates))
      && forall j :: 0 <= j < k ==> row[j].FindSurface(p).None?)
    decreases |row|
  {
    if row == [] then None
    else match row[0].FindSurface(p)
      case Some(hit) => Some(StageHit(row[0], hit.surface, hit.coordinates))
      case None =>
        var r := HitTest(row[1..], p);
        assert r.Some? ==> exists k :: (1 <= k < |row| && row[k] == r.value.view
          && row[k].FindSurface(p) == Some(SurfaceHit(r.value.surface, r.value.coordinates))
          && forall j :: 0 <= j < k ==> row[j].FindSurface(p).None?)
        by {
          if r.Some? {
            var k :| 0 <= k < |row[1..]| && row[1..][k] == r.value.view
              && row[1..][k].FindSurface(p) == Some(SurfaceHit(r.value.surface, r.value.coordinates))
              && forall j :: 0 <= j < k ==> row[1..][j].FindSurface(p).None?;
            assert forall j :: 1 <= j < k + 1 ==> row[j] == row[1..][j - 1];
          }
        }
        r
  }

  /** The x positions of a row with one view removed are the row's x positions with that entry removed. */
  lemma XsOfRemoveAt(row: seq<View>, k: nat)
    requires k < |row|
    ensures Xs(RemoveAt(row, k)) == RemoveAt(Xs(row), k)
  {
    var r := RemoveAt(row, k);
    forall t | 0 <= t < |r| ensures Xs(r)[t] == RemoveAt(Xs(row), k)[t] {
      assert r[t] == row[if t < k then t else t + 1];
    }
  }

  /** Every view of any of the rows. */
  ghost function ViewsOf(rows: seq<seq<View>>): set<View>
  {
    set i, v | 0 <= i < |rows| && v in rows[i] :: v
  }

  /** Replacing a row by a row of some of its views adds no view. */
  lemma ViewsOfUpdate(rows: seq<seq<View>>, i: nat, r: seq<View>)
    requires i < |rows| && forall v :: v in r ==> v in rows[i]
    ensures ViewsOf(rows[i := r]) <= ViewsOf(rows)
    ensures forall v :: v in rows[i] ==> v in ViewsOf(rows)
  {
    forall v | v in ViewsOf(rows[i := r]) ensures v in ViewsOf(rows) {
      var i' :| 0 <= i' < |rows| && v in rows[i := r][i'];
      assert v in rows[i'];
    }
  }

  /** A view whose position and requested area are those `centerView` gives it for `height`. */
  ghost predicate Centered(v: View, height: int, x: real)
    reads v, v.surface
  {
    && v.position == Point(x, CenterY(height))
    && v.cachedArea == Area(v.CurrentArea().width, CrossHeight(height))
    && v.surface.pendingSize == v.cachedArea
  }

  class Stage {
    var rows: seq<seq<View>>
    /** The row that is laid out and shown; the source never changes it. */
    const focusedRowIndex: nat := 0
    /** The focused column of each row (`columnIndexOffsets`). */
    var offsets: seq<nat>
    var lastHeight: int

    ghost predicate Valid()
      reads this
    {
      && |rows| == |offsets|
      && forall i :: 0 <= i < |rows| ==> Distinct(rows[i])
    }

    ghost function Views(): set<View>
      reads this
    {
      ViewsOf(rows)
    }

    ghost function Surfaces(): set<Surface>
      reads this
    {
      set v | v in Views() :: v.surface
    }

    /** The surfaces of the focused row's views. */
    function FocusedSurfaces(): set<Surface>
      reads this
    {
      set v | v in FocusedRow() :: v.surface
    }

    /** The focused row, or no views before the first row exists. */
    function FocusedRow(): seq<View>
      reads this
    {
      if rows == [] then [] else rows[focusedRowIndex]
    }

    /** Every view of every row is one of `Views()`. */
    lemma InViews(i: nat, v: View)
      requires i < |rows| && v in rows[i]
      ensures v in Views()
    {
    }

    constructor ()
      ensures Valid() && rows == [] && offsets == [] && lastHeight == 0
    {
      rows, offsets, lastHeight := [], [], 0;
    }

    /**
     * `insert`: creates the first row when there is none, and appends the
     * view to the focused row at `NextX` of that row; the view is then sized
     * and centred for the last known output height.
     */
    method Insert(view: View)
      requires Valid() && view !in Views()
      modifies this`rows, this`offsets, view`position, view`cachedArea, view.surface`pendingSize
      ensures Valid()
      ensures old(rows) == [] ==> rows == [[view]] && offsets == [0]
      ensures old(rows) != [] ==> rows == old(rows)[0 := old(rows[0]) + [view]] && offsets == old(offsets)
      ensures view.position.x == NextX(old(Xs(FocusedRow())), old(Widths(FocusedRow())))
      ensures view.position.y == if lastHeight == 0 then 0.0 else CenterY(lastHeight)
      ensures lastHeight != 0 ==> Centered(view, lastHeight, view.position.x)
      ensures lastHeight == 0 ==>
        view.cachedArea == old(view.cachedArea) && view.surface.pendingSize == old(view.surface.pendingSize)
    {
      if rows != [] && view in rows[focusedRowIndex] {
        InViews(focusedRowIndex, view);
      }
      if rows == [] {
        rows := rows + [[]];
        offsets := offsets + [0];
      }
      var views := rows[focusedRowIndex];
      assert views == old(FocusedRow());
      var x := EndOfRow(views);
      view.position := Point(x, 0.0);
      views := views + [view];
      CenterView(view, lastHeight);
      rows := rows[focusedRowIndex := views];
      assert rows[0] == (if old(rows) == [] then [view] else old(rows[0]) + [view]);
    }

    /**
     * `centerView`: for a non-zero height, places the view at the vertical
     * margin and asks for the cross-axis share of the height, keeping its x
     * and width.
     */
    method CenterView(view: View, height: int)
      modifies view`position, view`cachedArea, view.surface`pendingSize
      ensures height == 0 ==>
        view.position == old(view.position) && view.cachedArea == old(view.cachedArea)
        && view.surface.pendingSize == old(view.surface.pendingSize)
      ensures height != 0 ==> Centered(view, height, old(view.position.x))
    {
      if height == 0 {
        return;
      }
      var areaHeight := CrossHeight(height);
      view.position := Point(view.position.x, CenterY(height));
      view.SetArea(Area(view.CurrentArea().width, areaHeight));
    }

    /**
     * `remove`: takes the first occurrence of the view out of the first row
     * holding it, moves every later view of that row left by the same gap,
     * and steps the focused column back when the last column was focused.
     * Removing a view that is on no row changes nothing.
     */
    method Remove(view: View)
      requires Valid()
      modifies this`rows, this`offsets, Views()`position
      ensures Valid()
      ensures rows == RemoveFromRows(old(rows), view)
      ensures Locate(old(rows), view).None? ==>
        offsets == old(offsets) && forall v :: v in old(Views()) ==> v.position == old(v.position)
      ensures Locate(old(rows), view).Some? ==>
        var s := Locate(old(rows), view).value;
        && offsets == old(offsets)[s.row := FocusAfterRemove(old(offsets[s.row]), |old(rows[s.row])|, s.col)]
        && Xs(rows[s.row]) == ReflowAfterRemove(old(Xs(rows[s.row])), old(Widths(rows[s.row])), s.col)
        && forall v :: v in old(Views()) && v !in rows[s.row] ==> v.position == old(v.position)
      ensures forall v :: v in old(Views()) ==> v.position.y == old(v.position.y)
    {
      if rows == [] {
        return;
      }
      for i := 0 to |rows|
        invariant rows == old(rows) && offsets == old(offsets)
        invariant forall i' :: 0 <= i' < i ==> view !in rows[i']
      {
        var views := rows[i];
        var index := FirstIndex(views, view);
        if index.Some? {
          var k := index.value;
          assert Locate(old(rows), view) == Some(Slot(i, k));
          RemoveAtRow(i, k);
          return;
        }
      }
    }

    /** The body of `remove` once the view was found at column k of row i. */
    method RemoveAtRow(i: nat, k: nat)
      requires Valid() && i < |rows| && k < |rows[i]|
      modifies this`rows, this`offsets, Views()`position
      ensures Valid()
      ensures rows == old(rows)[i := RemoveAt(old(rows[i]), k)]
      ensures offsets == old(offsets)[i := FocusAfterRemove(old(offsets[i]), |old(rows[i])|, k)]
      ensures Xs(rows[i]) == ReflowAfterRemove(old(Xs(rows[i])), old(Widths(rows[i])), k)
      ensures forall v :: v in old(Views()) && v !in rows[i] ==> v.position == old(v.position)
      ensures forall v :: v in old(Views()) ==> v.position.y == old(v.position.y)
    {
      var views := rows[i];
      ghost var xs0, ws0 := Xs(views), Widths(views);
      var offsetX := GapAfterRemove(views, k);
      DropAt(i, k);
      var r := rows[i];
      XsOfRemoveAt(views, k);
      assert Xs(r) == RemoveAt(xs0, k);
      ShiftLeft(r, k, offsetX);
      assert Xs(r) == ReflowAfterRemove(xs0, ws0, k);
    }

    /**
     * The bookkeeping of `remove`: row i loses column k, and its focused
     * column steps back when k is not the first column and the last column
     * was focused.
     */
    method DropAt(i: nat, k: nat)
      requires Valid() && i < |rows| && k < |rows[i]|
      modifies this`rows, this`offsets
      ensures Valid() && Views() <= old(Views())
      ensures rows == old(rows)[i := RemoveAt(old(rows[i]), k)]
      ensures offsets == old(offsets)[i := FocusAfterRemove(old(offsets[i]), |old(rows[i])|, k)]
    {
      var views := rows[i];
      var r := RemoveAt(views, k);
      RemoveAtDistinct(views, k);
      ViewsOfUpdate(rows, i, r);
      rows := rows[i := r];
      if k != 0 && offsets[i] >= |views| - 1 {
        offsets := offsets[i := offsets[i] - 1];
      }
    }

    /**
     * The gap of `remove`: the removed view's width plus the spacing, less
     * whatever would put the new first view left of the padding.
     */
    static method GapAfterRemove(views: seq<View>, k: nat) returns (offsetX: real)
      requires k < |views|
      ensures offsetX == RemoveGap(Xs(views), Widths(views), k)
    {
      var removed := views[k];
      offsetX := removed.CurrentArea().width as real + Spacing;
      // Make sure the new first view is not left of the padding.
      if k == 0 && |views| > 1 {
        var second := views[1];
        var secondNewX := second.position.x - offsetX;
        if secondNewX < Padding {
          offsetX := offsetX - (Padding - secondNewX);
        }
      }
    }

    /** The x of `insert`: the padding in an empty row, otherwise one spacing after the last view. */
    static method EndOfRow(views: seq<View>) returns (x: real)
      ensures x == NextX(Xs(views), Widths(views))
    {
      if views == [] {
        x := Padding;
      } else {
        var last := views[|views| - 1];
        x := last.position.x + last.CurrentArea().width as real + Spacing;
      }
    }

    /** The reflow loop of `remove`: every view of `row` from index `from` on moves left by dx. */
    static method ShiftLeft(row: seq<View>, from: nat, dx: real)
      requires from <= |row| && Distinct(row)
      modifies (set v | v in row)`position
      ensures forall t :: from <= t < |row| ==>
        row[t].position == Point(old(row[t].position.x) - dx, old(row[t].position.y))
      ensures forall t :: 0 <= t < from ==> row[t].position == old(row[t].position)
      ensures forall v :: v in row ==> v.position.y == old(v.position.y)
      ensures Xs(row) == ShiftFrom(old(Xs(row)), from, dx)
    {
      for j := from to |row|
        invariant forall t :: from <= t < j ==>
          row[t].position == Point(old(row[t].position.x) - dx, old(row[t].position.y))
        invariant forall t :: 0 <= t < from || j <= t < |row| ==> row[t].position == old(row[t].position)
      {
        row[j].position := row[j].position.(x := row[j].position.x - dx);
      }
      ghost var shifted := ShiftFrom(old(Xs(row)), from, dx);
      forall t | 0 <= t < |row| ensures Xs(row)[t] == shifted[t] {
      }
    }

    /** `moveLeft`: the focused column moves one to the left unless it is the first. */
    method MoveLeft()
      requires Valid()
      modifies this`offsets
      ensures Valid()
      ensures old(offsets) == [] ==> offsets == old(offsets)
      ensures old(offsets) != [] ==> offsets == old(offsets)[focusedRowIndex := StepLeft(old(offsets[focusedRowIndex]))]
    {
      if offsets == [] {
        return;
      }
      if offsets[focusedRowIndex] > 0 {
        offsets := offsets[focusedRowIndex := offsets[focusedRowIndex] - 1];
      }
    }

    /** `moveRight`: the focused column moves one to the right unless it is the last. */
    method MoveRight()
      requires Valid()
      modifies this`offsets
      ensures Valid()
      ensures old(offsets) == [] ==> offsets == old(offsets)
      ensures old(offsets) != [] ==>
        offsets == old(offsets)[focusedRowIndex := StepRight(old(offsets[focusedRowIndex]), |rows[focusedRowIndex]|)]
    {
      if offsets == [] || rows == [] {
        return;
      }
      if offsets[focusedRowIndex] < |rows[focusedRowIndex]| - 1 {
        offsets := offsets[focusedRowIndex := offsets[focusedRowIndex] + 1];
      }
    }

    /**
     * `findView(at:)`: scans the focused row in order and returns the first
     * view whose surface tree is hit at the point; other rows are never
     * consulted.
     */
    method FindView(p: Point) returns (r: Option<StageHit>)
      ensures r == HitTest(FocusedRow(), p)
      ensures r.Some? ==> r.value.view in FocusedRow()
    {
      if rows == [] {
        return None;
      }
      var row := rows[focusedRowIndex];
      for i := 0 to |row|
        invariant forall j :: 0 <= j < i ==> row[j].FindSurface(p).None?
      {
        var result := row[i].FindSurface(p);
        if result.Some? {
          return Some(StageHit(row[i], result.value.surface, result.value.coordinates));
        }
      }
      return None;
    }

    /**
     * `updateCrossAxis`: a repeated height changes nothing. Otherwise the
     * height is recorded and every view of the focused row is centred for it.
     */
    method UpdateCrossAxis(height: int)
      requires Valid()
      modifies this`lastHeight, Views()`position, Views()`cachedArea, Surfaces()`pendingSize
      ensures Valid()
      ensures lastHeight == height
      ensures old(lastHeight) != height && height != 0 ==>
        forall v :: v in FocusedRow() ==> Centered(v, height, old(v.position.x))
      ensures forall v :: v in Views() && (v !in FocusedRow() || old(lastHeight) == height || height == 0) ==>
        v.position == old(v.position) && v.cachedArea == old(v.cachedArea)
      ensures forall v :: v in Views() && (old(lastHeight) == height || height == 0) ==>
        v.surface.pendingSize == old(v.surface.pendingSize)
      ensures forall v :: v in Views() && (forall w :: w in FocusedRow() ==> w.surface != v.surface) ==>
        v.surface.pendingSize == old(v.surface.pendingSize)
    {
      if lastHeight == height {
        return;
      }
      lastHeight := height;
      if rows == [] {
        return;
      }
      var row := rows[focusedRowIndex];
      for i := 0 to |row|
        invariant lastHeight == height
        invariant height != 0 ==> forall j :: 0 <= j < i ==> Centered(row[j], height, old(row[j].position.x))
        invariant forall v :: v in Views() && (v !in row[..i] || height == 0) ==>
          v.position == old(v.position) && v.cachedArea == old(v.cachedArea)
        invariant forall v :: v in Views() && (height == 0 || forall j :: 0 <= j < i ==> row[j].surface != v.surface) ==>
          v.surface.pendingSize == old(v.surface.pendingSize)
      {
        InViews(focusedRowIndex, row[i]);
        CenterView(row[i], height);
      }
    }
  }

  /** `onDestroy` of a view: the view is removed from the stage. */
  method OnViewDestroyed(view: View, stage: Stage)
    requires stage.Valid()
    modifies stage`rows, stage`offsets, stage.Views()`position
    ensures stage.Valid()
    ensures stage.rows == RemoveFromRows(old(stage.rows), view)
    ensures Locate(old(stage.rows), view).None? ==>
      stage.offsets == old(stage.offsets) && forall v :: v in old(stage.Views()) ==> v.position == old(v.position)
    ensures Locate(old(stage.rows), view).Some? ==>
      var s := Locate(old(stage.rows), view).value;
      && stage.offsets == old(stage.offsets)[s.row := FocusAfterRemove(old(stage.offsets[s.row]), |old(stage.rows[s.row])|, s.col)]
      && Xs(stage.rows[s.row]) == ReflowAfterRemove(old(Xs(stage.rows[s.row])), old(Widths(stage.rows[s.row])), s.col)
      && forall v :: v in old(stage.Views()) && v !in stage.rows[s.row] ==> v.position == old(v.position)
    ensures forall v :: v in old(stage.Views()) ==> v.position.y == old(v.position.y)
  {
    stage.Remove(view);
  }
}
