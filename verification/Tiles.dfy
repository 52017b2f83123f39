/** Cropping a tile pyramid to one region: the coordinate arithmetic and the tables that come out. */
module Tiles {
  import opened Prelude

  /** Python's `int()`: truncation toward zero. */
  function Trunc(r: real): int {
    if r >= 0.0 then r.Floor else -((-r).Floor)
  }

  /** The box in fractions of the map's width and height; y grows southward. Any real is allowed. */
  datatype Box = Box(west: real, south: real, east: real, north: real)

  datatype Tile = Tile(zoom: nat, x: int, row: int)

  datatype Range = Range(xMin: int, xMax: int, rowMin: int, rowMax: int)

  function Index(fraction: real, zoom: nat): int {
    Trunc(fraction * Pow2(zoom) as real)
  }

  /** Columns as they are, rows counted from the bottom (TMS). */
  function TileRanges(box: Box, zoom: nat): Range {
    var top := Pow2(zoom) - 1;
    Range(Index(box.west, zoom), Index(box.east, zoom), top - Index(box.south, zoom), top - Index(box.north, zoom))
  }

  predicate InRange(box: Box, t: Tile) {
    var r := TileRanges(box, t.zoom);
    r.xMin <= t.x <= r.xMax && r.rowMin <= t.row <= r.rowMax
  }

  /** A coordinate that exists at its zoom level. */
  predicate OnGrid(t: Tile) {
    0 <= t.x < Pow2(t.zoom) && 0 <= t.row < Pow2(t.zoom)
  }

  function Parent(t: Tile): Tile
    requires t.zoom > 0
  {
    Tile(t.zoom - 1, t.x / 2, t.row / 2)
  }

  /** Halving an index that is not negative moves it to the next lower zoom, on both sides of a box. */
  lemma HalfIndex(fraction: real, zoom: nat, i: nat)
    ensures Index(fraction, zoom + 1) <= i ==> Index(fraction, zoom) <= i / 2
    ensures i <= Index(fraction, zoom + 1) ==> i / 2 <= Index(fraction, zoom)
  {
    var r := fraction * Pow2(zoom) as real;
    assert fraction * Pow2(zoom + 1) as real == 2.0 * r by {
      assert Pow2(zoom + 1) as real == 2.0 * Pow2(zoom) as real;
    }
    HalfTrunc(r, i);
  }

  lemma HalfTrunc(r: real, i: nat)
    ensures Trunc(2.0 * r) <= i ==> Trunc(r) <= i / 2
    ensures i <= Trunc(2.0 * r) ==> i / 2 <= Trunc(r)
  {
    var half := i / 2;
    assert i == 2 * half || i == 2 * half + 1;
    if r >= 0.0 {
      assert r.Floor as real <= r < (r.Floor + 1) as real;
    }
  }

  /** The flip keeps the pyramid: a row's parent from the bottom is the flip of its parent from the top. */
  lemma FlipHalves(t: Tile)
    requires t.zoom > 0 && OnGrid(t)
    ensures Pow2(t.zoom - 1) - 1 - t.row / 2 == (Pow2(t.zoom) - 1 - t.row) / 2
    ensures OnGrid(Parent(t))
  {
    assert Pow2(t.zoom) == 2 * Pow2(t.zoom - 1);
  }

  /** Every tile of the box at one zoom has its parent in the box one zoom lower. */
  lemma ParentInRange(box: Box, t: Tile)
    requires t.zoom > 0 && OnGrid(t)
    requires InRange(box, t)
    ensures InRange(box, Parent(t))
  {
    var y := Pow2(t.zoom) - 1 - t.row;
    FlipHalves(t);
    HalfIndex(box.west, t.zoom - 1, t.x);
    HalfIndex(box.east, t.zoom - 1, t.x);
    HalfIndex(box.north, t.zoom - 1, y);
    HalfIndex(box.south, t.zoom - 1, y);
  }

  lemma TruncMonotone(a: real, b: real)
    requires a <= b
    ensures Trunc(a) <= Trunc(b)
  {
  }

  lemma ScaledMonotone(a: real, b: real, p: real)
    requires a <= b && p >= 0.0
    ensures a * p <= b * p
  {
  }

  lemma IndexMonotone(a: real, b: real, zoom: nat)
    requires a <= b
    ensures Index(a, zoom) <= Index(b, zoom)
  {
    ScaledMonotone(a, b, Pow2(zoom) as real);
    TruncMonotone(a * Pow2(zoom) as real, b * Pow2(zoom) as real);
  }

  /** No part of the region is lost: the tile under any point of the box is in range, at every zoom. */
  lemma PointIsCovered(box: Box, x: real, y: real, zoom: nat)
    requires box.west <= x <= box.east && box.north <= y <= box.south
    ensures InRange(box, Tile(zoom, Index(x, zoom), Pow2(zoom) - 1 - Index(y, zoom)))
  {
    IndexMonotone(box.west, x, zoom);
    IndexMonotone(x, box.east, zoom);
    IndexMonotone(box.north, y, zoom);
    IndexMonotone(y, box.south, zoom);
  }

  /**
   Along one axis: the half-open cell [i, i + 1) meets the scaled interval [lo, hi]; and because `int()`
   truncates toward zero, an interval that ends less than one cell off the map still meets the first cell.
   */
  ghost predicate Touches(lo: real, hi: real, zoom: nat, i: nat) {
    var p := Pow2(zoom) as real;
    (i as real <= hi * p || (i == 0 && -1.0 < hi * p)) && lo * p < (i + 1) as real
  }

  lemma BetweenIffTouches(lo: real, hi: real, zoom: nat, i: nat)
    ensures Index(lo, zoom) <= i <= Index(hi, zoom) <==> Touches(lo, hi, zoom, i)
  {
    TruncBounds(hi * Pow2(zoom) as real, i);
    TruncBounds(lo * Pow2(zoom) as real, i);
  }

  /** And nothing else is kept: a tile is in range exactly when its square touches the box. */
  lemma InRangeIffTouches(box: Box, t: Tile)
    requires OnGrid(t)
    ensures InRange(box, t) <==>
            && Touches(box.west, box.east, t.zoom, t.x)
            && Touches(box.north, box.south, t.zoom, Pow2(t.zoom) - 1 - t.row)
  {
    hide Touches, Index;
    BetweenIffTouches(box.west, box.east, t.zoom, t.x);
    BetweenIffTouches(box.north, box.south, t.zoom, Pow2(t.zoom) - 1 - t.row);
  }

  lemma TruncBounds(r: real, i: nat)
    ensures Trunc(r) <= i <==> r < (i + 1) as real
    ensures i <= Trunc(r) <==> i as real <= r || (i == 0 && -1.0 < r)
  {
  }

  /** The tables. A blob is its rank in SQLite's blob order. */
  type Blob = nat
  datatype MapRow = MapRow(tile: Tile, id: string)
  datatype Image = Image(id: string, data: Blob)
  datatype Database = Database(rows: seq<MapRow>, images: seq<Image>)

  /** What `build` is asked for: the box, the last overview zoom if any, and the floor. */
  datatype Plan = Plan(box: Box, overviewMax: Option<nat>, minZoom: nat) {
    function DetailFrom(): nat {
      if overviewMax.None? then minZoom else overviewMax.value + 1
    }

    predicate Overview(t: Tile) {
      overviewMax.Some? && minZoom <= t.zoom <= overviewMax.value
    }

    predicate Detail(t: Tile) {
      DetailFrom() <= t.zoom && InRange(box, t)
    }

    predicate Keeps(t: Tile) {
      Overview(t) || Detail(t)
    }
  }

  function Where(rows: seq<MapRow>, p: MapRow -> bool): seq<MapRow> {
    if rows == [] then []
    else (if p(rows[0]) then [rows[0]] else []) + Where(rows[1..], p)
  }

  lemma {:induction false} WhereMembers(rows: seq<MapRow>, p: MapRow -> bool)
    ensures forall r :: r in Where(rows, p) <==> r in rows && p(r)
  {
    if rows != [] {
      WhereMembers(rows[1..], p);
      assert rows == [rows[0]] + rows[1..];
    }
  }

  /** Two selections that never overlap select together what their union selects. */
  lemma {:induction false} WhereSplits(rows: seq<MapRow>, p: MapRow -> bool, q: MapRow -> bool, both: MapRow -> bool)
    requires forall r :: r in rows ==> (both(r) <==> p(r) || q(r)) && !(p(r) && q(r))
    ensures multiset(Where(rows, both)) == multiset(Where(rows, p)) + multiset(Where(rows, q))
  {
    if rows != [] {
      WhereSplits(rows[1..], p, q, both);
      assert rows[0] in rows;
    }
  }

  lemma {:induction false} WhereNone(rows: seq<MapRow>, p: MapRow -> bool)
    requires forall r :: r in rows ==> !p(r)
    ensures Where(rows, p) == []
  {
    if rows != [] {
      assert rows[0] in rows;
      WhereNone(rows[1..], p);
    }
  }

  lemma {:induction false} WhereSame(rows: seq<MapRow>, p: MapRow -> bool, q: MapRow -> bool)
    requires forall r :: r in rows ==> p(r) == q(r)
    ensures Where(rows, p) == Where(rows, q)
  {
    if rows != [] {
      assert rows[0] in rows;
      WhereSame(rows[1..], p, q);
    }
  }

  method MaxZoom(rows: seq<MapRow>) returns (z: nat)
    ensures forall r :: r in rows ==> r.tile.zoom <= z
    ensures rows != [] ==> exists r :: r in rows && r.tile.zoom == z
  {
    z := 0;
    for i := 0 to |rows|
      invariant forall k :: 0 <= k < i ==> rows[k].tile.zoom <= z
      invariant i > 0 ==> exists k :: 0 <= k < i && rows[k].tile.zoom == z
    {
      if i == 0 || rows[i].tile.zoom > z {
        z := rows[i].tile.zoom;
      }
    }
  }

  /** The `WHERE` conditions of the two selections, what they add up to, and what is meant. */
  function InOverview(first: nat, last: nat): MapRow -> bool {
    (r: MapRow) => first <= r.tile.zoom <= last
  }

  function InLevel(zoom: nat, range: Range): MapRow -> bool {
    (r: MapRow) =>
      r.tile.zoom == zoom && range.xMin <= r.tile.x <= range.xMax && range.rowMin <= r.tile.row <= range.rowMax
  }

  function KeptBelow(plan: Plan, zoom: nat): MapRow -> bool {
    (r: MapRow) => plan.Overview(r.tile) || (plan.Detail(r.tile) && r.tile.zoom < zoom)
  }

  function Kept(plan: Plan): MapRow -> bool {
    (r: MapRow) => plan.Keeps(r.tile)
  }

  /** `GROUP BY tile_id` with `MAX(tile_data)`, over the wanted ids. */
  function GroupMax(images: seq<Image>, wanted: set<string>): seq<Image> {
    if images == [] then []
    else
      var last := images[|images| - 1];
      var groups := GroupMax(images[..|images| - 1], wanted);
      if last.id !in wanted then groups else WithMax(groups, last)
  }

  function WithMax(groups: seq<Image>, row: Image): seq<Image> {
    if groups == [] then [row]
    else if groups[0].id == row.id then
      [Image(row.id, if groups[0].data < row.data then row.data else groups[0].data)] + groups[1..]
    else [groups[0]] + WithMax(groups[1..], row)
  }

  ghost predicate DistinctIds(groups: seq<Image>) {
    forall i, j :: 0 <= i < j < |groups| ==> groups[i].id != groups[j].id
  }

  ghost predicate Covers(groups: seq<Image>, row: Image) {
    exists g :: g in groups && g.id == row.id && row.data <= g.data
  }

  /** One row for each wanted id that has a blob, holding the greatest of its blobs. */
  ghost predicate IsGrouping(images: seq<Image>, wanted: set<string>, groups: seq<Image>) {
    && DistinctIds(groups)
    && (forall g :: g in groups ==> g in images && g.id in wanted)
    && (forall row :: row in images && row.id in wanted ==> Covers(groups, row))
  }

  lemma {:induction false} WithMaxGroups(groups: seq<Image>, row: Image)
    requires DistinctIds(groups)
    ensures DistinctIds(WithMax(groups, row))
    ensures forall g :: g in WithMax(groups, row) ==> g in groups || g == row
    ensures Covers(WithMax(groups, row), row)
    ensures forall g :: g in groups ==> Covers(WithMax(groups, row), g)
  {
    var after := WithMax(groups, row);
    if groups == [] {
    } else if groups[0].id == row.id {
      assert after[0] in after;
      forall g | g in groups ensures Covers(after, g) {
        if g == groups[0] {
          assert after[0].id == g.id && g.data <= after[0].data;
        } else {
          assert g in after[1..];
        }
      }
    } else {
      WithMaxGroups(groups[1..], row);
      var rest := WithMax(groups[1..], row);
      assert after == [groups[0]] + rest;
      forall j | 0 <= j < |rest| ensures rest[j].id != groups[0].id {
        assert rest[j] in rest;
      }
      assert forall g :: g in after <==> g == groups[0] || g in rest;
      assert forall g :: g in groups <==> g == groups[0] || g in groups[1..];
      forall g | g in groups[1..] || g == row ensures Covers(after, g) {
        var n :| n in rest && n.id == g.id && g.data <= n.data;
        assert n in after;
      }
    }
  }

  lemma CoversThrough(groups: seq<Image>, after: seq<Image>, row: Image)
    requires Covers(groups, row)
    requires forall g :: g in groups ==> Covers(after, g)
    ensures Covers(after, row)
  {
    var g :| g in groups && g.id == row.id && row.data <= g.data;
    var n :| n in after && n.id == g.id && g.data <= n.data;
  }

  /** Since ids are distinct, covering pins the value: a group's row is the greatest of its id. */
  lemma GroupIsMax(images: seq<Image>, wanted: set<string>, groups: seq<Image>, g: Image, row: Image)
    requires IsGrouping(images, wanted, groups)
    requires g in groups && row in images && row.id == g.id
    ensures row.data <= g.data
  {
    var n :| n in groups && n.id == row.id && row.data <= n.data;
  }

  lemma {:induction false} GroupMaxGroups(images: seq<Image>, wanted: set<string>)
    ensures IsGrouping(images, wanted, GroupMax(images, wanted))
  {
    if images != [] {
      var n := |images| - 1;
      var last := images[n];
      GroupMaxGroups(images[..n], wanted);
      var groups := GroupMax(images[..n], wanted);
      assert images == images[..n] + [last];
      if last.id in wanted {
        WithMaxKeepsGrouping(images[..n], last, wanted, groups);
      } else {
        assert forall g :: g in groups ==> g.id != last.id;
      }
    }
  }

  lemma WithMaxKeepsGrouping(images: seq<Image>, last: Image, wanted: set<string>, groups: seq<Image>)
    requires IsGrouping(images, wanted, groups) && last.id in wanted
    ensures IsGrouping(images + [last], wanted, WithMax(groups, last))
  {
    hide Covers, DistinctIds, WithMax;
    WithMaxGroups(groups, last);
    forall row | row in images && row.id in wanted ensures Covers(WithMax(groups, last), row) {
      CoversThrough(groups, WithMax(groups, last), row);
    }
  }

  /** The `tiles` view: one result row for every pair of a map row and a blob of its id. */
  datatype ViewRow = ViewRow(tile: Tile, data: Blob)

  function Matches(t: Tile, id: string, images: seq<Image>): seq<ViewRow> {
    if images == [] then []
    else (if images[0].id == id then [ViewRow(t, images[0].data)] else []) + Matches(t, id, images[1..])
  }

  function TilesView(rows: seq<MapRow>, images: seq<Image>): seq<ViewRow> {
    if rows == [] then [] else Matches(rows[0].tile, rows[0].id, images) + TilesView(rows[1..], images)
  }

  /** With one blob row per id, the join does not fan out. */
  lemma {:induction false} MatchesOnce(t: Tile, id: string, images: seq<Image>, g: Image)
    requires DistinctIds(images)
    requires g in images && g.id == id
    ensures Matches(t, id, images) == [ViewRow(t, g.data)]
  {
    if images[0] == g {
      MatchesNone(t, id, images[1..]);
    } else {
      assert g in images[1..];
      MatchesOnce(t, id, images[1..], g);
    }
  }

  lemma {:induction false} MatchesNone(t: Tile, id: string, images: seq<Image>)
    requires forall g :: g in images ==> g.id != id
    ensures Matches(t, id, images) == []
  {
    if images != [] {
      assert images[0] in images;
      MatchesNone(t, id, images[1..]);
    }
  }

  /** Some source blob exists for every row that is kept. */
  ghost predicate BlobsPresent(rows: seq<MapRow>, images: seq<Image>) {
    forall r :: r in rows ==> exists g :: g in images && g.id == r.id
  }

  /** The rebuilt view returns one row for each map row, in order, even if the source lists a blob twice. */
  lemma {:induction false} ViewIsOneToOne(rows: seq<MapRow>, images: seq<Image>)
    requires DistinctIds(images) && BlobsPresent(rows, images)
    ensures |TilesView(rows, images)| == |rows|
    ensures forall i :: 0 <= i < |rows| ==>
              && TilesView(rows, images)[i].tile == rows[i].tile
              && Image(rows[i].id, TilesView(rows, images)[i].data) in images
  {
    hide TilesView, DistinctIds;
    ViewHead(rows, images);
    if rows != [] {
      assert BlobsPresent(rows[1..], images) by {
        assert forall r :: r in rows[1..] ==> r in rows;
      }
      ViewIsOneToOne(rows[1..], images);
    }
  }

  lemma ViewHead(rows: seq<MapRow>, images: seq<Image>)
    requires DistinctIds(images) && BlobsPresent(rows, images)
    ensures rows == [] ==> TilesView(rows, images) == []
    ensures rows != [] ==>
              exists g :: g in images && g == Image(rows[0].id, g.data)
                          && TilesView(rows, images) == [ViewRow(rows[0].tile, g.data)] + TilesView(rows[1..], images)
  {
    if rows != [] {
      assert rows[0] in rows;
      var g :| g in images && g.id == rows[0].id;
      MatchesOnce(rows[0].tile, rows[0].id, images, g);
    }
  }

  function Ids(rows: seq<MapRow>): set<string> {
    set r | r in rows :: r.id
  }

  /** What the output must be: the kept rows and one blob row for each id among them. */
  ghost predicate IsCrop(source: Database, plan: Plan, out: Database) {
    && multiset(out.rows) == multiset(Where(source.rows, Kept(plan)))
    && IsGrouping(source.images, Ids(out.rows), out.images)
  }

  lemma OverviewFirst(rows: seq<MapRow>, plan: Plan)
    ensures Where(rows, KeptBelow(plan, plan.DetailFrom()))
            == if plan.overviewMax.Some? then Where(rows, InOverview(plan.minZoom, plan.overviewMax.value)) else []
  {
    hide TileRanges, InRange;
    if plan.overviewMax.Some? {
      WhereSame(rows, InOverview(plan.minZoom, plan.overviewMax.value), KeptBelow(plan, plan.DetailFrom()));
    } else {
      WhereNone(rows, KeptBelow(plan, plan.DetailFrom()));
    }
  }

  lemma OneMoreLevel(rows: seq<MapRow>, plan: Plan, zoom: nat)
    requires plan.DetailFrom() <= zoom
    ensures multiset(Where(rows, KeptBelow(plan, zoom + 1)))
            == multiset(Where(rows, KeptBelow(plan, zoom)))
               + multiset(Where(rows, InLevel(zoom, TileRanges(plan.box, zoom))))
  {
    hide TileRanges;
    WhereSplits(rows, KeptBelow(plan, zoom), InLevel(zoom, TileRanges(plan.box, zoom)), KeptBelow(plan, zoom + 1));
  }

  lemma AllLevels(rows: seq<MapRow>, plan: Plan, last: nat, zoom: nat)
    requires last < zoom && forall r :: r in rows ==> r.tile.zoom <= last
    ensures Where(rows, KeptBelow(plan, zoom)) == Where(rows, Kept(plan))
  {
    hide TileRanges, InRange;
    WhereSame(rows, KeptBelow(plan, zoom), Kept(plan));
  }

  /**
   * `build`: the overview in one selection, the details zoom by zoom, then only the referenced
   * blobs, one row for each. An empty source is an error.
   */
  method Build(source: Database, plan: Plan) returns (out: Option<Database>)
    ensures out.None? <==> source.rows == []
    ensures out.Some? ==> IsCrop(source, plan, out.value)
  {
    hide Where, GroupMax, TileRanges, InLevel, InOverview, KeptBelow, Kept;
    if |source.rows| == 0 {
      return None;
    }
    var rows := [];
    if plan.overviewMax.Some? {
      rows := Where(source.rows, InOverview(plan.minZoom, plan.overviewMax.value));
    }
    OverviewFirst(source.rows, plan);
    var last := MaxZoom(source.rows);
    var zoom := plan.DetailFrom();
    while zoom <= last
      invariant plan.DetailFrom() <= zoom
      invariant multiset(rows) == multiset(Where(source.rows, KeptBelow(plan, zoom)))
    {
      OneMoreLevel(source.rows, plan, zoom);
      rows := rows + Where(source.rows, InLevel(zoom, TileRanges(plan.box, zoom)));
      zoom := zoom + 1;
    }
    AllLevels(source.rows, plan, last, zoom);
    GroupMaxGroups(source.images, Ids(rows));
    out := Some(Database(rows, GroupMax(source.images, Ids(rows))));
  }

  ghost predicate HasTile(rows: seq<MapRow>, t: Tile) {
    exists r :: r in rows && r.tile == t
  }

  /** From `floor` up, every tile's parent is there. */
  ghost predicate ParentClosed(rows: seq<MapRow>, floor: nat) {
    forall r :: r in rows && r.tile.zoom > floor ==> HasTile(rows, Parent(r.tile))
  }

  lemma CropMembers(source: Database, plan: Plan, out: Database)
    requires IsCrop(source, plan, out)
    ensures forall r :: r in out.rows <==> r in source.rows && plan.Keeps(r.tile)
  {
    WhereMembers(source.rows, Kept(plan));
    assert forall r :: r in out.rows <==> r in multiset(out.rows);
    assert forall r :: r in Where(source.rows, Kept(plan)) <==> r in multiset(Where(source.rows, Kept(plan)));
  }

  /** A kept tile's parent is kept down to the floor, also across the split between detail and overview. */
  lemma ParentIsKept(plan: Plan, t: Tile)
    requires t.zoom > plan.minZoom && OnGrid(t) && plan.Keeps(t)
    ensures plan.Keeps(Parent(t))
  {
    if plan.Detail(t) {
      ParentInRange(plan.box, t);
    }
  }

  /** Cropping keeps a pyramid a pyramid. */
  lemma CropIsParentClosed(source: Database, plan: Plan, out: Database)
    requires IsCrop(source, plan, out)
    requires forall r :: r in source.rows ==> OnGrid(r.tile)
    requires ParentClosed(source.rows, plan.minZoom)
    ensures ParentClosed(out.rows, plan.minZoom)
  {
    CropMembers(source, plan, out);
    forall r | r in out.rows && r.tile.zoom > plan.minZoom ensures HasTile(out.rows, Parent(r.tile)) {
      ParentIsKept(plan, r.tile);
      var p :| p in source.rows && p.tile == Parent(r.tile);
      assert p in out.rows;
    }
  }

  /** The view of the output: each kept coordinate once for each of its source rows, with a blob of its own id. */
  lemma CropViewIsExact(source: Database, plan: Plan, out: Database)
    requires IsCrop(source, plan, out)
    requires BlobsPresent(source.rows, source.images)
    ensures |TilesView(out.rows, out.images)| == |out.rows|
    ensures forall i :: 0 <= i < |out.rows| ==>
              && TilesView(out.rows, out.images)[i].tile == out.rows[i].tile
              && IsLargest(source.images, Image(out.rows[i].id, TilesView(out.rows, out.images)[i].data))
  {
    CropMembers(source, plan, out);
    forall r | r in out.rows ensures exists g :: g in out.images && g.id == r.id {
      var row :| row in source.images && row.id == r.id;
      assert Covers(out.images, row);
    }
    ViewIsOneToOne(out.rows, out.images);
    forall g | g in out.images ensures IsLargest(source.images, g) {
      forall row | row in source.images && row.id == g.id ensures row.data <= g.data {
        GroupIsMax(source.images, Ids(out.rows), out.images, g, row);
      }
    }
  }

  ghost predicate IsLargest(images: seq<Image>, g: Image) {
    g in images && forall row :: row in images && row.id == g.id ==> row.data <= g.data
  }

  ghost predicate OneRowEach(rows: seq<MapRow>) {
    forall i, j :: 0 <= i < j < |rows| ==> rows[i].tile != rows[j].tile
  }

  lemma {:induction false} CountOnce(rows: seq<MapRow>, r: MapRow, p: MapRow -> bool)
    requires OneRowEach(rows)
    ensures multiset(Where(rows, p))[r] <= 1
  {
    if rows != [] {
      WhereMembers(rows[1..], p);
      CountOnce(rows[1..], r, p);
    }
  }

  lemma CountTwice(rows: seq<MapRow>, i: nat, j: nat)
    requires i < j < |rows| && rows[i] == rows[j]
    ensures multiset(rows)[rows[i]] >= 2
  {
    assert rows == rows[..j] + ([rows[j]] + rows[j + 1..]);
    assert rows[i] == rows[..j][i] && rows[i] in multiset(rows[..j]);
  }

  lemma CropStaysDistinct(source: Database, plan: Plan, out: Database)
    requires IsCrop(source, plan, out) && OneRowEach(source.rows)
    ensures OneRowEach(out.rows)
  {
    hide Kept, Where, IsGrouping;
    CropMembers(source, plan, out);
    forall i, j | 0 <= i < j < |out.rows| ensures out.rows[i].tile != out.rows[j].tile {
      if out.rows[i].tile == out.rows[j].tile {
        assert out.rows[i] in source.rows && out.rows[j] in source.rows;
        CountTwice(out.rows, i, j);
        CountOnce(source.rows, out.rows[i], Kept(plan));
      }
    }
  }

  /** With one source row for each coordinate, the rebuilt view returns each kept coordinate exactly once. */
  lemma EachTileOnce(source: Database, plan: Plan, out: Database, t: Tile)
    requires IsCrop(source, plan, out)
    requires BlobsPresent(source.rows, source.images) && OneRowEach(source.rows)
    requires HasTile(source.rows, t) && plan.Keeps(t)
    ensures |TilesView(out.rows, out.images)| == |out.rows|
    ensures exists i :: 0 <= i < |out.rows| && TilesView(out.rows, out.images)[i].tile == t
    ensures forall i, j :: 0 <= i < j < |out.rows|
                           ==> TilesView(out.rows, out.images)[i].tile != TilesView(out.rows, out.images)[j].tile
  {
    hide TilesView, Kept, Where, IsLargest;
    CropViewIsExact(source, plan, out);
    CropMembers(source, plan, out);
    var r :| r in source.rows && r.tile == t;
    var at :| 0 <= at < |out.rows| && out.rows[at] == r;
    assert TilesView(out.rows, out.images)[at].tile == t;
    CropStaysDistinct(source, plan, out);
  }
}
