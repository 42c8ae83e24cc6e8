/** The incremental visibility and lighting grid. Every cell remembers when it
    was last seen, last reached by the viewer and last lit, the light falling
    on it and a snapshot of the tiles it showed when last seen. A generation
    counter `count` tells the current generation from older ones.

    The shadowcasting crate is not part of this model: its output is an input
    function `fov` from an origin and a squared vision radius to the visible
    cells, each with the directions it is visible from and a visibility byte,
    all inside the grid. */
module Visibility {
  import opened Common
  import opened Rgb
  import opened Components
  import opened World

  const AMBIENT_COL: Rgb24 := Grey(31)
  const VISION_DISTANCE_SQUARED: nat := 400

  /** One bit per direction a cell can be seen from. */
  type DirectionBitmap = bv8

  const ALL_DIRECTIONS: DirectionBitmap := 0xFF
  const NO_DIRECTIONS: DirectionBitmap := 0

  predicate Intersects(a: DirectionBitmap, b: DirectionBitmap) {
    a & b != 0
  }

  /** A cell the shadowcaster yields: where, from which directions, and how
      much of the light gets through (255 = all of it). */
  datatype Visible = Visible(coord: Coord, directions: DirectionBitmap, visibility: U8)

  /** A field of view: the visible cells from an origin within a squared radius. */
  type Fov = (Coord, nat) -> seq<Visible>

  predicate AllInBounds(size: Size, vs: seq<Visible>) {
    forall k :: 0 <= k < |vs| ==> InBounds(size, vs[k].coord)
  }

  ghost predicate FovInBounds(size: Size, fov: Fov) {
    forall o, r :: AllInBounds(size, fov(o, r))
  }

  datatype EntityTile = EntityTile(entity: Entity, tile: Tile)

  datatype TileLayers = TileLayers(
    floor: Option<EntityTile>,
    feature: Option<EntityTile>,
    character: Option<EntityTile>,
    item: Option<EntityTile>)
  {
    function Get(l: Layer): Option<EntityTile> {
      match l
      case Floor => floor
      case Feature => feature
      case Character => character
      case Item => item
    }
  }

  const NO_TILE_LAYERS: TileLayers := TileLayers(None, None, None, None)

  datatype VisibilityCell = VisibilityCell(
    lastSeen: nat,
    lastSeenNext: nat,
    lastLit: nat,
    visibleDirections: DirectionBitmap,
    lightColour: Rgb24,
    tileLayers: TileLayers)

  /** A cell that has never been seen, reached or lit. */
  const DEFAULT_CELL: VisibilityCell :=
    VisibilityCell(0, 0, 0, NO_DIRECTIONS, Rgb24(0, 0, 0), NO_TILE_LAYERS)

  datatype CellVisibility =
    | NeverVisible
    | PreviouslyVisible
    | CurrentlyVisibleWithLightColour(light: Option<Rgb24>)

  /** How a cell looks in generation `count`. */
  function Classify(cell: VisibilityCell, count: nat): (v: CellVisibility)
    ensures v.CurrentlyVisibleWithLightColour? <==> cell.lastSeen == count
    ensures (v == CurrentlyVisibleWithLightColour(Some(cell.lightColour)))
              <==> (cell.lastSeen == count && cell.lastLit == count)
    ensures v == CurrentlyVisibleWithLightColour(None) <==> cell.lastSeen == count && cell.lastLit != count
    ensures v.NeverVisible? <==> cell.lastSeen != count && cell.lastSeen == 0
    ensures v.PreviouslyVisible? <==> cell.lastSeen != count && cell.lastSeen != 0
  {
    if cell.lastSeen == count then
      var light := if cell.lastLit == count then Some(cell.lightColour) else None;
      CurrentlyVisibleWithLightColour(light)
    else if cell.lastSeen == 0 then
      NeverVisible
    else
      PreviouslyVisible
  }

  /** A fresh cell is never visible in any generation after the first grid
      is made. */
  lemma DefaultNeverVisible(count: nat)
    requires count >= 1
    ensures Classify(DEFAULT_CELL, count) == NeverVisible
  {
  }

  // ---------------------------------------------------------------------
  // The generation invariant
  // ---------------------------------------------------------------------

  /** No stamp of a cell is ahead of the generation, and a cell seen or
      reached this generation was also lit this generation. */
  predicate CellBounded(c: VisibilityCell, count: nat) {
    && c.lastSeen <= count
    && c.lastSeenNext <= count
    && c.lastLit <= count
    && (c.lastSeen == count ==> c.lastLit == count)
    && (c.lastSeenNext == count ==> c.lastLit == count)
  }

  predicate Bounded(cells: seq<VisibilityCell>, count: nat) {
    forall i :: 0 <= i < |cells| ==> CellBounded(cells[i], count)
  }

  /** Under the invariant a cell is never visible without light. */
  lemma SeenIsLit(cells: seq<VisibilityCell>, count: nat, i: nat)
    requires Bounded(cells, count) && i < |cells|
    ensures Classify(cells[i], count) != CurrentlyVisibleWithLightColour(None)
  {
  }

  /** Once the counter moves on, last generation's invariant holds for the
      new one. */
  lemma BoundedNext(cells: seq<VisibilityCell>, count: nat)
    requires Bounded(cells, count)
    ensures Bounded(cells, count + 1)
  {
  }

  // ---------------------------------------------------------------------
  // Snapshots of the world's tiles
  // ---------------------------------------------------------------------

  /** One layer of a snapshot: an empty slot clears it, an occupant with a
      tile replaces it, and an occupant without a tile leaves it as it was. */
  function SnapLayer(kept: Option<EntityTile>, occupant: Option<Entity>, tiles: map<Entity, Tile>): Option<EntityTile> {
    match occupant
    case None => None
    case Some(e) => if e in tiles then Some(EntityTile(e, tiles[e])) else kept
  }

  function Snapshot(t: TileLayers, layers: Layers, tiles: map<Entity, Tile>): TileLayers {
    TileLayers(
      SnapLayer(t.floor, layers.floor, tiles),
      SnapLayer(t.feature, layers.feature, tiles),
      SnapLayer(t.character, layers.character, tiles),
      SnapLayer(t.item, layers.item, tiles))
  }

  /** A snapshot taken at a coordinate shows, layer by layer, what the world
      shows there: nothing on an empty layer, the occupant and its tile where
      it has one, and the remembered entry where the occupant has no tile. */
  lemma SnapshotShowsWorld(t: TileLayers, s: SpatialTable, tiles: map<Entity, Tile>, c: Coord, l: Layer)
    ensures s.At(c, l).None? ==> Snapshot(t, s.LayersAtChecked(c), tiles).Get(l).None?
    ensures TileAt(s, tiles, c, l).Some? ==>
              Snapshot(t, s.LayersAtChecked(c), tiles).Get(l)
                == Some(EntityTile(s.At(c, l).value, TileAt(s, tiles, c, l).value))
    ensures s.At(c, l).Some? && TileAt(s, tiles, c, l).None? ==>
              Snapshot(t, s.LayersAtChecked(c), tiles).Get(l) == t.Get(l)
  {
  }

  /** Taking the same snapshot twice is taking it once. */
  lemma SnapshotIdempotent(t: TileLayers, layers: Layers, tiles: map<Entity, Tile>)
    ensures Snapshot(Snapshot(t, layers, tiles), layers, tiles) == Snapshot(t, layers, tiles)
  {
  }

  // ---------------------------------------------------------------------
  // Per-cell steps
  // ---------------------------------------------------------------------

  /** The omniscient step: seen, reached and lit now, from every direction,
      in full white, with a fresh snapshot. */
  function OmniscientCell(cell: VisibilityCell, count: nat, layers: Layers, tiles: map<Entity, Tile>): (d: VisibilityCell)
    ensures Classify(d, count) == CurrentlyVisibleWithLightColour(Some(Grey(255)))
    ensures CellBounded(d, count)
  {
    VisibilityCell(count, count, count, ALL_DIRECTIONS, Grey(255), Snapshot(cell.tileLayers, layers, tiles))
  }

  /** The viewer's step: reached and lit now by the ambient light, from the
      given directions; what was last seen and remembered is untouched. */
  function AmbientCell(cell: VisibilityCell, count: nat, directions: DirectionBitmap): (d: VisibilityCell)
    ensures d.lastSeen == cell.lastSeen && d.tileLayers == cell.tileLayers
    ensures CellBounded(cell, count) ==> CellBounded(d, count)
  {
    cell.(lastSeenNext := count, visibleDirections := directions, lastLit := count, lightColour := AMBIENT_COL)
  }

  function Square(d: int): nat {
    if d < 0 then MulNat(-d, -d) else MulNat(d, d)
  }

  function DistanceSquared(a: Coord, b: Coord): nat {
    Square(a.x - b.x) + Square(a.y - b.y)
  }

  /** The light a source adds to a cell: its colour divided by the squared
      distance scaled by the diminish ratio (at least 1), then scaled by the
      cell's visibility byte. */
  function Contribution(light: Light, lightCoord: Coord, v: Visible): (c: Rgb24)
    requires light.diminish.denominator > 0
    ensures NoDarker(light.colour, c)
  {
    var inverse := MulNat(DistanceSquared(lightCoord, v.coord), light.diminish.numerator) / light.diminish.denominator;
    var divisor := if inverse < 1 then 1 else inverse;
    NormalisedScalarMul(ScalarDiv(light.colour, divisor), v.visibility)
  }

  /** A source at full visibility lights its own cell in its own colour. */
  lemma ContributionAtSource(light: Light, lightCoord: Coord, directions: DirectionBitmap)
    requires light.diminish.denominator > 0
    ensures Contribution(light, lightCoord, Visible(lightCoord, directions, 255)) == light.colour
  {
    assert DistanceSquared(lightCoord, lightCoord) == 0;
  }

  /** What one light may do to a cell, over one or several light steps:
      the viewer stamps and directions stay, the colour never darkens, a cell
      the viewer did not reach this generation is untouched, `lastSeen` moves
      only to `count` and only while the light is bright enough, and the
      snapshot changes only to the world's current one and only together with
      `lastSeen`. */
  predicate LightEffect(c: VisibilityCell, d: VisibilityCell, count: nat, layers: Layers, tiles: map<Entity, Tile>) {
    && d.lastSeenNext == c.lastSeenNext
    && d.lastLit == c.lastLit
    && d.visibleDirections == c.visibleDirections
    && NoDarker(d.lightColour, c.lightColour)
    && (c.lastSeenNext != count ==> d == c)
    && (d.lastSeen == c.lastSeen || (d.lastSeen == count && SaturatingChannelTotal(d.lightColour) > 31))
    && (d.tileLayers == c.tileLayers || d.tileLayers == Snapshot(c.tileLayers, layers, tiles))
    && (d.tileLayers != c.tileLayers ==> d.lastSeen == count)
  }

  lemma LightEffectTransitive(a: VisibilityCell, b: VisibilityCell, c: VisibilityCell, count: nat, layers: Layers, tiles: map<Entity, Tile>)
    requires LightEffect(a, b, count, layers, tiles) && LightEffect(b, c, count, layers, tiles)
    ensures LightEffect(a, c, count, layers, tiles)
  {
    TotalMonotone(c.lightColour, b.lightColour);
    SnapshotIdempotent(a.tileLayers, layers, tiles);
  }

  /** One light reaching one cell. It acts only on a cell the viewer reached
      this generation from a direction the light also reaches it from; it
      adds its contribution, saturating; and when the cell is then bright
      enough it snapshots the cell's tiles and marks it seen. */
  function LightCell(cell: VisibilityCell, count: nat, light: Light, lightCoord: Coord, v: Visible,
                     layers: Layers, tiles: map<Entity, Tile>): (d: VisibilityCell)
    requires light.diminish.denominator > 0
    ensures LightEffect(cell, d, count, layers, tiles)
    ensures d != cell ==> cell.lastSeenNext == count && Intersects(v.directions, cell.visibleDirections)
    ensures cell.lastSeenNext == count && Intersects(v.directions, cell.visibleDirections) ==>
              d.lightColour == SaturatingAdd(cell.lightColour, Contribution(light, lightCoord, v))
    ensures cell.lastSeenNext == count && Intersects(v.directions, cell.visibleDirections)
              && SaturatingChannelTotal(d.lightColour) > 31 ==>
              d.lastSeen == count && d.tileLayers == Snapshot(cell.tileLayers, layers, tiles)
    ensures CellBounded(cell, count) ==> CellBounded(d, count)
  {
    if cell.lastSeenNext == count && Intersects(v.directions, cell.visibleDirections) then
      var colour := SaturatingAdd(cell.lightColour, Contribution(light, lightCoord, v));
      if SaturatingChannelTotal(colour) > 31 then
        cell.(lightColour := colour, tileLayers := Snapshot(cell.tileLayers, layers, tiles), lastSeen := count)
      else
        cell.(lightColour := colour)
    else
      cell
  }

  // ---------------------------------------------------------------------
  // Passes over the grid, as functions of the cells before them
  // ---------------------------------------------------------------------

  /** Cell `i` is among those the shadowcaster yields. */
  predicate Yielded(size: Size, vs: seq<Visible>, i: nat)
    requires AllInBounds(size, vs)
  {
    exists k :: 0 <= k < |vs| && Index(size, vs[k].coord) == i
  }

  /** The omniscient pass: every cell of the grid, in row-major order. */
  function OmniscientPassOf(cells: seq<VisibilityCell>, size: Size, count: nat, s: SpatialTable, tiles: map<Entity, Tile>): (r: seq<VisibilityCell>)
    requires |cells| == Area(size)
    ensures |r| == |cells|
  {
    seq(|cells|, i requires 0 <= i < |cells| =>
      OmniscientCell(cells[i], count, s.LayersAtChecked(CoordOfIndex(size, i)), tiles))
  }

  /** The viewer's ambient pass over the cells it yields, in order. */
  function AmbientPassOf(cells: seq<VisibilityCell>, size: Size, count: nat, vs: seq<Visible>): (r: seq<VisibilityCell>)
    requires |cells| == Area(size) && AllInBounds(size, vs)
    ensures |r| == |cells|
    decreases |vs|
  {
    if vs == [] then cells
    else
      var prev := AmbientPassOf(cells, size, count, vs[..|vs| - 1]);
      var v := vs[|vs| - 1];
      var i := Index(size, v.coord);
      prev[i := AmbientCell(prev[i], count, v.directions)]
  }

  /** One light's pass over the cells it reaches, in order. */
  function LightPassOf(cells: seq<VisibilityCell>, size: Size, count: nat, lightCoord: Coord, light: Light,
                       vs: seq<Visible>, s: SpatialTable, tiles: map<Entity, Tile>): (r: seq<VisibilityCell>)
    requires |cells| == Area(size) && AllInBounds(size, vs) && light.diminish.denominator > 0
    ensures |r| == |cells|
    decreases |vs|
  {
    if vs == [] then cells
    else
      var prev := LightPassOf(cells, size, count, lightCoord, light, vs[..|vs| - 1], s, tiles);
      var v := vs[|vs| - 1];
      var i := Index(size, v.coord);
      prev[i := LightCell(prev[i], count, light, lightCoord, v, s.LayersAtChecked(v.coord), tiles)]
  }

  predicate Dimming(lights: seq<(Coord, Light)>) {
    forall k :: 0 <= k < |lights| ==> lights[k].1.diminish.denominator > 0
  }

  /** Every light's pass, one light after another. */
  function LightingOf(cells: seq<VisibilityCell>, size: Size, count: nat, lights: seq<(Coord, Light)>, fov: Fov,
                      s: SpatialTable, tiles: map<Entity, Tile>): (r: seq<VisibilityCell>)
    requires |cells| == Area(size) && FovInBounds(size, fov) && Dimming(lights)
    ensures |r| == |cells|
    decreases |lights|
  {
    if lights == [] then cells
    else
      var prev := LightingOf(cells, size, count, lights[..|lights| - 1], fov, s, tiles);
      var (coord, light) := lights[|lights| - 1];
      LightPassOf(prev, size, count, coord, light, fov(coord, light.visionDistanceSquared), s, tiles)
  }

  /** The whole update of generation `count`: the omniscient or the viewer's
      pass, then every light. */
  function UpdatedCells(cells: seq<VisibilityCell>, size: Size, count: nat, omniscient: bool, playerCoord: Coord,
                        lights: seq<(Coord, Light)>, fov: Fov, s: SpatialTable, tiles: map<Entity, Tile>): (r: seq<VisibilityCell>)
    requires |cells| == Area(size) && FovInBounds(size, fov) && Dimming(lights)
    ensures |r| == |cells|
  {
    var seen :=
      if omniscient then OmniscientPassOf(cells, size, count, s, tiles)
      else AmbientPassOf(cells, size, count, fov(playerCoord, VISION_DISTANCE_SQUARED));
    LightingOf(seen, size, count, lights, fov, s, tiles)
  }

  // ---------------------------------------------------------------------
  // What the passes do, cell by cell
  // ---------------------------------------------------------------------

  lemma YieldedSnoc(size: Size, vs: seq<Visible>, i: nat)
    requires AllInBounds(size, vs) && vs != []
    ensures AllInBounds(size, vs[..|vs| - 1])
    ensures Yielded(size, vs, i) <==>
              Yielded(size, vs[..|vs| - 1], i) || Index(size, vs[|vs| - 1].coord) == i
  {
    var init := vs[..|vs| - 1];
    assert forall k :: 0 <= k < |init| ==> init[k] == vs[k];
    if Yielded(size, vs, i) && Index(size, vs[|vs| - 1].coord) != i {
      var k :| 0 <= k < |vs| && Index(size, vs[k].coord) == i;
      assert k < |init| && init[k] == vs[k];
    }
    if Yielded(size, init, i) {
      var k :| 0 <= k < |init| && Index(size, init[k].coord) == i;
      assert vs[k] == init[k];
    }
  }

  /** The viewer's pass leaves every cell's memory alone, stamps every
      yielded cell as reached and lit now in the ambient colour, and leaves
      every other cell exactly as it was. */
  lemma {:induction false} AmbientPassCell(cells: seq<VisibilityCell>, size: Size, count: nat, vs: seq<Visible>, i: nat)
    requires |cells| == Area(size) && AllInBounds(size, vs) && i < |cells|
    ensures AmbientPassOf(cells, size, count, vs)[i].lastSeen == cells[i].lastSeen
    ensures AmbientPassOf(cells, size, count, vs)[i].tileLayers == cells[i].tileLayers
    ensures Yielded(size, vs, i) ==>
              && AmbientPassOf(cells, size, count, vs)[i].lastSeenNext == count
              && AmbientPassOf(cells, size, count, vs)[i].lastLit == count
              && AmbientPassOf(cells, size, count, vs)[i].lightColour == AMBIENT_COL
    ensures !Yielded(size, vs, i) ==> AmbientPassOf(cells, size, count, vs)[i] == cells[i]
    ensures CellBounded(cells[i], count) ==> CellBounded(AmbientPassOf(cells, size, count, vs)[i], count)
    decreases |vs|
  {
    if vs != [] {
      YieldedSnoc(size, vs, i);
      AmbientPassCell(cells, size, count, vs[..|vs| - 1], i);
    }
  }

  /** One light's pass has, on every cell, an effect allowed by LightEffect
      for the world's layers at that cell. */
  lemma {:induction false} LightPassCell(cells: seq<VisibilityCell>, size: Size, count: nat, lightCoord: Coord, light: Light,
                                         vs: seq<Visible>, s: SpatialTable, tiles: map<Entity, Tile>, i: nat)
    requires |cells| == Area(size) && AllInBounds(size, vs) && light.diminish.denominator > 0 && i < |cells|
    ensures LightEffect(cells[i], LightPassOf(cells, size, count, lightCoord, light, vs, s, tiles)[i], count,
                        s.LayersAtChecked(CoordOfIndex(size, i)), tiles)
    ensures CellBounded(cells[i], count) ==>
              CellBounded(LightPassOf(cells, size, count, lightCoord, light, vs, s, tiles)[i], count)
    decreases |vs|
  {
    var layers := s.LayersAtChecked(CoordOfIndex(size, i));
    if vs != [] {
      var init := vs[..|vs| - 1];
      assert AllInBounds(size, init) by {
        assert forall k :: 0 <= k < |init| ==> init[k] == vs[k];
      }
      LightPassCell(cells, size, count, lightCoord, light, init, s, tiles, i);
      var prev := LightPassOf(cells, size, count, lightCoord, light, init, s, tiles);
      var v := vs[|vs| - 1];
      if Index(size, v.coord) == i {
        IndexInjective(size, v.coord, CoordOfIndex(size, i));
        var d := LightCell(prev[i], count, light, lightCoord, v, s.LayersAtChecked(v.coord), tiles);
        LightEffectTransitive(cells[i], prev[i], d, count, layers, tiles);
      }
    }
  }

  /** All the lights together have an effect allowed by LightEffect. */
  lemma {:induction false} LightingCell(cells: seq<VisibilityCell>, size: Size, count: nat, lights: seq<(Coord, Light)>, fov: Fov,
                                        s: SpatialTable, tiles: map<Entity, Tile>, i: nat)
    requires |cells| == Area(size) && FovInBounds(size, fov) && Dimming(lights) && i < |cells|
    ensures LightEffect(cells[i], LightingOf(cells, size, count, lights, fov, s, tiles)[i], count,
                        s.LayersAtChecked(CoordOfIndex(size, i)), tiles)
    ensures CellBounded(cells[i], count) ==> CellBounded(LightingOf(cells, size, count, lights, fov, s, tiles)[i], count)
    decreases |lights|
  {
    if lights != [] {
      var init := lights[..|lights| - 1];
      assert Dimming(init) by {
        assert forall k :: 0 <= k < |init| ==> init[k] == lights[k];
      }
      LightingCell(cells, size, count, init, fov, s, tiles, i);
      var prev := LightingOf(cells, size, count, init, fov, s, tiles);
      var (coord, light) := lights[|lights| - 1];
      LightPassCell(prev, size, count, coord, light, fov(coord, light.visionDistanceSquared), s, tiles, i);
      LightEffectTransitive(cells[i], prev[i],
        LightPassOf(prev, size, count, coord, light, fov(coord, light.visionDistanceSquared), s, tiles)[i],
        count, s.LayersAtChecked(CoordOfIndex(size, i)), tiles);
    }
  }

  // ---------------------------------------------------------------------
  // What the lights must do
  // ---------------------------------------------------------------------

  /** The cell is marked seen in generation `count` and shows the world's
      snapshot taken over the remembered layers `base`. */
  predicate SeenNow(c: VisibilityCell, base: TileLayers, count: nat, layers: Layers, tiles: map<Entity, Tile>) {
    c.lastSeen == count && c.tileLayers == Snapshot(base, layers, tiles)
  }

  /** More light never takes back a mark or a snapshot already made. */
  lemma LightEffectKeepsSeen(c: VisibilityCell, d: VisibilityCell, base: TileLayers, count: nat, layers: Layers,
                             tiles: map<Entity, Tile>)
    requires LightEffect(c, d, count, layers, tiles) && SeenNow(c, base, count, layers, tiles)
    ensures SeenNow(d, base, count, layers, tiles)
  {
    SnapshotIdempotent(base, layers, tiles);
  }

  /** A light's pass that reaches a cell the viewer reached this generation,
      from a direction the viewer reached it from, marks the cell seen with
      the world's snapshot, when the cell was already over the brightness
      threshold: the light only adds to its colour. */
  lemma {:induction false} LightPassSees(cells: seq<VisibilityCell>, size: Size, count: nat, lightCoord: Coord, light: Light,
                                         vs: seq<Visible>, s: SpatialTable, tiles: map<Entity, Tile>, i: nat, k: nat)
    requires |cells| == Area(size) && AllInBounds(size, vs) && light.diminish.denominator > 0 && i < |cells|
    requires k < |vs| && Index(size, vs[k].coord) == i
    requires cells[i].lastSeenNext == count && Intersects(vs[k].directions, cells[i].visibleDirections)
    requires SaturatingChannelTotal(cells[i].lightColour) > 31
    ensures SeenNow(LightPassOf(cells, size, count, lightCoord, light, vs, s, tiles)[i], cells[i].tileLayers, count,
                    s.LayersAtChecked(CoordOfIndex(size, i)), tiles)
    decreases |vs|
  {
    var layers := s.LayersAtChecked(CoordOfIndex(size, i));
    var init := vs[..|vs| - 1];
    assert AllInBounds(size, init) by {
      assert forall k :: 0 <= k < |init| ==> init[k] == vs[k];
    }
    var prev := LightPassOf(cells, size, count, lightCoord, light, init, s, tiles);
    var v := vs[|vs| - 1];
    if k < |vs| - 1 {
      assert init[k] == vs[k];
      LightPassSees(cells, size, count, lightCoord, light, init, s, tiles, i, k);
      if Index(size, v.coord) == i {
        IndexInjective(size, v.coord, CoordOfIndex(size, i));
        LightEffectKeepsSeen(prev[i], LightCell(prev[i], count, light, lightCoord, v, layers, tiles),
                             cells[i].tileLayers, count, layers, tiles);
      }
    } else {
      LightPassCell(cells, size, count, lightCoord, light, init, s, tiles, i);
      TotalMonotone(prev[i].lightColour, cells[i].lightColour);
      IndexInjective(size, v.coord, CoordOfIndex(size, i));
      var d := LightCell(prev[i], count, light, lightCoord, v, layers, tiles);
      TotalMonotone(d.lightColour, prev[i].lightColour);
      SnapshotIdempotent(cells[i].tileLayers, layers, tiles);
    }
  }

  /** The same over all the lights: once any light reaches the cell from a
      direction the viewer reached it from, the cell ends marked seen with
      the world's snapshot. */
  lemma {:induction false} LightingSees(cells: seq<VisibilityCell>, size: Size, count: nat, lights: seq<(Coord, Light)>, fov: Fov,
                                        s: SpatialTable, tiles: map<Entity, Tile>, i: nat, j: nat, k: nat)
    requires |cells| == Area(size) && FovInBounds(size, fov) && Dimming(lights) && i < |cells|
    requires j < |lights|
    requires var vs := fov(lights[j].0, lights[j].1.visionDistanceSquared);
             k < |vs| && Index(size, vs[k].coord) == i && Intersects(vs[k].directions, cells[i].visibleDirections)
    requires cells[i].lastSeenNext == count && SaturatingChannelTotal(cells[i].lightColour) > 31
    ensures SeenNow(LightingOf(cells, size, count, lights, fov, s, tiles)[i], cells[i].tileLayers, count,
                    s.LayersAtChecked(CoordOfIndex(size, i)), tiles)
    decreases |lights|
  {
    var layers := s.LayersAtChecked(CoordOfIndex(size, i));
    var init := lights[..|lights| - 1];
    assert Dimming(init) by {
      assert forall k :: 0 <= k < |init| ==> init[k] == lights[k];
    }
    var prev := LightingOf(cells, size, count, init, fov, s, tiles);
    var (coord, light) := lights[|lights| - 1];
    var vs := fov(coord, light.visionDistanceSquared);
    if j < |lights| - 1 {
      assert init[j] == lights[j];
      LightingSees(cells, size, count, init, fov, s, tiles, i, j, k);
      LightPassCell(prev, size, count, coord, light, vs, s, tiles, i);
      LightEffectKeepsSeen(prev[i], LightPassOf(prev, size, count, coord, light, vs, s, tiles)[i],
                           cells[i].tileLayers, count, layers, tiles);
    } else {
      LightingCell(cells, size, count, init, fov, s, tiles, i);
      TotalMonotone(prev[i].lightColour, cells[i].lightColour);
      LightPassSees(prev, size, count, coord, light, vs, s, tiles, i, k);
      SnapshotIdempotent(cells[i].tileLayers, layers, tiles);
    }
  }

  // ---------------------------------------------------------------------
  // What a whole update does
  // ---------------------------------------------------------------------

  /** An update keeps the generation invariant: `lastSeen` stays at most
      `count`, and a cell seen now is lit now. */
  lemma UpdateKeepsBounds(cells: seq<VisibilityCell>, size: Size, count: nat, omniscient: bool, playerCoord: Coord,
                          lights: seq<(Coord, Light)>, fov: Fov, s: SpatialTable, tiles: map<Entity, Tile>)
    requires |cells| == Area(size) && FovInBounds(size, fov) && Dimming(lights)
    requires count >= 1 && Bounded(cells, count - 1)
    ensures Bounded(UpdatedCells(cells, size, count, omniscient, playerCoord, lights, fov, s, tiles), count)
  {
    var vs := fov(playerCoord, VISION_DISTANCE_SQUARED);
    var seen :=
      if omniscient then OmniscientPassOf(cells, size, count, s, tiles)
      else AmbientPassOf(cells, size, count, vs);
    forall i | 0 <= i < |cells|
      ensures CellBounded(UpdatedCells(cells, size, count, omniscient, playerCoord, lights, fov, s, tiles)[i], count)
    {
      assert CellBounded(cells[i], count - 1);
      if !omniscient {
        AmbientPassCell(cells, size, count, vs, i);
      }
      LightingCell(seen, size, count, lights, fov, s, tiles, i);
    }
  }

  /** With omniscience every cell of the grid is currently visible, in full
      white: the lights cannot darken it. */
  lemma OmniscientSeesAll(cells: seq<VisibilityCell>, size: Size, count: nat, playerCoord: Coord,
                          lights: seq<(Coord, Light)>, fov: Fov, s: SpatialTable, tiles: map<Entity, Tile>, i: nat)
    requires |cells| == Area(size) && FovInBounds(size, fov) && Dimming(lights) && i < |cells|
    ensures Classify(UpdatedCells(cells, size, count, true, playerCoord, lights, fov, s, tiles)[i], count)
              == CurrentlyVisibleWithLightColour(Some(Grey(255)))
  {
    var seen := OmniscientPassOf(cells, size, count, s, tiles);
    LightingCell(seen, size, count, lights, fov, s, tiles, i);
  }

  /** Without omniscience, a cell the viewer does not reach keeps everything:
      when it was last seen, its light and its remembered tiles. */
  lemma UnreachedCellKept(cells: seq<VisibilityCell>, size: Size, count: nat, playerCoord: Coord,
                          lights: seq<(Coord, Light)>, fov: Fov, s: SpatialTable, tiles: map<Entity, Tile>, i: nat)
    requires |cells| == Area(size) && FovInBounds(size, fov) && Dimming(lights) && i < |cells|
    requires count >= 1 && Bounded(cells, count - 1)
    requires !Yielded(size, fov(playerCoord, VISION_DISTANCE_SQUARED), i)
    ensures UpdatedCells(cells, size, count, false, playerCoord, lights, fov, s, tiles)[i] == cells[i]
  {
    var vs := fov(playerCoord, VISION_DISTANCE_SQUARED);
    var seen := AmbientPassOf(cells, size, count, vs);
    AmbientPassCell(cells, size, count, vs, i);
    assert CellBounded(cells[i], count - 1);
    LightingCell(seen, size, count, lights, fov, s, tiles, i);
  }

  /** Without omniscience, a cell the viewer reaches and that some light then
      reaches from one of the directions the viewer reached it from ends
      currently visible, lit, and remembering the world's tiles there: the
      ambient light alone is over the brightness threshold. */
  lemma ReachedAndLitIsSeen(cells: seq<VisibilityCell>, size: Size, count: nat, playerCoord: Coord,
                            lights: seq<(Coord, Light)>, fov: Fov, s: SpatialTable, tiles: map<Entity, Tile>,
                            i: nat, j: nat, k: nat)
    requires |cells| == Area(size) && FovInBounds(size, fov) && Dimming(lights) && i < |cells|
    requires Yielded(size, fov(playerCoord, VISION_DISTANCE_SQUARED), i)
    requires j < |lights|
    requires var vs := fov(lights[j].0, lights[j].1.visionDistanceSquared);
             && k < |vs| && Index(size, vs[k].coord) == i
             && Intersects(vs[k].directions,
                           AmbientPassOf(cells, size, count, fov(playerCoord, VISION_DISTANCE_SQUARED))[i].visibleDirections)
    ensures var d := UpdatedCells(cells, size, count, false, playerCoord, lights, fov, s, tiles)[i];
            && Classify(d, count) == CurrentlyVisibleWithLightColour(Some(d.lightColour))
            && d.tileLayers == Snapshot(cells[i].tileLayers, s.LayersAtChecked(CoordOfIndex(size, i)), tiles)
  {
    var vs := fov(playerCoord, VISION_DISTANCE_SQUARED);
    var seen := AmbientPassOf(cells, size, count, vs);
    AmbientPassCell(cells, size, count, vs, i);
    LightingSees(seen, size, count, lights, fov, s, tiles, i, j, k);
    LightingCell(seen, size, count, lights, fov, s, tiles, i);
  }

  /** In either mode an update moves `lastSeen` only to the new generation,
      and changes a remembered snapshot only to the world's current tiles at
      that cell, together with marking it seen. */
  lemma UpdateRefreshesMemory(cells: seq<VisibilityCell>, size: Size, count: nat, omniscient: bool, playerCoord: Coord,
                              lights: seq<(Coord, Light)>, fov: Fov, s: SpatialTable, tiles: map<Entity, Tile>, i: nat)
    requires |cells| == Area(size) && FovInBounds(size, fov) && Dimming(lights) && i < |cells|
    ensures var d := UpdatedCells(cells, size, count, omniscient, playerCoord, lights, fov, s, tiles)[i];
            && (d.lastSeen == cells[i].lastSeen || d.lastSeen == count)
            && (d.tileLayers == cells[i].tileLayers
                || d.tileLayers == Snapshot(cells[i].tileLayers, s.LayersAtChecked(CoordOfIndex(size, i)), tiles))
            && (d.tileLayers != cells[i].tileLayers ==> d.lastSeen == count)
  {
    var vs := fov(playerCoord, VISION_DISTANCE_SQUARED);
    var layers := s.LayersAtChecked(CoordOfIndex(size, i));
    var seen :=
      if omniscient then OmniscientPassOf(cells, size, count, s, tiles)
      else AmbientPassOf(cells, size, count, vs);
    if !omniscient {
      AmbientPassCell(cells, size, count, vs, i);
    } else {
      SnapshotIdempotent(cells[i].tileLayers, layers, tiles);
    }
    LightingCell(seen, size, count, lights, fov, s, tiles, i);
  }

  // ---------------------------------------------------------------------
  // The passes, in place
  // ---------------------------------------------------------------------

  method OmniscientPass(a: array<VisibilityCell>, size: Size, count: nat, s: SpatialTable, tiles: map<Entity, Tile>)
    requires a.Length == Area(size)
    modifies a
    ensures a[..] == OmniscientPassOf(old(a[..]), size, count, s, tiles)
  {
    ghost var a0 := a[..];
    var i := 0;
    while i < a.Length
      invariant 0 <= i <= a.Length
      invariant forall j :: 0 <= j < i ==>
                  a[j] == OmniscientCell(a0[j], count, s.LayersAtChecked(CoordOfIndex(size, j)), tiles)
      invariant forall j :: i <= j < a.Length ==> a[j] == a0[j]
    {
      var coord := CoordOfIndex(size, i);
      a[i] := OmniscientCell(a[i], count, s.LayersAtChecked(coord), tiles);
      i := i + 1;
    }
  }

  method AmbientPass(a: array<VisibilityCell>, size: Size, count: nat, vs: seq<Visible>)
    requires a.Length == Area(size) && AllInBounds(size, vs)
    modifies a
    ensures a[..] == AmbientPassOf(old(a[..]), size, count, vs)
  {
    ghost var a0 := a[..];
    var k := 0;
    while k < |vs|
      invariant 0 <= k <= |vs|
      invariant AllInBounds(size, vs[..k])
      invariant a[..] == AmbientPassOf(a0, size, count, vs[..k])
    {
      var v := vs[k];
      var i := Index(size, v.coord);
      a[i] := AmbientCell(a[i], count, v.directions);
      assert vs[..k + 1][..k] == vs[..k];
      k := k + 1;
    }
    assert vs[..k] == vs;
  }

  method LightPass(a: array<VisibilityCell>, size: Size, count: nat, lightCoord: Coord, light: Light,
                   vs: seq<Visible>, s: SpatialTable, tiles: map<Entity, Tile>)
    requires a.Length == Area(size) && AllInBounds(size, vs) && light.diminish.denominator > 0
    modifies a
    ensures a[..] == LightPassOf(old(a[..]), size, count, lightCoord, light, vs, s, tiles)
  {
    ghost var a0 := a[..];
    var k := 0;
    while k < |vs|
      invariant 0 <= k <= |vs|
      invariant AllInBounds(size, vs[..k])
      invariant a[..] == LightPassOf(a0, size, count, lightCoord, light, vs[..k], s, tiles)
    {
      var v := vs[k];
      var i := Index(size, v.coord);
      a[i] := LightCell(a[i], count, light, lightCoord, v, s.LayersAtChecked(v.coord), tiles);
      assert vs[..k + 1][..k] == vs[..k];
      k := k + 1;
    }
    assert vs[..k] == vs;
  }

  method Lighting(a: array<VisibilityCell>, size: Size, count: nat, lights: seq<(Coord, Light)>, fov: Fov,
                  s: SpatialTable, tiles: map<Entity, Tile>)
    requires a.Length == Area(size) && FovInBounds(size, fov) && Dimming(lights)
    modifies a
    ensures a[..] == LightingOf(old(a[..]), size, count, lights, fov, s, tiles)
  {
    ghost var a0 := a[..];
    var k := 0;
    while k < |lights|
      invariant 0 <= k <= |lights|
      invariant Dimming(lights[..k])
      invariant a[..] == LightingOf(a0, size, count, lights[..k], fov, s, tiles)
    {
      var (coord, light) := lights[k];
      LightPass(a, size, count, coord, light, fov(coord, light.visionDistanceSquared), s, tiles);
      assert lights[..k + 1][..k] == lights[..k];
      k := k + 1;
    }
    assert lights[..k] == lights;
  }

  // ---------------------------------------------------------------------
  // The world's lights, in the order its light table yields them
  // ---------------------------------------------------------------------

  /** `order` lists every light of the world exactly once. */
  ghost predicate Enumerates(order: seq<Entity>, lights: map<Entity, (Coord, Light)>) {
    && (forall e :: e in order <==> e in lights)
    && (forall i, j :: 0 <= i < j < |order| ==> order[i] != order[j])
  }

  function LightList(lights: map<Entity, (Coord, Light)>, order: seq<Entity>): (r: seq<(Coord, Light)>)
    requires forall e | e in order :: e in lights
    ensures |r| == |order|
    ensures forall k :: 0 <= k < |r| ==> r[k] == lights[order[k]]
  {
    if order == [] then [] else [lights[order[0]]] + LightList(lights, order[1..])
  }

  // ---------------------------------------------------------------------
  // The grid
  // ---------------------------------------------------------------------

  class VisibilityGrid {
    const size: Size
    var cells: array<VisibilityCell>
    var count: nat

    ghost predicate Valid()
      reads this, cells
    {
      cells.Length == Area(size) && count >= 1 && Bounded(cells[..], count)
    }

    /** A fresh grid: generation 1, every cell default, so nothing has been
        seen. */
    constructor (size: Size)
      ensures Valid() && this.size == size && count == 1 && fresh(cells)
      ensures forall i :: 0 <= i < cells.Length ==> cells[i] == DEFAULT_CELL
      ensures forall c :: CellVisibility(c) == NeverVisible
    {
      this.size := size;
      cells := new VisibilityCell[Area(size)](_ => DEFAULT_CELL);
      count := 1;
    }

    function GetCell(c: Coord): (r: Option<VisibilityCell>)
      reads this, cells
      requires Valid()
      ensures r.Some? <==> InBounds(size, c)
      ensures r.Some? ==> r.value == cells[Index(size, c)]
    {
      if InBounds(size, c) then Some(cells[Index(size, c)]) else None
    }

    /** How a coordinate looks now: outside the grid it is never visible;
        inside, the cell's own classification; and never visible without
        light. */
    function CellVisibility(c: Coord): (v: CellVisibility)
      reads this, cells
      requires Valid()
      ensures !InBounds(size, c) ==> v == NeverVisible
      ensures InBounds(size, c) ==> v == Classify(cells[Index(size, c)], count)
      ensures v != CurrentlyVisibleWithLightColour(None)
    {
      match GetCell(c)
      case None => NeverVisible
      case Some(cell) =>
        SeenIsLit(cells[..], count, Index(size, c));
        Classify(cell, count)
    }

    function IsCoordCurrentlyVisible(c: Coord): (b: bool)
      reads this, cells
      requires Valid()
      ensures b <==> InBounds(size, c) && cells[Index(size, c)].lastSeen == count
    {
      match CellVisibility(c)
      case CurrentlyVisibleWithLightColour(Some(_)) => true
      case _ => false
    }

    function IsCoordNeverVisible(c: Coord): (b: bool)
      reads this, cells
      requires Valid()
      ensures b <==> !InBounds(size, c) || cells[Index(size, c)].lastSeen == 0
    {
      CellVisibility(c).NeverVisible?
    }

    /** Moves to the next generation and recomputes what is seen and lit:
        the omniscient pass or the viewer's pass from the player's
        coordinate, then one pass per light of the world, in `order`. */
    method Update(playerCoord: Coord, world: World, fov: Fov, omniscient: bool, order: seq<Entity>)
      requires Valid()
      requires world.spatial.size == size
      requires FovInBounds(size, fov)
      requires Enumerates(order, world.AllLightsByCoord())
      requires forall e | e in world.components.light :: world.components.light[e].diminish.denominator > 0
      modifies this, cells
      ensures Valid() && cells == old(cells) && count == old(count) + 1
      ensures cells[..] == UpdatedCells(old(cells[..]), size, count, omniscient, playerCoord,
                                        LightList(world.AllLightsByCoord(), order), fov,
                                        world.spatial, world.components.tile)
    {
      count := count + 1;
      ghost var before := cells[..];
      if omniscient {
        OmniscientPass(cells, size, count, world.spatial, world.components.tile);
      } else {
        AmbientPass(cells, size, count, fov(playerCoord, VISION_DISTANCE_SQUARED));
      }
      var lights := LightList(world.AllLightsByCoord(), order);
      Lighting(cells, size, count, lights, fov, world.spatial, world.components.tile);
      UpdateKeepsBounds(before, size, count, omniscient, playerCoord, lights, fov, world.spatial, world.components.tile);
    }
  }
}
