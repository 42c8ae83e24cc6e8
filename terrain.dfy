/** The text-map terrain parser: one character per cell, rows separated by
    newlines, each character spawning a fixed stack of things. A door or
    window takes its axis from a one-character look-behind: whether the
    last non-control character before it was a wall. */
module Terrain {
  import opened Common
  import opened Components
  import opened World
  import opened Spawn

  /** Where the source panics, the model returns one of these. */
  datatype ParseError =
    | NoRows        // every line is empty: `rows[0]` is out of range
    | OutOfBounds   // a character that spawns lies outside the grid
    | SecondPlayer  // a second '@': the player data was already taken
    | NoPlayer      // no '@' at all

  datatype Terrain = Terrain(world: World, player: Entity)

  // ---------------------------------------------------------------------
  // Splitting the text into rows
  // ---------------------------------------------------------------------

  /** The length of the first line: the index of the first newline, or the
      whole text when there is none. */
  function LineEnd(s: string): (k: nat)
    ensures k <= |s|
    ensures forall i | 0 <= i < k :: s[i] != '\n'
    ensures k < |s| ==> s[k] == '\n'
  {
    if s == [] || s[0] == '\n' then 0 else 1 + LineEnd(s[1..])
  }

  /** The lines of `s`, split at newlines, with the empty ones dropped. */
  function Rows(s: string): (rows: seq<string>)
    decreases |s|
  {
    if s == [] then []
    else
      var k := LineEnd(s);
      var rest := if k < |s| then Rows(s[k + 1..]) else [];
      if k == 0 then rest else [s[..k]] + rest
  }

  /** The rows are the text's non-empty lines: none is empty and none
      holds a newline. */
  lemma {:induction false} RowsAreLines(s: string)
    ensures forall i | 0 <= i < |Rows(s)| :: Rows(s)[i] != [] && '\n' !in Rows(s)[i]
    decreases |s|
  {
    if s != [] {
      var k := LineEnd(s);
      if k < |s| {
        RowsAreLines(s[k + 1..]);
      }
    }
  }

  /** All rows joined, without separators. */
  function Flatten(rows: seq<string>): string {
    if rows == [] then [] else rows[0] + Flatten(rows[1..])
  }

  /** The text with every newline removed. */
  function DropNewlines(s: string): string {
    if s == [] then [] else (if s[0] == '\n' then [] else [s[0]]) + DropNewlines(s[1..])
  }

  lemma {:induction false} FlattenSnoc(rows: seq<string>, r: string)
    ensures Flatten(rows + [r]) == Flatten(rows) + r
  {
    if rows == [] {
      assert Flatten([r]) == r + Flatten([]);
    } else {
      assert (rows + [r])[1..] == rows[1..] + [r];
      FlattenSnoc(rows[1..], r);
    }
  }

  /** A piece of text without newlines survives their removal whole. */
  lemma {:induction false} DropLine(a: string, rest: string)
    requires forall i | 0 <= i < |a| :: a[i] != '\n'
    ensures DropNewlines(a + rest) == a + DropNewlines(rest)
  {
    if a != [] {
      assert (a + rest)[0] == a[0] && (a + rest)[1..] == a[1..] + rest;
      assert DropNewlines(a + rest) == [a[0]] + DropNewlines(a[1..] + rest);
      DropLine(a[1..], rest);
      assert a + DropNewlines(rest) == [a[0]] + (a[1..] + DropNewlines(rest));
    } else {
      assert a + rest == rest;
    }
  }

  /** The text without newlines is its first line, then the rest of the
      text without newlines. */
  lemma {:induction false} DropFirstLine(s: string)
    ensures var k := LineEnd(s);
            DropNewlines(s) == s[..k] + (if k < |s| then DropNewlines(s[k + 1..]) else [])
  {
    var k := LineEnd(s);
    assert s == s[..k] + s[k..];
    DropLine(s[..k], s[k..]);
    if k < |s| {
      assert s[k..][0] == '\n' && s[k..][1..] == s[k + 1..];
    } else {
      assert s[k..] == [];
    }
  }

  lemma FlattenCons(r: string, rest: seq<string>)
    ensures Flatten([r] + rest) == r + Flatten(rest)
  {
    assert ([r] + rest)[1..] == rest;
  }

  /** Splitting loses nothing but the newlines: the rows, joined back,
      are the text without its newlines. */
  lemma {:induction false} RowsKeepText(s: string)
    ensures Flatten(Rows(s)) == DropNewlines(s)
    decreases |s|
  {
    if s != [] {
      var k := LineEnd(s);
      DropFirstLine(s);
      if k < |s| {
        RowsKeepText(s[k + 1..]);
      }
      var rest := if k < |s| then Rows(s[k + 1..]) else [];
      if k != 0 {
        FlattenCons(s[..k], rest);
      }
    }
  }

  // ---------------------------------------------------------------------
  // Characters
  // ---------------------------------------------------------------------

  /** Rust's `char::is_control`: the C0 controls, DEL and the C1 controls. */
  predicate IsControl(ch: char) {
    ch as int < 0x20 || (0x7F <= ch as int <= 0x9F)
  }

  /** The number of bytes a character takes in UTF-8. */
  function Utf8Len(ch: char): nat {
    if ch as int < 0x80 then 1 else if ch as int < 0x800 then 2 else if ch as int < 0x1_0000 then 3 else 4
  }

  /** The length of a string in bytes, as `str::len` counts it. */
  function ByteLen(s: string): (n: nat)
    ensures |s| <= n <= 4 * |s|
    ensures (forall i | 0 <= i < |s| :: s[i] as int < 0x80) ==> n == |s|
  {
    if s == [] then 0 else Utf8Len(s[0]) + ByteLen(s[1..])
  }

  /** The grid size: the first row's length in bytes by the number of
      rows, each cast to 16 bits. */
  function GridSize(rows: seq<string>): (size: Size)
    requires rows != []
    ensures size.width < 0x1_0000 && size.height < 0x1_0000
    ensures |rows| < 0x1_0000 ==> size.height == |rows|
  {
    Size(ByteLen(rows[0]) % 0x1_0000, |rows| % 0x1_0000)
  }

  /** Characters that spawn something, and so need their cell on the grid. */
  predicate Spawns(ch: char) {
    match ch
    case ',' | '.' | '1' | '2' | '3' | '4' | '5' | '&' | 'L' | 'M' | '#' | '+' | '%' | '~' | '@' => true
    case _ => false
  }

  /** What a character puts on the floor layer. */
  function FloorPrefab(ch: char, hint: WaterColour): (p: Option<Prefab>)
    ensures p.Some? <==> Spawns(ch)
    ensures p.Some? ==> PrefabLayer(p.value) == Some(Layer.Floor)
  {
    match ch
    case ',' | '1' | '2' | '3' | '4' | '5' | 'L' | 'M' | '#' | '+' | '%' => Some(Prefab.Floor(0.0))
    case '.' | '&' | '@' => Some(Prefab.Ground(0.0))
    case '~' => Some(Prefab.Water(hint))
    case _ => None
  }

  /** What a character puts above its floor, if anything besides the player:
      doors and windows lie along Y after a wall and along X otherwise. */
  function UpperPrefab(ch: char, prevWall: bool, tree: TreeTile): (p: Option<Prefab>)
    ensures p.Some? ==> Spawns(ch) && ch != '@'
    ensures p.Some? ==> PrefabLayer(p.value) != Some(Layer.Floor) && PrefabLayer(p.value) != Some(Layer.Character)
  {
    var axis := if prevWall then Axis.Y else Axis.X;
    match ch
    case '1' => Some(Prefab.Gumboots)
    case '2' => Some(Prefab.Umbrella)
    case '3' => Some(Prefab.Shovel)
    case '4' => Some(Prefab.Map)
    case '5' => Some(Prefab.WeatherReport)
    case '&' => Some(Prefab.Tree(tree))
    case 'L' => Some(Prefab.HouseLight)
    case 'M' => Some(Prefab.HouseLight)
    case '#' => Some(Prefab.Wall)
    case '+' => Some(Prefab.Door(axis))
    case '%' => Some(Prefab.Window(axis))
    case _ => None
  }

  /** The tile a character leaves on layer `l` of its cell. */
  function CellTile(ch: char, prevWall: bool, tree: TreeTile, hint: WaterColour, data: EntityData, l: Layer): Option<Tile> {
    if ch == '@' then PlayerTile(data, l) else StackTile(ch, prevWall, tree, hint, l)
  }

  /** The player's cell: ground, with the player's own tile above it. */
  function PlayerTile(data: EntityData, l: Layer): Option<Tile> {
    if l == Layer.Floor then Some(Tile.Ground) else if l == Layer.Character then data.tile else None
  }

  /** Any other cell: its floor, and what stands on it. */
  function StackTile(ch: char, prevWall: bool, tree: TreeTile, hint: WaterColour, l: Layer): Option<Tile> {
    if l == Layer.Floor then
      (if Spawns(ch) then PrefabRow(FloorPrefab(ch, hint).value).tile else None)
    else
      var u := UpperPrefab(ch, prevWall, tree);
      if u.Some? && PrefabLayer(u.value) == Some(l) then PrefabRow(u.value).tile else None
  }

  // ---------------------------------------------------------------------
  // The wall look-behind
  // ---------------------------------------------------------------------

  /** Whether the last non-control character of `s` is a wall. */
  predicate LastIsWall(s: string) {
    if s == [] then false
    else if IsControl(s[|s| - 1]) then LastIsWall(s[..|s| - 1])
    else s[|s| - 1] == '#'
  }

  /** The look-behind, stated directly: some '#' is followed only by
      control characters. */
  lemma {:induction false} LastIsWallMeans(s: string)
    ensures LastIsWall(s) <==>
            exists i | 0 <= i < |s| :: s[i] == '#' && forall j | i < j < |s| :: IsControl(s[j])
  {
    if s != [] {
      var n := |s| - 1;
      if IsControl(s[n]) {
        LastIsWallMeans(s[..n]);
        if LastIsWall(s) {
          var i :| 0 <= i < n && s[..n][i] == '#' && forall j | i < j < n :: IsControl(s[..n][j]);
          assert s[i] == '#' && forall j | i < j < |s| :: IsControl(s[j]);
        }
        if exists i | 0 <= i < |s| :: s[i] == '#' && forall j | i < j < |s| :: IsControl(s[j]) {
          var i :| 0 <= i < |s| && s[i] == '#' && forall j | i < j < |s| :: IsControl(s[j]);
          assert i != n;
          assert s[..n][i] == '#' && forall j | i < j < n :: IsControl(s[..n][j]);
        }
      } else if s[n] == '#' {
        assert s[n] == '#';
      } else {
        forall i | 0 <= i < |s| && s[i] == '#'
          ensures !forall j | i < j < |s| :: IsControl(s[j])
        {
          assert i < n && !IsControl(s[n]);
        }
      }
    }
  }

  /** Every character before row `y`, column `x`, in reading order. */
  function Prefix(rows: seq<string>, y: nat, x: nat): string
    requires y < |rows| ==> x <= |rows[y]|
    requires y >= |rows| ==> y == |rows| && x == 0
  {
    if y == |rows| then Flatten(rows) else Flatten(rows[..y]) + rows[y][..x]
  }

  /** The look-behind flag the parser holds when it reaches (x, y). */
  predicate PrevWallAt(rows: seq<string>, y: nat, x: nat)
    requires y < |rows| && x <= |rows[y]|
  {
    LastIsWall(Prefix(rows, y, x))
  }

  lemma PrefixStep(rows: seq<string>, y: nat, x: nat)
    requires y < |rows| && x < |rows[y]|
    ensures Prefix(rows, y, x + 1) == Prefix(rows, y, x) + [rows[y][x]]
  {
    assert rows[y][..x + 1] == rows[y][..x] + [rows[y][x]];
  }

  lemma PrefixNextRow(rows: seq<string>, y: nat)
    requires y < |rows|
    ensures Prefix(rows, y + 1, 0) == Prefix(rows, y, |rows[y]|)
  {
    assert rows[..y + 1] == rows[..y] + [rows[y]];
    FlattenSnoc(rows[..y], rows[y]);
    assert rows[y][..|rows[y]|] == rows[y];
    if y + 1 == |rows| {
      assert rows[..y + 1] == rows;
    }
  }

  lemma PrefixStart(rows: seq<string>)
    requires rows != []
    ensures Prefix(rows, 0, 0) == []
  {
    assert rows[..0] == [];
  }

  /** A door or window cell shows a closed door or a window along Y exactly
      when some '#' before it, in reading order, is followed only by
      control characters, and along X otherwise. */
  lemma DoorAxisFollowsWall(rows: seq<string>, c: Coord, data: EntityData,
                            trees: Coord -> TreeTile, hints: Coord -> WaterColour)
    requires 0 <= c.y < |rows| && 0 <= c.x < |rows[c.y]| && (rows[c.y][c.x] == '+' || rows[c.y][c.x] == '%')
    ensures var p := Prefix(rows, c.y, c.x);
            var axis := if exists i | 0 <= i < |p| :: p[i] == '#' && forall j | i < j < |p| :: IsControl(p[j])
                        then Axis.Y else Axis.X;
            ExpectedAt(rows, c, Layer.Feature, data, trees, hints) ==
              if rows[c.y][c.x] == '+' then Some(DoorClosed(axis)) else Some(Tile.Window(axis))
  {
    LastIsWallMeans(Prefix(rows, c.y, c.x));
  }

  /** What the parse makes of the whole text. */
  function ExpectedAt(rows: seq<string>, c: Coord, l: Layer, data: EntityData,
                      trees: Coord -> TreeTile, hints: Coord -> WaterColour): Option<Tile>
  {
    if 0 <= c.y < |rows| && 0 <= c.x < |rows[c.y]| then
      CellTile(rows[c.y][c.x], PrevWallAt(rows, c.y, c.x), trees(c), hints(c), data, l)
    else None
  }

  /** Every character that spawns lies inside the grid. */
  predicate SpawnsInBounds(rows: seq<string>, size: Size) {
    forall y, x {:trigger rows[y][x]} | 0 <= y < |rows| && 0 <= x < |rows[y]| :: Spawns(rows[y][x]) ==> InBounds(size, Coord(x, y))
  }

  function PlayerCount(rows: seq<string>): nat {
    multiset(Flatten(rows))['@']
  }

  predicate IsPlayerCell(rows: seq<string>, c: Coord) {
    0 <= c.y < |rows| && 0 <= c.x < |rows[c.y]| && rows[c.y][c.x] == '@'
  }

  predicate IsHouseLightCell(rows: seq<string>, c: Coord) {
    0 <= c.y < |rows| && 0 <= c.x < |rows[c.y]| && (rows[c.y][c.x] == 'L' || rows[c.y][c.x] == 'M')
  }

  /** The components of the entity a character puts on `layer` of its cell,
      `None` standing for the entity without a layer; an empty row where the
      character puts nothing. */
  function CellRow(ch: char, prevWall: bool, tree: TreeTile, hint: WaterColour, data: EntityData, layer: Option<Layer>): (r: Row)
    ensures r.light.Some? ==>
              || (layer.None? && (ch == 'L' || ch == 'M') && r.light == Some(HOUSE_LIGHT))
              || (layer == Some(Layer.Character) && ch == '@' && r.light == data.light)
    ensures layer.None? && (ch == 'L' || ch == 'M') ==> r.light == Some(HOUSE_LIGHT) && r.houseLight
  {
    if ch == '@' then PlayerRow(data, layer) else StackRow(ch, prevWall, tree, hint, layer)
  }

  /** The player's cell: plain ground, and the player's own components on the
      character layer. */
  function PlayerRow(data: EntityData, layer: Option<Layer>): Row {
    if layer == Some(Layer.Floor) then PrefabRow(Prefab.Ground(0.0))
    else if layer == Some(Layer.Character) then DataRow(data)
    else NoComponents
  }

  /** Any other cell: its floor prefab's components, and its upper prefab's
      on that prefab's layer. */
  function StackRow(ch: char, prevWall: bool, tree: TreeTile, hint: WaterColour, layer: Option<Layer>): Row {
    if layer == Some(Layer.Floor) then
      (if Spawns(ch) then PrefabRow(FloorPrefab(ch, hint).value) else NoComponents)
    else
      var u := UpperPrefab(ch, prevWall, tree);
      if u.Some? && PrefabLayer(u.value) == layer then PrefabRow(u.value) else NoComponents
  }

  /** The components the parse gives the entity at `loc`. */
  function ExpectedRow(rows: seq<string>, loc: Location, data: EntityData,
                       trees: Coord -> TreeTile, hints: Coord -> WaterColour): Row
  {
    var c := loc.coord;
    if 0 <= c.y < |rows| && 0 <= c.x < |rows[c.y]| then
      CellRow(rows[c.y][c.x], PrevWallAt(rows, c.y, c.x), trees(c), hints(c), data, loc.layer)
    else NoComponents
  }

  /** The cells the parser has been through when it reaches (x, y). */
  predicate Done(c: Coord, y: int, x: int) {
    c.y < y || (c.y == y && c.x < x)
  }

  // ---------------------------------------------------------------------
  // The parser
  // ---------------------------------------------------------------------

  /** What parsing one character at `at` did, when it succeeded: the
      character's stack shows at `at` and nothing else the grid shows
      changed; every placed entity stays where it was; '@' placed a new
      player entity on the character layer. */
  ghost predicate CellParsed(s0: SpatialTable, c0: Components, s1: SpatialTable, c1: Components, at: Coord,
                             ch: char, prevWall: bool, tree: TreeTile, hint: WaterColour, data: EntityData,
                             player: Option<Entity>, player': Option<Entity>)
  {
    var parsed :=
      && s0.SameBesides(s1, at)
      && (forall c, l {:trigger TileAt(s1, c1.tile, c, l)} :: (TileAt(s1, c1.tile, c, l) ==
            if c == at then CellTile(ch, prevWall, tree, hint, data, l) else TileAt(s0, c0.tile, c, l)))
      && (ch != '@' ==> player' == player && c1.player == c0.player)
      && (ch == '@' ==>
            && player'.Some? && player'.value !in c0.player
            && c1.player == c0.player + (if data.player then {player'.value} else {})
            && player'.value in s1.location
            && s1.location[player'.value] == Location(at, Some(Layer.Character)));
    parsed
  }

  /** What placing one cell's entities at `at` did to the entities: every
      entity already placed, and every entity still without a location,
      keeps its components; each new entity lies at `at` with the components
      `row` gives its layer; and no two new entities share a location. */
  ghost predicate Added(s0: SpatialTable, c0: Components, s1: SpatialTable, c1: Components, at: Coord,
                        row: Option<Layer> -> Row)
  {
    var added :=
      && (forall e {:trigger RowOf(c1, e)} :: e in s0.location || e !in s1.location ==> RowOf(c1, e) == RowOf(c0, e))
      && (forall e {:trigger s1.location[e]} | e in s1.location && e !in s0.location ::
            s1.location[e].coord == at && RowOf(c1, e) == row(s1.location[e].layer))
      && (forall e1, e2 {:trigger s1.location[e1], s1.location[e2]} |
            e1 in s1.location && e1 !in s0.location && e2 in s1.location && e2 !in s0.location &&
            s1.location[e1] == s1.location[e2] :: e1 == e2);
    added
  }

  /** One new entity, placed at `at` with the row of its layer. */
  lemma OneAdded(s0: SpatialTable, c0: Components, s1: SpatialTable, c1: Components, at: Coord,
                 e: Entity, loc: Location, row: Option<Layer> -> Row)
    requires e !in s0.location && s1.location == s0.location[e := loc] && loc.coord == at
    requires RowOf(c1, e) == row(loc.layer) && forall x :: x != e ==> RowOf(c1, x) == RowOf(c0, x)
    ensures Added(s0, c0, s1, c1, at, row)
  {
  }

  /** Two new entities on different layers of `at`, one after the other. */
  lemma TwoAdded(s0: SpatialTable, c0: Components, s1: SpatialTable, c1: Components, s2: SpatialTable, c2: Components,
                 at: Coord, e1: Entity, loc1: Location, e2: Entity, loc2: Location, row: Option<Layer> -> Row)
    requires e1 !in s0.location && s1.location == s0.location[e1 := loc1] && loc1.coord == at
    requires e2 !in s1.location && s2.location == s1.location[e2 := loc2] && loc2.coord == at
    requires loc1.layer != loc2.layer
    requires RowOf(c1, e1) == row(loc1.layer) && forall x :: x != e1 ==> RowOf(c1, x) == RowOf(c0, x)
    requires RowOf(c2, e2) == row(loc2.layer) && forall x :: x != e2 ==> RowOf(c2, x) == RowOf(c1, x)
    ensures Added(s0, c0, s2, c2, at, row)
  {
  }

  /** The placement a non-player character makes. */
  ghost predicate StackAdded(s0: SpatialTable, c0: Components, s1: SpatialTable, c1: Components, at: Coord,
                             ch: char, prevWall: bool, tree: TreeTile, hint: WaterColour)
  {
    Added(s0, c0, s1, c1, at, l => StackRow(ch, prevWall, tree, hint, l))
  }

  /** The placement '@' makes. */
  ghost predicate PlayerAdded(s0: SpatialTable, c0: Components, s1: SpatialTable, c1: Components, at: Coord,
                              data: EntityData)
  {
    Added(s0, c0, s1, c1, at, l => PlayerRow(data, l))
  }

  /** The placement any character makes. */
  ghost predicate CellAdded(s0: SpatialTable, c0: Components, s1: SpatialTable, c1: Components, at: Coord,
                            ch: char, prevWall: bool, tree: TreeTile, hint: WaterColour, data: EntityData)
  {
    Added(s0, c0, s1, c1, at, l => CellRow(ch, prevWall, tree, hint, data, l))
  }

  /** A stack's floor prefab, spawned as `e` where nothing was. */
  lemma StackOne(s0: SpatialTable, c0: Components, s1: SpatialTable, c1: Components, at: Coord,
                 ch: char, prevWall: bool, tree: TreeTile, hint: WaterColour, e: Entity)
    requires Spawns(ch) && ch != '@' && UpperPrefab(ch, prevWall, tree).None?
    requires e !in s0.location && s1.location == s0.location[e := Location(at, Some(Layer.Floor))]
    requires RowOf(c0, e) == NoComponents && c1 == WithPrefab(c0, e, FloorPrefab(ch, hint).value)
    ensures StackAdded(s0, c0, s1, c1, at, ch, prevWall, tree, hint)
    ensures ch == 'L' || ch == 'M' ==> exists e :: e in s1.location && s1.location[e] == Location(at, None)
  {
    OneAdded(s0, c0, s1, c1, at, e, Location(at, Some(Layer.Floor)), l => StackRow(ch, prevWall, tree, hint, l));
  }

  /** A stack's floor prefab and then its upper prefab, spawned as `e1` and
      `e2` where nothing was. */
  lemma StackTwo(s0: SpatialTable, c0: Components, s1: SpatialTable, c1: Components, s2: SpatialTable, c2: Components,
                 at: Coord, ch: char, prevWall: bool, tree: TreeTile, hint: WaterColour, e1: Entity, e2: Entity)
    requires Spawns(ch) && ch != '@' && UpperPrefab(ch, prevWall, tree).Some?
    requires e1 !in s0.location && s1.location == s0.location[e1 := Location(at, Some(Layer.Floor))]
    requires e2 !in s1.location
    requires s2.location == s1.location[e2 := Location(at, PrefabLayer(UpperPrefab(ch, prevWall, tree).value))]
    requires RowOf(c0, e1) == NoComponents && c1 == WithPrefab(c0, e1, FloorPrefab(ch, hint).value)
    requires RowOf(c1, e2) == NoComponents && c2 == WithPrefab(c1, e2, UpperPrefab(ch, prevWall, tree).value)
    ensures StackAdded(s0, c0, s2, c2, at, ch, prevWall, tree, hint)
    ensures ch == 'L' || ch == 'M' ==> exists e :: e in s2.location && s2.location[e] == Location(at, None)
  {
    var u := UpperPrefab(ch, prevWall, tree).value;
    TwoAdded(s0, c0, s1, c1, s2, c2, at, e1, Location(at, Some(Layer.Floor)), e2, Location(at, PrefabLayer(u)),
             l => StackRow(ch, prevWall, tree, hint, l));
    assert s2.location[e2] == Location(at, PrefabLayer(u));
  }

  lemma PlayerTwo(s0: SpatialTable, c0: Components, s1: SpatialTable, c1: Components, s2: SpatialTable, c2: Components,
                  at: Coord, data: EntityData, e1: Entity, e2: Entity)
    requires e1 !in s0.location && s1.location == s0.location[e1 := Location(at, Some(Layer.Floor))]
    requires e2 !in s1.location && s2.location == s1.location[e2 := Location(at, Some(Layer.Character))]
    requires RowOf(c0, e1) == NoComponents && c1 == WithPrefab(c0, e1, Prefab.Ground(0.0))
    requires RowOf(c2, e2) == DataRow(data) && forall x :: x != e2 ==> RowOf(c2, x) == RowOf(c1, x)
    ensures PlayerAdded(s0, c0, s2, c2, at, data)
  {
    TwoAdded(s0, c0, s1, c1, s2, c2, at, e1, Location(at, Some(Layer.Floor)), e2, Location(at, Some(Layer.Character)),
             l => PlayerRow(data, l));
  }

  /** A character's placement is its stack's or the player's. */
  lemma CellAddedOf(s0: SpatialTable, c0: Components, s1: SpatialTable, c1: Components, at: Coord,
                    ch: char, prevWall: bool, tree: TreeTile, hint: WaterColour, data: EntityData)
    requires ch == '@' ==> PlayerAdded(s0, c0, s1, c1, at, data)
    requires ch != '@' ==> StackAdded(s0, c0, s1, c1, at, ch, prevWall, tree, hint)
    ensures CellAdded(s0, c0, s1, c1, at, ch, prevWall, tree, hint, data)
  {
    if ch == '@' {
      AddedSameRows(s0, c0, s1, c1, at, l => PlayerRow(data, l), l => CellRow(ch, prevWall, tree, hint, data, l));
    } else {
      AddedSameRows(s0, c0, s1, c1, at, l => StackRow(ch, prevWall, tree, hint, l),
                    l => CellRow(ch, prevWall, tree, hint, data, l));
    }
  }

  /** Two descriptions of the rows that agree on every layer describe the
      same placement. */
  lemma AddedSameRows(s0: SpatialTable, c0: Components, s1: SpatialTable, c1: Components, at: Coord,
                      f: Option<Layer> -> Row, g: Option<Layer> -> Row)
    requires Added(s0, c0, s1, c1, at, f)
    requires forall l :: f(l) == g(l)
    ensures Added(s0, c0, s1, c1, at, g)
  {
  }

  /** Spawns what one non-control character stands for at `at`. `player` is
      the player placed so far; the result is the player after this cell. */
  method ParseCell(w: World, at: Coord, ch: char, prevWall: bool, tree: TreeTile, hint: WaterColour,
                   data: EntityData, player: Option<Entity>)
    returns (err: Option<ParseError>, player': Option<Entity>)
    requires w.Valid()
    requires forall l :: w.spatial.At(at, l).None?
    modifies w
    ensures err == Some(OutOfBounds) <==> Spawns(ch) && !InBounds(old(w.spatial.size), at)
    ensures err == Some(SecondPlayer) <==> ch == '@' && InBounds(old(w.spatial.size), at) && player.Some?
    ensures err.None? || err == Some(OutOfBounds) || err == Some(SecondPlayer)
    ensures err.None? ==> w.Valid()
    ensures err.None? ==> CellParsed(old(w.spatial), old(w.components), w.spatial, w.components, at, ch, prevWall,
                                     tree, hint, data, player, player')
    ensures err.None? ==> CellAdded(old(w.spatial), old(w.components), w.spatial, w.components, at,
                                    ch, prevWall, tree, hint, data)
    ensures err.None? && (ch == 'L' || ch == 'M') ==>
              exists e :: e in w.spatial.location && w.spatial.location[e] == Location(at, None)
  {
    if !Spawns(ch) {
      return None, player;
    }
    if !InBounds(w.spatial.size, at) {
      return Some(OutOfBounds), player;
    }
    ghost var s0, c0 := w.spatial, w.components;
    if ch == '@' {
      err, player' := PlacePlayer(w, at, data, player);
    } else {
      PlaceStack(w, at, ch, prevWall, tree, hint);
      err, player' := None, player;
    }
    if err.None? {
      CellAddedOf(s0, c0, w.spatial, w.components, at, ch, prevWall, tree, hint, data);
    }
  }

  /** '@': ground under the player, then the player itself on the character
      layer, unless the player data was already used up. */
  method PlacePlayer(w: World, at: Coord, data: EntityData, player: Option<Entity>)
    returns (err: Option<ParseError>, player': Option<Entity>)
    requires w.Valid() && InBounds(w.spatial.size, at)
    requires forall l :: w.spatial.At(at, l).None?
    modifies w
    ensures err.None? <==> player.None?
    ensures err.Some? ==> err == Some(SecondPlayer)
    ensures err.None? ==> w.Valid() && old(w.spatial).SameBesides(w.spatial, at)
    ensures err.None? ==> forall c, l {:trigger TileAt(w.spatial, w.components.tile, c, l)} :: (TileAt(w.spatial, w.components.tile, c, l) ==
              if c == at then PlayerTile(data, l)
              else old(TileAt(w.spatial, w.components.tile, c, l)))
    ensures err.None? ==>
              && player'.Some? && player'.value !in old(w.components.player)
              && w.components.player == old(w.components.player) + (if data.player then {player'.value} else {})
              && player'.value in w.spatial.location
              && w.spatial.location[player'.value] == Location(at, Some(Layer.Character))
    ensures err.None? ==> PlayerAdded(old(w.spatial), old(w.components), w.spatial, w.components, at, data)
  {
    ghost var s0, t0, c0 := w.spatial, w.components.tile, w.components;
    assert w.next !in w.spatial.location;
    assert w.spatial.At(at, Layer.Floor).None?;
    var ground := Spawn.Spawn(w, at, Prefab.Ground(0.0));
    if player.Some? {
      return Some(SecondPlayer), player;
    }
    ghost var s1, t1, c1 := w.spatial, w.components.tile, w.components;
    assert w.next !in w.spatial.location;
    assert w.spatial.At(at, Layer.Character).None?;
    var e := w.InsertEntityData(Location(at, Some(Layer.Character)), data);
    SameBesidesTrans(s0, s1, w.spatial, at);
    PlayerTiles(s0, t0, s1, t1, w.spatial, w.components.tile, at, data);
    PlayerTwo(s0, c0, s1, c1, w.spatial, w.components, at, data, ground, e);
    return None, Some(e);
  }

  /** Ground and then the player on one empty cell leave exactly the
      player's cell there and nothing else changed. */
  lemma PlayerTiles(s0: SpatialTable, t0: map<Entity, Tile>, s1: SpatialTable, t1: map<Entity, Tile>,
                    s2: SpatialTable, t2: map<Entity, Tile>, at: Coord, data: EntityData)
    requires forall l :: s0.At(at, l).None?
    requires forall c, l {:trigger TileAt(s1, t1, c, l)} :: (TileAt(s1, t1, c, l) ==
               if l == Layer.Floor && c == at then Some(Tile.Ground) else TileAt(s0, t0, c, l))
    requires forall c, l {:trigger TileAt(s2, t2, c, l)} :: (TileAt(s2, t2, c, l) ==
               if l == Layer.Character && c == at then data.tile else TileAt(s1, t1, c, l))
    ensures forall c, l {:trigger TileAt(s2, t2, c, l)} :: (TileAt(s2, t2, c, l) ==
              if c == at then PlayerTile(data, l) else TileAt(s0, t0, c, l))
  {
    forall c, l
      ensures TileAt(s2, t2, c, l) == if c == at then PlayerTile(data, l) else TileAt(s0, t0, c, l)
    {
      if c == at {
        assert TileAt(s0, t0, c, l) == None;
      }
    }
  }

  /** Two spawns on one empty cell, the floor first, leave exactly the
      cell's stack there and nothing else changed. */
  lemma StackTiles(s0: SpatialTable, t0: map<Entity, Tile>, s1: SpatialTable, t1: map<Entity, Tile>,
                   s2: SpatialTable, t2: map<Entity, Tile>, at: Coord, ch: char, prevWall: bool,
                   tree: TreeTile, hint: WaterColour)
    requires Spawns(ch) && ch != '@'
    requires forall l :: s0.At(at, l).None?
    requires forall c, l {:trigger TileAt(s1, t1, c, l)} :: (TileAt(s1, t1, c, l) ==
               if l == Layer.Floor && c == at then PrefabRow(FloorPrefab(ch, hint).value).tile
               else TileAt(s0, t0, c, l))
    requires var u := UpperPrefab(ch, prevWall, tree);
             u.Some? ==> forall c, l {:trigger TileAt(s2, t2, c, l)} :: (TileAt(s2, t2, c, l) ==
               if PrefabLayer(u.value) == Some(l) && c == at then PrefabRow(u.value).tile
               else TileAt(s1, t1, c, l))
    requires UpperPrefab(ch, prevWall, tree).None? ==> s2 == s1 && t2 == t1
    ensures forall c, l {:trigger TileAt(s2, t2, c, l)} :: (TileAt(s2, t2, c, l) ==
              if c == at then StackTile(ch, prevWall, tree, hint, l) else TileAt(s0, t0, c, l))
  {
    forall c, l
      ensures TileAt(s2, t2, c, l) == if c == at then StackTile(ch, prevWall, tree, hint, l) else TileAt(s0, t0, c, l)
    {
      if c == at {
        assert TileAt(s0, t0, c, l) == None;
      }
    }
  }

  /** Any other character that spawns: its floor, then what stands on it. */
  method PlaceStack(w: World, at: Coord, ch: char, prevWall: bool, tree: TreeTile, hint: WaterColour)
    requires w.Valid() && InBounds(w.spatial.size, at) && Spawns(ch) && ch != '@'
    requires forall l :: w.spatial.At(at, l).None?
    modifies w
    ensures w.Valid() && old(w.spatial).SameBesides(w.spatial, at)
    ensures forall c, l {:trigger TileAt(w.spatial, w.components.tile, c, l)} :: (TileAt(w.spatial, w.components.tile, c, l) ==
              if c == at then StackTile(ch, prevWall, tree, hint, l)
              else old(TileAt(w.spatial, w.components.tile, c, l)))
    ensures w.components.player == old(w.components.player)
    ensures StackAdded(old(w.spatial), old(w.components), w.spatial, w.components, at, ch, prevWall, tree, hint)
    ensures ch == 'L' || ch == 'M' ==>
              exists e :: e in w.spatial.location && w.spatial.location[e] == Location(at, None)
  {
    ghost var s0, t0, c0 := w.spatial, w.components.tile, w.components;
    var floor := FloorPrefab(ch, hint);
    assert w.next !in w.spatial.location;
    assert w.spatial.At(at, Layer.Floor).None?;
    var ground := Spawn.Spawn(w, at, floor.value);
    ghost var s1, t1, c1 := w.spatial, w.components.tile, w.components;
    var upper := UpperPrefab(ch, prevWall, tree);
    if upper.Some? {
      assert w.next !in w.spatial.location;
      ghost var up := PrefabLayer(upper.value);
      if up.Some? {
        assert w.spatial.At(at, up.value) == s0.At(at, up.value);
      }
      var top := Spawn.Spawn(w, at, upper.value);
      SameBesidesTrans(s0, s1, w.spatial, at);
      StackTwo(s0, c0, s1, c1, w.spatial, w.components, at, ch, prevWall, tree, hint, ground, top);
    } else {
      StackOne(s0, c0, w.spatial, w.components, at, ch, prevWall, tree, hint, ground);
    }
    StackTiles(s0, t0, s1, t1, w.spatial, w.components.tile, at, ch, prevWall, tree, hint);
  }

  // ---------------------------------------------------------------------
  // The whole text
  // ---------------------------------------------------------------------

  lemma {:induction false} FlattenAppend(a: seq<string>, b: seq<string>)
    ensures Flatten(a + b) == Flatten(a) + Flatten(b)
  {
    if a == [] {
      assert a + b == b;
    } else {
      assert (a + b)[0] == a[0] && (a + b)[1..] == a[1..] + b;
      FlattenAppend(a[1..], b);
    }
  }

  /** The characters read so far are a prefix of the text, so they hold no
      more players than the text does. */
  lemma PrefixCount(rows: seq<string>, y: nat, x: nat)
    requires y < |rows| && x <= |rows[y]|
    ensures multiset(Prefix(rows, y, x))['@'] <= PlayerCount(rows)
  {
    assert rows == rows[..y] + ([rows[y]] + rows[y + 1..]);
    FlattenAppend(rows[..y], [rows[y]] + rows[y + 1..]);
    FlattenAppend([rows[y]], rows[y + 1..]);
    assert Flatten([rows[y]]) == rows[y] + Flatten([]);
    assert rows[y] == rows[y][..x] + rows[y][x..];
    assert Flatten(rows) == Prefix(rows, y, x) + (rows[y][x..] + Flatten(rows[y + 1..]));
  }

  /** The position is a place the parser can be at. */
  predicate Position(rows: seq<string>, y: nat, x: nat) {
    && (y < |rows| ==> x <= |rows[y]|)
    && (y >= |rows| ==> y == |rows| && x == 0)
  }

  /** Every spawning character read so far was on the grid. */
  ghost predicate ReadInBounds(rows: seq<string>, size: Size, y: nat, x: nat) {
    forall y', x' {:trigger rows[y'][x']} | 0 <= y' < |rows| && 0 <= x' < |rows[y']| && Done(Coord(x', y'), y, x) ::
      Spawns(rows[y'][x']) ==> InBounds(size, Coord(x', y'))
  }

  /** The cells read so far show what they stand for; the others show nothing. */
  ghost predicate Shown(sp: SpatialTable, tiles: map<Entity, Tile>, rows: seq<string>, y: nat, x: nat,
                        data: EntityData, trees: Coord -> TreeTile, hints: Coord -> WaterColour)
  {
    forall c, l {:trigger TileAt(sp, tiles, c, l)} | InBounds(sp.size, c) :: (TileAt(sp, tiles, c, l) ==
      if Done(c, y, x) then ExpectedAt(rows, c, l, data, trees, hints) else None)
  }

  /** No cell not yet read holds anything. */
  ghost predicate Unread(sp: SpatialTable, y: nat, x: nat) {
    forall c, l | !Done(c, y, x) :: sp.At(c, l).None?
  }

  /** The player placed so far, if any, stands on the character layer of
      an '@' cell and is the only entity marked as the player. */
  ghost predicate PlayerPlaced(sp: SpatialTable, comps: Components, rows: seq<string>, player: Option<Entity>,
                               playerAt: Coord, data: EntityData)
  {
    && (player.Some? ==>
          && player.value in sp.location
          && sp.location[player.value] == Location(playerAt, Some(Layer.Character))
          && IsPlayerCell(rows, playerAt))
    && comps.player == (if player.Some? && data.player then {player.value} else {})
  }

  /** The parser's state on reaching row `y`, column `x`: the grid has the
      right size, the look-behind flag and the player agree with the
      characters read, every spawning character read so far was on the
      grid, the cells read so far show what they stand for, and no cell not
      yet read holds anything. */
  ghost predicate Progress(sp: SpatialTable, comps: Components, rows: seq<string>, y: nat, x: nat,
                           prevWall: bool, player: Option<Entity>, playerAt: Coord, data: EntityData,
                           trees: Coord -> TreeTile, hints: Coord -> WaterColour)
  {
    var valid :=
      && rows != []
      && Position(rows, y, x)
      && sp.size == GridSize(rows)
      && prevWall == LastIsWall(Prefix(rows, y, x))
      && multiset(Prefix(rows, y, x))['@'] <= 1
      && (player.Some? <==> multiset(Prefix(rows, y, x))['@'] == 1)
      && PlayerPlaced(sp, comps, rows, player, playerAt, data)
      && ReadInBounds(rows, sp.size, y, x)
      && Shown(sp, comps.tile, rows, y, x, data, trees, hints)
      && Unread(sp, y, x);
    valid
  }

  lemma ProgressStart(sp: SpatialTable, comps: Components, rows: seq<string>, data: EntityData,
                      trees: Coord -> TreeTile, hints: Coord -> WaterColour)
    requires rows != [] && sp == EmptySpatialTable(GridSize(rows)) && comps == EmptyComponents()
    ensures Progress(sp, comps, rows, 0, 0, false, None, Coord(0, 0), data, trees, hints)
  {
    PrefixStart(rows);
  }

  /** A control character leaves every layer of its cell empty. */
  lemma ControlShowsNothing(ch: char, prevWall: bool, tree: TreeTile, hint: WaterColour, data: EntityData, l: Layer)
    requires IsControl(ch)
    ensures CellTile(ch, prevWall, tree, hint, data, l) == None
  {
    assert !Spawns(ch);
  }

  /** Reading a control character changes nothing but the position. */
  lemma ControlStep(sp: SpatialTable, comps: Components, rows: seq<string>, y: nat, x: nat,
                    prevWall: bool, player: Option<Entity>, playerAt: Coord, data: EntityData,
                    trees: Coord -> TreeTile, hints: Coord -> WaterColour)
    requires Progress(sp, comps, rows, y, x, prevWall, player, playerAt, data, trees, hints)
    requires y < |rows| && x < |rows[y]| && IsControl(rows[y][x])
    ensures Progress(sp, comps, rows, y, x + 1, prevWall, player, playerAt, data, trees, hints)
  {
    PrefixControlStep(rows, y, x);
    ControlStepBounds(rows, sp.size, y, x);
    ControlStepShown(sp, comps.tile, rows, y, x, data, trees, hints);
    CellStepUnread(sp, sp, y, x);
  }

  /** A control character leaves the look-behind and the player count as
      they were. */
  lemma PrefixControlStep(rows: seq<string>, y: nat, x: nat)
    requires y < |rows| && x < |rows[y]| && IsControl(rows[y][x])
    ensures LastIsWall(Prefix(rows, y, x + 1)) == LastIsWall(Prefix(rows, y, x))
    ensures multiset(Prefix(rows, y, x + 1))['@'] == multiset(Prefix(rows, y, x))['@']
  {
    PrefixStep(rows, y, x);
    var p := Prefix(rows, y, x);
    assert (p + [rows[y][x]])[..|p|] == p;
    assert multiset(p + [rows[y][x]]) == multiset(p) + multiset{rows[y][x]};
  }

  lemma ControlStepBounds(rows: seq<string>, size: Size, y: nat, x: nat)
    requires y < |rows| && x < |rows[y]| && IsControl(rows[y][x])
    requires ReadInBounds(rows, size, y, x)
    ensures ReadInBounds(rows, size, y, x + 1)
  {
    assert !Spawns(rows[y][x]);
  }

  lemma ControlStepShown(sp: SpatialTable, tiles: map<Entity, Tile>, rows: seq<string>, y: nat, x: nat,
                         data: EntityData, trees: Coord -> TreeTile, hints: Coord -> WaterColour)
    requires y < |rows| && x < |rows[y]| && IsControl(rows[y][x])
    requires Shown(sp, tiles, rows, y, x, data, trees, hints)
    ensures Shown(sp, tiles, rows, y, x + 1, data, trees, hints)
  {
    forall c, l | InBounds(sp.size, c)
      ensures TileAt(sp, tiles, c, l) == if Done(c, y, x + 1) then ExpectedAt(rows, c, l, data, trees, hints) else None
    {
      if c == Coord(x, y) {
        ControlShowsNothing(rows[y][x], PrevWallAt(rows, y, x), trees(c), hints(c), data, l);
      }
    }
  }

  /** What the parser's state says about the next cell: it is empty, a
      spawning character off the grid breaks the bounds rule, and a second
      '@' makes at least two players in the text. */
  lemma CellFacts(sp: SpatialTable, comps: Components, rows: seq<string>, y: nat, x: nat,
                  prevWall: bool, player: Option<Entity>, playerAt: Coord, data: EntityData,
                  trees: Coord -> TreeTile, hints: Coord -> WaterColour)
    requires Progress(sp, comps, rows, y, x, prevWall, player, playerAt, data, trees, hints)
    requires y < |rows| && x < |rows[y]|
    ensures forall l :: sp.At(Coord(x, y), l).None?
    ensures Spawns(rows[y][x]) && !InBounds(sp.size, Coord(x, y)) ==> !SpawnsInBounds(rows, GridSize(rows))
    ensures rows[y][x] == '@' && player.Some? ==> PlayerCount(rows) >= 2
  {
    NextCellEmpty(sp, y, x);
    if Spawns(rows[y][x]) && !InBounds(sp.size, Coord(x, y)) {
      OffGrid(rows, sp.size, y, x);
    }
    if rows[y][x] == '@' && player.Some? {
      SecondAt(rows, y, x);
    }
  }

  lemma NextCellEmpty(sp: SpatialTable, y: nat, x: nat)
    requires Unread(sp, y, x)
    ensures forall l :: sp.At(Coord(x, y), l).None?
  {
    assert !Done(Coord(x, y), y, x);
  }

  lemma OffGrid(rows: seq<string>, size: Size, y: nat, x: nat)
    requires y < |rows| && x < |rows[y]| && size == GridSize(rows)
    requires Spawns(rows[y][x]) && !InBounds(size, Coord(x, y))
    ensures !SpawnsInBounds(rows, GridSize(rows))
  {
  }

  lemma SecondAt(rows: seq<string>, y: nat, x: nat)
    requires y < |rows| && x < |rows[y]| && rows[y][x] == '@'
    requires multiset(Prefix(rows, y, x))['@'] == 1
    ensures PlayerCount(rows) >= 2
  {
    PrefixCharStep(rows, y, x);
    PrefixCount(rows, y, x + 1);
  }

  /** Reading a character that parsed moves the state on by one cell. */
  lemma CellStep(s0: SpatialTable, c0: Components, s1: SpatialTable, c1: Components, rows: seq<string>,
                 y: nat, x: nat, prevWall: bool, player: Option<Entity>, player': Option<Entity>,
                 playerAt: Coord, data: EntityData, trees: Coord -> TreeTile, hints: Coord -> WaterColour)
    requires Progress(s0, c0, rows, y, x, prevWall, player, playerAt, data, trees, hints)
    requires y < |rows| && x < |rows[y]| && !IsControl(rows[y][x])
    requires Spawns(rows[y][x]) ==> InBounds(s0.size, Coord(x, y))
    requires rows[y][x] == '@' ==> player.None?
    requires CellParsed(s0, c0, s1, c1, Coord(x, y), rows[y][x], prevWall, trees(Coord(x, y)),
                        hints(Coord(x, y)), data, player, player')
    ensures Progress(s1, c1, rows, y, x + 1, rows[y][x] == '#', player',
                     if rows[y][x] == '@' then Coord(x, y) else playerAt, data, trees, hints)
  {
    PrefixCharStep(rows, y, x);
    CellStepBounds(rows, s0.size, y, x);
    CellStepShown(s0, c0.tile, s1, c1.tile, rows, y, x, prevWall, data, trees, hints);
    CellStepUnread(s0, s1, y, x);
    CellStepPlayer(s0, c0, s1, c1, rows, y, x, player, player', playerAt, data);
  }

  /** Reading one character updates the look-behind and the player count. */
  lemma PrefixCharStep(rows: seq<string>, y: nat, x: nat)
    requires y < |rows| && x < |rows[y]|
    ensures !IsControl(rows[y][x]) ==> (LastIsWall(Prefix(rows, y, x + 1)) <==> rows[y][x] == '#')
    ensures multiset(Prefix(rows, y, x + 1))['@'] ==
            multiset(Prefix(rows, y, x))['@'] + (if rows[y][x] == '@' then 1 else 0)
  {
    PrefixStep(rows, y, x);
    var p := Prefix(rows, y, x);
    assert multiset(p + [rows[y][x]]) == multiset(p) + multiset{rows[y][x]};
  }

  lemma CellStepBounds(rows: seq<string>, size: Size, y: nat, x: nat)
    requires y < |rows| && x < |rows[y]|
    requires ReadInBounds(rows, size, y, x)
    requires Spawns(rows[y][x]) ==> InBounds(size, Coord(x, y))
    ensures ReadInBounds(rows, size, y, x + 1)
  {
  }

  lemma CellStepUnread(s0: SpatialTable, s1: SpatialTable, y: nat, x: nat)
    requires Unread(s0, y, x)
    requires s0.SameBesides(s1, Coord(x, y))
    ensures Unread(s1, y, x + 1)
  {
  }

  lemma CellStepPlayer(s0: SpatialTable, c0: Components, s1: SpatialTable, c1: Components, rows: seq<string>,
                       y: nat, x: nat, player: Option<Entity>, player': Option<Entity>, playerAt: Coord,
                       data: EntityData)
    requires y < |rows| && x < |rows[y]|
    requires PlayerPlaced(s0, c0, rows, player, playerAt, data)
    requires rows[y][x] == '@' ==> player.None?
    requires s0.SameBesides(s1, Coord(x, y))
    requires rows[y][x] != '@' ==> player' == player && c1.player == c0.player
    requires rows[y][x] == '@' ==>
               && player'.Some? && player'.value !in c0.player
               && c1.player == c0.player + (if data.player then {player'.value} else {})
               && player'.value in s1.location
               && s1.location[player'.value] == Location(Coord(x, y), Some(Layer.Character))
    ensures PlayerPlaced(s1, c1, rows, player', if rows[y][x] == '@' then Coord(x, y) else playerAt, data)
  {
  }

  lemma CellStepShown(s0: SpatialTable, t0: map<Entity, Tile>, s1: SpatialTable, t1: map<Entity, Tile>,
                      rows: seq<string>, y: nat, x: nat, prevWall: bool, data: EntityData,
                      trees: Coord -> TreeTile, hints: Coord -> WaterColour)
    requires y < |rows| && x < |rows[y]| && s1.size == s0.size
    requires prevWall == PrevWallAt(rows, y, x)
    requires Shown(s0, t0, rows, y, x, data, trees, hints)
    requires forall c, l {:trigger TileAt(s1, t1, c, l)} :: (TileAt(s1, t1, c, l) ==
               if c == Coord(x, y) then CellTile(rows[y][x], prevWall, trees(c), hints(c), data, l)
               else TileAt(s0, t0, c, l))
    ensures Shown(s1, t1, rows, y, x + 1, data, trees, hints)
  {
  }

  /** Reaching the end of a row is reaching the start of the next. */
  lemma RowStep(sp: SpatialTable, comps: Components, rows: seq<string>, y: nat,
                prevWall: bool, player: Option<Entity>, playerAt: Coord, data: EntityData,
                trees: Coord -> TreeTile, hints: Coord -> WaterColour)
    requires y < |rows|
    requires Progress(sp, comps, rows, y, |rows[y]|, prevWall, player, playerAt, data, trees, hints)
    ensures Progress(sp, comps, rows, y + 1, 0, prevWall, player, playerAt, data, trees, hints)
  {
    PrefixNextRow(rows, y);
    forall c, l | InBounds(sp.size, c)
      ensures TileAt(sp, comps.tile, c, l) == if Done(c, y + 1, 0) then ExpectedAt(rows, c, l, data, trees, hints) else None
    {
      if c.y == y && c.x >= |rows[y]| {
        assert !Done(c, y, |rows[y]|);
      }
    }
  }

  /** At the end of the text, the state says everything about the text. */
  lemma Finished(sp: SpatialTable, comps: Components, rows: seq<string>, prevWall: bool, player: Option<Entity>,
                 playerAt: Coord, data: EntityData, trees: Coord -> TreeTile, hints: Coord -> WaterColour)
    requires Progress(sp, comps, rows, |rows|, 0, prevWall, player, playerAt, data, trees, hints)
    ensures SpawnsInBounds(rows, sp.size)
    ensures player.Some? <==> PlayerCount(rows) == 1
    ensures player.None? <==> PlayerCount(rows) == 0
    ensures forall c, l {:trigger TileAt(sp, comps.tile, c, l)} | InBounds(sp.size, c) :: TileAt(sp, comps.tile, c, l) == ExpectedAt(rows, c, l, data, trees, hints)
  {
    forall c, l | InBounds(sp.size, c)
      ensures TileAt(sp, comps.tile, c, l) == ExpectedAt(rows, c, l, data, trees, hints)
    {
      assert Done(c, |rows|, 0);
    }
  }

  // ---------------------------------------------------------------------
  // The entities placed so far
  // ---------------------------------------------------------------------

  /** The entities placed when the parser reaches row `y`, column `x`: every
      entity with components has a location; every location is in a cell
      already read, and no two entities share one; each entity has the
      components its cell's character gives its layer; and every 'L' or 'M'
      read so far has an entity without a layer in its cell. */
  ghost predicate Placed(sp: SpatialTable, comps: Components, rows: seq<string>, y: nat, x: nat, data: EntityData,
                         trees: Coord -> TreeTile, hints: Coord -> WaterColour)
  {
    && RowsPlaced(sp, comps, rows, y, x, data, trees, hints)
    && LocationsUnique(sp)
    && HousesPlaced(sp, rows, y, x)
  }

  /** Every entity with components stands in a cell already read, with the
      components its cell's character gives its layer. */
  ghost predicate RowsPlaced(sp: SpatialTable, comps: Components, rows: seq<string>, y: nat, x: nat, data: EntityData,
                             trees: Coord -> TreeTile, hints: Coord -> WaterColour)
  {
    var placed :=
      && (forall e {:trigger RowOf(comps, e)} :: e !in sp.location ==> RowOf(comps, e) == NoComponents)
      && (forall e {:trigger sp.location[e]} | e in sp.location ::
            && Done(sp.location[e].coord, y, x)
            && RowOf(comps, e) == ExpectedRow(rows, sp.location[e], data, trees, hints));
    placed
  }

  /** No two entities share a location. */
  ghost predicate LocationsUnique(sp: SpatialTable) {
    forall e1, e2 {:trigger sp.location[e1], sp.location[e2]} |
      e1 in sp.location && e2 in sp.location && sp.location[e1] == sp.location[e2] :: e1 == e2
  }

  /** Every 'L' or 'M' read so far has an entity without a layer in its cell. */
  ghost predicate HousesPlaced(sp: SpatialTable, rows: seq<string>, y: nat, x: nat) {
    forall c {:trigger IsHouseLightCell(rows, c)} | Done(c, y, x) && IsHouseLightCell(rows, c) ::
      exists e {:trigger sp.location[e]} :: e in sp.location && sp.location[e] == Location(c, None)
  }

  /** What the whole text placed. */
  ghost predicate Populated(sp: SpatialTable, comps: Components, rows: seq<string>, data: EntityData,
                            trees: Coord -> TreeTile, hints: Coord -> WaterColour)
  {
    Placed(sp, comps, rows, |rows|, 0, data, trees, hints)
  }

  lemma PlacedStart(size: Size, rows: seq<string>, data: EntityData, trees: Coord -> TreeTile,
                    hints: Coord -> WaterColour)
    ensures Placed(EmptySpatialTable(size), EmptyComponents(), rows, 0, 0, data, trees, hints)
  {
  }

  lemma PlacedControlStep(sp: SpatialTable, comps: Components, rows: seq<string>, y: nat, x: nat, data: EntityData,
                          trees: Coord -> TreeTile, hints: Coord -> WaterColour)
    requires Placed(sp, comps, rows, y, x, data, trees, hints)
    requires y < |rows| && x < |rows[y]| && IsControl(rows[y][x])
    ensures Placed(sp, comps, rows, y, x + 1, data, trees, hints)
  {
    forall c | Done(c, y, x + 1) && IsHouseLightCell(rows, c)
      ensures exists e :: e in sp.location && sp.location[e] == Location(c, None)
    {
      assert Done(c, y, x);
    }
  }

  /** Placing one character's entities moves the placement on by one cell. */
  lemma PlacedCellStep(s0: SpatialTable, c0: Components, s1: SpatialTable, c1: Components, rows: seq<string>,
                       y: nat, x: nat, prevWall: bool, data: EntityData, trees: Coord -> TreeTile,
                       hints: Coord -> WaterColour)
    requires Placed(s0, c0, rows, y, x, data, trees, hints)
    requires y < |rows| && x < |rows[y]| && prevWall == PrevWallAt(rows, y, x)
    requires forall e | e in s0.location :: e in s1.location && s1.location[e] == s0.location[e]
    requires CellAdded(s0, c0, s1, c1, Coord(x, y), rows[y][x], prevWall, trees(Coord(x, y)), hints(Coord(x, y)), data)
    requires IsHouseLightCell(rows, Coord(x, y)) ==>
               exists e :: e in s1.location && s1.location[e] == Location(Coord(x, y), None)
    ensures Placed(s1, c1, rows, y, x + 1, data, trees, hints)
  {
    RowsStep(s0, c0, s1, c1, rows, y, x, prevWall, data, trees, hints);
    UniqueStep(s0, c0, s1, c1, rows, y, x, prevWall, data, trees, hints);
    HousesStep(s0, s1, rows, y, x);
  }

  lemma RowsStep(s0: SpatialTable, c0: Components, s1: SpatialTable, c1: Components, rows: seq<string>,
                 y: nat, x: nat, prevWall: bool, data: EntityData, trees: Coord -> TreeTile,
                 hints: Coord -> WaterColour)
    requires RowsPlaced(s0, c0, rows, y, x, data, trees, hints)
    requires y < |rows| && x < |rows[y]| && prevWall == PrevWallAt(rows, y, x)
    requires forall e | e in s0.location :: e in s1.location && s1.location[e] == s0.location[e]
    requires CellAdded(s0, c0, s1, c1, Coord(x, y), rows[y][x], prevWall, trees(Coord(x, y)), hints(Coord(x, y)), data)
    ensures RowsPlaced(s1, c1, rows, y, x + 1, data, trees, hints)
  {
    forall e | e !in s1.location ensures RowOf(c1, e) == NoComponents {
      assert e !in s0.location;
    }
    forall e | e in s1.location
      ensures Done(s1.location[e].coord, y, x + 1)
      ensures RowOf(c1, e) == ExpectedRow(rows, s1.location[e], data, trees, hints)
    {
      if e !in s0.location {
        assert s1.location[e].coord == Coord(x, y);
      }
    }
  }

  lemma UniqueStep(s0: SpatialTable, c0: Components, s1: SpatialTable, c1: Components, rows: seq<string>,
                   y: nat, x: nat, prevWall: bool, data: EntityData, trees: Coord -> TreeTile,
                   hints: Coord -> WaterColour)
    requires LocationsUnique(s0) && RowsPlaced(s0, c0, rows, y, x, data, trees, hints)
    requires y < |rows| && x < |rows[y]|
    requires forall e | e in s0.location :: e in s1.location && s1.location[e] == s0.location[e]
    requires CellAdded(s0, c0, s1, c1, Coord(x, y), rows[y][x], prevWall, trees(Coord(x, y)), hints(Coord(x, y)), data)
    ensures LocationsUnique(s1)
  {
  }

  lemma HousesStep(s0: SpatialTable, s1: SpatialTable, rows: seq<string>, y: nat, x: nat)
    requires HousesPlaced(s0, rows, y, x)
    requires forall e | e in s0.location :: e in s1.location && s1.location[e] == s0.location[e]
    requires IsHouseLightCell(rows, Coord(x, y)) ==>
               exists e :: e in s1.location && s1.location[e] == Location(Coord(x, y), None)
    ensures HousesPlaced(s1, rows, y, x + 1)
  {
    forall c | Done(c, y, x + 1) && IsHouseLightCell(rows, c)
      ensures exists e :: e in s1.location && s1.location[e] == Location(c, None)
    {
      if c != Coord(x, y) {
        assert Done(c, y, x);
        var e :| e in s0.location && s0.location[e] == Location(c, None);
        assert s1.location[e] == Location(c, None);
      }
    }
  }

  /** Reaching the end of a row is reaching the start of the next. */
  lemma PlacedRowStep(sp: SpatialTable, comps: Components, rows: seq<string>, y: nat, data: EntityData,
                      trees: Coord -> TreeTile, hints: Coord -> WaterColour)
    requires y < |rows| && Placed(sp, comps, rows, y, |rows[y]|, data, trees, hints)
    ensures Placed(sp, comps, rows, y + 1, 0, data, trees, hints)
  {
    forall c | Done(c, y + 1, 0) && IsHouseLightCell(rows, c)
      ensures exists e :: e in sp.location && sp.location[e] == Location(c, None)
    {
      assert Done(c, y, |rows[y]|);
    }
  }

  /** The light table of a parsed world: every entity giving light stands
      either on no layer of an 'L' or 'M' cell, giving the house light, or
      on the character layer of the '@' cell, giving the player's own light;
      and every 'L' or 'M' cell has one such house light (no two entities
      share a location). */
  lemma TerrainLights(sp: SpatialTable, comps: Components, rows: seq<string>, data: EntityData,
                      trees: Coord -> TreeTile, hints: Coord -> WaterColour)
    requires Populated(sp, comps, rows, data, trees, hints)
    ensures forall e | e in comps.light ::
              && e in sp.location
              && ((&& sp.location[e].layer.None? && IsHouseLightCell(rows, sp.location[e].coord)
                   && comps.light[e] == HOUSE_LIGHT && e in comps.houseLight)
                  || (&& sp.location[e].layer == Some(Layer.Character) && IsPlayerCell(rows, sp.location[e].coord)
                      && data.light == Some(comps.light[e])))
    ensures forall c | IsHouseLightCell(rows, c) ::
              exists e :: e in sp.location && sp.location[e] == Location(c, None)
                          && e in comps.light && comps.light[e] == HOUSE_LIGHT
  {
    forall e | e in comps.light
      ensures e in sp.location
      ensures || (&& sp.location[e].layer.None? && IsHouseLightCell(rows, sp.location[e].coord)
                  && comps.light[e] == HOUSE_LIGHT && e in comps.houseLight)
              || (&& sp.location[e].layer == Some(Layer.Character) && IsPlayerCell(rows, sp.location[e].coord)
                  && data.light == Some(comps.light[e]))
    {
      assert RowOf(comps, e).light == Some(comps.light[e]);
      assert e in sp.location;
    }
    forall c | IsHouseLightCell(rows, c)
      ensures exists e :: e in sp.location && sp.location[e] == Location(c, None)
                          && e in comps.light && comps.light[e] == HOUSE_LIGHT
    {
      assert Done(c, |rows|, 0);
      var e :| e in sp.location && sp.location[e] == Location(c, None);
      assert RowOf(comps, e).light == Some(HOUSE_LIGHT);
    }
  }

  /** The world is consistent and holds what the parser has read so far. */
  ghost predicate Parsing(sp: SpatialTable, comps: Components, next: nat, rows: seq<string>, y: nat, x: nat,
                          prevWall: bool, player: Option<Entity>, playerAt: Coord, data: EntityData,
                          trees: Coord -> TreeTile, hints: Coord -> WaterColour)
  {
    var parsing :=
      && Consistent(sp, comps, next)
      && Progress(sp, comps, rows, y, x, prevWall, player, playerAt, data, trees, hints)
      && Placed(sp, comps, rows, y, x, data, trees, hints);
    parsing
  }

  /** The errors a row can stop on, and what each says about the text: a
      spawning character lies off the grid, or the text has a second '@'. */
  predicate RowError(rows: seq<string>, err: ParseError) {
    var explained :=
      || (err == OutOfBounds && rows != [] && !SpawnsInBounds(rows, GridSize(rows)))
      || (err == SecondPlayer && PlayerCount(rows) >= 2);
    explained
  }

  /** Reads the character at row `y`, column `x`: a control character is
      skipped, any other is parsed and moves the look-behind on. */
  method ParseChar(w: World, rows: seq<string>, y: nat, x: nat, prevWall: bool, player: Option<Entity>,
                   ghost playerAt: Coord, data: EntityData, trees: Coord -> TreeTile, hints: Coord -> WaterColour)
    returns (err: Option<ParseError>, prevWall': bool, player': Option<Entity>, ghost playerAt': Coord)
    requires y < |rows| && x < |rows[y]|
    requires Parsing(w.spatial, w.components, w.next, rows, y, x, prevWall, player, playerAt, data, trees, hints)
    modifies w
    ensures err.None? ==> Parsing(w.spatial, w.components, w.next, rows, y, x + 1, prevWall', player', playerAt', data, trees, hints)
    ensures err.Some? ==> RowError(rows, err.value)
  {
    var ch := rows[y][x];
    if IsControl(ch) {
      ControlStep(w.spatial, w.components, rows, y, x, prevWall, player, playerAt, data, trees, hints);
      PlacedControlStep(w.spatial, w.components, rows, y, x, data, trees, hints);
      return None, prevWall, player, playerAt;
    }
    var at := Coord(x, y);
    ghost var s0, c0 := w.spatial, w.components;
    CellFacts(s0, c0, rows, y, x, prevWall, player, playerAt, data, trees, hints);
    err, player' := ParseCell(w, at, ch, prevWall, trees(at), hints(at), data, player);
    if err.Some? {
      return err, prevWall, player, playerAt;
    }
    CellStep(s0, c0, w.spatial, w.components, rows, y, x, prevWall, player, player', playerAt, data, trees, hints);
    PlacedCellStep(s0, c0, w.spatial, w.components, rows, y, x, prevWall, data, trees, hints);
    playerAt' := if ch == '@' then at else playerAt;
    // '#' sets the look-behind; every other character clears it.
    prevWall' := ch == '#';
  }

  /** Runs through row `y`, cell by cell, stopping at the first error. */
  method ParseRow(w: World, rows: seq<string>, y: nat, prevWall: bool, player: Option<Entity>,
                  ghost playerAt: Coord, data: EntityData, trees: Coord -> TreeTile, hints: Coord -> WaterColour)
    returns (err: Option<ParseError>, prevWall': bool, player': Option<Entity>, ghost playerAt': Coord)
    requires y < |rows|
    requires Parsing(w.spatial, w.components, w.next, rows, y, 0, prevWall, player, playerAt, data, trees, hints)
    modifies w
    ensures err.None? ==> Parsing(w.spatial, w.components, w.next, rows, y, |rows[y]|, prevWall', player', playerAt', data, trees, hints)
    ensures err.Some? ==> RowError(rows, err.value)
  {
    prevWall', player', playerAt' := prevWall, player, playerAt;
    var n := |rows[y]|;
    var x := 0;
    while x < n
      invariant 0 <= x <= n
      invariant Parsing(w.spatial, w.components, w.next, rows, y, x, prevWall', player', playerAt', data, trees, hints)
    {
      var e;
      e, prevWall', player', playerAt' := ParseChar(w, rows, y, x, prevWall', player', playerAt', data, trees, hints);
      if e.Some? {
        return e, prevWall', player', playerAt';
      }
      x := x + 1;
    }
    err := None;
  }

  /** Runs through the rows into the world `w`, stopping at the first error. */
  method ParseRows(w: World, rows: seq<string>, data: EntityData, trees: Coord -> TreeTile,
                   hints: Coord -> WaterColour)
    returns (err: Option<ParseError>, prevWall: bool, player: Option<Entity>, ghost playerAt: Coord)
    requires Parsing(w.spatial, w.components, w.next, rows, 0, 0, false, None, Coord(0, 0), data, trees, hints)
    modifies w
    ensures err.None? ==> Parsing(w.spatial, w.components, w.next, rows, |rows|, 0, prevWall, player, playerAt, data, trees, hints)
    ensures err.Some? ==> RowError(rows, err.value)
  {
    player, playerAt, prevWall := None, Coord(0, 0), false;
    var y := 0;
    while y < |rows|
      invariant 0 <= y <= |rows|
      invariant Parsing(w.spatial, w.components, w.next, rows, y, 0, prevWall, player, playerAt, data, trees, hints)
    {
      err, prevWall, player, playerAt := ParseRow(w, rows, y, prevWall, player, playerAt, data, trees, hints);
      if err.Some? {
        return;
      }
      RowStep(w.spatial, w.components, rows, y, prevWall, player, playerAt, data, trees, hints);
      PlacedRowStep(w.spatial, w.components, rows, y, data, trees, hints);
      y := y + 1;
    }
    err := None;
  }

  /** Parses a text map into a world and its player. The random choices of
      tree variant and water colour are given per cell. */
  method FromStr(s: string, data: EntityData, trees: Coord -> TreeTile, hints: Coord -> WaterColour)
    returns (r: Result<Terrain, ParseError>)
    ensures Rows(s) == [] <==> r == Err(NoRows)
    ensures r.Ok? <==> Rows(s) != [] && SpawnsInBounds(Rows(s), GridSize(Rows(s))) && PlayerCount(Rows(s)) == 1
    ensures r == Err(OutOfBounds) ==> !SpawnsInBounds(Rows(s), GridSize(Rows(s)))
    ensures r == Err(SecondPlayer) ==> PlayerCount(Rows(s)) >= 2
    ensures r == Err(NoPlayer) ==> PlayerCount(Rows(s)) == 0
    ensures r.Ok? ==>
              var w, p := r.value.world, r.value.player;
              && fresh(w) && w.Valid() && w.spatial.size == GridSize(Rows(s))
              && (forall c, l {:trigger TileAt(w.spatial, w.components.tile, c, l)} | InBounds(w.spatial.size, c) ::
                    TileAt(w.spatial, w.components.tile, c, l) == ExpectedAt(Rows(s), c, l, data, trees, hints))
              && p in w.spatial.location
              && w.spatial.location[p].layer == Some(Layer.Character)
              && IsPlayerCell(Rows(s), w.spatial.location[p].coord)
              && w.components.player == (if data.player then {p} else {})
              && Populated(w.spatial, w.components, Rows(s), data, trees, hints)
  {
    var rows := Rows(s);
    if rows == [] {
      return Err(NoRows);
    }
    var w := new World(GridSize(rows));
    ProgressStart(w.spatial, w.components, rows, data, trees, hints);
    PlacedStart(GridSize(rows), rows, data, trees, hints);
    var err, prevWall, player, playerAt := ParseRows(w, rows, data, trees, hints);
    if err.Some? {
      return Err(err.value);
    }
    Finished(w.spatial, w.components, rows, prevWall, player, playerAt, data, trees, hints);
    if player.None? {
      return Err(NoPlayer);
    }
    return Ok(Terrain(w, player.value));
  }
}
