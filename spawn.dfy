/** Spawning: every kind of thing the world can place, the layer it goes on
    and the component tables it fills in. Each `spawn_*` operation allocates a
    fresh entity, places it, and inserts its components; the model names the
    thing to spawn with a `Prefab` and has one spawning method. */
module Spawn {
  import opened Common
  import opened Rgb
  import opened Components
  import opened World

  /** The three tree tiles a tree picks from at random. */
  type TreeTile = t: Tile | t.Tree0? || t.Tree1? || t.Tree2? witness Tile.Tree0

  /** Something a `spawn_*` operation places. Random choices (the tree's
      variant, the water's colour hint) are part of the prefab. */
  datatype Prefab =
    | Floor(height: Height)
    | Ground(height: Height)
    | Wall
    | Tree(variant: TreeTile)
    | Door(axis: Axis)
    | Window(axis: Axis)
    | HouseLight
    | Water(hint: WaterColour)
    | RuinsFloor(height: Height)
    | RuinsWall
    | Altar
    | BulletinBoard
    | Lamp
    | PierFloor(height: Height)
    | LakeWater(hint: WaterColour)
    | Grass
    | Rock
    | Flower
    | Bed
    | ChairLeftFacing
    | ChairRightFacing
    | Teapot
    | Tea
    | Gumboots
    | Umbrella
    | Shovel
    | Map
    | WeatherReport
    | Lantern
    | Crowbar

  /** The layer a prefab occupies; a house light floats above the grid. */
  function PrefabLayer(p: Prefab): Option<Layer> {
    match p
    case Floor(_) => Some(Layer.Floor)
    case Ground(_) => Some(Layer.Floor)
    case Water(_) => Some(Layer.Floor)
    case RuinsFloor(_) => Some(Layer.Floor)
    case PierFloor(_) => Some(Layer.Floor)
    case LakeWater(_) => Some(Layer.Floor)
    case HouseLight => None
    case Rock => Some(Layer.Item)
    case Flower => Some(Layer.Item)
    case Tea => Some(Layer.Item)
    case Gumboots => Some(Layer.Item)
    case Umbrella => Some(Layer.Item)
    case Shovel => Some(Layer.Item)
    case Map => Some(Layer.Item)
    case WeatherReport => Some(Layer.Item)
    case Lantern => Some(Layer.Item)
    case Crowbar => Some(Layer.Item)
    case _ => Some(Layer.Feature)
  }

  /** The components prefab `p` gives its entity, as the matching `spawn_*`
      operation inserts them. */
  function PrefabRow(p: Prefab): (r: Row)
    ensures r.light.Some? ==> r.light.value in {HOUSE_LIGHT, LAMP_LIGHT, LANTERN_LIGHT}
  {
    match p
    case Floor(h) => NoComponents.(tile := Some(Tile.Floor), height := Some(h))
    case Ground(h) => NoComponents.(tile := Some(Tile.Ground), height := Some(h), ground := true)
    case Wall => NoComponents.(tile := Some(Tile.Wall), solid := true, opacity := Some(255))
    case Tree(t) => NoComponents.(tile := Some(t), solid := true, opacity := Some(127), tree := true)
    case Door(axis) =>
      NoComponents.(tile := Some(DoorClosed(axis)), opacity := Some(255), solid := true, doorState := Some(Closed))
    case Window(axis) => NoComponents.(tile := Some(Tile.Window(axis)), solid := true)
    case HouseLight => NoComponents.(light := Some(HOUSE_LIGHT), houseLight := true)
    case Water(hint) => WaterRow(hint)
    case RuinsFloor(h) => NoComponents.(tile := Some(Tile.RuinsFloor), height := Some(h))
    case RuinsWall => NoComponents.(tile := Some(Tile.RuinsWall), solid := true, opacity := Some(255))
    case Altar => NoComponents.(tile := Some(Tile.Altar), solid := true, altar := true)
    case BulletinBoard => NoComponents.(tile := Some(Tile.BulletinBoard), solid := true, bulletinBoard := true)
    case Lamp => NoComponents.(tile := Some(Tile.Lamp), solid := true, light := Some(LAMP_LIGHT), lamp := true)
    case PierFloor(h) => NoComponents.(tile := Some(Tile.PierFloor), height := Some(h))
    case LakeWater(hint) => WaterRow(hint).(lake := true)
    case Grass => NoComponents.(tile := Some(Tile.Grass), opacity := Some(100), grass := true)
    case Rock => NoComponents.(tile := Some(Tile.Rock), push := true, rock := true)
    case Flower => NoComponents.(tile := Some(Tile.Flower), item := Some(Item.Flower))
    case Bed => NoComponents.(tile := Some(Tile.Bed), bed := true)
    case ChairLeftFacing => NoComponents.(solid := true, chair := true, tile := Some(Tile.ChairLeftFacing))
    case ChairRightFacing => NoComponents.(tile := Some(Tile.ChairRightFacing), solid := true, chair := true)
    case Teapot => NoComponents.(tile := Some(Tile.Teapot), teaPot := true, solid := true)
    case Tea => NoComponents.(tile := Some(Tile.Tea), item := Some(Item.Tea))
    case Gumboots => NoComponents.(tile := Some(Tile.Gumboots), equipment := Some(Equipment.Gumboots))
    case Umbrella => NoComponents.(tile := Some(Tile.Umbrella), equipment := Some(Equipment.Umbrella))
    case Shovel => NoComponents.(tile := Some(Tile.Shovel), equipment := Some(Equipment.Shovel))
    case Map => NoComponents.(tile := Some(Tile.Map), equipment := Some(Equipment.Map))
    case WeatherReport => NoComponents.(tile := Some(Tile.WeatherReport), equipment := Some(Equipment.WeatherReport))
    case Lantern =>
      NoComponents.(tile := Some(Tile.Lantern), equipment := Some(Equipment.Lantern), light := Some(LANTERN_LIGHT))
    case Crowbar => NoComponents.(tile := Some(Tile.Crowbar), equipment := Some(Equipment.Crowbar))
  }

  /** What `become_water` gives an entity, less its flicker animation. */
  function WaterRow(hint: WaterColour): Row {
    NoComponents.(tile := Some(Tile.Water), colourHint := Some(hint), realtime := true, water := true)
  }

  /** A map with `e`'s entry set when `v` holds a value. */
  function Put<V>(m: map<Entity, V>, e: Entity, v: Option<V>): (r: map<Entity, V>)
    ensures forall x :: Get(r, x) == if x == e && v.Some? then v else Get(m, x)
  {
    if v.Some? then m[e := v.value] else m
  }

  /** A set with `e` added when `b` holds. */
  function Mark(s: set<Entity>, e: Entity, b: bool): set<Entity>
  {
    if b then s + {e} else s
  }

  /** The tables after `e`'s row is inserted: a fresh entity reads back
      exactly the row, and every other entity, and the player table, are
      untouched. */
  function InsertRow(c: Components, e: Entity, row: Row): (d: Components)
    ensures RowOf(c, e) == NoComponents ==> RowOf(d, e) == row
    ensures forall x :: x != e ==> RowOf(d, x) == RowOf(c, x)
    ensures d.player == c.player
  {
    c.(tile := Put(c.tile, e, row.tile),
       opacity := Put(c.opacity, e, row.opacity),
       solid := Mark(c.solid, e, row.solid),
       doorState := Put(c.doorState, e, row.doorState),
       light := Put(c.light, e, row.light),
       colourHint := Put(c.colourHint, e, row.colourHint),
       realtime := Mark(c.realtime, e, row.realtime),
       bulletinBoard := Mark(c.bulletinBoard, e, row.bulletinBoard),
       lake := Mark(c.lake, e, row.lake),
       water := Mark(c.water, e, row.water),
       grass := Mark(c.grass, e, row.grass),
       lamp := Mark(c.lamp, e, row.lamp),
       houseLight := Mark(c.houseLight, e, row.houseLight),
       bed := Mark(c.bed, e, row.bed),
       height := Put(c.height, e, row.height),
       ground := Mark(c.ground, e, row.ground),
       tree := Mark(c.tree, e, row.tree),
       item := Put(c.item, e, row.item),
       teaPot := Mark(c.teaPot, e, row.teaPot),
       altar := Mark(c.altar, e, row.altar),
       chair := Mark(c.chair, e, row.chair),
       rock := Mark(c.rock, e, row.rock),
       push := Mark(c.push, e, row.push),
       equipment := Put(c.equipment, e, row.equipment))
  }

  /** Inserting a row for the entity the allocator hands out next keeps
      every table below the allocator's new bound. */
  lemma InsertRowKeepsTablesBelow(c: Components, e: Entity, row: Row)
    requires TablesBelow(c, e)
    ensures RowOf(c, e) == NoComponents
    ensures TablesBelow(InsertRow(c, e, row), e + 1)
  {
  }

  /** The component tables after the prefab is spawned as entity `e`. */
  function WithPrefab(c: Components, e: Entity, p: Prefab): Components {
    InsertRow(c, e, PrefabRow(p))
  }

  /** What each prefab shows: everything on the floor or feature layer has a
      tile; of the features exactly walls, ruined walls, doors and windows
      are walls; of the floors exactly floor and ground are walkable floor;
      and the features that block light are walls, ruined walls and doors
      fully, trees half and grass a little. */
  lemma PrefabTiles(p: Prefab)
    ensures PrefabLayer(p) == Some(Layer.Feature) || PrefabLayer(p) == Some(Layer.Floor) ==> PrefabRow(p).tile.Some?
    ensures PrefabLayer(p) == Some(Layer.Feature) ==>
              (IsWallTile(PrefabRow(p).tile.value) <==> p.Wall? || p.RuinsWall? || p.Door? || p.Window?)
    ensures PrefabLayer(p) == Some(Layer.Floor) ==>
              (PrefabRow(p).tile.value in {Tile.Floor, Tile.Ground} <==> p.Floor? || p.Ground?)
    ensures PrefabLayer(p) == Some(Layer.Feature) ==>
              PrefabRow(p).opacity == if p.Wall? || p.RuinsWall? || p.Door? then Some(255)
                                      else if p.Tree? then Some(127)
                                      else if p.Grass? then Some(100)
                                      else None
  {
  }

  /** What the world's queries report at a coordinate whose layer holds the
      freshly spawned entity `e` of prefab `p`. */
  lemma SpawnedQueries(w: World, coord: Coord, p: Prefab, e: Entity)
    requires InBounds(w.spatial.size, coord)
    requires PrefabLayer(p).Some? ==> w.spatial.At(coord, PrefabLayer(p).value) == Some(e)
    requires Get(w.components.tile, e) == PrefabRow(p).tile
    requires Get(w.components.opacity, e) == PrefabRow(p).opacity
    ensures PrefabLayer(p) == Some(Layer.Feature) ==>
              (w.IsWallAtCoord(coord) <==> p.Wall? || p.RuinsWall? || p.Door? || p.Window?)
    ensures PrefabLayer(p) == Some(Layer.Floor) ==> (w.IsFloorAtCoord(coord) <==> p.Floor? || p.Ground?)
    ensures PrefabLayer(p) == Some(Layer.Feature) ==>
              w.GetOpacityAtCoord(coord) ==
                if p.Wall? || p.RuinsWall? || p.Door? then 255
                else if p.Tree? then 127
                else if p.Grass? then 100
                else 0
  {
    PrefabTiles(p);
  }

  /** Spawning prefab `p` as entity `e`, the allocator's next, on the
      tables themselves: they stay consistent below the new bound, the new
      entity has its prefab's components and no player mark, and the shown
      tiles change only on the slot it takes. */
  lemma SpawnedTables(s: SpatialTable, comps: Components, e: Entity, coord: Coord, p: Prefab)
    requires s.Valid() && s.AllBelow(e) && TablesBelow(comps, e)
    requires s.CanInsert(e, Location(coord, PrefabLayer(p)))
    ensures var t, d := s.Insert(e, Location(coord, PrefabLayer(p))), WithPrefab(comps, e, p);
            && t.Valid() && t.AllBelow(e + 1) && TablesBelow(d, e + 1)
            && d.player == comps.player
            && Get(d.tile, e) == PrefabRow(p).tile && Get(d.opacity, e) == PrefabRow(p).opacity
            && (PrefabLayer(p).Some? ==> t.At(coord, PrefabLayer(p).value) == Some(e))
            && (forall c, l :: TileAt(t, d.tile, c, l) ==
                  if PrefabLayer(p) == Some(l) && c == coord then PrefabRow(p).tile else TileAt(s, comps.tile, c, l))
  {
    var loc := Location(coord, PrefabLayer(p));
    var t := s.Insert(e, loc);
    InsertRowKeepsTablesBelow(comps, e, PrefabRow(p));
    assert t.AllBelow(e + 1);
    var d := InsertRow(comps, e, PrefabRow(p));
    assert RowOf(d, e) == PrefabRow(p);
    forall x | x != e ensures TileOf(d.tile, x) == TileOf(comps.tile, x) {
      assert RowOf(d, x).tile == RowOf(comps, x).tile;
    }
    InsertedTiles(s, comps.tile, d.tile, e, loc);
  }

  /** Allocates a fresh entity, places it on its prefab's layer at `coord`
      and inserts its components. The placement must succeed: the coordinate
      is on the grid and the layer slot is free. */
  method Spawn(w: World, coord: Coord, p: Prefab) returns (e: Entity)
    requires w.Valid() && w.spatial.CanInsert(w.next, Location(coord, PrefabLayer(p)))
    modifies w
    ensures w.Valid()
    ensures e == old(w.next) && w.next == e + 1
    ensures w.spatial == old(w.spatial).Insert(e, Location(coord, PrefabLayer(p)))
    ensures w.components == WithPrefab(old(w.components), e, p)
    ensures w.components.player == old(w.components.player)
    ensures forall c, l :: TileAt(w.spatial, w.components.tile, c, l) ==
              if PrefabLayer(p) == Some(l) && c == coord then PrefabRow(p).tile
              else old(TileAt(w.spatial, w.components.tile, c, l))
    ensures w.spatial.location == old(w.spatial.location)[e := Location(coord, PrefabLayer(p))]
    ensures w.EntityCoord(e) == Some(coord)
    ensures PrefabLayer(p) == Some(Layer.Feature) ==>
              (w.IsWallAtCoord(coord) <==> p.Wall? || p.RuinsWall? || p.Door? || p.Window?)
    ensures PrefabLayer(p) == Some(Layer.Floor) ==> (w.IsFloorAtCoord(coord) <==> p.Floor? || p.Ground?)
    ensures PrefabLayer(p) == Some(Layer.Feature) ==>
              w.GetOpacityAtCoord(coord) ==
                if p.Wall? || p.RuinsWall? || p.Door? then 255
                else if p.Tree? then 127
                else if p.Grass? then 100
                else 0
  {
    e := w.next;
    SpawnedTables(w.spatial, w.components, e, coord, p);
    w.next := w.next + 1;
    w.spatial := w.spatial.Insert(e, Location(coord, PrefabLayer(p)));
    w.components := WithPrefab(w.components, e, p);
    SpawnedQueries(w, coord, p, e);
  }

  /** Every light a prefab gives reaches some distance and dims with a
      well-defined ratio. */
  lemma PrefabLightsDim(p: Prefab)
    requires PrefabRow(p).light.Some?
    ensures PrefabRow(p).light.value.visionDistanceSquared > 0
    ensures PrefabRow(p).light.value.diminish.denominator > 0
    ensures PrefabRow(p).light.value.diminish.numerator > 0
  {
  }

  /** A spawned door is already in the state closing it produces, and opening
      it and closing it again restores its tables exactly. */
  lemma SpawnedDoorIsClosed(c: Components, e: Entity, axis: Axis)
    ensures var d := WithPrefab(c, e, Door(axis));
            IsClosedDoor(d, e) && ClosedDoor(d, e) == d && ClosedDoor(OpenedDoor(d, e), e) == d
  {
    var d := WithPrefab(c, e, Door(axis));
    assert Get(d.tile, e) == Some(DoorClosed(axis));
    assert Get(d.opacity, e) == Some(255);
    assert Get(d.doorState, e) == Some(Closed);
    assert IsClosedDoor(d, e);
    CloseClosedIsIdentity(d, e);
    CloseAfterOpenRestores(d, e);
  }

  /** Spawning water is exactly turning the new entity into water. */
  lemma SpawnedWaterIsWater(c: Components, e: Entity, hint: WaterColour)
    ensures WithPrefab(c, e, Prefab.Water(hint)) == AsWater(c, e, hint)
    ensures WithPrefab(c, e, LakeWater(hint)) == AsWater(c, e, hint).(lake := c.lake + {e})
  {
    var w := WaterRow(hint);
    assert PrefabRow(Prefab.Water(hint)) == w;
    assert PrefabRow(LakeWater(hint)) == w.(lake := true);
    var d := c.(tile := c.tile[e := Tile.Water], colourHint := c.colourHint[e := hint],
                realtime := c.realtime + {e}, water := c.water + {e});
    assert InsertRow(c, e, w) == d;
    assert InsertRow(c, e, w.(lake := true)) == d.(lake := c.lake + {e});
  }

  /** A spawned lamp is already lit: switching the lamps on leaves its light
      and tile as spawned. */
  lemma SpawnedLampIsLit(c: Components, e: Entity, lit: Components)
    requires e !in c.houseLight
    requires LampsLit(WithPrefab(c, e, Prefab.Lamp), lit)
    ensures lit.light[e] == LAMP_LIGHT && lit.tile[e] == Tile.Lamp
  {
    var d := WithPrefab(c, e, Prefab.Lamp);
    assert e in d.lamp && e !in d.houseLight;
  }
}
