/** The world's entity data: tiles, the component tables that hang data off
    entities, and the spatial table that places entities on the grid's four
    layers. The entity allocator and both table crates are modelled as plain
    maps from entity to data. */
module Components {
  import opened Common
  import opened Rgb

  /** An entity handle, as handed out by the allocator. */
  type Entity = nat

  datatype Tile =
    | Player | Wall | Floor | Ground | Tree0 | Tree1 | Tree2
    | DoorClosed(axis: Axis) | DoorOpen(axis: Axis) | Window(axis: Axis)
    | Water | RuinsWall | RuinsFloor | Altar | BulletinBoard | Lamp | LampOff
    | PierFloor | Grass | FlatGrass | Rock | Flower | Bed
    | ChairLeftFacing | ChairRightFacing | Teapot | Tea
    | Gumboots | Umbrella | Shovel | Map | WeatherReport | Lantern | Crowbar

  datatype Item = Flower | Tea | Rock

  datatype Equipment = Gumboots | Umbrella | Shovel | Map | WeatherReport | Lantern | Crowbar

  datatype DoorState = Open | Closed

  /** A ratio of two unsigned integers. */
  datatype Rational = Rational(numerator: nat, denominator: nat)

  /** A light source: its colour, the squared radius of the circle it reaches,
      and how fast it dims with squared distance. */
  datatype Light = Light(colour: Rgb24, visionDistanceSquared: nat, diminish: Rational)

  /** A ground cell's height; any totally ordered value does. */
  type Height = real

  /** Every component table of the world. Unit components are sets. */
  datatype Components = Components(
    tile: map<Entity, Tile>,
    opacity: map<Entity, U8>,
    solid: set<Entity>,
    player: set<Entity>,
    doorState: map<Entity, DoorState>,
    light: map<Entity, Light>,
    colourHint: map<Entity, Rgb24>,
    realtime: set<Entity>,
    bulletinBoard: set<Entity>,
    lake: set<Entity>,
    water: set<Entity>,
    grass: set<Entity>,
    lamp: set<Entity>,
    houseLight: set<Entity>,
    bed: set<Entity>,
    height: map<Entity, Height>,
    ground: set<Entity>,
    tree: set<Entity>,
    item: map<Entity, Item>,
    teaPot: set<Entity>,
    altar: set<Entity>,
    chair: set<Entity>,
    rock: set<Entity>,
    push: set<Entity>,
    equipment: map<Entity, Equipment>)

  /** The components one entity has in each table: an optional value for a
      table with data, a flag for a unit table. Spawning never marks an
      entity as the player, so that table has no column here. */
  datatype Row = Row(
    tile: Option<Tile>,
    opacity: Option<U8>,
    solid: bool,
    doorState: Option<DoorState>,
    light: Option<Light>,
    colourHint: Option<Rgb24>,
    realtime: bool,
    bulletinBoard: bool,
    lake: bool,
    water: bool,
    grass: bool,
    lamp: bool,
    houseLight: bool,
    bed: bool,
    height: Option<Height>,
    ground: bool,
    tree: bool,
    item: Option<Item>,
    teaPot: bool,
    altar: bool,
    chair: bool,
    rock: bool,
    push: bool,
    equipment: Option<Equipment>)

  const NoComponents: Row :=
    Row(None, None, false, None, None, None, false, false, false, false, false, false, false, false,
        None, false, false, None, false, false, false, false, false, None)

  /** `e`'s entry in a table, if it has one. */
  function Get<V>(m: map<Entity, V>, e: Entity): (v: Option<V>)
    ensures v.Some? <==> e in m
    ensures v.Some? ==> m[e] == v.value
  {
    if e in m then Some(m[e]) else None
  }

  /** The components entity `e` has, read back from every table. */
  function RowOf(c: Components, e: Entity): Row {
    Row(Get(c.tile, e), Get(c.opacity, e), e in c.solid, Get(c.doorState, e), Get(c.light, e),
        Get(c.colourHint, e), e in c.realtime, e in c.bulletinBoard, e in c.lake, e in c.water,
        e in c.grass, e in c.lamp, e in c.houseLight, e in c.bed, Get(c.height, e), e in c.ground,
        e in c.tree, Get(c.item, e), e in c.teaPot, e in c.altar, e in c.chair, e in c.rock,
        e in c.push, Get(c.equipment, e))
  }

  function EmptyComponents(): Components {
    Components(map[], map[], {}, {}, map[], map[], map[], {}, {}, {}, {}, {}, {}, {}, {},
               map[], {}, {}, map[], {}, {}, {}, {}, {}, map[])
  }

  /** The components a new entity starts with when it is inserted whole. */
  datatype EntityData = EntityData(tile: Option<Tile>, player: bool, light: Option<Light>)

  /** The components an entity inserted whole from `data` reads back. */
  function DataRow(data: EntityData): Row {
    NoComponents.(tile := data.tile, light := data.light)
  }

  /** The player's entity data: its tile, the player marker and its own light. */
  function MakePlayer(): (d: EntityData)
    ensures d.tile == Some(Tile.Player) && d.player
    ensures d.light.Some? && d.light.value.diminish.denominator > 0
  {
    EntityData(
      Some(Tile.Player),
      true,
      Some(Light(Grey(185), 200, Rational(1, 50))))
  }

  // ---------------------------------------------------------------------
  // Spatial table
  // ---------------------------------------------------------------------

  datatype Layer = Floor | Feature | Character | Item

  /** Where an entity is: a coordinate and, unless it floats above the grid
      (as a house light does), one of the four layers. */
  datatype Location = Location(coord: Coord, layer: Option<Layer>)

  datatype Slot = Slot(coord: Coord, layer: Layer)

  /** The occupant of each layer at one coordinate. */
  datatype Layers = Layers(floor: Option<Entity>, feature: Option<Entity>,
                           character: Option<Entity>, item: Option<Entity>)

  datatype SpatialTable = SpatialTable(
    size: Size,
    location: map<Entity, Location>,
    occupant: map<Slot, Entity>)
  {
    /** The two views agree: an entity occupies a slot exactly when its
        location names that slot, and every location is inside the grid. */
    ghost predicate Valid() {
      && (forall s {:trigger occupant[s]} {:trigger s in occupant} | s in occupant ::
            InBounds(size, s.coord) && occupant[s] in location
            && location[occupant[s]] == Location(s.coord, Some(s.layer)))
      && (forall e {:trigger location[e]} {:trigger e in location} | e in location ::
            && InBounds(size, location[e].coord)
            && (location[e].layer.Some? ==>
                  && Slot(location[e].coord, location[e].layer.value) in occupant
                  && occupant[Slot(location[e].coord, location[e].layer.value)] == e))
    }

    function At(c: Coord, l: Layer): Option<Entity> {
      if Slot(c, l) in occupant then Some(occupant[Slot(c, l)]) else None
    }

    /** The layers at a coordinate, or None outside the grid. */
    function LayersAt(c: Coord): (r: Option<Layers>)
      ensures r.Some? <==> InBounds(size, c)
      ensures r.Some? ==> r.value == LayersAtChecked(c)
    {
      if InBounds(size, c) then Some(LayersAtChecked(c)) else None
    }

    function LayersAtChecked(c: Coord): Layers {
      Layers(At(c, Layer.Floor), At(c, Layer.Feature), At(c, Layer.Character), At(c, Layer.Item))
    }

    function CoordOf(e: Entity): Option<Coord> {
      if e in location then Some(location[e].coord) else None
    }

    /** What the table's update demands before it places a new entity: the
        coordinate is inside the grid, the entity has no location yet and the
        target layer slot is free. */
    predicate CanInsert(e: Entity, loc: Location) {
      && InBounds(size, loc.coord)
      && e !in location
      && (loc.layer.Some? ==> Slot(loc.coord, loc.layer.value) !in occupant)
    }

    function Insert(e: Entity, loc: Location): (t: SpatialTable)
      requires CanInsert(e, loc)
      ensures t.size == size
      ensures Valid() ==> t.Valid()
      ensures t.CoordOf(e) == Some(loc.coord) && e in t.location && t.location[e] == loc
      ensures forall x | x in location :: x in t.location && t.location[x] == location[x]
      ensures forall c, l :: t.At(c, l) == if loc.layer == Some(l) && c == loc.coord then Some(e) else At(c, l)
      ensures SameBesides(t, loc.coord)
    {
      var occ := if loc.layer.Some? then occupant[Slot(loc.coord, loc.layer.value) := e] else occupant;
      SpatialTable(size, location[e := loc], occ)
    }

    /** `t` differs from this table at most at `at`: the same grid, the same
        occupants at every other coordinate, and every located entity still
        where it was. */
    ghost predicate SameBesides(t: SpatialTable, at: Coord) {
      var same :=
        && t.size == size
        && (forall c, l {:trigger t.At(c, l)} :: c != at ==> t.At(c, l) == At(c, l))
        && (forall x | x in location :: x in t.location && t.location[x] == location[x]);
      same
    }

    /** Every entity the table knows is below `bound`. */
    ghost predicate AllBelow(bound: nat) {
      && (forall e | e in location :: e < bound)
      && (forall s {:trigger occupant[s]} {:trigger s in occupant} | s in occupant :: occupant[s] < bound)
    }
  }

  lemma SameBesidesTrans(s0: SpatialTable, s1: SpatialTable, s2: SpatialTable, at: Coord)
    requires s0.SameBesides(s1, at) && s1.SameBesides(s2, at)
    ensures s0.SameBesides(s2, at)
  {
  }

  function EmptySpatialTable(size: Size): (t: SpatialTable)
    ensures t.Valid() && t.AllBelow(0) && t.size == size
    ensures forall c, l :: t.At(c, l).None?
  {
    SpatialTable(size, map[], map[])
  }

  /** The tile an entity shows, if it has one. */
  function TileOf(tiles: map<Entity, Tile>, e: Entity): Option<Tile> {
    if e in tiles then Some(tiles[e]) else None
  }

  /** The tile shown on a layer at a coordinate. */
  function TileAt(s: SpatialTable, tiles: map<Entity, Tile>, c: Coord, l: Layer): Option<Tile> {
    match s.At(c, l)
    case None => None
    case Some(e) => TileOf(tiles, e)
  }
}
