/** The examine command: a sentence about the tile under the cursor, as the
    player sees or remembers it. */
module Examine {
  import opened Common
  import opened Components
  import opened Visibility

  datatype MessageVerb = See | Remember

  datatype TileLabel = Literal(text: string) | Name(name: string)

  /** The verb a cell's visibility allows: "see" for a visible, lit cell,
      "remember" for a cell seen before, and none otherwise. */
  function VerbOf(v: CellVisibility): (r: Option<MessageVerb>)
    ensures r == Some(See) <==> v.CurrentlyVisibleWithLightColour? && v.light.Some?
    ensures r == Some(Remember) <==> v.PreviouslyVisible?
    ensures r.None? <==> v.NeverVisible? || v == CurrentlyVisibleWithLightColour(None)
  {
    match v
    case CurrentlyVisibleWithLightColour(Some(_)) => Some(See)
    case PreviouslyVisible => Some(Remember)
    case _ => None
  }

  /** The tiles the label table covers. */
  predicate Labelled(t: Tile) {
    || t.Player? || t.DoorClosed? || t.DoorOpen? || t.Wall? || t.RuinsWall?
    || t.BulletinBoard? || t.Floor? || t.RuinsFloor? || t.Ground? || t.Window?
    || t.Tree0? || t.Tree1? || t.Tree2? || t.Water? || t.Altar? || t.Lamp?
  }

  /** The label of a tile; tiles the table does not list have none. */
  function TileStr(t: Tile): (r: Option<TileLabel>)
    ensures r.Some? <==> Labelled(t)
    ensures r.Some? && r.value.Literal? <==> t == Tile.Player
  {
    match t
    case Player => Some(Literal("It's you!"))
    case DoorClosed(_) => Some(Name("a door"))
    case DoorOpen(_) => Some(Name("a door"))
    case Wall => Some(Name("a wall"))
    case RuinsWall => Some(Name("a wall"))
    case BulletinBoard => Some(Name("a bulletin board"))
    case Floor => Some(Name("the floor"))
    case RuinsFloor => Some(Name("the floor"))
    case Ground => Some(Name("the ground"))
    case Window(_) => Some(Name("a window"))
    case Tree0 => Some(Name("a tree"))
    case Tree1 => Some(Name("a tree"))
    case Tree2 => Some(Name("a tree"))
    case Water => Some(Name("water"))
    case Altar => Some(Name("an altar"))
    case Lamp => Some(Name("a lamp"))
    case _ => None
  }

  /** Tiles of a kind share one name: doors of either state and axis, both
      walls, both floors and the three trees. */
  lemma SharedNames(a: Axis, b: Axis)
    ensures TileStr(Tile.DoorClosed(a)) == TileStr(Tile.DoorOpen(b)) == Some(Name("a door"))
    ensures TileStr(Tile.Wall) == TileStr(Tile.RuinsWall) == Some(Name("a wall"))
    ensures TileStr(Tile.Floor) == TileStr(Tile.RuinsFloor) == Some(Name("the floor"))
    ensures TileStr(Tile.Tree0) == TileStr(Tile.Tree1) == TileStr(Tile.Tree2) == Some(Name("a tree"))
    ensures TileStr(Tile.Ground) != TileStr(Tile.Floor)
  {
  }

  /** The tile on top of a cell's remembered layers: the item, else the
      character, else the feature, else the floor. */
  function TopTile(t: TileLayers): (r: Option<Tile>)
    ensures r.None? <==> t.floor.None? && t.feature.None? && t.character.None? && t.item.None?
    ensures t.item.Some? ==> r == Some(t.item.value.tile)
    ensures t.item.None? && t.character.Some? ==> r == Some(t.character.value.tile)
    ensures t.item.None? && t.character.None? && t.feature.Some? ==> r == Some(t.feature.value.tile)
    ensures t.item.None? && t.character.None? && t.feature.None? && t.floor.Some? ==> r == Some(t.floor.value.tile)
  {
    if t.item.Some? then Some(t.item.value.tile)
    else if t.character.Some? then Some(t.character.value.tile)
    else if t.feature.Some? then Some(t.feature.value.tile)
    else if t.floor.Some? then Some(t.floor.value.tile)
    else None
  }

  function Message(tileLabel: TileLabel, verb: MessageVerb): string {
    match tileLabel
    case Name(name) =>
      var verbStr := match verb case Remember => "remember seeing" case See => "see";
      "You " + verbStr + " " + name + " here."
    case Literal(literal) => literal
  }

  /** What examining a cell says, given the cell (none off the grid) and the
      generation. */
  function ExamineOf(cell: Option<VisibilityCell>, count: nat): (r: Option<string>)
    ensures r.Some? ==> cell.Some? && VerbOf(Classify(cell.value, count)).Some?
    ensures r.Some? ==> TopTile(cell.value.tileLayers).Some? && Labelled(TopTile(cell.value.tileLayers).value)
  {
    match cell
    case None => None
    case Some(c) =>
      match VerbOf(Classify(c, count))
      case None => None
      case Some(verb) =>
        match TopTile(c.tileLayers)
        case None => None
        case Some(t) =>
          match TileStr(t)
          case None => None
          case Some(tileLabel) => Some(Message(tileLabel, verb))
  }

  /** A named tile reads "You see X here." on a visible, lit cell and "You
      remember seeing X here." on a cell seen before; the player's own tile
      reads "It's you!" either way; a never-seen cell says nothing. */
  lemma ExamineMessages(c: VisibilityCell, count: nat, name: string)
    ensures TopTile(c.tileLayers).Some? && TileStr(TopTile(c.tileLayers).value) == Some(Name(name)) ==>
              && (c.lastSeen == count && c.lastLit == count ==> ExamineOf(Some(c), count) == Some("You see " + name + " here."))
              && (c.lastSeen != count && c.lastSeen != 0 ==>
                    ExamineOf(Some(c), count) == Some("You remember seeing " + name + " here."))
    ensures TopTile(c.tileLayers) == Some(Tile.Player) && Classify(c, count) != NeverVisible
            && Classify(c, count) != CurrentlyVisibleWithLightColour(None) ==>
              ExamineOf(Some(c), count) == Some("It's you!")
    ensures Classify(c, count) == NeverVisible ==> ExamineOf(Some(c), count) == None
  {
    ExamineNamed(c, count, name);
    ExamineSelf(c, count);
  }

  /** The named-tile part of ExamineMessages. */
  lemma ExamineNamed(c: VisibilityCell, count: nat, name: string)
    ensures TopTile(c.tileLayers).Some? && TileStr(TopTile(c.tileLayers).value) == Some(Name(name)) ==>
              && (c.lastSeen == count && c.lastLit == count ==> ExamineOf(Some(c), count) == Some("You see " + name + " here."))
              && (c.lastSeen != count && c.lastSeen != 0 ==>
                    ExamineOf(Some(c), count) == Some("You remember seeing " + name + " here."))
  {
    assert "You " + "see" + " " == "You see ";
    assert "You " + "remember seeing" + " " == "You remember seeing ";
  }

  /** The player's-own-tile part of ExamineMessages. */
  lemma ExamineSelf(c: VisibilityCell, count: nat)
    ensures TopTile(c.tileLayers) == Some(Tile.Player) && Classify(c, count) != NeverVisible
            && Classify(c, count) != CurrentlyVisibleWithLightColour(None) ==>
              ExamineOf(Some(c), count) == Some("It's you!")
  {
  }

  /** Examines the cell under the cursor: picks the verb from the cell's
      visibility, then lets each remembered layer, floor first and item
      last, overwrite the tile to describe. */
  method ExamineCell(grid: VisibilityGrid, coord: Coord) returns (msg: Option<string>)
    requires grid.Valid()
    ensures msg == ExamineOf(grid.GetCell(coord), grid.count)
    ensures !InBounds(grid.size, coord) ==> msg.None?
  {
    var visCount := grid.count;
    var entityUnderCursor: Option<(Tile, MessageVerb)> := None;
    var cell := grid.GetCell(coord);
    if cell.Some? {
      var verb := VerbOf(Classify(cell.value, visCount));
      if verb.Some? {
        var layers := cell.value.tileLayers;
        if layers.floor.Some? {
          entityUnderCursor := Some((layers.floor.value.tile, verb.value));
        }
        if layers.feature.Some? {
          entityUnderCursor := Some((layers.feature.value.tile, verb.value));
        }
        if layers.character.Some? {
          entityUnderCursor := Some((layers.character.value.tile, verb.value));
        }
        if layers.item.Some? {
          entityUnderCursor := Some((layers.item.value.tile, verb.value));
        }
      }
    }
    match entityUnderCursor
    case None =>
      msg := None;
    case Some((tile, verb)) =>
      match TileStr(tile)
      case None =>
        msg := None;
      case Some(tileLabel) =>
        msg := Some(Message(tileLabel, verb));
  }
}
