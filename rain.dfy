/** Decorative rain drawn over the map. Each drop falls in rain cells (three
    per world cell each way), splashes when its countdown runs out, and
    comes back at the top. Random draws are inputs: the drop chosen for
    index `i` when the rain is made, and the respawn chosen for index `i`
    on a tick. */
module Rain {
  import opened Common
  import opened Rgb
  import opened World
  import opened Visibility

  const MAX_NUM_DROPS: nat := 10000
  const SPASH_DURATION: nat := 0
  const DROP_INTERVAL: nat := 1

  const RAIN: Rgb24 := Rgb24(50, 120, 150)
  const RAIN_REMEMBERED: Rgb24 := Rgb24(80, 90, 100)

  datatype RainDirection = Diagonal | Vertical

  datatype RainDropState = Falling | Splash

  datatype RainDrop = RainDrop(coord: Coord, remaining: nat, state: RainDropState)

  /** A drop's starting place and countdown, as drawn when the rain is made. */
  datatype InitialDraw = InitialDraw(x: int, y: int, remaining: nat)

  /** A splashed drop's new countdown and column, as drawn on a tick. */
  datatype Respawn = Respawn(remaining: nat, x: int)

  function Step(direction: RainDirection): Coord {
    match direction
    case Vertical => Coord(0, 1)
    case Diagonal => Coord(-1, 1)
  }

  /** Every initial draw lies in the ranges the generator is asked for:
      a column in [0, 2w), a row in [0, h) and a countdown in [0, h). */
  ghost predicate InitialDrawsInRange(draws: nat -> InitialDraw, size: Size) {
    forall i :: 0 <= draws(i).x < 2 * size.width && 0 <= draws(i).y < size.height && draws(i).remaining < size.height
  }

  /** Every respawn draw lies in the ranges the generator is asked for. */
  ghost predicate RespawnsInRange(respawn: nat -> Respawn, size: Size) {
    forall i :: respawn(i).remaining < size.height && 0 <= respawn(i).x < 2 * size.width
  }

  /** One drop over one tick: a falling drop moves one step and counts down,
      splashing when the count is spent; a splash counts down and, when
      spent, falls again from the top at a new column with a new count. */
  function TickDrop(d: RainDrop, step: Coord, r: Respawn): RainDrop {
    match d.state
    case Falling =>
      var moved := Coord(d.coord.x + step.x, d.coord.y + step.y);
      if d.remaining > 0 then RainDrop(moved, d.remaining - 1, Falling)
      else RainDrop(moved, SPASH_DURATION, Splash)
    case Splash =>
      if d.remaining > 0 then d.(remaining := d.remaining - 1)
      else RainDrop(Coord(r.x, 0), r.remaining, Falling)
  }

  /** The same drop over `n` ticks, respawning with `r` if it comes to that. */
  function TickDropN(d: RainDrop, step: Coord, r: Respawn, n: nat): RainDrop
    decreases n
  {
    if n == 0 then d else TickDropN(TickDrop(d, step, r), step, r, n - 1)
  }

  /** A falling drop with countdown k falls k + 1 steps and then lies there
      as a splash. */
  lemma {:induction false} FallingLands(d: RainDrop, step: Coord, r: Respawn)
    requires d.state == Falling
    ensures TickDropN(d, step, r, d.remaining + 1)
              == RainDrop(Coord(d.coord.x + (d.remaining + 1) * step.x, d.coord.y + (d.remaining + 1) * step.y),
                          SPASH_DURATION, Splash)
    decreases d.remaining
  {
    if d.remaining > 0 {
      var next := TickDrop(d, step, r);
      FallingLands(next, step, r);
      assert (next.remaining + 1) * step.x == d.remaining * step.x;
      assert (next.remaining + 1) * step.y == d.remaining * step.y;
      assert (d.remaining + 1) * step.x == d.remaining * step.x + step.x;
      assert (d.remaining + 1) * step.y == d.remaining * step.y + step.y;
    }
  }

  /** A splash with countdown k lies k + 1 ticks and then falls again from
      the top row with the respawn's column and countdown. */
  lemma {:induction false} SplashRespawns(d: RainDrop, step: Coord, r: Respawn)
    requires d.state == Splash
    ensures TickDropN(d, step, r, d.remaining + 1) == RainDrop(Coord(r.x, 0), r.remaining, Falling)
    decreases d.remaining
  {
    if d.remaining > 0 {
      SplashRespawns(TickDrop(d, step, r), step, r);
    }
  }

  /** Where a drop can be: never above the top; a falling drop lands at
      most 2h - 1 rows down; a splash lies within 2h rows; and the column a
      drop started from lies in [0, 2w), so a vertical drop keeps its column
      there and a diagonal one keeps x + y in [0, 2w + h). */
  predicate InFlight(d: RainDrop, size: Size, direction: RainDirection) {
    && 0 <= d.coord.y
    && (d.state == Falling ==> d.coord.y + d.remaining + 2 <= 2 * size.height)
    && (d.state == Splash ==> d.coord.y < 2 * size.height && d.remaining <= SPASH_DURATION)
    && (direction == Vertical ==> 0 <= d.coord.x < 2 * size.width)
    && (direction == Diagonal ==> 0 <= d.coord.x + d.coord.y < 2 * size.width + size.height)
  }

  lemma TickDropInFlight(d: RainDrop, size: Size, direction: RainDirection, r: Respawn)
    requires InFlight(d, size, direction)
    requires r.remaining < size.height && 0 <= r.x < 2 * size.width
    ensures InFlight(TickDrop(d, Step(direction), r), size, direction)
  {
  }

  /** All drops after one moving tick: the first `n` tick, the rest stay. */
  function TickedDrops(ds: seq<RainDrop>, n: nat, direction: RainDirection, respawn: nat -> Respawn): (r: seq<RainDrop>)
    ensures |r| == |ds|
    ensures forall i :: n <= i < |ds| ==> r[i] == ds[i]
  {
    seq(|ds|, i requires 0 <= i < |ds| => if i < n then TickDrop(ds[i], Step(direction), respawn(i)) else ds[i])
  }

  /** The world cell a rain cell lies in; Rust's `/` truncates toward zero. */
  function WorldCoordOf(c: Coord): Coord {
    Coord(TruncDiv(c.x, 3), TruncDiv(c.y, 3))
  }

  function FallingChar(direction: RainDirection): char {
    match direction
    case Vertical => '.'
    case Diagonal => ','
  }

  const SPLASH_CHAR: char := '\U{2026}'

  /** One drop as drawn: where in the view, which glyph and which colour. */
  datatype Draw = Draw(coord: Coord, ch: char, colour: Rgb24)

  class Rain {
    const drops: array<RainDrop>
    const numDrops: nat
    const direction: RainDirection
    /** The world's size. */
    const worldSize: Size
    /** The rain's own size: three rain cells per world cell each way. */
    const size: Size
    var remaining: nat
    /** Per world cell, row-major: whether rain is hidden there. */
    const hideTable: seq<bool>

    ghost predicate Valid()
      reads this, drops
    {
      && drops.Length == MAX_NUM_DROPS
      && TablesMatch()
      && remaining <= DROP_INTERVAL
      && (forall i :: 0 <= i < drops.Length ==> InFlight(drops[i], size, direction))
    }

    predicate TablesMatch() {
      && |hideTable| == Area(worldSize)
      && size == Size(3 * worldSize.width, 3 * worldSize.height)
    }

    /** New rain over a world: MAX_NUM_DROPS falling drops at the drawn
        places, one drop interval to the first move, and the hide table
        copied from the world. */
    constructor (world: World, numDrops: nat, direction: RainDirection, draws: nat -> InitialDraw)
      requires InitialDrawsInRange(draws, Size(3 * world.spatial.size.width, 3 * world.spatial.size.height))
      ensures Valid() && fresh(drops)
      ensures this.numDrops == numDrops && this.direction == direction && remaining == DROP_INTERVAL
      ensures worldSize == world.spatial.size
      ensures forall i :: 0 <= i < drops.Length ==>
                drops[i] == RainDrop(Coord(draws(i).x, draws(i).y), draws(i).remaining, Falling)
      ensures forall c :: InBounds(worldSize, c) ==> hideTable[Index(worldSize, c)] == world.ShouldHideRain(c)
    {
      var ws := world.spatial.size;
      var rainSize := Size(3 * ws.width, 3 * ws.height);
      drops := new RainDrop[MAX_NUM_DROPS](i => RainDrop(Coord(draws(i).x, draws(i).y), draws(i).remaining, Falling));
      this.numDrops := numDrops;
      this.direction := direction;
      worldSize := ws;
      size := rainSize;
      remaining := DROP_INTERVAL;
      hideTable := seq(Area(ws), i reads world requires 0 <= i < Area(ws) => world.ShouldHideRain(CoordOfIndex(ws, i)));
      new;
      forall c | InBounds(worldSize, c)
        ensures hideTable[Index(worldSize, c)] == world.ShouldHideRain(c)
      {
        IndexInjective(ws, c, CoordOfIndex(ws, Index(ws, c)));
      }
    }

    /** One tick: while the interval counts down only the counter moves;
        when it is spent it starts over and the first `numDrops` drops
        tick. */
    method Tick(respawn: nat -> Respawn)
      requires Valid() && numDrops <= MAX_NUM_DROPS
      requires RespawnsInRange(respawn, size)
      modifies this, drops
      ensures Valid()
      ensures old(remaining) > 0 ==> remaining == old(remaining) - 1 && drops[..] == old(drops[..])
      ensures old(remaining) == 0 ==>
                remaining == DROP_INTERVAL && drops[..] == TickedDrops(old(drops[..]), numDrops, direction, respawn)
    {
      if remaining > 0 {
        remaining := remaining - 1;
        return;
      }
      var step := Step(direction);
      remaining := DROP_INTERVAL;
      ghost var before := drops[..];
      var i := 0;
      while i < numDrops
        invariant 0 <= i <= numDrops
        invariant remaining == DROP_INTERVAL
        invariant forall j :: 0 <= j < i ==> drops[j] == TickDrop(before[j], step, respawn(j))
        invariant forall j :: i <= j < drops.Length ==> drops[j] == before[j]
        invariant forall j :: 0 <= j < drops.Length ==> InFlight(drops[j], size, direction)
      {
        TickDropInFlight(drops[i], size, direction, respawn(i));
        drops[i] := TickDrop(drops[i], step, respawn(i));
        i := i + 1;
      }
      assert drops[..] == TickedDrops(before, numDrops, direction, respawn);
    }

    /** Whether rain is hidden over a world cell; cells off the world are not. */
    function Hidden(c: Coord): bool
      requires TablesMatch()
    {
      InBounds(worldSize, c) && hideTable[Index(worldSize, c)]
    }

    /** How one drop is drawn, if at all: not over a hidden or never-seen
        world cell, and only inside the view; in the rain colour where the
        world cell is visible now and in the remembered colour elsewhere. */
    function DrawOf(grid: VisibilityGrid, d: RainDrop, offset: Coord, view: Size): (r: Option<Draw>)
      reads grid, grid.cells
      requires TablesMatch() && grid.Valid()
      ensures r.Some? <==>
                && !Hidden(WorldCoordOf(d.coord))
                && !grid.IsCoordNeverVisible(WorldCoordOf(d.coord))
                && InBounds(Size(3 * view.width, 3 * view.height),
                            Coord(d.coord.x - 3 * offset.x, d.coord.y - 3 * offset.y))
      ensures r.Some? ==>
                && InBounds(grid.size, WorldCoordOf(d.coord))
                && grid.cells[Index(grid.size, WorldCoordOf(d.coord))].lastSeen != 0
                && r.value.coord == Coord(d.coord.x - 3 * offset.x, d.coord.y - 3 * offset.y)
                && (r.value.colour == RAIN <==> grid.IsCoordCurrentlyVisible(WorldCoordOf(d.coord)))
                && (r.value.colour == RAIN || r.value.colour == RAIN_REMEMBERED)
                && (r.value.ch == if d.state == Falling then FallingChar(direction) else SPLASH_CHAR)
    {
      var worldCoord := WorldCoordOf(d.coord);
      if Hidden(worldCoord) then None
      else if grid.IsCoordNeverVisible(worldCoord) then None
      else
        var colour := if grid.IsCoordCurrentlyVisible(worldCoord) then RAIN else RAIN_REMEMBERED;
        var coord := Coord(d.coord.x - 3 * offset.x, d.coord.y - 3 * offset.y);
        if InBounds(Size(3 * view.width, 3 * view.height), coord) then
          match d.state
          case Falling => Some(Draw(coord, FallingChar(direction), colour))
          case Splash => Some(Draw(coord, SPLASH_CHAR, colour))
        else None
    }

    /** The drawn drops, in drop order. */
    function DrawsOf(grid: VisibilityGrid, ds: seq<RainDrop>, offset: Coord, view: Size): (r: seq<Draw>)
      reads grid, grid.cells
      requires TablesMatch() && grid.Valid()
      ensures |r| <= |ds|
      ensures forall k :: 0 <= k < |r| ==> r[k].colour == RAIN || r[k].colour == RAIN_REMEMBERED
      ensures forall k :: 0 <= k < |r| ==> InBounds(Size(3 * view.width, 3 * view.height), r[k].coord)
      ensures forall i :: 0 <= i < |ds| && DrawOf(grid, ds[i], offset, view).Some? ==>
                DrawOf(grid, ds[i], offset, view).value in r
    {
      if ds == [] then []
      else
        var prev := DrawsOf(grid, ds[..|ds| - 1], offset, view);
        assert forall i :: 0 <= i < |ds| - 1 ==> ds[..|ds| - 1][i] == ds[i];
        match DrawOf(grid, ds[|ds| - 1], offset, view)
        case None => prev
        case Some(x) => prev + [x]
    }

    /** Drawing two runs of drops one after the other draws the first run's
        cells and then the second's; with the one-drop case this makes the
        draws exactly the drawable drops, filtered in drop order. */
    lemma {:induction false} DrawsOfAppend(grid: VisibilityGrid, a: seq<RainDrop>, b: seq<RainDrop>, offset: Coord, view: Size)
      requires TablesMatch() && grid.Valid()
      ensures DrawsOf(grid, a + b, offset, view) == DrawsOf(grid, a, offset, view) + DrawsOf(grid, b, offset, view)
      decreases |b|
    {
      if b == [] {
        assert a + b == a;
      } else {
        var b' := b[..|b| - 1];
        assert (a + b)[..|a + b| - 1] == a + b' && (a + b)[|a + b| - 1] == b[|b| - 1];
        DrawsOfAppend(grid, a, b', offset, view);
      }
    }

    /** Every draw comes from a drawable drop. */
    lemma {:induction false} DrawsOfDrawn(grid: VisibilityGrid, ds: seq<RainDrop>, offset: Coord, view: Size)
      requires TablesMatch() && grid.Valid()
      ensures forall k :: 0 <= k < |DrawsOf(grid, ds, offset, view)| ==>
                exists i :: 0 <= i < |ds| && DrawOf(grid, ds[i], offset, view) == Some(DrawsOf(grid, ds, offset, view)[k])
    {
      if ds != [] {
        var prev, last := ds[..|ds| - 1], |ds| - 1;
        DrawsOfDrawn(grid, prev, offset, view);
        var r, p := DrawsOf(grid, ds, offset, view), DrawsOf(grid, prev, offset, view);
        forall k | 0 <= k < |r| ensures exists i :: 0 <= i < |ds| && DrawOf(grid, ds[i], offset, view) == Some(r[k]) {
          if k < |p| {
            var i :| 0 <= i < |prev| && DrawOf(grid, prev[i], offset, view) == Some(p[k]);
            assert prev[i] == ds[i];
          } else {
            assert DrawOf(grid, ds[last], offset, view) == Some(r[k]);
          }
        }
      } else {
        assert DrawsOf(grid, ds, offset, view) == [];
      }
    }

    /** One drop is drawn exactly when it is drawable. */
    lemma DrawsOfOne(grid: VisibilityGrid, d: RainDrop, offset: Coord, view: Size)
      requires TablesMatch() && grid.Valid()
      ensures DrawsOf(grid, [d], offset, view) == if DrawOf(grid, d, offset, view).Some? then [DrawOf(grid, d, offset, view).value] else []
    {
      assert [d][..0] == [];
    }

    /** Draws the first `numDrops` drops over the view at `offset`. */
    method Render(grid: VisibilityGrid, offset: Coord, view: Size) returns (draws: seq<Draw>)
      requires Valid() && grid.Valid() && numDrops <= MAX_NUM_DROPS
      ensures draws == DrawsOf(grid, drops[..numDrops], offset, view)
    {
      draws := [];
      var i := 0;
      while i < numDrops
        invariant 0 <= i <= numDrops
        invariant draws == DrawsOf(grid, drops[..i], offset, view)
      {
        ghost var next := drops[..i + 1];
        assert next[..i] == drops[..i] && next[i] == drops[i];
        var drawn := DrawOf(grid, drops[i], offset, view);
        assert DrawsOf(grid, next, offset, view)
                 == DrawsOf(grid, drops[..i], offset, view) + (if drawn.Some? then [drawn.value] else []);
        if drawn.Some? {
          draws := draws + [drawn.value];
        }
        i := i + 1;
      }
    }
  }
}
