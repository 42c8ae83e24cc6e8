/** The simulated world: an entity allocator, the spatial table and the
    component tables, with the lookups the visibility pass and the rain read
    and the mutators that open doors, switch lamps, flatten grass and flood. */
module World {
  import opened Common
  import opened Rgb
  import opened Components

  /** The light a house light (a window's glow) gives. */
  const HOUSE_LIGHT: Light := Light(Rgb24(255, 255, 255), 200, Rational(1, 10))

  /** The light a lit street lamp gives. */
  const LAMP_LIGHT: Light := Light(Rgb24(255, 255, 185), 100, Rational(1, 20))

  /** The light a lantern lying on the ground gives. */
  const LANTERN_LIGHT: Light := Light(Rgb24(255, 255, 185), 18, Rational(1, 10))

  /** The colour a water cell is hinted with: a blue chosen in a fixed range. */
  type WaterColour = c: Rgb24 | 10 <= c.r <= 20 && 40 <= c.g <= 90 && 100 <= c.b <= 150
    witness Rgb24(10, 40, 100)

  /** Tiles that count as walls for movement and rendering. */
  predicate IsWallTile(t: Tile) {
    t.Wall? || t.RuinsWall? || t.Window? || t.DoorClosed? || t.DoorOpen?
  }

  predicate IsDoorTile(t: Tile) {
    t.DoorClosed? || t.DoorOpen?
  }

  /** The component state of a closed door. */
  predicate IsClosedDoor(c: Components, door: Entity) {
    && door in c.tile && c.tile[door].DoorClosed?
    && door in c.solid
    && door in c.opacity && c.opacity[door] == 255
    && door in c.doorState && c.doorState[door] == Closed
  }

  /** The component state of an open door. */
  predicate IsOpenDoor(c: Components, door: Entity) {
    && door in c.tile && c.tile[door].DoorOpen?
    && door !in c.solid
    && door !in c.opacity
    && door in c.doorState && c.doorState[door] == Open
  }

  /** The tables after a door opens: it stops being solid and opaque, is
      marked open and shows the open tile on the same axis. */
  function OpenedDoor(c: Components, door: Entity): (d: Components)
    requires door in c.tile && IsDoorTile(c.tile[door])
    ensures IsOpenDoor(d, door) && d.tile[door].axis == c.tile[door].axis
  {
    c.(solid := c.solid - {door},
       opacity := c.opacity - {door},
       doorState := c.doorState[door := Open],
       tile := c.tile[door := DoorOpen(c.tile[door].axis)])
  }

  /** The tables after a door closes: solid, fully opaque, marked closed and
      showing the closed tile on the same axis. */
  function ClosedDoor(c: Components, door: Entity): (d: Components)
    requires door in c.tile && IsDoorTile(c.tile[door])
    ensures IsClosedDoor(d, door) && d.tile[door].axis == c.tile[door].axis
  {
    c.(solid := c.solid + {door},
       opacity := c.opacity[door := 255],
       doorState := c.doorState[door := Closed],
       tile := c.tile[door := DoorClosed(c.tile[door].axis)])
  }

  /** Closing a door that was just opened gives back exactly the tables it had. */
  lemma CloseAfterOpenRestores(c: Components, door: Entity)
    requires IsClosedDoor(c, door)
    ensures ClosedDoor(OpenedDoor(c, door), door) == c
  {
    var d := ClosedDoor(OpenedDoor(c, door), door);
    assert d.solid == c.solid;
    assert d.opacity == c.opacity;
    assert d.doorState == c.doorState;
    assert d.tile == c.tile;
  }

  /** Closing a door that is already closed changes nothing. */
  lemma CloseClosedIsIdentity(c: Components, door: Entity)
    requires IsClosedDoor(c, door)
    ensures ClosedDoor(c, door) == c
  {
    var d := ClosedDoor(c, door);
    assert d.solid == c.solid;
    assert d.opacity == c.opacity;
    assert d.doorState == c.doorState;
    assert d.tile == c.tile;
  }

  /** Opening a door that was just closed gives back exactly the tables it had. */
  lemma OpenAfterCloseRestores(c: Components, door: Entity)
    requires IsOpenDoor(c, door)
    ensures OpenedDoor(ClosedDoor(c, door), door) == c
  {
    var d := OpenedDoor(ClosedDoor(c, door), door);
    assert d.solid == c.solid;
    assert d.opacity == c.opacity;
    assert d.doorState == c.doorState;
    assert d.tile == c.tile;
  }

  /** `r` is `m` with every key in `keys` set to `v`. */
  ghost predicate Stamped<V>(r: map<Entity, V>, m: map<Entity, V>, keys: set<Entity>, v: V) {
    && (forall e :: e in r <==> e in m || e in keys)
    && (forall e :: e in keys ==> r[e] == v)
    && (forall e :: e in m && e !in keys ==> r[e] == m[e])
  }

  lemma StampedStep<V>(r: map<Entity, V>, m: map<Entity, V>, keys: set<Entity>, k: Entity, v: V)
    requires Stamped(r, m, keys, v)
    ensures Stamped(r[k := v], m, keys + {k}, v)
  {
  }

  /** Taking one more element out of what is left makes it smaller. */
  lemma Shrinks(all: set<Entity>, done: set<Entity>, k: Entity)
    requires k in all - done
    ensures |all - (done + {k})| < |all - done|
  {
    assert all - done == (all - (done + {k})) + {k};
  }

  /** `r` is `m` without the keys in `keys`. */
  ghost predicate Removed<V>(r: map<Entity, V>, m: map<Entity, V>, keys: set<Entity>) {
    && (forall e :: e in r <==> e in m && e !in keys)
    && (forall e :: e in r ==> r[e] == m[e])
  }

  /** The tables with every lamp and house light lit: lamps show the lit
      tile, lamps give the lamp light and house lights the house light (a
      house light that is also a lamp gets the house light); nothing else
      changes. */
  ghost predicate LampsLit(c: Components, d: Components) {
    var lit :=
      && d == c.(light := d.light, tile := d.tile)
      && Stamped(d.tile, c.tile, c.lamp, Tile.Lamp)
      && (forall e :: e in d.light <==> e in c.light || e in c.lamp || e in c.houseLight)
      && (forall e :: e in c.houseLight ==> d.light[e] == HOUSE_LIGHT)
      && (forall e :: e in c.lamp && e !in c.houseLight ==> d.light[e] == LAMP_LIGHT)
      && (forall e :: e in c.light && e !in c.lamp && e !in c.houseLight ==> d.light[e] == c.light[e]);
    lit
  }

  /** The tables with every lamp and house light dark: lamps show the unlit
      tile and neither lamps nor house lights give light; nothing else
      changes. */
  ghost predicate LampsDark(c: Components, d: Components) {
    var dark :=
      && d == c.(light := d.light, tile := d.tile)
      && Stamped(d.tile, c.tile, c.lamp, LampOff)
      && Removed(d.light, c.light, c.lamp + c.houseLight);
    dark
  }

  /** Lighting the lamps has exactly one outcome. */
  lemma LampsLitUnique(c: Components, d1: Components, d2: Components)
    requires LampsLit(c, d1) && LampsLit(c, d2)
    ensures d1 == d2
  {
    assert d1.light == d2.light;
    assert d1.tile == d2.tile;
  }

  /** Switching lamps on does not depend on whether they were off first. */
  lemma LampsOnAfterOff(c: Components, dark: Components, relit: Components, lit: Components)
    requires LampsDark(c, dark) && LampsLit(dark, relit) && LampsLit(c, lit)
    ensures relit == lit
  {
    RelitLight(c, dark, relit, lit);
    RelitTile(c, dark, relit, lit);
  }

  lemma RelitLight(c: Components, dark: Components, relit: Components, lit: Components)
    requires LampsDark(c, dark) && LampsLit(dark, relit) && LampsLit(c, lit)
    ensures relit.light == lit.light
  {
    assert dark.lamp == c.lamp && dark.houseLight == c.houseLight;
    forall e ensures (e in relit.light <==> e in lit.light) && (e in lit.light ==> relit.light[e] == lit.light[e]) {
    }
  }

  lemma RelitTile(c: Components, dark: Components, relit: Components, lit: Components)
    requires LampsDark(c, dark) && LampsLit(dark, relit) && LampsLit(c, lit)
    ensures relit.tile == lit.tile
  {
    assert dark.lamp == c.lamp;
    forall e ensures (e in relit.tile <==> e in lit.tile) && (e in lit.tile ==> relit.tile[e] == lit.tile[e]) {
    }
  }

  /** Switching lamps off does not depend on whether they were on first. */
  lemma LampsOffAfterOn(c: Components, lit: Components, unlit: Components, dark: Components)
    requires LampsLit(c, lit) && LampsDark(lit, unlit) && LampsDark(c, dark)
    ensures unlit == dark
  {
    assert unlit.light == dark.light;
    assert unlit.tile == dark.tile;
  }

  /** The tables after `BecomeWater(e, hint)`. */
  function AsWater(c: Components, e: Entity, hint: Rgb24): (d: Components)
    ensures e in d.water && e in d.realtime
    ensures e in d.tile && d.tile[e] == Water && e in d.colourHint && d.colourHint[e] == hint
  {
    c.(tile := c.tile[e := Water],
       colourHint := c.colourHint[e := hint],
       realtime := c.realtime + {e},
       water := c.water + {e})
  }

  /** The tables after a flood that drowns `drowned` and dries `kept`:
      drowned cells become animated water with their colour hint, kept cells
      become plain ground and stop animating; nothing else changes. */
  ghost predicate FloodedTables(c: Components, d: Components, drowned: set<Entity>, kept: set<Entity>, hint: Entity -> WaterColour) {
    var flooded :=
      && d == c.(tile := d.tile, colourHint := d.colourHint, realtime := d.realtime, water := d.water)
      && (forall e :: e in d.tile <==> e in c.tile || e in drowned || e in kept)
      && (forall e :: e in drowned ==> d.tile[e] == Water)
      && (forall e :: e in kept ==> d.tile[e] == Ground)
      && (forall e :: e in c.tile && e !in drowned && e !in kept ==> d.tile[e] == c.tile[e])
      && (forall e :: e in d.colourHint <==> e in c.colourHint || e in drowned)
      && (forall e :: e in drowned ==> d.colourHint[e] == hint(e))
      && (forall e :: e in c.colourHint && e !in drowned ==> d.colourHint[e] == c.colourHint[e])
      && d.realtime == (c.realtime + drowned) - kept
      && d.water == c.water + drowned;
    flooded
  }

  // ---------------------------------------------------------------------
  // Sorting ground cells by height
  // ---------------------------------------------------------------------

  predicate SortedByHeight(s: seq<(Entity, Height)>) {
    forall i, j :: 0 <= i < j < |s| ==> s[i].1 <= s[j].1
  }

  function InsertByHeight(x: (Entity, Height), s: seq<(Entity, Height)>): (r: seq<(Entity, Height)>)
    requires SortedByHeight(s)
    ensures SortedByHeight(r)
    ensures multiset(r) == multiset(s) + multiset{x}
  {
    if s == [] then [x]
    else if x.1 <= s[0].1 then [x] + s
    else
      SortedTail(s);
      var rest := InsertByHeight(x, s[1..]);
      SortedCons(s[0], s[1..], x, rest);
      assert s == [s[0]] + s[1..];
      [s[0]] + rest
  }

  /** The tail of a sorted list is sorted and bounded below by its head. */
  lemma SortedTail(s: seq<(Entity, Height)>)
    requires SortedByHeight(s) && s != []
    ensures SortedByHeight(s[1..])
    ensures forall k :: 0 <= k < |s[1..]| ==> s[0].1 <= s[1..][k].1
  {
    forall k | 0 <= k < |s[1..]| ensures s[0].1 <= s[1..][k].1 {
      assert s[1..][k] == s[k + 1];
    }
  }

  /** Putting an element no higher than anything of `s` or `x` in front of a
      sorted permutation of `s` and `x` keeps it sorted. */
  lemma SortedCons(y: (Entity, Height), s: seq<(Entity, Height)>, x: (Entity, Height), r: seq<(Entity, Height)>)
    requires forall k :: 0 <= k < |s| ==> y.1 <= s[k].1
    requires y.1 <= x.1
    requires SortedByHeight(r) && multiset(r) == multiset(s) + multiset{x}
    ensures SortedByHeight([y] + r)
  {
    forall k | 0 <= k < |r| ensures y.1 <= r[k].1 {
      assert r[k] in multiset(r);
      if r[k] != x {
        assert r[k] in multiset(s);
        var j :| 0 <= j < |s| && s[j] == r[k];
      }
    }
    forall i, j | 0 <= i < j < |[y] + r| ensures ([y] + r)[i].1 <= ([y] + r)[j].1 {
      if i > 0 {
        assert ([y] + r)[i] == r[i - 1] && ([y] + r)[j] == r[j - 1];
      } else {
        assert ([y] + r)[j] == r[j - 1];
      }
    }
  }

  /** Insertion sort by height; the model of the flood's sort. */
  function SortByHeight(s: seq<(Entity, Height)>): (r: seq<(Entity, Height)>)
    ensures SortedByHeight(r)
    ensures multiset(r) == multiset(s)
  {
    if s == [] then []
    else
      assert s == [s[0]] + s[1..];
      InsertByHeight(s[0], SortByHeight(s[1..]))
  }

  /** The entities of a list of (entity, height) pairs. */
  function Ids(s: seq<(Entity, Height)>): set<Entity> {
    set k | 0 <= k < |s| :: s[k].0
  }

  predicate DistinctIds(s: seq<(Entity, Height)>) {
    forall i, j :: 0 <= i < j < |s| ==> s[i].0 != s[j].0
  }

  /** Every pair carries the entity's height from the table. */
  predicate HeightsFrom(s: seq<(Entity, Height)>, height: map<Entity, Height>) {
    forall k :: 0 <= k < |s| ==> s[k].0 in height && s[k].1 == height[s[k].0]
  }

  lemma IdsAppend(s: seq<(Entity, Height)>, x: (Entity, Height))
    ensures Ids(s + [x]) == Ids(s) + {x.0}
  {
    forall k | 0 <= k < |s| ensures (s + [x])[k] == s[k] { }
    assert (s + [x])[|s|] == x;
  }

  lemma IdsCard(s: seq<(Entity, Height)>)
    requires DistinctIds(s)
    ensures |Ids(s)| == |s|
  {
    if s != [] {
      var t := s[..|s| - 1];
      IdsCard(t);
      assert s == t + [s[|s| - 1]];
      IdsAppend(t, s[|s| - 1]);
    }
  }

  lemma IdsSplit(s: seq<(Entity, Height)>, m: nat)
    requires m <= |s| && DistinctIds(s)
    ensures Ids(s[..m]) + Ids(s[m..]) == Ids(s)
    ensures Ids(s[..m]) !! Ids(s[m..])
    ensures DistinctIds(s[..m])
  {
    forall x | x in Ids(s) ensures x in Ids(s[..m]) + Ids(s[m..]) {
      var k :| 0 <= k < |s| && s[k].0 == x;
      if k < m { assert s[..m][k] == s[k]; } else { assert s[m..][k - m] == s[k]; }
    }
    forall a, b | 0 <= a < m && 0 <= b < |s| - m ensures s[..m][a].0 != s[m..][b].0 {
      assert s[..m][a] == s[a] && s[m..][b] == s[m + b];
    }
  }

  lemma CountDistinct(s: seq<(Entity, Height)>, x: (Entity, Height))
    requires DistinctIds(s)
    ensures multiset(s)[x] <= 1
  {
    if s != [] {
      var t := s[..|s| - 1];
      assert s == t + [s[|s| - 1]];
      CountDistinct(t, x);
      forall k | 0 <= k < |t| ensures t[k].0 != s[|s| - 1].0 {
        assert t[k] == s[k];
      }
      assert s[|s| - 1] !in t;
    }
  }

  /** A list in which nothing occurs twice has no repeated positions. */
  lemma NoRepeat(s: seq<(Entity, Height)>)
    requires forall x :: multiset(s)[x] <= 1
    ensures forall i, j :: 0 <= i < j < |s| ==> s[i] != s[j]
  {
    forall i, j | 0 <= i < j < |s| ensures s[i] != s[j] {
      var t := s[..j];
      assert s == t + [s[j]] + s[j + 1..];
      assert t[i] == s[i];
      assert multiset(s)[s[i]] >= multiset(t)[s[i]] + multiset([s[j]])[s[i]];
    }
  }

  /** A permutation of a duplicate-free list of table heights is again one. */
  lemma PermutationFacts(src: seq<(Entity, Height)>, r: seq<(Entity, Height)>, height: map<Entity, Height>)
    requires multiset(r) == multiset(src)
    requires DistinctIds(src) && HeightsFrom(src, height)
    ensures DistinctIds(r) && HeightsFrom(r, height) && Ids(r) == Ids(src) && |r| == |src|
  {
    assert |r| == |multiset(r)| == |multiset(src)| == |src|;
    forall k | 0 <= k < |r| ensures exists j :: 0 <= j < |src| && src[j] == r[k] {
      assert r[k] in multiset(r);
    }
    forall x ensures multiset(r)[x] <= 1 {
      CountDistinct(src, x);
    }
    NoRepeat(r);
    forall x | x in Ids(src) ensures x in Ids(r) {
      var k :| 0 <= k < |src| && src[k].0 == x;
      assert src[k] in multiset(src);
      var j :| 0 <= j < |r| && r[j] == src[k];
    }
  }

  // ---------------------------------------------------------------------
  // The table updates behind the world's mutators
  // ---------------------------------------------------------------------

  /** Gives every lamp the lamp light and the lit tile, one entry at a time. */
  method LightEachLamp(light0: map<Entity, Light>, tile0: map<Entity, Tile>, lamps: set<Entity>)
    returns (light: map<Entity, Light>, tile: map<Entity, Tile>)
    ensures Stamped(light, light0, lamps, LAMP_LIGHT) && Stamped(tile, tile0, lamps, Tile.Lamp)
  {
    var l, t := light0, tile0;
    var done: set<Entity> := {};
    while done != lamps
      invariant done <= lamps
      invariant Stamped(l, light0, done, LAMP_LIGHT)
      invariant Stamped(t, tile0, done, Tile.Lamp)
      decreases |lamps - done|
    {
      var lamp :| lamp in lamps - done;
      StampedStep(l, light0, done, lamp, LAMP_LIGHT);
      StampedStep(t, tile0, done, lamp, Tile.Lamp);
      Shrinks(lamps, done, lamp);
      l := l[lamp := LAMP_LIGHT];
      t := t[lamp := Tile.Lamp];
      done := done + {lamp};
    }
    return l, t;
  }

  /** Gives every entity of `keys` the light `v`, one entry at a time. */
  method LightEach(light0: map<Entity, Light>, keys: set<Entity>, v: Light) returns (light: map<Entity, Light>)
    ensures Stamped(light, light0, keys, v)
  {
    var l := light0;
    var done: set<Entity> := {};
    while done != keys
      invariant done <= keys
      invariant Stamped(l, light0, done, v)
      decreases |keys - done|
    {
      var k :| k in keys - done;
      StampedStep(l, light0, done, k, v);
      Shrinks(keys, done, k);
      l := l[k := v];
      done := done + {k};
    }
    return l;
  }

  /** Lights every lamp, then every house light. */
  method LightLamps(c: Components) returns (d: Components)
    ensures LampsLit(c, d)
  {
    var light, tile := LightEachLamp(c.light, c.tile, c.lamp);
    ghost var lampsLit := light;
    light := LightEach(light, c.houseLight, HOUSE_LIGHT);
    d := c.(light := light, tile := tile);
    assert d.light == light && d.tile == tile;
  }

  /** Darkens every lamp and gives it the unlit tile, one entry at a time. */
  method DarkenEachLamp(light0: map<Entity, Light>, tile0: map<Entity, Tile>, lamps: set<Entity>)
    returns (light: map<Entity, Light>, tile: map<Entity, Tile>)
    ensures Removed(light, light0, lamps) && Stamped(tile, tile0, lamps, LampOff)
  {
    var l, t := light0, tile0;
    var done: set<Entity> := {};
    while done != lamps
      invariant done <= lamps
      invariant Removed(l, light0, done)
      invariant Stamped(t, tile0, done, LampOff)
      decreases |lamps - done|
    {
      var lamp :| lamp in lamps - done;
      StampedStep(t, tile0, done, lamp, LampOff);
      Shrinks(lamps, done, lamp);
      l := l - {lamp};
      t := t[lamp := LampOff];
      done := done + {lamp};
    }
    return l, t;
  }

  /** Takes the light of every entity of `keys` away, one entry at a time. */
  method DarkenEach(light0: map<Entity, Light>, keys: set<Entity>) returns (light: map<Entity, Light>)
    ensures Removed(light, light0, keys)
  {
    var l := light0;
    var done: set<Entity> := {};
    while done != keys
      invariant done <= keys
      invariant Removed(l, light0, done)
      decreases |keys - done|
    {
      var k :| k in keys - done;
      Shrinks(keys, done, k);
      l := l - {k};
      done := done + {k};
    }
    return l;
  }

  /** Darkens every lamp, then every house light. */
  method DarkenLamps(c: Components) returns (d: Components)
    ensures LampsDark(c, d)
  {
    var light, tile := DarkenEachLamp(c.light, c.tile, c.lamp);
    ghost var lampsDark := light;
    light := DarkenEach(light, c.houseLight);
    d := c.(light := light, tile := tile);
    assert d.light == light && d.tile == tile;
  }

  /** Gathers the ground cells that have a height, in the height table's
      own (unspecified) order. */
  method CollectHeights(c: Components) returns (byHeight: seq<(Entity, Height)>)
    ensures DistinctIds(byHeight) && HeightsFrom(byHeight, c.height)
    ensures Ids(byHeight) == set e | e in c.height && e in c.ground
  {
    var todo := set e | e in c.height && e in c.ground;
    ghost var all := todo;
    byHeight := [];
    while todo != {}
      invariant todo <= all && Ids(byHeight) == all - todo
      invariant DistinctIds(byHeight) && HeightsFrom(byHeight, c.height)
      decreases |todo|
    {
      var e :| e in todo;
      IdsAppend(byHeight, (e, c.height[e]));
      byHeight := byHeight + [(e, c.height[e])];
      todo := todo - {e};
    }
  }

  lemma DrownStep(c: Components, d: Components, drowned: set<Entity>, x: Entity, hint: Entity -> WaterColour)
    requires FloodedTables(c, d, drowned, {}, hint)
    ensures FloodedTables(c, AsWater(d, x, hint(x)), drowned + {x}, {}, hint)
  {
  }

  /** Turns the first `m` cells of `sorted` into water, in order. */
  method DrownFirst(c: Components, sorted: seq<(Entity, Height)>, m: nat, hint: Entity -> WaterColour) returns (d: Components)
    requires m <= |sorted|
    ensures FloodedTables(c, d, Ids(sorted[..m]), {}, hint)
  {
    var r := c;
    var i := 0;
    assert Ids(sorted[..0]) == {};
    while i < m
      invariant 0 <= i <= m
      invariant FloodedTables(c, r, Ids(sorted[..i]), {}, hint)
    {
      assert sorted[..i + 1] == sorted[..i] + [sorted[i]];
      IdsAppend(sorted[..i], sorted[i]);
      DrownStep(c, r, Ids(sorted[..i]), sorted[i].0, hint);
      r := AsWater(r, sorted[i].0, hint(sorted[i].0));
      i := i + 1;
    }
    return r;
  }

  /** The tables after one ground cell is dried: it shows plain ground and
      stops animating. */
  function Dried(c: Components, e: Entity): (d: Components)
    ensures e in d.tile && d.tile[e] == Ground && e !in d.realtime
  {
    c.(tile := c.tile[e := Ground], realtime := c.realtime - {e})
  }

  lemma DryStep(c: Components, d: Components, drowned: set<Entity>, kept: set<Entity>, x: Entity, hint: Entity -> WaterColour)
    requires FloodedTables(c, d, drowned, kept, hint) && x !in drowned
    ensures FloodedTables(c, Dried(d, x), drowned, kept + {x}, hint)
  {
    var r := Dried(d, x);
    assert r == c.(tile := r.tile, colourHint := r.colourHint, realtime := r.realtime, water := r.water);
    assert r.realtime == (c.realtime + drowned) - (kept + {x});
  }

  /** Turns the cells of `sorted` from `m` on back into plain ground. */
  method DryRest(c: Components, f: Components, ghost drowned: set<Entity>, sorted: seq<(Entity, Height)>, m: nat, hint: Entity -> WaterColour)
    returns (d: Components)
    requires m <= |sorted| && drowned !! Ids(sorted[m..])
    requires FloodedTables(c, f, drowned, {}, hint)
    ensures FloodedTables(c, d, drowned, Ids(sorted[m..]), hint)
  {
    var r := f;
    var i := m;
    assert Ids(sorted[m..m]) == {};
    while i < |sorted|
      invariant m <= i <= |sorted|
      invariant Ids(sorted[m..i]) <= Ids(sorted[m..])
      invariant FloodedTables(c, r, drowned, Ids(sorted[m..i]), hint)
    {
      DryRestStep(c, r, drowned, sorted, m, i, hint);
      r := Dried(r, sorted[i].0);
      i := i + 1;
    }
    assert sorted[m..i] == sorted[m..];
    return r;
  }

  lemma DryRestStep(c: Components, d: Components, drowned: set<Entity>, sorted: seq<(Entity, Height)>, m: nat, i: nat, hint: Entity -> WaterColour)
    requires m <= i < |sorted| && drowned !! Ids(sorted[m..])
    requires Ids(sorted[m..i]) <= Ids(sorted[m..])
    requires FloodedTables(c, d, drowned, Ids(sorted[m..i]), hint)
    ensures Ids(sorted[m..i + 1]) <= Ids(sorted[m..])
    ensures FloodedTables(c, Dried(d, sorted[i].0), drowned, Ids(sorted[m..i + 1]), hint)
  {
    assert sorted[m..i + 1] == sorted[m..i] + [sorted[i]];
    IdsAppend(sorted[m..i], sorted[i]);
    assert sorted[m..][i - m] == sorted[i];
    DryStep(c, d, drowned, Ids(sorted[m..i]), sorted[i].0, hint);
  }

  /** The flood on the tables: collects the ground cells with a height,
      sorts them by height, drowns the first `n` and dries the rest. */
  method FloodTables(c: Components, n: nat, hint: Entity -> WaterColour)
    returns (d: Components, ghost drowned: set<Entity>, ghost kept: set<Entity>)
    ensures drowned !! kept
    ensures drowned + kept == set e | e in c.height && e in c.ground
    ensures |drowned| == if n < |drowned + kept| then n else |drowned + kept|
    ensures forall x, y :: x in drowned && y in kept ==> c.height[x] <= c.height[y]
    ensures FloodedTables(c, d, drowned, kept, hint)
  {
    var byHeight := CollectHeights(c);
    var sorted := SortByHeight(byHeight);
    PermutationFacts(byHeight, sorted, c.height);
    var m := if n < |sorted| then n else |sorted|;
    drowned := Ids(sorted[..m]);
    kept := Ids(sorted[m..]);
    IdsSplit(sorted, m);
    IdsCard(sorted[..m]);
    d := DrownFirst(c, sorted, m, hint);
    d := DryRest(c, d, drowned, sorted, m, hint);
    SplitOrdered(sorted, m, c.height);
  }

  /** Cutting a list sorted by height leaves no entity in front of the cut
      higher than one behind it. */
  lemma SplitOrdered(sorted: seq<(Entity, Height)>, m: nat, height: map<Entity, Height>)
    requires m <= |sorted| && SortedByHeight(sorted) && HeightsFrom(sorted, height)
    ensures forall x, y :: x in Ids(sorted[..m]) && y in Ids(sorted[m..]) ==> height[x] <= height[y]
  {
    forall x, y | x in Ids(sorted[..m]) && y in Ids(sorted[m..])
      ensures height[x] <= height[y]
    {
      var a :| 0 <= a < m && sorted[..m][a].0 == x;
      var b :| 0 <= b < |sorted| - m && sorted[m..][b].0 == y;
      assert sorted[a].1 <= sorted[m + b].1;
    }
  }

  // ---------------------------------------------------------------------
  // The world
  // ---------------------------------------------------------------------

  /** No entity from `bound` on has a component or is the player: every
      entity with components was handed out by the allocator. */
  ghost predicate TablesBelow(c: Components, bound: nat) {
    forall x {:trigger RowOf(c, x)} {:trigger x in c.player} | x >= bound ::
      RowOf(c, x) == NoComponents && x !in c.player
  }

  /** Inserting `data` as a new entity `e` gives `e` exactly the data's
      components and leaves every other entity's as they were. */
  lemma DataRows(c: Components, d: Components, e: Entity, data: EntityData)
    requires RowOf(c, e) == NoComponents
    requires d == c.(tile := if data.tile.Some? then c.tile[e := data.tile.value] else c.tile,
                     player := if data.player then c.player + {e} else c.player,
                     light := if data.light.Some? then c.light[e := data.light.value] else c.light)
    ensures RowOf(d, e) == DataRow(data)
    ensures forall x :: x != e ==> RowOf(d, x) == RowOf(c, x)
  {
  }

  /** An entity with any component lies below the bound. */
  lemma HasComponentsBelow(c: Components, bound: nat, e: Entity)
    requires TablesBelow(c, bound) && RowOf(c, e) != NoComponents
    ensures e < bound
  {
  }

  /** Opening or closing an allocated door keeps every entity past the
      bound componentless. */
  lemma DoorBelow(c: Components, bound: nat, door: Entity)
    requires TablesBelow(c, bound) && door in c.tile && IsDoorTile(c.tile[door])
    ensures TablesBelow(OpenedDoor(c, door), bound) && TablesBelow(ClosedDoor(c, door), bound)
  {
    HasComponentsBelow(c, bound, door);
    var o, d := OpenedDoor(c, door), ClosedDoor(c, door);
    forall x | x >= bound ensures RowOf(o, x) == NoComponents && RowOf(d, x) == NoComponents {
      assert RowOf(c, x) == NoComponents;
    }
  }

  /** Flattening allocated grass keeps every entity past the bound
      componentless. */
  lemma GrassBelow(c: Components, bound: nat, e: Entity)
    requires TablesBelow(c, bound) && e < bound
    ensures TablesBelow(c.(opacity := c.opacity - {e}, tile := c.tile[e := FlatGrass]), bound)
  {
    var g := c.(opacity := c.opacity - {e}, tile := c.tile[e := FlatGrass]);
    forall x | x >= bound ensures RowOf(g, x) == NoComponents {
      assert RowOf(c, x) == NoComponents;
    }
  }

  /** Turning an allocated entity into water keeps every entity past the
      bound componentless. */
  lemma WaterBelow(c: Components, bound: nat, e: Entity, hint: WaterColour)
    requires TablesBelow(c, bound) && e < bound
    ensures TablesBelow(AsWater(c, e, hint), bound)
  {
    var w := AsWater(c, e, hint);
    forall x | x >= bound ensures RowOf(w, x) == NoComponents {
      assert RowOf(c, x) == NoComponents;
    }
  }

  /** Lighting or darkening the lamps touches only lamps and house lights,
      which are allocated. */
  lemma LampsBelow(c: Components, d: Components, bound: nat)
    requires TablesBelow(c, bound) && (LampsLit(c, d) || LampsDark(c, d))
    ensures TablesBelow(d, bound)
  {
    forall x | x >= bound ensures RowOf(d, x) == NoComponents && x !in d.player {
      assert RowOf(c, x) == NoComponents;
      assert x !in d.tile && x !in d.light;
    }
  }

  /** A flood touches only ground cells with a height, which are allocated. */
  lemma FloodBelow(c: Components, d: Components, bound: nat, drowned: set<Entity>, kept: set<Entity>,
                   hint: Entity -> WaterColour)
    requires TablesBelow(c, bound) && FloodedTables(c, d, drowned, kept, hint)
    requires drowned + kept == set e | e in c.height && e in c.ground
    ensures TablesBelow(d, bound)
  {
    forall x | x >= bound ensures RowOf(d, x) == NoComponents && x !in d.player {
      assert RowOf(c, x) == NoComponents;
      assert x !in drowned + kept;
      assert x !in d.tile && x !in d.colourHint && x !in d.realtime && x !in d.water;
    }
  }

  /** Placing a new entity `e` changes the tile shown only at the slot it
      takes, provided no other entity's tile changes. */
  lemma InsertedTiles(s: SpatialTable, tiles: map<Entity, Tile>, tiles': map<Entity, Tile>, e: Entity, loc: Location)
    requires s.AllBelow(e) && s.CanInsert(e, loc)
    requires forall x :: x != e ==> TileOf(tiles', x) == TileOf(tiles, x)
    ensures forall c, l :: TileAt(s.Insert(e, loc), tiles', c, l) ==
                           if loc.layer == Some(l) && c == loc.coord then TileOf(tiles', e) else TileAt(s, tiles, c, l)
  {
    var t := s.Insert(e, loc);
    forall c, l
      ensures TileAt(t, tiles', c, l) ==
              if loc.layer == Some(l) && c == loc.coord then TileOf(tiles', e) else TileAt(s, tiles, c, l)
    {
      if !(loc.layer == Some(l) && c == loc.coord) && s.At(c, l).Some? {
        assert Slot(c, l) in s.occupant;
        assert s.At(c, l).value != e;
      }
    }
  }

  /** A world's tables agree with each other and with its allocator, whose
      next entity is `next`. */
  ghost predicate Consistent(sp: SpatialTable, comps: Components, next: nat) {
    var consistent := sp.Valid() && sp.AllBelow(next) && TablesBelow(comps, next);
    consistent
  }

  class World {
    /** The next entity the allocator hands out; every earlier one is taken. */
    var next: nat
    var spatial: SpatialTable
    var components: Components

    ghost predicate Valid()
      reads this
    {
      Consistent(spatial, components, next)
    }

    constructor (size: Size)
      ensures Valid() && next == 0
      ensures spatial == EmptySpatialTable(size) && components == EmptyComponents()
    {
      next := 0;
      spatial := EmptySpatialTable(size);
      components := EmptyComponents();
    }

    function WorldSize(): Size
      reads this
    {
      spatial.size
    }

    /** The opacity of whatever stands on the feature layer; zero off the
        grid, with no feature, or with a feature that has no opacity. */
    function GetOpacityAtCoord(c: Coord): (o: U8)
      reads this
      ensures !InBounds(spatial.size, c) || spatial.At(c, Layer.Feature).None? ==> o == 0
      ensures InBounds(spatial.size, c) && spatial.At(c, Layer.Feature).Some? ==>
                o == if spatial.At(c, Layer.Feature).value in components.opacity
                     then components.opacity[spatial.At(c, Layer.Feature).value] else 0
    {
      match spatial.LayersAt(c)
      case None => 0
      case Some(layers) =>
        match layers.feature
        case None => 0
        case Some(e) => if e in components.opacity then components.opacity[e] else 0
    }

    /** Every light-carrying entity that has a location, with that location's
        coordinate. */
    function AllLightsByCoord(): (lights: map<Entity, (Coord, Light)>)
      reads this
      ensures forall e :: e in lights <==> e in components.light && spatial.CoordOf(e).Some?
      ensures forall e :: e in lights ==>
                lights[e] == (spatial.CoordOf(e).value, components.light[e])
    {
      map e | e in components.light && e in spatial.location :: (spatial.location[e].coord, components.light[e])
    }

    function EntityCoord(e: Entity): Option<Coord>
      reads this
    {
      spatial.CoordOf(e)
    }

    /** Floor or ground on the floor layer. */
    function IsFloorAtCoord(c: Coord): (b: bool)
      reads this
      ensures b <==> InBounds(spatial.size, c)
                     && TileAt(spatial, components.tile, c, Layer.Floor) in {Some(Tile.Floor), Some(Tile.Ground)}
    {
      match spatial.LayersAt(c)
      case None => false
      case Some(layers) =>
        match layers.floor
        case None => false
        case Some(e) => TileOf(components.tile, e) == Some(Tile.Floor) || TileOf(components.tile, e) == Some(Tile.Ground)
    }

    /** A wall, ruined wall, window or door on the feature layer. */
    function IsWallAtCoord(c: Coord): (b: bool)
      reads this
      ensures b <==> InBounds(spatial.size, c)
                     && TileAt(spatial, components.tile, c, Layer.Feature).Some?
                     && IsWallTile(TileAt(spatial, components.tile, c, Layer.Feature).value)
    {
      if spatial.LayersAt(c).Some? && spatial.LayersAt(c).value.feature.Some? then
        var e := spatial.LayersAt(c).value.feature.value;
        if e in components.tile then
          match components.tile[e]
          case Wall => true
          case RuinsWall => true
          case Window(_) => true
          case DoorClosed(_) => true
          case DoorOpen(_) => true
          case _ => false
        else false
      else false
    }

    /** Rain is hidden over indoor floor, except where the cell below is
        outdoor ground (so rain still shows falling past a doorway). */
    function ShouldHideRain(c: Coord): (b: bool)
      reads this
      ensures b <==> && InBounds(spatial.size, c)
                     && TileAt(spatial, components.tile, c, Layer.Floor) == Some(Tile.Floor)
                     && !(InBounds(spatial.size, Coord(c.x, c.y + 1))
                          && TileAt(spatial, components.tile, Coord(c.x, c.y + 1), Layer.Floor) == Some(Tile.Ground))
    {
      match spatial.LayersAt(c)
      case None => false
      case Some(layers) =>
        match layers.floor
        case None => false
        case Some(e) =>
          var isFloor := TileOf(components.tile, e) == Some(Tile.Floor);
          var groundBelow :=
            match spatial.LayersAt(Coord(c.x, c.y + 1))
            case None => false
            case Some(below) =>
              match below.floor
              case None => false
              case Some(b) => TileOf(components.tile, b) == Some(Tile.Ground);
          isFloor && !groundBelow
    }

    /** Allocates an entity and inserts its data at a location. */
    method InsertEntityData(loc: Location, data: EntityData) returns (e: Entity)
      requires Valid() && spatial.CanInsert(next, loc)
      modifies this
      ensures Valid()
      ensures e == old(next) && next == e + 1 && e !in old(components.player)
      ensures components.player == old(components.player) + (if data.player then {e} else {})
      ensures spatial == old(spatial).Insert(e, loc)
      ensures components == old(components).(
                tile := if data.tile.Some? then old(components.tile)[e := data.tile.value] else old(components.tile),
                player := if data.player then old(components.player) + {e} else old(components.player),
                light := if data.light.Some? then old(components.light)[e := data.light.value] else old(components.light))
      ensures forall c, l :: TileAt(spatial, components.tile, c, l) ==
                if loc.layer == Some(l) && c == loc.coord then data.tile else old(TileAt(spatial, components.tile, c, l))
      ensures RowOf(components, e) == DataRow(data)
      ensures forall x :: x != e ==> RowOf(components, x) == old(RowOf(components, x))
    {
      e := next;
      var t := spatial.Insert(e, loc);
      var c := components;
      var tiles := if data.tile.Some? then c.tile[e := data.tile.value] else c.tile;
      var players := if data.player then c.player + {e} else c.player;
      var lights := if data.light.Some? then c.light[e := data.light.value] else c.light;
      var d := c.(tile := tiles, player := players, light := lights);
      forall x | x >= e + 1 ensures RowOf(d, x) == NoComponents {
        assert RowOf(c, x) == NoComponents;
      }
      assert t.AllBelow(e + 1);
      InsertedTiles(spatial, c.tile, tiles, e, loc);
      assert RowOf(c, e) == NoComponents;
      DataRows(c, d, e, data);
      next := next + 1;
      spatial := t;
      components := d;
    }

    method OpenDoor(door: Entity)
      requires Valid()
      requires door in components.tile && IsDoorTile(components.tile[door])
      modifies this
      ensures Valid()
      ensures components == OpenedDoor(old(components), door)
      ensures spatial == old(spatial) && next == old(next)
      ensures forall c :: spatial.At(c, Layer.Feature) == Some(door) ==> GetOpacityAtCoord(c) == 0
    {
      components := components.(solid := components.solid - {door});
      components := components.(opacity := components.opacity - {door});
      components := components.(doorState := components.doorState[door := Open]);
      var axis := match components.tile[door]
        case DoorClosed(a) => a
        case DoorOpen(a) => a;
      components := components.(tile := components.tile[door := DoorOpen(axis)]);
      DoorBelow(old(components), next, door);
    }

    method CloseDoor(door: Entity)
      requires Valid()
      requires door in components.tile && IsDoorTile(components.tile[door])
      modifies this
      ensures Valid()
      ensures components == ClosedDoor(old(components), door)
      ensures spatial == old(spatial) && next == old(next)
      ensures forall c :: InBounds(spatial.size, c) && spatial.At(c, Layer.Feature) == Some(door) ==>
                GetOpacityAtCoord(c) == 255
    {
      components := components.(solid := components.solid + {door});
      components := components.(opacity := components.opacity[door := 255]);
      components := components.(doorState := components.doorState[door := Closed]);
      var axis := match components.tile[door]
        case DoorClosed(a) => a
        case DoorOpen(a) => a;
      components := components.(tile := components.tile[door := DoorClosed(axis)]);
      DoorBelow(old(components), next, door);
    }

    /** Trampled grass stops blocking sight and shows as flat grass. */
    method FlattenGrass(grass: Entity)
      requires Valid() && grass < next
      modifies this
      ensures Valid()
      ensures components == old(components).(opacity := old(components.opacity) - {grass},
                                             tile := old(components.tile)[grass := FlatGrass])
      ensures spatial == old(spatial) && next == old(next)
      ensures forall c :: spatial.At(c, Layer.Feature) == Some(grass) ==> GetOpacityAtCoord(c) == 0
    {
      components := components.(opacity := components.opacity - {grass});
      components := components.(tile := components.tile[grass := FlatGrass]);
      GrassBelow(old(components), next, grass);
    }

    method TurnLampsOn()
      requires Valid()
      modifies this
      ensures Valid()
      ensures LampsLit(old(components), components)
      ensures spatial == old(spatial) && next == old(next)
    {
      components := LightLamps(components);
      LampsBelow(old(components), components, next);
    }

    method TurnLampsOff()
      requires Valid()
      modifies this
      ensures Valid()
      ensures LampsDark(old(components), components)
      ensures spatial == old(spatial) && next == old(next)
    {
      components := DarkenLamps(components);
      LampsBelow(old(components), components, next);
    }

    /** Turns an entity into water. The flickering animation it also gets is
        not part of this model; `hint` is the randomly chosen colour hint. */
    method BecomeWater(e: Entity, hint: WaterColour)
      requires Valid() && e < next
      modifies this
      ensures Valid()
      ensures components == AsWater(old(components), e, hint)
      ensures spatial == old(spatial) && next == old(next)
    {
      components := components.(tile := components.tile[e := Water]);
      components := components.(colourHint := components.colourHint[e := hint]);
      components := components.(realtime := components.realtime + {e});
      components := components.(water := components.water + {e});
      WaterBelow(old(components), next, e, hint);
    }

    /** Floods the `n` lowest ground cells that have a height; every other
        such cell becomes plain ground again and stops animating. */
    method Flood(n: nat, hint: Entity -> WaterColour) returns (ghost drowned: set<Entity>, ghost kept: set<Entity>)
      requires Valid()
      modifies this
      ensures Valid()
      ensures drowned !! kept
      ensures drowned + kept == (set e | e in old(components.height) && e in old(components.ground))
      ensures |drowned| == if n < |drowned + kept| then n else |drowned + kept|
      ensures forall d, k :: d in drowned && k in kept ==> old(components.height)[d] <= old(components.height)[k]
      ensures FloodedTables(old(components), components, drowned, kept, hint)
      ensures spatial == old(spatial) && next == old(next)
    {
      components, drowned, kept := FloodTables(components, n, hint);
      FloodBelow(old(components), components, next, drowned, kept, hint);
    }
  }
}
