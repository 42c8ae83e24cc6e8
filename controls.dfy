/** Input bindings: which application input a key or gamepad button stands
    for, and the default bindings. */
module Controls {
  import opened Common

  datatype AppInput =
    | Direction(direction: CardinalDirection)
    | DirectionLong(direction: CardinalDirection)
    | Wait
    | WaitLong
    | Examine
    | Get
    | Map
    | WeatherReport
    | Lantern

  /** A keyboard key: the four arrows, a character, or any other key. */
  datatype KeyboardInput = Left | Right | Up | Down | Char(ch: char) | OtherKey(code: nat)

  datatype GamepadButton =
    | DPadLeft | DPadRight | DPadUp | DPadDown
    | Select | Start | North | South | East | West
    | LeftBumper | RightBumper | OtherButton(code: nat)

  /** A gamepad event: which button, on which gamepad. */
  datatype GamepadInput = GamepadInput(button: GamepadButton, id: nat)

  datatype Input = Keyboard(key: KeyboardInput) | Gamepad(pad: GamepadInput) | Mouse

  datatype Controls = Controls(keys: map<KeyboardInput, AppInput>, gamepad: map<GamepadButton, AppInput>)

  function DefaultKeys(): map<KeyboardInput, AppInput> {
    map[
      Left := Direction(CardinalDirection.West),
      Right := Direction(CardinalDirection.East),
      Up := Direction(CardinalDirection.North),
      Down := Direction(CardinalDirection.South),
      Char('a') := Direction(CardinalDirection.West),
      Char('d') := Direction(CardinalDirection.East),
      Char('w') := Direction(CardinalDirection.North),
      Char('s') := Direction(CardinalDirection.South),
      Char('h') := Direction(CardinalDirection.West),
      Char('l') := Direction(CardinalDirection.East),
      Char('k') := Direction(CardinalDirection.North),
      Char('j') := Direction(CardinalDirection.South),
      Char('A') := DirectionLong(CardinalDirection.West),
      Char('D') := DirectionLong(CardinalDirection.East),
      Char('W') := DirectionLong(CardinalDirection.North),
      Char('S') := DirectionLong(CardinalDirection.South),
      Char('H') := DirectionLong(CardinalDirection.West),
      Char('L') := DirectionLong(CardinalDirection.East),
      Char('K') := DirectionLong(CardinalDirection.North),
      Char('J') := DirectionLong(CardinalDirection.South),
      Char('x') := Examine,
      Char('g') := Get,
      Char('m') := Map,
      Char('r') := WeatherReport,
      Char(' ') := Wait,
      Char('.') := WaitLong,
      Char('f') := Lantern
    ]
  }

  function DefaultGamepad(): map<GamepadButton, AppInput> {
    map[
      DPadLeft := Direction(CardinalDirection.West),
      DPadRight := Direction(CardinalDirection.East),
      DPadUp := Direction(CardinalDirection.North),
      DPadDown := Direction(CardinalDirection.South),
      Select := Wait,
      GamepadButton.North := Get,
      RightBumper := Examine
    ]
  }

  function Default(): Controls {
    Controls(DefaultKeys(), DefaultGamepad())
  }

  /** The input a key or button is bound to; mouse input is never bound. */
  function GetInput(c: Controls, input: Input): (r: Option<AppInput>)
    ensures input.Mouse? ==> r.None?
    ensures input.Keyboard? ==> (r.Some? <==> input.key in c.keys)
    ensures input.Keyboard? && r.Some? ==> r.value == c.keys[input.key]
    ensures input.Gamepad? ==> (r.Some? <==> input.pad.button in c.gamepad)
    ensures input.Gamepad? && r.Some? ==> r.value == c.gamepad[input.pad.button]
  {
    match input
    case Keyboard(k) => if k in c.keys then Some(c.keys[k]) else None
    case Gamepad(g) => if g.button in c.gamepad then Some(c.gamepad[g.button]) else None
    case Mouse => None
  }

  /** The direction of a plain direction binding; long moves and every
      other binding give none. */
  function GetDirection(c: Controls, input: Input): (r: Option<CardinalDirection>)
    ensures forall d :: r == Some(d) <==> GetInput(c, input) == Some(Direction(d))
  {
    match GetInput(c, input)
    case Some(Direction(d)) => Some(d)
    case _ => None
  }

  /** Which gamepad sent a button does not matter. */
  lemma GamepadIdIgnored(c: Controls, b: GamepadButton, id1: nat, id2: nat)
    ensures GetInput(c, Gamepad(GamepadInput(b, id1))) == GetInput(c, Gamepad(GamepadInput(b, id2)))
  {
  }

  /** The keys bound by default to a plain move: an arrow, a WASD letter and
      a vi-style HJKL letter. */
  function DirectionKeys(d: CardinalDirection): set<KeyboardInput> {
    match d
    case West => {Left, Char('a'), Char('h')}
    case East => {Right, Char('d'), Char('l')}
    case North => {Up, Char('w'), Char('k')}
    case South => {Down, Char('s'), Char('j')}
  }

  function Upper(ch: char): char
    requires 'a' <= ch <= 'z'
  {
    (ch as int - 32) as char
  }

  /** By default exactly the direction keys move one step in their
      direction. */
  lemma DefaultDirectionBindings(d: CardinalDirection, k: KeyboardInput)
    ensures GetInput(Default(), Keyboard(k)) == Some(Direction(d)) <==> k in DirectionKeys(d)
  {
    match k
    case Char(ch) => DefaultCharDirection(d, ch);
    case _ => DefaultSpecialDirection(d, k);
  }

  /** The case of DefaultDirectionBindings for keys other than characters. */
  lemma DefaultSpecialDirection(d: CardinalDirection, k: KeyboardInput)
    requires !k.Char?
    ensures GetInput(Default(), Keyboard(k)) == Some(Direction(d)) <==> k in DirectionKeys(d)
  {
    match d
    case West =>
    case East =>
    case North =>
    case South =>
  }

  /** The character case of DefaultDirectionBindings. */
  lemma DefaultCharDirection(d: CardinalDirection, ch: char)
    ensures GetInput(Default(), Keyboard(Char(ch))) == Some(Direction(d)) <==> Char(ch) in DirectionKeys(d)
  {
    var keys := DefaultKeys();
    if ch in "adwshlkj" {
      assert Char(ch) in keys;
    }
  }

  /** By default the upper-case form of each direction letter moves far in
      the same direction. */
  lemma DefaultLongBindings(d: CardinalDirection, ch: char)
    requires Char(ch) in DirectionKeys(d)
    ensures GetInput(Default(), Keyboard(Char(Upper(ch)))) == Some(DirectionLong(d))
  {
  }

  /** By default the D-pad moves, each arrow in its own direction, and no
      other button moves, whichever gamepad it comes from. */
  lemma DefaultGamepadDirections(b: GamepadButton, id: nat)
    ensures GetDirection(Default(), Gamepad(GamepadInput(b, id))).Some? <==>
              b in {DPadLeft, DPadRight, DPadUp, DPadDown}
    ensures GetDirection(Default(), Gamepad(GamepadInput(DPadLeft, id))) == Some(CardinalDirection.West)
    ensures GetDirection(Default(), Gamepad(GamepadInput(DPadRight, id))) == Some(CardinalDirection.East)
    ensures GetDirection(Default(), Gamepad(GamepadInput(DPadUp, id))) == Some(CardinalDirection.North)
    ensures GetDirection(Default(), Gamepad(GamepadInput(DPadDown, id))) == Some(CardinalDirection.South)
  {
  }

  /** By default each other action has exactly one key: 'x' examines, 'g'
      gets, 'm' shows the map, 'r' the weather report, space waits, '.'
      waits long and 'f' toggles the lantern. */
  lemma DefaultActionKeys(k: KeyboardInput)
    ensures GetInput(Default(), Keyboard(k)) == Some(Examine) <==> k == Char('x')
    ensures GetInput(Default(), Keyboard(k)) == Some(Get) <==> k == Char('g')
    ensures GetInput(Default(), Keyboard(k)) == Some(Map) <==> k == Char('m')
    ensures GetInput(Default(), Keyboard(k)) == Some(WeatherReport) <==> k == Char('r')
    ensures GetInput(Default(), Keyboard(k)) == Some(Wait) <==> k == Char(' ')
    ensures GetInput(Default(), Keyboard(k)) == Some(WaitLong) <==> k == Char('.')
    ensures GetInput(Default(), Keyboard(k)) == Some(Lantern) <==> k == Char('f')
  {
    match k
    case Char(ch) => DefaultCharAction(ch);
    case _ =>
  }

  /** The character case of DefaultActionKeys. */
  lemma DefaultCharAction(ch: char)
    ensures GetInput(Default(), Keyboard(Char(ch))) == Some(Examine) <==> ch == 'x'
    ensures GetInput(Default(), Keyboard(Char(ch))) == Some(Get) <==> ch == 'g'
    ensures GetInput(Default(), Keyboard(Char(ch))) == Some(Map) <==> ch == 'm'
    ensures GetInput(Default(), Keyboard(Char(ch))) == Some(WeatherReport) <==> ch == 'r'
    ensures GetInput(Default(), Keyboard(Char(ch))) == Some(Wait) <==> ch == ' '
    ensures GetInput(Default(), Keyboard(Char(ch))) == Some(WaitLong) <==> ch == '.'
    ensures GetInput(Default(), Keyboard(Char(ch))) == Some(Lantern) <==> ch == 'f'
  {
    var keys := DefaultKeys();
    if ch in "xgmr .f" {
      assert Char(ch) in keys;
    }
  }

  /** By default Select waits, the north face button gets and the right
      bumper examines, and no other button does any of these. */
  lemma DefaultGamepadActions(b: GamepadButton, id: nat)
    ensures GetInput(Default(), Gamepad(GamepadInput(b, id))) == Some(Wait) <==> b == Select
    ensures GetInput(Default(), Gamepad(GamepadInput(b, id))) == Some(Get) <==> b == GamepadButton.North
    ensures GetInput(Default(), Gamepad(GamepadInput(b, id))) == Some(Examine) <==> b == RightBumper
  {
  }
}
