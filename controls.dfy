/**
 * The keyboard controller's pure part: the key-code table of each input mode and the lookup
 * from a key code to the command it stands for.
 */
module Controls {
  import opened Wrappers

  /**
   * The controller's `mode` prop, by what `this.keymap[mode]` gives: the "arrow" table, the
   * "wasd" table, an entry without move keys (the "action" table, or a property every object
   * inherits from `Object.prototype`), or nothing at all.
   */
  datatype Mode = Arrow | Wasd | NoMoves | Missing

  /** What `compare` returns: "UP", "DOWN", "LEFT", "RIGHT", "ACTION" or "UNKNOWN". */
  datatype Command = Up | Down | Left | Right | Action | Unknown

  /**
   * The object `getKeyMap` returns: one entry per command. A move entry is `None` when the
   * mode's table has no such key (it reads as undefined); the action entry is always a number.
   */
  datatype KeyMap = KeyMap(left: Option<int>, up: Option<int>, right: Option<int>, down: Option<int>, action: int)

  /** The names `this.keymap[name]` resolves through the prototype chain of a plain object. */
  const Inherited: set<string> := {
    "constructor", "hasOwnProperty", "isPrototypeOf", "propertyIsEnumerable",
    "toLocaleString", "toString", "valueOf", "__proto__",
    "__defineGetter__", "__defineSetter__", "__lookupGetter__", "__lookupSetter__"
  }

  /** The `mode` prop after the constructor's defaults: "wasd" unless a mode is given. */
  function ParseMode(mode: Option<string>): (r: Mode)
    ensures mode == None ==> r == Wasd
    ensures mode.Some? ==> (r == Arrow <==> mode.value == "arrow")
    ensures mode.Some? ==> (r == Wasd <==> mode.value == "wasd")
    ensures r == Missing <==> mode.Some? && mode.value !in {"arrow", "wasd", "action"} + Inherited
  {
    match mode
    case None => Wasd
    case Some(name) =>
      if name == "arrow" then Arrow
      else if name == "wasd" then Wasd
      else if name == "action" || name in Inherited then NoMoves
      else Missing
  }

  /**
   * `getKeyMap()`: arrow keys with SPACE for "arrow"; the default branch reads A/W/D/S from the
   * mode's table and F from the action table. A table without those keys leaves the four moves
   * undefined; a mode with no table at all throws reading its `A`.
   */
  function GetKeyMap(mode: Mode): (r: Result<KeyMap>)
    ensures r.TypeError? <==> mode == Missing
    ensures r.Ok? ==> Distinct(r.value)
    ensures r.Ok? ==> (mode == NoMoves <==>
              r.value.left.None? && r.value.up.None? && r.value.right.None? && r.value.down.None?)
    ensures r.Ok? && mode != NoMoves ==>
              r.value.left.Some? && r.value.up.Some? && r.value.right.Some? && r.value.down.Some?
  {
    match mode
    case Arrow => Ok(KeyMap(Some(37), Some(38), Some(39), Some(40), 32))
    case Wasd => Ok(KeyMap(Some(65), Some(87), Some(68), Some(83), 70))
    case NoMoves => Ok(KeyMap(None, None, None, None, 70))
    case Missing => TypeError
  }

  /** No two commands share a key code (undefined entries share none). */
  predicate Distinct(km: KeyMap) {
    var codes := [km.left, km.up, km.right, km.down, Some(km.action)];
    forall i, j :: 0 <= i < j < 5 && codes[i].Some? ==> codes[i] != codes[j]
  }

  /** The key code a key map assigns to a command, if any. */
  function KeyOf(km: KeyMap, c: Command): Option<int>
    requires c != Unknown
  {
    match c
    case Up => km.up
    case Down => km.down
    case Left => km.left
    case Right => km.right
    case Action => Some(km.action)
  }

  /**
   * `compare(code)`: the first of UP, LEFT, RIGHT, DOWN, ACTION whose code matches, else UNKNOWN.
   * The switch compares strictly, so an undefined entry matches no key code.
   */
  function Compare(mode: Mode, code: int): (r: Result<Command>)
    ensures r.TypeError? <==> mode == Missing
    ensures mode == NoMoves ==> r == Ok(if code == 70 then Action else Unknown)
  {
    match GetKeyMap(mode)
    case TypeError => TypeError
    case Ok(km) =>
      Ok(if km.up == Some(code) then Up
         else if km.left == Some(code) then Left
         else if km.right == Some(code) then Right
         else if km.down == Some(code) then Down
         else if km.action == code then Action
         else Unknown)
  }

  /**
   * In a mode with a table, a key code compares to a command exactly when it is that command's
   * code (so compare(getKeyMap()[d]) == d for every defined entry d), and to UNKNOWN exactly
   * when it is none of the defined codes.
   */
  lemma CompareIff(mode: Mode, code: int, c: Command)
    requires mode != Missing
    ensures c != Unknown ==> (Compare(mode, code) == Ok(c) <==> KeyOf(GetKeyMap(mode).value, c) == Some(code))
    ensures c == Unknown ==> (Compare(mode, code) == Ok(c) <==>
              forall d :: d != Unknown ==> KeyOf(GetKeyMap(mode).value, d) != Some(code))
  {
    var km := GetKeyMap(mode).value;
    if c == Unknown && Compare(mode, code) != Ok(c) {
      var d := Compare(mode, code).value;
      assert d != Unknown && KeyOf(km, d) == Some(code);
    }
  }

  /** Each defined key round-trips through compare. */
  lemma {:induction false} CompareKeyOf(mode: Mode, c: Command)
    requires mode != Missing && c != Unknown
    requires KeyOf(GetKeyMap(mode).value, c).Some?
    ensures Compare(mode, KeyOf(GetKeyMap(mode).value, c).value) == Ok(c)
  {
    CompareIff(mode, KeyOf(GetKeyMap(mode).value, c).value, c);
  }
}
