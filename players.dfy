/** Players (User and Enermy): the stat block, damage resolution and placement on a field. */
module Players {
  import opened Wrappers
  import opened Fields

  /** `state.stat`: level, experience, health, strength and the experience limit. */
  datatype Stat = Stat(level: int, exp: int, health: int, strength: int, expLimit: int)

  /** The stat block a new player starts with. */
  const InitialStat: Stat := Stat(1, 0, 100, 10, 100)

  /** What `hitted` leaves behind: the new health and whether the player died. */
  datatype HitResult = HitResult(health: int, dead: bool)

  /** `n` clamped to 0 from below. */
  function Max0(n: int): int {
    if n < 0 then 0 else n
  }

  /**
   * `hitted(damage)` on a player with the given health and armour: positive armour is
   * subtracted from the damage, only positive damage lowers health, and health at or below 0
   * becomes 0 and reports death.
   */
  function TakeHit(health: int, armour: int, damage: int): (r: HitResult)
    ensures r.health >= 0
    ensures r.dead <==> r.health == 0
    ensures health <= 0 ==> r == HitResult(0, true)
    ensures health > 0 && damage <= armour ==> r == HitResult(health, false)
    ensures health > 0 && damage <= 0 ==> r == HitResult(health, false)
    ensures armour >= 0 && damage > armour ==> r.health == Max0(health - (damage - armour))
    ensures armour < 0 && damage > 0 ==> r.health == Max0(health - damage)
    ensures health >= 0 ==> r.health <= health
  {
    var d := if armour > 0 then damage - armour else damage;
    var h := if d > 0 then health - d else health;
    if h <= 0 then HitResult(0, true) else HitResult(h, false)
  }

  class Player {
    /** `state.stat` */
    var stat: Stat
    /** `state.equipment.armour`, read with default 0 (no armour stands as 0). */
    var armour: int
    /** `state.field`: the field the player stands on, null before placement. */
    var field: Field?
    /** `state.offset` */
    var offset: Point

    /** `new Player(props)`: the initial stat block, no armour, no field, offset from `props.offset` or 0. */
    constructor(x: Option<int>, y: Option<int>)
      ensures stat == InitialStat && armour == 0 && field == null
      ensures offset == Point(if x.Some? then x.value else 0, if y.Some? then y.value else 0)
    {
      stat := InitialStat;
      armour := 0;
      field := null;
      offset := Point(if x.Some? then x.value else 0, if y.Some? then y.value else 0);
    }

    /** `hitted(damage)`: the health becomes that of TakeHit; the result says whether the player died. */
    method Hitted(damage: int) returns (isDead: bool)
      modifies this
      ensures stat == old(stat).(health := TakeHit(old(stat.health), old(armour), damage).health)
      ensures isDead == TakeHit(old(stat.health), old(armour), damage).dead
      ensures armour == old(armour) && field == old(field) && offset == old(offset)
    {
      var damage' := damage;
      var health := stat.health;
      if armour > 0 { damage' := damage' - armour; }
      if damage' > 0 { health := health - damage'; }
      isDead := false;
      if health <= 0 { health := 0; isDead := true; }
      stat := stat.(health := health);
    }

    /**
     * `attack(target)`: a Player target is hit with this player's strength as damage; anything
     * else (null here) is left alone and the result is false.
     */
    method Attack(target: Player?) returns (isKilled: bool)
      modifies target
      ensures target == null ==> !isKilled
      ensures target != null ==>
        var h := TakeHit(old(target.stat.health), old(target.armour), old(stat.strength));
        && target.stat == old(target.stat).(health := h.health)
        && isKilled == h.dead
        && target.armour == old(target.armour)
        && target.field == old(target.field)
        && target.offset == old(target.offset)
    {
      isKilled := false;
      if target != null {
        isKilled := target.Hitted(stat.strength);
      }
    }

    /** `died()`: health becomes 0 and the result is true, whatever the health was. */
    method Died() returns (isDead: bool)
      modifies this
      ensures stat == old(stat).(health := 0) && isDead
      ensures armour == old(armour) && field == old(field) && offset == old(offset)
    {
      stat := stat.(health := 0);
      isDead := true;
    }

    /** `setField(field)`: stand on `f` and take over its offset. */
    method SetField(f: Field)
      modifies this
      ensures field == f && offset == f.offset
      ensures stat == old(stat) && armour == old(armour)
    {
      field := f;
      offset := Point(f.offset.x, f.offset.y);
    }

    /** `setOffset(x, y)` */
    method SetOffset(x: int, y: int)
      modifies this
      ensures offset == Point(x, y)
      ensures stat == old(stat) && armour == old(armour) && field == old(field)
    {
      offset := Point(x, y);
    }
  }

  /** Dying twice leaves the same stat block as dying once. */
  method DiedTwice(p: Player) returns (first: bool, second: bool)
    modifies p
    ensures first && second
    ensures p.stat == old(p.stat).(health := 0)
  {
    first := p.Died();
    var afterFirst := p.stat;
    second := p.Died();
    assert p.stat == afterFirst;
  }
}
