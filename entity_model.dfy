/**
 * Value semantics of the three entity classes of the game server: the state an
 * `Entity` carries (shared by players and monsters), what a `Player` and a
 * `Monster` add to it, their constructors with the configuration defaults, and
 * the operations `takeDamage`, `respawn`, `isAlive`, `getSnapshot` and
 * `gainExperience`. The classes in module Entities are proved against these
 * functions.
 */
module EntityModel {
  import opened Wrappers
  import opened Grid

  // ----- Entity -----

  /** The fields every entity has. `movePath == None` is the server's `null`. */
  datatype Body = Body(
    id: string,
    name: string,
    tileX: int,
    tileY: int,
    x: int,
    y: int,
    speed: int,
    maxHealth: int,
    health: int,
    movePath: Option<seq<Tile>>,
    lastMoveTime: int)

  /**
   * What every entity keeps true: health in `[0, maxHealth]` with a positive
   * maximum (100 for players; a monster type's health or 100), the pixel
   * position derived from the tile, and a stored path never empty (an emptied
   * path is reset to `null`).
   */
  predicate BodyInv(b: Body) {
    && 0 <= b.health <= b.maxHealth
    && 0 < b.maxHealth
    && b.x == Pixel(b.tileX)
    && b.y == Pixel(b.tileY)
    && b.movePath != Some([])
  }

  const ENTITY_NAME: string := "Entity"
  const DEFAULT_MAX_HEALTH: int := 100

  /** `isAlive()`. */
  predicate IsAlive(b: Body) {
    b.health > 0
  }

  /** The `Entity` constructor: full default health, idle, never moved. */
  function NewBody(id: string, tileX: int, tileY: int, speed: int): (b: Body)
    ensures BodyInv(b) && IsAlive(b) && b.health == b.maxHealth
    ensures b.id == id && b.speed == speed && b.tileX == tileX && b.tileY == tileY
    ensures b.movePath == None
  {
    Body(id, ENTITY_NAME, tileX, tileY, Pixel(tileX), Pixel(tileY), speed,
         DEFAULT_MAX_HEALTH, DEFAULT_MAX_HEALTH, None, 0)
  }

  /** Put the entity on tile `t`, with the pixel position that belongs to it. */
  function MoveTo(b: Body, t: Tile): (r: Body)
    ensures r.tileX == t.x && r.tileY == t.y
    ensures r.x == Pixel(t.x) && r.y == Pixel(t.y)
    ensures r.(tileX := b.tileX, tileY := b.tileY, x := b.x, y := b.y) == b
  {
    b.(tileX := t.x, tileY := t.y, x := Pixel(t.x), y := Pixel(t.y))
  }

  /** `takeDamage(amount)`: health drops by `amount` and is clamped at 0. */
  function TakeDamage(b: Body, amount: int): (r: Body)
    ensures r.(health := b.health) == b
    ensures r.health >= 0
    ensures IsAlive(r) <==> b.health > amount
    ensures IsAlive(r) ==> r.health == b.health - amount
  {
    var h := b.health - amount;
    b.(health := if h < 0 then 0 else h)
  }

  /** A non-negative amount never heals and keeps the entity invariant. */
  lemma TakeDamageKeepsInv(b: Body, amount: int)
    requires BodyInv(b) && amount >= 0
    ensures BodyInv(TakeDamage(b, amount))
    ensures TakeDamage(b, amount).health <= b.health
  {
  }

  /** Once health is 0 it stays 0: a dead entity stays dead whatever hits it. */
  lemma DeadStaysDead(b: Body, amount: int)
    requires b.health == 0 && amount >= 0
    ensures TakeDamage(b, amount).health == 0 && !IsAlive(TakeDamage(b, amount))
  {
  }

  /** `n` hits of `amount` each. */
  function Hits(b: Body, amount: int, n: nat): Body {
    if n == 0 then b else TakeDamage(Hits(b, amount, n - 1), amount)
  }

  /** After `n` hits of a non-negative amount, health is `max(0, health - n * amount)`. */
  lemma {:induction false} HitsHealth(b: Body, amount: int, n: nat)
    requires amount >= 0 && b.health >= 0
    ensures Hits(b, amount, n).health == if b.health - n * amount < 0 then 0 else b.health - n * amount
    ensures Hits(b, amount, n).(health := b.health) == b
  {
    if n > 0 {
      HitsHealth(b, amount, n - 1);
      assert (n - 1) * amount + amount == n * amount;
    }
  }

  /**
   * A player's blow does 10 (GameManager.js:128) and the orc type has 70 health
   * (GameManager.js:13): an orc survives six blows and falls to the seventh.
   */
  lemma SevenHitsOfTenKillSeventy(b: Body)
    requires b.health == 70
    ensures IsAlive(Hits(b, 10, 6)) && Hits(b, 10, 6).health == 10
    ensures !IsAlive(Hits(b, 10, 7))
  {
    HitsHealth(b, 10, 6);
    HitsHealth(b, 10, 7);
  }

  /** `respawn(x, y)`: full health on tile `t`, path dropped; id, speed and move time kept. */
  function Respawn(b: Body, t: Tile): (r: Body)
    ensures r.health == r.maxHealth == b.maxHealth
    ensures r.tileX == t.x && r.tileY == t.y && r.x == Pixel(t.x) && r.y == Pixel(t.y)
    ensures r.movePath == None
    ensures r.id == b.id && r.name == b.name && r.speed == b.speed && r.lastMoveTime == b.lastMoveTime
  {
    MoveTo(b, t).(health := b.maxHealth, movePath := None)
  }

  /** Respawning keeps the invariant and always brings the entity back to life. */
  lemma RespawnRevives(b: Body, t: Tile)
    requires BodyInv(b)
    ensures BodyInv(Respawn(b, t)) && IsAlive(Respawn(b, t))
  {
  }

  // ----- snapshots -----

  /** `getSnapshot()`; `color` is None where the colour is not modelled (a player's random one). */
  datatype Snapshot = Snapshot(
    id: string,
    name: string,
    playerId: Option<string>,
    tileX: int,
    tileY: int,
    x: int,
    y: int,
    speed: int,
    color: Option<string>,
    isMonster: Option<bool>,
    health: int,
    maxHealth: int)

  /** The snapshot of an entity; `playerId` and `isMonster` are absent (`undefined`) for the other kind. */
  function EntitySnapshot(b: Body, playerId: Option<string>, color: Option<string>, isMonster: Option<bool>): (s: Snapshot)
    ensures s.playerId == playerId && s.color == color && s.isMonster == isMonster
  {
    Snapshot(b.id, b.name, playerId, b.tileX, b.tileY, b.x, b.y, b.speed, color, isMonster, b.health, b.maxHealth)
  }

  /** An entity rebuilt from its snapshot and the two fields a snapshot does not carry. */
  function BodyFromSnapshot(s: Snapshot, movePath: Option<seq<Tile>>, lastMoveTime: int): Body {
    Body(s.id, s.name, s.tileX, s.tileY, s.x, s.y, s.speed, s.maxHealth, s.health, movePath, lastMoveTime)
  }

  /** A snapshot copies every field it has verbatim: only the path and the move time are lost. */
  lemma SnapshotRoundTrip(b: Body, playerId: Option<string>, color: Option<string>, isMonster: Option<bool>)
    ensures BodyFromSnapshot(EntitySnapshot(b, playerId, color, isMonster), b.movePath, b.lastMoveTime) == b
  {
  }

  /** A snapshot of a well-formed entity shows pixels derived from its tile and a health in range. */
  lemma SnapshotConsistent(b: Body, playerId: Option<string>, color: Option<string>, isMonster: Option<bool>)
    requires BodyInv(b)
    ensures var s := EntitySnapshot(b, playerId, color, isMonster);
      s.x == Pixel(s.tileX) && s.y == Pixel(s.tileY) && 0 <= s.health <= s.maxHealth
  {
  }

  // ----- Player -----

  /** A player: an entity plus its own id copy, target, experience and level. */
  datatype PlayerRec = PlayerRec(body: Body, playerId: string, targetId: Option<string>, experience: int, level: int)

  const PLAYER_SPEED: int := 180
  const PLAYER_NAME_PREFIX: string := "Player-"

  function Min(a: int, b: int): int {
    if a < b then a else b
  }

  /** `Player-${id.substring(0, 4)}`. */
  function PlayerName(id: string): (name: string)
    ensures |name| == |PLAYER_NAME_PREFIX| + Min(4, |id|)
    ensures name[..|PLAYER_NAME_PREFIX|] == PLAYER_NAME_PREFIX
    ensures name[|PLAYER_NAME_PREFIX|..] == id[..Min(4, |id|)]
  {
    PLAYER_NAME_PREFIX + id[..Min(4, |id|)]
  }

  /** The `Player` constructor. */
  function NewPlayer(id: string, tileX: int, tileY: int): (p: PlayerRec)
    ensures BodyInv(p.body) && IsAlive(p.body) && p.body.health == p.body.maxHealth == 100
    ensures p.body.id == id && p.playerId == id
    ensures p.body.tileX == tileX && p.body.tileY == tileY && p.body.speed == PLAYER_SPEED
    ensures p.body.name == PlayerName(id)
    ensures p.experience == 0 && p.level == 1 && p.targetId == None && p.body.movePath == None
  {
    PlayerRec(NewBody(id, tileX, tileY, PLAYER_SPEED).(name := PlayerName(id)), id, None, 0, 1)
  }

  /** `gainExperience(amount)`. */
  function GainExperience(p: PlayerRec, amount: int): (r: PlayerRec)
    ensures r.experience - p.experience == amount
    ensures r.(experience := p.experience) == p
  {
    p.(experience := p.experience + amount)
  }

  /** Experience gains add up; the level never changes. */
  lemma GainExperienceAdds(p: PlayerRec, a: int, b: int)
    ensures GainExperience(GainExperience(p, a), b) == GainExperience(p, a + b)
    ensures GainExperience(p, a).level == p.level
  {
  }

  /** The snapshot a player sends. */
  function PlayerSnapshot(p: PlayerRec): (s: Snapshot)
    ensures s.playerId == Some(p.playerId) && s.isMonster == None && s.color == None
  {
    EntitySnapshot(p.body, Some(p.playerId), None, None)
  }

  // ----- Monster -----

  /** The three behaviour states of a monster. */
  datatype AIState = Patrolling | Chasing | Returning

  /**
   * A monster type of the configuration. Fields read with `type.f || d` are
   * options: absent or zero (falsy) selects the default.
   */
  datatype MonsterType = MonsterType(
    idPrefix: string,
    name: string,
    speed: int,
    color: string,
    detectionRange: real,
    health: Option<nat>,
    damage: Option<nat>,
    experience: Option<int>,
    attackCooldown: Option<int>,
    attackRange: Option<real>,
    spawnPoint: Tile)

  /** `v || d` on an optional integer. */
  function OrInt(v: Option<int>, d: int): (r: int)
    ensures r == d || (v.Some? && r == v.value)
  {
    if v.None? || v.value == 0 then d else v.value
  }

  /** `v || d` on an optional real. */
  function OrReal(v: Option<real>, d: real): (r: real)
    ensures r == d || (v.Some? && r == v.value)
  {
    if v.None? || v.value == 0.0 then d else v.value
  }

  const DEFAULT_DAMAGE: nat := 5
  const DEFAULT_EXPERIENCE: int := 10
  const DEFAULT_ATTACK_RANGE: real := 1.5
  const DEFAULT_ATTACK_COOLDOWN: int := 2000

  /** A monster: an entity plus its combat figures and its behaviour state. */
  datatype MonsterRec = MonsterRec(
    body: Body,
    color: string,
    damage: nat,
    experience: int,
    attackRange: real,
    attackCooldown: int,
    lastAttackTime: int,
    spawnPoint: Tile,
    state: AIState,
    detectionRange: real,
    targetId: Option<string>)

  /** The `Monster` constructor. */
  function NewMonster(id: string, tileX: int, tileY: int, t: MonsterType): (m: MonsterRec)
    ensures BodyInv(m.body) && IsAlive(m.body) && m.body.health == m.body.maxHealth
    ensures m.body.id == id && m.body.name == t.name && m.body.speed == t.speed
    ensures m.body.tileX == tileX && m.body.tileY == tileY && m.body.movePath == None
    ensures m.spawnPoint == Tile(tileX, tileY)
    ensures m.state == Patrolling && m.targetId == None && m.lastAttackTime == 0
  {
    var maxHealth := OrInt(t.health, DEFAULT_MAX_HEALTH);
    var body := NewBody(id, tileX, tileY, t.speed).(name := t.name, maxHealth := maxHealth, health := maxHealth);
    MonsterRec(body, t.color, OrInt(t.damage, DEFAULT_DAMAGE), OrInt(t.experience, DEFAULT_EXPERIENCE),
               OrReal(t.attackRange, DEFAULT_ATTACK_RANGE), OrInt(t.attackCooldown, DEFAULT_ATTACK_COOLDOWN),
               0, Tile(tileX, tileY), Patrolling, t.detectionRange, None)
  }

  /** Each default applies exactly when the type's field is absent or zero. */
  lemma MonsterDefaults(id: string, tileX: int, tileY: int, t: MonsterType)
    ensures var m := NewMonster(id, tileX, tileY, t);
      && (m.body.maxHealth == 100 <==> t.health.None? || t.health.value in {0, 100})
      && (m.damage == 5 <==> t.damage.None? || t.damage.value in {0, 5})
      && (m.experience == 10 <==> t.experience.None? || t.experience.value in {0, 10})
      && (m.attackRange == 1.5 <==> t.attackRange.None? || t.attackRange.value in {0.0, 1.5})
      && (m.attackCooldown == 2000 <==> t.attackCooldown.None? || t.attackCooldown.value in {0, 2000})
      && m.detectionRange == t.detectionRange
  {
  }

  /** The snapshot a monster sends. */
  function MonsterSnapshot(m: MonsterRec): (s: Snapshot)
    ensures s.playerId == None && s.isMonster == Some(true) && s.color == Some(m.color)
  {
    EntitySnapshot(m.body, None, Some(m.color), Some(true))
  }
}
