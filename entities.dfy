/**
 * The entity classes of the game server, whose fields the server updates in
 * place. `Player` and `Monster` extend `Entity`; here each holds its `Entity`
 * part as a constant reference `body`, so that a player's or a monster's
 * entity fields are updated through the same methods. Each class is proved
 * against the value model of module EntityModel through its `Val()`.
 */
module Entities {
  import opened Wrappers
  import opened Grid
  import opened EntityModel

  class Entity {
    var id: string
    var name: string
    var tileX: int
    var tileY: int
    var x: int
    var y: int
    var speed: int
    var maxHealth: int
    var health: int
    var movePath: Option<seq<Tile>>
    var lastMoveTime: int

    /** The entity's state as a value. */
    function Val(): Body
      reads this
    {
      Body(id, name, tileX, tileY, x, y, speed, maxHealth, health, movePath, lastMoveTime)
    }

    /** `new Entity(id, tileX, tileY, speed)`. */
    constructor(id: string, tileX: int, tileY: int, speed: int)
      ensures Val() == NewBody(id, tileX, tileY, speed)
    {
      this.id := id;
      this.name := ENTITY_NAME;
      this.tileX := tileX;
      this.tileY := tileY;
      this.x := tileX * TILE_SIZE + 16;
      this.y := tileY * TILE_SIZE + 16;
      this.speed := speed;
      this.maxHealth := DEFAULT_MAX_HEALTH;
      this.health := DEFAULT_MAX_HEALTH;
      this.movePath := None;
      this.lastMoveTime := 0;
    }

    /** `respawn(tileX, tileY)`. */
    method Respawn(tileX: int, tileY: int)
      modifies this
      ensures Val() == EntityModel.Respawn(old(Val()), Tile(tileX, tileY))
    {
      health := maxHealth;
      this.tileX := tileX;
      this.tileY := tileY;
      x := tileX * TILE_SIZE + 16;
      y := tileY * TILE_SIZE + 16;
      movePath := None;
    }

    /** `isAlive()`. */
    function IsAlive(): (alive: bool)
      reads this
      ensures alive <==> EntityModel.IsAlive(Val())
    {
      health > 0
    }

    /** `takeDamage(amount)`. */
    method TakeDamage(amount: int)
      modifies this
      ensures Val() == EntityModel.TakeDamage(old(Val()), amount)
    {
      health := health - amount;
      if health < 0 {
        health := 0;
      }
    }

    /** Place the entity on tile `t` with the pixel position that belongs to it. */
    method MoveTo(t: Tile)
      modifies this
      ensures Val() == EntityModel.MoveTo(old(Val()), t)
    {
      tileX := t.x;
      tileY := t.y;
      x := tileX * TILE_SIZE + 16;
      y := tileY * TILE_SIZE + 16;
    }
  }

  class Player {
    const body: Entity
    var playerId: string
    var targetId: Option<string>
    var experience: int
    var level: int

    function Val(): PlayerRec
      reads this, body
    {
      PlayerRec(body.Val(), playerId, targetId, experience, level)
    }

    /** `new Player(id, tileX, tileY)`. */
    constructor(id: string, tileX: int, tileY: int)
      ensures Val() == NewPlayer(id, tileX, tileY) && fresh(body)
    {
      body := new Entity(id, tileX, tileY, PLAYER_SPEED);
      playerId := id;
      targetId := None;
      experience := 0;
      level := 1;
      new;
      body.name := PLAYER_NAME_PREFIX + id[..if |id| < 4 then |id| else 4];
    }

    /** `gainExperience(amount)`. */
    method GainExperience(amount: int)
      modifies this
      ensures Val() == EntityModel.GainExperience(old(Val()), amount)
    {
      experience := experience + amount;
    }

    /** `getSnapshot()`. */
    function Snapshot(): (s: EntityModel.Snapshot)
      reads this, body
      ensures s == PlayerSnapshot(Val())
    {
      EntitySnapshot(body.Val(), Some(playerId), None, None)
    }
  }

  class Monster {
    const body: Entity
    var color: string
    var damage: nat
    var experience: int
    var attackRange: real
    var attackCooldown: int
    var lastAttackTime: int
    var spawnPoint: Tile
    var state: AIState
    var detectionRange: real
    var targetId: Option<string>

    function Val(): MonsterRec
      reads this, body
    {
      MonsterRec(body.Val(), color, damage, experience, attackRange, attackCooldown, lastAttackTime,
                 spawnPoint, state, detectionRange, targetId)
    }

    /** `new Monster(id, tileX, tileY, type)`, with the `||` defaults. */
    constructor(id: string, tileX: int, tileY: int, t: MonsterType)
      ensures Val() == NewMonster(id, tileX, tileY, t) && fresh(body)
    {
      body := new Entity(id, tileX, tileY, t.speed);
      color := t.color;
      damage := OrInt(t.damage, DEFAULT_DAMAGE);
      experience := OrInt(t.experience, DEFAULT_EXPERIENCE);
      attackRange := OrReal(t.attackRange, DEFAULT_ATTACK_RANGE);
      attackCooldown := OrInt(t.attackCooldown, DEFAULT_ATTACK_COOLDOWN);
      lastAttackTime := 0;
      spawnPoint := Tile(tileX, tileY);
      state := Patrolling;
      detectionRange := t.detectionRange;
      targetId := None;
      new;
      var maxHealth := OrInt(t.health, DEFAULT_MAX_HEALTH);
      body.name := t.name;
      body.maxHealth := maxHealth;
      body.health := maxHealth;
      assert body.Val() == NewBody(id, tileX, tileY, t.speed).(name := t.name, maxHealth := maxHealth, health := maxHealth);
    }

    /** `getSnapshot()`. */
    function Snapshot(): (s: EntityModel.Snapshot)
      reads this, body
      ensures s == MonsterSnapshot(Val())
    {
      EntitySnapshot(body.Val(), None, Some(color), Some(true))
    }
  }
}
