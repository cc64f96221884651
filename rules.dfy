/**
 * The request handlers of the game manager and the lifecycle of its tables, as
 * functions from the old state (and the request) to the new state and what the
 * handler answers: connect, disconnect, `requestRespawn`, `spawnMonsters`,
 * `handleRequestTarget`, `handleRequestAttack` with the delayed monster
 * respawn, `handleRequestMove`, and `handleRequestPath` with its callback.
 */
module Rules {
  import opened Wrappers
  import opened Grid
  import opened EntityModel
  import opened GameState

  // ----- configuration -----

  const PLAYER_SPAWN: Tile := Tile(2, 2)

  const ORC: MonsterType :=
    MonsterType("orc", "Orc", 300, "0x228B22", 5.0, Some(70), Some(8), Some(25), Some(2200), Some(1.5), Tile(15, 4))
  const CYCLOPS: MonsterType :=
    MonsterType("cyclops", "Cyclops", 350, "0xff4500", 4.0, Some(150), Some(15), Some(70), Some(2800), Some(1.5), Tile(30, 18))
  const MONSTER_TYPES: seq<MonsterType> := [ORC, CYCLOPS]

  // ----- table updates -----

  /** `players[k] = p`: a new key goes to the end of the iteration order, an existing one keeps its place. */
  function PutPlayer(w: World, k: string, p: PlayerRec): (w': World)
    ensures w'.players == w.players[k := p]
    ensures w'.playerOrder == if k in w.players then w.playerOrder else w.playerOrder + [k]
  {
    w.(players := w.players[k := p], playerOrder := if k in w.players then w.playerOrder else w.playerOrder + [k])
  }

  /** `monsters[k] = m`, with the same ordering rule. */
  function PutMonster(w: World, k: string, m: MonsterRec): (w': World)
    ensures w'.monsters == w.monsters[k := m]
    ensures w'.monsterOrder == if k in w.monsters then w.monsterOrder else w.monsterOrder + [k]
  {
    w.(monsters := w.monsters[k := m], monsterOrder := if k in w.monsters then w.monsterOrder else w.monsterOrder + [k])
  }

  /** `order` without `k`. */
  function RemoveKey(order: seq<string>, k: string): (r: seq<string>)
    ensures forall j :: j in r <==> j in order && j != k
  {
    if order == [] then []
    else
      var init := RemoveKey(order[..|order| - 1], k);
      var last := order[|order| - 1];
      assert forall j :: j in order <==> j in order[..|order| - 1] || j == last;
      if last == k then init else init + [last]
  }

  lemma {:induction false} RemoveKeyDistinct(order: seq<string>, k: string)
    requires Distinct(order)
    ensures Distinct(RemoveKey(order, k))
  {
    if order != [] {
      var init := order[..|order| - 1];
      var last := order[|order| - 1];
      assert Distinct(init);
      RemoveKeyDistinct(init, k);
      assert last !in init;
      assert last !in RemoveKey(init, k);
    }
  }

  /** A fresh key appended to a duplicate-free order keeps it duplicate-free. */
  lemma DistinctAppend(order: seq<string>, k: string)
    requires Distinct(order) && k !in order
    ensures Distinct(order + [k])
  {
  }

  // ----- connect, disconnect, respawn -----

  /** A new connection: a player keyed by the socket id at the player spawn tile. */
  function Connect(w: World, id: string): (w': World)
    ensures w'.players.Keys == w.players.Keys + {id}
    ensures w'.monsters == w.monsters && w'.monsterOrder == w.monsterOrder && w'.grid == w.grid
  {
    PutPlayer(w, id, NewPlayer(id, PLAYER_SPAWN.x, PLAYER_SPAWN.y))
  }

  /** A connection adds a live, full-health, idle player at the spawn tile and leaves every other entry alone. */
  lemma ConnectEffect(w: World, id: string)
    requires Inv(w)
    ensures var w' := Connect(w, id);
      && Inv(w')
      && id in w'.players && IsAlive(w'.players[id].body)
      && w'.players[id].body.tileX == 2 && w'.players[id].body.tileY == 2
      && w'.players[id].body.movePath == None && w'.players[id].targetId == None
      && w'.monsters == w.monsters && w'.grid == w.grid
      && (forall k :: k in w.players && k != id ==> k in w'.players && w'.players[k] == w.players[k])
  {
    if id !in w.players {
      DistinctAppend(w.playerOrder, id);
    }
  }

  /** `delete this.players[socket.id]`. */
  function Disconnect(w: World, id: string): (w': World)
    ensures w'.players.Keys == w.players.Keys - {id}
    ensures w'.monsters == w.monsters && w'.monsterOrder == w.monsterOrder && w'.grid == w.grid
  {
    w.(players := w.players - {id}, playerOrder := RemoveKey(w.playerOrder, id))
  }

  /**
   * A disconnect removes exactly that player, so it no longer occupies a tile;
   * the other entries are unchanged.
   */
  lemma DisconnectEffect(w: World, id: string, x: int, y: int)
    requires Inv(w)
    ensures var w' := Disconnect(w, id);
      && Inv(w')
      && id !in w'.players && w'.monsters == w.monsters && w'.grid == w.grid
      && (forall k :: k in w.players && k != id ==> k in w'.players && w'.players[k] == w.players[k])
      && (Blocked(w', x, y) <==>
            MapBlocked(w.grid, x, y) || MonsterOn(w, x, y) ||
            exists k :: k in w.players && k != id && Occupies(w.players[k].body, x, y))
  {
    RemoveKeyDistinct(w.playerOrder, id);
    var w' := Disconnect(w, id);
    if exists k :: k in w.players && k != id && Occupies(w.players[k].body, x, y) {
      var k :| k in w.players && k != id && Occupies(w.players[k].body, x, y);
      assert k in w'.players && Occupies(w'.players[k].body, x, y);
    }
  }

  /** `requestRespawn`: only a dead player is revived, at the player spawn tile. */
  function RequestRespawn(w: World, id: string): (w': World)
    ensures SameShape(w, w') && w'.monsters == w.monsters
  {
    if id in w.players && !IsAlive(w.players[id].body) then
      WithBody(w, PlayerRef(id), Respawn(w.players[id].body, PLAYER_SPAWN))
    else w
  }

  /**
   * A respawn request changes nothing for a live or unknown player; a dead
   * player comes back alive, at full health, on the spawn tile, with no path.
   * Asking twice is the same as asking once.
   */
  lemma RequestRespawnEffect(w: World, id: string)
    requires Inv(w)
    ensures var w' := RequestRespawn(w, id);
      && Inv(w')
      && (id !in w.players || IsAlive(w.players[id].body) ==> w' == w)
      && (id in w.players && !IsAlive(w.players[id].body) ==>
            IsAlive(w'.players[id].body) && w'.players[id].body.health == w'.players[id].body.maxHealth &&
            w'.players[id].body.tileX == PLAYER_SPAWN.x && w'.players[id].body.tileY == PLAYER_SPAWN.y &&
            w'.players[id].body.movePath == None)
      && RequestRespawn(w', id) == w'
  {
    if id in w.players && !IsAlive(w.players[id].body) {
      RespawnRevives(w.players[id].body, PLAYER_SPAWN);
      WithBodyInv(w, PlayerRef(id), Respawn(w.players[id].body, PLAYER_SPAWN));
    }
  }

  // ----- monster seeding -----

  /** Decimal digits of `n`. */
  function NatToString(n: nat): (s: string)
    ensures |s| > 0
    decreases n
  {
    var d := ["0", "1", "2", "3", "4", "5", "6", "7", "8", "9"][n % 10];
    if n < 10 then d else NatToString(n / 10) + d
  }

  /** The id given to the `index`-th monster type: `${type.idPrefix}_${index + 1}`. */
  function MonsterKey(t: MonsterType, index: nat): string {
    t.idPrefix + "_" + NatToString(index + 1)
  }

  /** `spawnMonsters` over the first `|types|` types, one monster per type at its spawn point. */
  function SpawnTypes(w: World, types: seq<MonsterType>): (w': World)
    ensures w'.players == w.players && w'.playerOrder == w.playerOrder && w'.grid == w.grid
  {
    if types == [] then w
    else
      var i := |types| - 1;
      var t := types[i];
      var k := MonsterKey(t, i);
      PutMonster(SpawnTypes(w, types[..i]), k, NewMonster(k, t.spawnPoint.x, t.spawnPoint.y, t))
  }

  function SpawnMonsters(w: World): (w': World)
    ensures w'.players == w.players && w'.grid == w.grid
  {
    SpawnTypes(w, MONSTER_TYPES)
  }

  /** Seeding one more type puts its monster after those of the earlier types. */
  lemma SpawnTypesNext(w: World, types: seq<MonsterType>, i: nat)
    requires i < |types|
    ensures var t := types[i];
      var k := MonsterKey(t, i);
      SpawnTypes(w, types[..i + 1]) == PutMonster(SpawnTypes(w, types[..i]), k, NewMonster(k, t.spawnPoint.x, t.spawnPoint.y, t))
  {
    assert types[..i + 1][..i] == types[..i];
  }

  /** Seeding keeps the invariant and leaves the players and the grid alone. */
  lemma {:induction false} SpawnTypesInv(w: World, types: seq<MonsterType>)
    requires Inv(w)
    ensures Inv(SpawnTypes(w, types))
    ensures SpawnTypes(w, types).players == w.players && SpawnTypes(w, types).playerOrder == w.playerOrder
    ensures SpawnTypes(w, types).grid == w.grid
  {
    if types != [] {
      var i := |types| - 1;
      SpawnTypesInv(w, types[..i]);
      var w1 := SpawnTypes(w, types[..i]);
      var k := MonsterKey(types[i], i);
      if k !in w1.monsters {
        DistinctAppend(w1.monsterOrder, k);
      }
    }
  }

  /**
   * Seeding an empty monsters table with the configuration gives exactly
   * `orc_1` at (15, 4) and `cyclops_2` at (30, 18), both alive, at full health
   * and patrolling.
   */
  lemma SpawnMonstersEffect(w: World)
    requires Inv(w) && w.monsters == map[] && w.monsterOrder == []
    ensures var w' := SpawnMonsters(w);
      && Inv(w')
      && w'.monsterOrder == ["orc_1", "cyclops_2"]
      && w'.monsters["orc_1"] == NewMonster("orc_1", 15, 4, ORC)
      && w'.monsters["cyclops_2"] == NewMonster("cyclops_2", 30, 18, CYCLOPS)
      && w'.monsters["orc_1"].body.health == 70 && w'.monsters["cyclops_2"].body.health == 150
  {
    SpawnTypesInv(w, MONSTER_TYPES);
    assert MonsterKey(ORC, 0) == "orc_1" by { assert NatToString(1) == "1"; }
    assert MonsterKey(CYCLOPS, 1) == "cyclops_2" by { assert NatToString(2) == "2"; }
    assert [ORC][..0] == [];
    assert SpawnTypes(w, [ORC][..0]) == w;
    assert ORC.spawnPoint == Tile(15, 4) && CYCLOPS.spawnPoint == Tile(30, 18);
    var w1 := SpawnTypes(w, [ORC]);
    assert w1 == PutMonster(w, "orc_1", NewMonster("orc_1", 15, 4, ORC));
    assert MONSTER_TYPES[..1] == [ORC];
    assert SpawnMonsters(w) == PutMonster(w1, "cyclops_2", NewMonster("cyclops_2", 30, 18, CYCLOPS));
  }

  // ----- targeting -----

  /**
   * `handleRequestTarget`: the target is looked up among the monsters first,
   * then among the players; it is set only for a known player and a live target.
   * The flag tells whether `updateTarget` was sent.
   */
  function RequestTarget(w: World, id: string, targetId: string): (res: (World, bool))
    ensures SameShape(w, res.0) && res.0.monsters == w.monsters
    ensures !res.1 ==> res.0 == w
  {
    var target :=
      if targetId in w.monsters then Some(w.monsters[targetId].body)
      else if targetId in w.players then Some(w.players[targetId].body)
      else None;
    if id in w.players && target.Some? && IsAlive(target.value) then
      (PutPlayer(w, id, w.players[id].(targetId := Some(targetId))), true)
    else (w, false)
  }

  /** The target is set exactly when the player exists and the entity under that key (a monster first) is alive. */
  lemma RequestTargetEffect(w: World, id: string, targetId: string)
    requires Inv(w)
    ensures var (w', ok) := RequestTarget(w, id, targetId);
      && Inv(w')
      && (ok <==> id in w.players &&
                  ((targetId in w.monsters && IsAlive(w.monsters[targetId].body)) ||
                   (targetId !in w.monsters && targetId in w.players && IsAlive(w.players[targetId].body))))
      && (ok ==> w' == w.(players := w.players[id := w.players[id].(targetId := Some(targetId))]))
      && (!ok ==> w' == w)
  {
  }

  // ----- player attack -----

  const PLAYER_ATTACK_DAMAGE: int := 10
  const PLAYER_ATTACK_RANGE: real := 1.5
  const MONSTER_RESPAWN_DELAY: int := 20000

  /** What `handleRequestAttack` reports. */
  datatype AttackOutcome =
    | AttackIgnored
    | TargetLost
    | TargetTooFar
    | TargetHit(monster: string, health: int, killed: bool, respawnAt: Option<Tile>)

  /** `monsterTypes.find(t => id.includes(t.idPrefix))`. */
  function FindType(types: seq<MonsterType>, id: string): (r: Option<MonsterType>)
    ensures r.Some? ==> r.value in types && Contains(id, r.value.idPrefix)
    ensures r.None? ==> forall t :: t in types ==> !Contains(id, t.idPrefix)
  {
    if types == [] then None
    else if Contains(id, types[0].idPrefix) then Some(types[0])
    else FindType(types[1..], id)
  }

  /**
   * `handleRequestAttack`: a live player with a target hits it for 10 when it
   * is a live monster within 1.5 tiles; a kill awards the monster's experience,
   * clears the target and schedules the monster's respawn at its type's spawn
   * point. A target that is not a live monster is dropped.
   */
  function RequestAttack(w: World, id: string): (res: (World, AttackOutcome))
    ensures SameShape(w, res.0)
  {
    if id !in w.players then (w, AttackIgnored)
    else
      var p := w.players[id];
      if p.targetId.None? || p.targetId.value == "" || !IsAlive(p.body) then (w, AttackIgnored)
      else
        var t := p.targetId.value;
        if t !in w.monsters || !IsAlive(w.monsters[t].body) then
          (PutPlayer(w, id, p.(targetId := None)), TargetLost)
        else HitTarget(w, id, t)
  }

  /** The range test and the blow of `handleRequestAttack`, once player `id` has a live target `t`. */
  function HitTarget(w: World, id: string, t: string): (res: (World, AttackOutcome))
    requires id in w.players && t in w.monsters
    ensures SameShape(w, res.0)
  {
    var p := w.players[id];
    var m := w.monsters[t];
    var d2 := Dist2(p.body.tileX, p.body.tileY, m.body.tileX, m.body.tileY);
    if FartherThan(d2, PLAYER_ATTACK_RANGE) then (w, TargetTooFar)
    else
      var m1 := m.(body := TakeDamage(m.body, PLAYER_ATTACK_DAMAGE));
      var w1 := PutMonster(w, t, m1);
      if IsAlive(m1.body) then (w1, TargetHit(t, m1.body.health, false, None))
      else (PutPlayer(w1, id, KillReward(p, m1)), TargetHit(t, m1.body.health, true, RespawnPoint(m1.body.id)))
  }

  /** The killer gains the monster's experience and drops it as a target. */
  function KillReward(p: PlayerRec, m: MonsterRec): PlayerRec {
    var p1 := GainExperience(p, m.experience);
    if p1.targetId == Some(m.body.id) then p1.(targetId := None) else p1
  }

  /** The spawn point of the first type whose prefix occurs in `id`, if any. */
  function RespawnPoint(id: string): (at: Option<Tile>)
    ensures at.Some? <==> exists ty :: ty in MONSTER_TYPES && Contains(id, ty.idPrefix)
    ensures at.Some? ==> exists ty :: ty in MONSTER_TYPES && at.value == ty.spawnPoint
  {
    match FindType(MONSTER_TYPES, id)
    case Some(ty) => Some(ty.spawnPoint)
    case None => None
  }

  /** Nothing happens unless the player exists, is alive and has a target. */
  lemma RequestAttackGuard(w: World, id: string)
    requires id !in w.players || w.players[id].targetId.None? || !IsAlive(w.players[id].body)
    ensures RequestAttack(w, id) == (w, AttackIgnored)
  {
  }

  /** A target that is not a live monster is dropped, and nothing else changes. */
  lemma RequestAttackLostTarget(w: World, id: string)
    requires id in w.players && IsAlive(w.players[id].body)
    requires w.players[id].targetId.Some? && w.players[id].targetId.value != ""
    requires var t := w.players[id].targetId.value; t !in w.monsters || !IsAlive(w.monsters[t].body)
    ensures RequestAttack(w, id) == (w.(players := w.players[id := w.players[id].(targetId := None)]), TargetLost)
  {
  }

  /** A live monster target more than 1.5 tiles away (squared distance 3 or more) is not hit, and nothing changes. */
  lemma RequestAttackTooFar(w: World, id: string)
    requires id in w.players && IsAlive(w.players[id].body)
    requires w.players[id].targetId.Some? && w.players[id].targetId.value != ""
    requires var t := w.players[id].targetId.value; t in w.monsters && IsAlive(w.monsters[t].body)
    requires var p := w.players[id]; var m := w.monsters[p.targetId.value];
      Dist2(p.body.tileX, p.body.tileY, m.body.tileX, m.body.tileY) >= 3
    ensures RequestAttack(w, id) == (w, TargetTooFar)
  {
    var p := w.players[id];
    var m := w.monsters[p.targetId.value];
    FartherThanOneAndAHalf(Dist2(p.body.tileX, p.body.tileY, m.body.tileX, m.body.tileY));
  }

  /**
   * A live monster target within 1.5 tiles loses 10 health, clamped at 0. If it
   * survives only the monster changed; a kill also gives the player the
   * monster's experience and clears the player's target.
   */
  lemma RequestAttackHit(w: World, id: string)
    requires Inv(w) && id in w.players && IsAlive(w.players[id].body)
    requires w.players[id].targetId.Some? && w.players[id].targetId.value != ""
    requires var t := w.players[id].targetId.value; t in w.monsters && IsAlive(w.monsters[t].body)
    requires var p := w.players[id]; var m := w.monsters[p.targetId.value];
      Dist2(p.body.tileX, p.body.tileY, m.body.tileX, m.body.tileY) < 3
    ensures var p := w.players[id];
      var t := p.targetId.value;
      var m := w.monsters[t];
      var (w', out) := RequestAttack(w, id);
      && out.TargetHit? && out.monster == t
      && w'.monsters == w.monsters[t := m.(body := TakeDamage(m.body, 10))]
      && out.health == w'.monsters[t].body.health
      && (out.killed <==> m.body.health <= 10)
      && (!out.killed ==> w'.players == w.players && out.respawnAt == None)
      && (out.killed ==> w'.players == w.players[id := p.(experience := p.experience + m.experience, targetId := None)])
      && w'.grid == w.grid && w'.playerOrder == w.playerOrder && w'.monsterOrder == w.monsterOrder
  {
    var p := w.players[id];
    var m := w.monsters[p.targetId.value];
    FartherThanOneAndAHalf(Dist2(p.body.tileX, p.body.tileY, m.body.tileX, m.body.tileY));
  }

  /** An attack request keeps the table invariant. */
  lemma RequestAttackInv(w: World, id: string)
    requires Inv(w)
    ensures Inv(RequestAttack(w, id).0)
  {
    if id in w.players {
      var p := w.players[id];
      if p.targetId.Some? && p.targetId.value != "" && IsAlive(p.body) {
        var t := p.targetId.value;
        if t in w.monsters && IsAlive(w.monsters[t].body) {
          TakeDamageKeepsInv(w.monsters[t].body, 10);
        }
      }
    }
  }

  /** A monster killed by a player is scheduled to come back at its type's spawn point (for `orc_...` ids, (15, 4)). */
  lemma KilledOrcRespawnsAtSpawn(w: World, id: string)
    requires Inv(w) && id in w.players
    requires RequestAttack(w, id).1.TargetHit? && RequestAttack(w, id).1.killed
    requires Contains(RequestAttack(w, id).1.monster, "orc")
    ensures RequestAttack(w, id).1.respawnAt == Some(Tile(15, 4))
  {
  }

  /** The delayed `respawn` of a killed monster (`setTimeout` of 20000 ms), addressed by key. */
  function RespawnMonster(w: World, k: string, at: Tile): (w': World)
    ensures SameShape(w, w') && w'.players == w.players
  {
    if k in w.monsters then WithBody(w, MonsterRef(k), Respawn(w.monsters[k].body, at)) else w
  }

  /**
   * The respawn restores full health on the given tile and clears the path;
   * the behaviour state, target and attack time are left as they were.
   */
  lemma RespawnMonsterEffect(w: World, k: string, at: Tile)
    requires Inv(w) && k in w.monsters
    ensures var w' := RespawnMonster(w, k, at);
      var m := w.monsters[k];
      && Inv(w')
      && w'.monsters[k].body.health == m.body.maxHealth && IsAlive(w'.monsters[k].body)
      && w'.monsters[k].body.tileX == at.x && w'.monsters[k].body.tileY == at.y
      && w'.monsters[k].body.movePath == None
      && w'.monsters[k].(body := m.body) == m
  {
    RespawnRevives(w.monsters[k].body, at);
    WithBodyInv(w, MonsterRef(k), Respawn(w.monsters[k].body, at));
  }

  // ----- direct moves -----

  /** What `handleRequestMove` answers: nothing, `moveRejected`, or a broadcast `entityMoved`. */
  datatype MoveOutcome = MoveIgnored | MoveRejected | MoveAccepted

  /**
   * `handleRequestMove`: a live player whose cooldown has elapsed records the
   * time and drops its path, then steps one tile in the decoded direction
   * unless the destination is blocked.
   */
  function RequestMove(w: World, id: string, direction: string, now: int): (res: (World, MoveOutcome))
    requires Inv(w)
    ensures SameShape(w, res.0) && res.0.monsters == w.monsters
  {
    if id !in w.players || !IsAlive(w.players[id].body) then (w, MoveIgnored)
    else
      var b := w.players[id].body;
      if now < b.lastMoveTime + b.speed then (w, MoveRejected)
      else
        var st := DecodeDirection(direction);
        TryStep(w, id, Tile(b.tileX + st.dx, b.tileY + st.dy), now)
  }

  /** The move time and the path are written, then player `id` steps onto `dest` unless it is blocked. */
  function TryStep(w: World, id: string, dest: Tile, now: int): (res: (World, MoveOutcome))
    requires id in w.players
    ensures SameShape(w, res.0) && res.0.monsters == w.monsters
  {
    var b1 := w.players[id].body.(lastMoveTime := now, movePath := None);
    var w1 := WithBody(w, PlayerRef(id), b1);
    if !Blocked(w1, dest.x, dest.y) then (WithBody(w, PlayerRef(id), MoveTo(b1, dest)), MoveAccepted)
    else (w1, MoveRejected)
  }

  /** Past the guards, a move request is a step in the decoded direction. */
  lemma RequestMoveSteps(w: World, id: string, direction: string, now: int, dest: Tile)
    requires Inv(w) && id in w.players && IsAlive(w.players[id].body)
    requires now >= w.players[id].body.lastMoveTime + w.players[id].body.speed
    requires dest.x == w.players[id].body.tileX + DecodeDirection(direction).dx
    requires dest.y == w.players[id].body.tileY + DecodeDirection(direction).dy
    ensures RequestMove(w, id, direction, now) == TryStep(w, id, dest, now)
  {
  }

  /** Changing an entity's path or move time never changes what is blocked. */
  lemma BlockedIgnoresPathAndTime(w: World, r: Ref, b: Body, x: int, y: int)
    requires Has(w, r)
    requires b == BodyOf(w, r).(movePath := b.movePath, lastMoveTime := b.lastMoveTime)
    ensures Blocked(WithBody(w, r, b), x, y) <==> Blocked(w, x, y)
  {
    var w' := WithBody(w, r, b);
    if PlayerOn(w, x, y) {
      var k :| k in w.players && Occupies(w.players[k].body, x, y);
      assert Occupies(w'.players[k].body, x, y);
    }
    if PlayerOn(w', x, y) {
      var k :| k in w'.players && Occupies(w'.players[k].body, x, y);
      assert Occupies(w.players[k].body, x, y);
    }
    if MonsterOn(w, x, y) {
      var k :| k in w.monsters && Occupies(w.monsters[k].body, x, y);
      assert Occupies(w'.monsters[k].body, x, y);
    }
    if MonsterOn(w', x, y) {
      var k :| k in w'.monsters && Occupies(w'.monsters[k].body, x, y);
      assert Occupies(w.monsters[k].body, x, y);
    }
  }

  /** A missing or dead player's request does nothing. */
  lemma RequestMoveIgnored(w: World, id: string, direction: string, now: int)
    requires Inv(w) && (id !in w.players || !IsAlive(w.players[id].body))
    ensures RequestMove(w, id, direction, now) == (w, MoveIgnored)
  {
  }

  /** Before the cooldown has elapsed the request is rejected and nothing changes. */
  lemma RequestMoveTooSoon(w: World, id: string, direction: string, now: int)
    requires Inv(w) && id in w.players && IsAlive(w.players[id].body)
    requires now < w.players[id].body.lastMoveTime + w.players[id].body.speed
    ensures RequestMove(w, id, direction, now) == (w, MoveRejected)
  {
  }

  /**
   * Once the cooldown has elapsed the move time becomes `now` and the path is
   * dropped even when the step is then rejected; the step is accepted exactly
   * when the destination is not blocked, and then the tile moves by the decoded
   * step with the pixels derived from it. Only this player's entity changes.
   */
  lemma RequestMoveStep(w: World, id: string, direction: string, now: int)
    requires Inv(w) && id in w.players && IsAlive(w.players[id].body)
    requires now >= w.players[id].body.lastMoveTime + w.players[id].body.speed
    ensures var b := w.players[id].body;
      var st := DecodeDirection(direction);
      var (w', out) := RequestMove(w, id, direction, now);
      && out != MoveIgnored
      && (out == MoveAccepted <==> !Blocked(w, b.tileX + st.dx, b.tileY + st.dy))
      && id in w'.players
      && var b' := w'.players[id].body;
      && b'.lastMoveTime == now && b'.movePath == None
      && (out == MoveAccepted ==> b'.tileX == b.tileX + st.dx && b'.tileY == b.tileY + st.dy)
      && (out == MoveRejected ==> b'.tileX == b.tileX && b'.tileY == b.tileY)
      && b'.x == Pixel(b'.tileX) && b'.y == Pixel(b'.tileY)
      && b'.health == b.health && b'.speed == b.speed
      && w' == w.(players := w.players[id := w.players[id].(body := b')])
  {
    var b := w.players[id].body;
    var st := DecodeDirection(direction);
    var b1 := b.(lastMoveTime := now, movePath := None);
    BlockedIgnoresPathAndTime(w, PlayerRef(id), b1, b.tileX + st.dx, b.tileY + st.dy);
  }

  /** A move request keeps the table invariant. */
  lemma RequestMoveInv(w: World, id: string, direction: string, now: int)
    requires Inv(w)
    ensures Inv(RequestMove(w, id, direction, now).0)
  {
    if id in w.players && IsAlive(w.players[id].body) {
      var b := w.players[id].body;
      if now >= b.lastMoveTime + b.speed {
        var st := DecodeDirection(direction);
        var b1 := b.(lastMoveTime := now, movePath := None);
        WithBodyInv(w, PlayerRef(id), b1);
        WithBodyInv(w, PlayerRef(id), MoveTo(b1, Tile(b.tileX + st.dx, b.tileY + st.dy)));
      }
    }
  }

  /**
   * A direction naming none of the keywords is always rejected: the live
   * player blocks its own tile.
   */
  lemma UnknownDirectionRejected(w: World, id: string, direction: string, now: int)
    requires Inv(w) && id in w.players && IsAlive(w.players[id].body)
    requires !Contains(direction, "up") && !Contains(direction, "down")
    requires !Contains(direction, "left") && !Contains(direction, "right")
    ensures RequestMove(w, id, direction, now).1 == MoveRejected
  {
    var b := w.players[id].body;
    UnknownDirectionIsNullStep(direction);
    if now >= b.lastMoveTime + b.speed {
      RequestMoveStep(w, id, direction, now);
      LiveEntityBlocks(w, id, false);
    }
  }

  /**
   * The move cooldown: once a request has got past the cooldown check at time
   * `t1`, any further request before `t1 + speed` is rejected and changes nothing.
   */
  lemma MoveCooldown(w: World, id: string, d1: string, d2: string, t1: int, t2: int)
    requires Inv(w) && id in w.players && IsAlive(w.players[id].body)
    requires t1 >= w.players[id].body.lastMoveTime + w.players[id].body.speed
    requires t2 < t1 + w.players[id].body.speed
    ensures var w1 := RequestMove(w, id, d1, t1).0;
      Inv(w1) && RequestMove(w1, id, d2, t2) == (w1, MoveRejected)
  {
    RequestMoveStep(w, id, d1, t1);
    RequestMoveInv(w, id, d1, t1);
  }

  /** An accepted move is a single step of at most one tile along each axis. */
  lemma AcceptedMoveIsOneStep(w: World, id: string, direction: string, now: int)
    requires Inv(w) && RequestMove(w, id, direction, now).1 == MoveAccepted
    ensures var w' := RequestMove(w, id, direction, now).0;
      id in w.players && id in w'.players &&
      -1 <= w'.players[id].body.tileX - w.players[id].body.tileX <= 1 &&
      -1 <= w'.players[id].body.tileY - w.players[id].body.tileY <= 1
  {
    RequestMoveStep(w, id, direction, now);
  }

  // ----- path requests -----

  /** Who asked for a path, and why. */
  datatype PathPurpose = PlayerPath | PatrolPath | ChasePath | ReturnPath

  /** One call of `findPath`, with the tiles marked by `avoidAdditionalPoint` before it. */
  datatype PathRequest = PathRequest(purpose: PathPurpose, requester: string, from: Tile, to: Tile, avoid: seq<Tile>)

  /**
   * `handleRequestPath`: ignored for a missing or dead player or one that
   * already has a path; otherwise a request from the player's tile that avoids
   * every other live entity.
   */
  function RequestPath(w: World, id: string, target: Tile): (req: Option<PathRequest>)
    requires Inv(w)
    ensures req.Some? ==> req.value.purpose == PlayerPath && req.value.requester == id && req.value.to == target
    ensures req.Some? ==> id in w.players && req.value.from == Tile(w.players[id].body.tileX, w.players[id].body.tileY)
  {
    if id !in w.players || w.players[id].body.movePath.Some? || !IsAlive(w.players[id].body) then None
    else
      SpreadOrderHas(w);
      var b := w.players[id].body;
      Some(PathRequest(PlayerPath, id, Tile(b.tileX, b.tileY), target, AvoidTiles(w, SpreadOrder(w), {id})))
  }

  /**
   * A path request is issued exactly for a live, idle player; it starts on the
   * player's tile and avoids exactly the tiles of the other live entities.
   */
  lemma RequestPathEffect(w: World, id: string, target: Tile, t: Tile)
    requires Inv(w)
    ensures var req := RequestPath(w, id, target);
      && (req.Some? <==> id in w.players && w.players[id].body.movePath.None? && IsAlive(w.players[id].body))
      && (req.Some? ==>
            && req.value.from == Tile(w.players[id].body.tileX, w.players[id].body.tileY)
            && req.value.to == target
            && (t in req.value.avoid <==>
                  exists r :: r in SpreadOrder(w) && Has(w, r) && r.key != id && IsAlive(BodyOf(w, r)) &&
                              Tile(BodyOf(w, r).tileX, BodyOf(w, r).tileY) == t))
  {
    SpreadOrderHas(w);
    AvoidTilesIff(w, SpreadOrder(w), {id}, t);
    forall r | r in SpreadOrder(w) {
      EntityIdIsKey(w, r);
    }
  }

  /**
   * The callback of a player's path request: a path of more than one tile is
   * stored without its first tile (the start); otherwise nothing is stored.
   */
  function StorePlayerPath(w: World, id: string, path: Option<seq<Tile>>): (w': World)
    ensures SameShape(w, w') && w'.monsters == w.monsters
  {
    if id in w.players && path.Some? && |path.value| > 1 then
      WithBody(w, PlayerRef(id), w.players[id].body.(movePath := Some(path.value[1..])))
    else w
  }

  /** The stored path is the found path minus its start, never empty; no path or a one-tile path stores nothing. */
  lemma StorePlayerPathEffect(w: World, id: string, path: Option<seq<Tile>>)
    requires Inv(w) && id in w.players
    ensures var w' := StorePlayerPath(w, id, path);
      && Inv(w')
      && (path.Some? && |path.value| > 1 ==>
            && w'.players[id].body.movePath == Some(path.value[1..])
            && [path.value[0]] + w'.players[id].body.movePath.value == path.value
            && w' == w.(players := w.players[id := w.players[id].(body := w.players[id].body.(movePath := Some(path.value[1..])))]))
      && (path.None? || |path.value| <= 1 ==> w' == w)
  {
    if path.Some? && |path.value| > 1 {
      WithBodyInv(w, PlayerRef(id), w.players[id].body.(movePath := Some(path.value[1..])));
    }
  }
}
