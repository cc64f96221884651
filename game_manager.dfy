/**
 * The `GameManager` class: the players and monsters tables of entity objects
 * updated in place, the occupancy test, the socket handlers, the two phases of
 * the game loop and the path callbacks. Every method is proved against the
 * value model through `View()`: its new state is the model function applied to
 * the old state, so the properties proved of the model hold of the class.
 */
module Game {
  import opened Wrappers
  import opened Grid
  import opened EntityModel
  import opened GameState
  import opened Rules
  import opened Movement
  import opened MonsterAI
  import opened Entities

  class GameManager {
    const grid: Map
    var players: map<string, Player>
    var playerOrder: seq<string>
    var monsters: map<string, Monster>
    var monsterOrder: seq<string>

    /** The player objects and their entity parts. */
    function PlayerObjs(): set<object>
      reads this
    {
      (set k | k in players :: players[k] as object) + (set k | k in players :: players[k].body as object)
    }

    /** The monster objects and their entity parts. */
    function MonsterObjs(): set<object>
      reads this
    {
      (set k | k in monsters :: monsters[k] as object) + (set k | k in monsters :: monsters[k].body as object)
    }

    /** Every object the tables reach. */
    function Objs(): set<object>
      reads this
    {
      PlayerObjs() + MonsterObjs()
    }

    function PlayerTable(): map<string, PlayerRec>
      reads this, PlayerObjs()
    {
      map k | k in players :: players[k].Val()
    }

    function MonsterTable(): map<string, MonsterRec>
      reads this, MonsterObjs()
    {
      map k | k in monsters :: monsters[k].Val()
    }

    /** The tables as a value. */
    function View(): World
      reads this, Objs()
    {
      World(grid, PlayerTable(), playerOrder, MonsterTable(), monsterOrder)
    }

    /** No two entries share an object. */
    predicate Separate()
      reads this
    {
      && (forall k1, k2 :: k1 in players && k2 in players && k1 != k2 ==>
            players[k1] != players[k2] && players[k1].body != players[k2].body)
      && (forall k1, k2 :: k1 in monsters && k2 in monsters && k1 != k2 ==>
            monsters[k1] != monsters[k2] && monsters[k1].body != monsters[k2].body)
      && (forall k1, k2 :: k1 in players && k2 in monsters ==> players[k1].body != monsters[k2].body)
    }

    /** The model invariant holds of the tables, and no two entries share an object. */
    predicate Valid()
      reads this, Objs()
    {
      Inv(View()) && Separate()
    }

    /** `new GameManager(io)` on the map `grid`: both tables empty. */
    constructor(grid: Map)
      ensures Valid() && View() == World(grid, map[], [], map[], [])
    {
      this.grid := grid;
      players := map[];
      playerOrder := [];
      monsters := map[];
      monsterOrder := [];
    }

    /** `isTileBlocked(x, y)`: the map test, then the players and the monsters in insertion order. */
    method IsTileBlocked(x: int, y: int) returns (blocked: bool)
      requires Valid()
      ensures blocked == Blocked(View(), x, y)
    {
      if !(0 <= y < |grid|) || !(0 <= x < |grid[y]|) || grid[y][x] == 1 {
        return true;
      }
      for i := 0 to |playerOrder|
        invariant forall j :: 0 <= j < i ==> !Occupies(View().players[playerOrder[j]].body, x, y)
      {
        var player := players[playerOrder[i]];
        if player.body.IsAlive() && player.body.tileX == x && player.body.tileY == y {
          assert Occupies(View().players[playerOrder[i]].body, x, y);
          return true;
        }
      }
      for i := 0 to |monsterOrder|
        invariant forall j :: 0 <= j < i ==> !Occupies(View().monsters[monsterOrder[j]].body, x, y)
      {
        var monster := monsters[monsterOrder[i]];
        if monster.body.IsAlive() && monster.body.tileX == x && monster.body.tileY == y {
          assert Occupies(View().monsters[monsterOrder[i]].body, x, y);
          return true;
        }
      }
      OrderCovers(View());
      return false;
    }

    /** `getSnapshot(this.players)`. */
    method PlayerSnapshotTable() returns (s: map<string, Snapshot>)
      requires Valid()
      ensures s == PlayerSnapshots(View())
    {
      s := SnapshotPlayers(playerOrder, PlayerTable());
    }

    /** `getSnapshot(this.monsters)`. */
    method MonsterSnapshotTable() returns (s: map<string, Snapshot>)
      requires Valid()
      ensures s == MonsterSnapshots(View())
    {
      s := SnapshotMonsters(monsterOrder, MonsterTable());
    }

    // ----- frames -----

    /** When only player `key`'s objects change, the players table changes under `key` only. */
    twostate lemma PlayerChanged(key: string)
      requires unchanged(this) && key in players
      requires forall k :: k in players && k != key ==> unchanged(players[k], players[k].body)
      ensures PlayerTable() == old(PlayerTable())[key := players[key].Val()]
    {
    }

    /** When player `key` is put in the table and no other player's objects change, the table changes under `key` only. */
    twostate lemma PlayerPut(key: string)
      requires key in players && players == old(players)[key := players[key]]
      requires forall k :: k in old(players) && k != key ==> unchanged(old(players)[k], old(players)[k].body)
      ensures PlayerTable() == old(PlayerTable())[key := players[key].Val()]
    {
    }

    /** When no player's objects change, the players table is unchanged. */
    twostate lemma PlayersKept()
      requires players == old(players)
      requires forall k :: k in players ==> unchanged(players[k], players[k].body)
      ensures PlayerTable() == old(PlayerTable())
    {
    }

    /** When only monster `key`'s objects change, the monsters table changes under `key` only. */
    twostate lemma MonsterChanged(key: string)
      requires unchanged(this) && key in monsters
      requires forall k :: k in monsters && k != key ==> unchanged(monsters[k], monsters[k].body)
      ensures MonsterTable() == old(MonsterTable())[key := monsters[key].Val()]
    {
    }

    /** When monster `key` is put in the table and no other monster's objects change, the table changes under `key` only. */
    twostate lemma MonsterPut(key: string)
      requires key in monsters && monsters == old(monsters)[key := monsters[key]]
      requires forall k :: k in old(monsters) && k != key ==> unchanged(old(monsters)[k], old(monsters)[k].body)
      ensures MonsterTable() == old(MonsterTable())[key := monsters[key].Val()]
    {
    }

    /** When no monster's objects change, the monsters table is unchanged. */
    twostate lemma MonstersKept()
      requires monsters == old(monsters)
      requires forall k :: k in monsters ==> unchanged(monsters[k], monsters[k].body)
      ensures MonsterTable() == old(MonsterTable())
    {
    }

    /** When nothing the tables reach changes, the view is the same. */
    twostate lemma ViewKept()
      requires unchanged(this)
      requires forall k :: k in players ==> unchanged(players[k], players[k].body)
      requires forall k :: k in monsters ==> unchanged(monsters[k], monsters[k].body)
      ensures View() == old(View())
    {
      PlayersKept();
      MonstersKept();
    }

    /** When only the entity object of `r` changes, the view changes in that entity's fields only. */
    twostate lemma BodyWritten(r: Ref)
      requires unchanged(this) && Separate() && Has(old(View()), r)
      requires forall k :: k in players ==> unchanged(players[k])
      requires forall k :: k in monsters ==> unchanged(monsters[k])
      requires forall k :: k in players && PlayerRef(k) != r ==> unchanged(players[k].body)
      requires forall k :: k in monsters && MonsterRef(k) != r ==> unchanged(monsters[k].body)
      ensures Has(View(), r) && View() == WithBody(old(View()), r, EntityOf(r).Val())
    {
      match r
      case PlayerRef(k) =>
        PlayerChanged(k);
        MonstersKept();
      case MonsterRef(k) =>
        PlayersKept();
        MonsterChanged(k);
    }

    // ----- single writes to one entity -----

    /** `entity.lastMoveTime = now`. */
    method SetMoveTime(r: Ref, now: int)
      requires Separate() && Has(View(), r)
      modifies Objs()
      ensures unchanged(this) && Has(View(), r)
      ensures View() == WithBody(old(View()), r, BodyOf(old(View()), r).(lastMoveTime := now))
    {
      var e := EntityOf(r);
      e.lastMoveTime := now;
      BodyWritten(r);
    }

    /** `entity.movePath = path`. */
    method SetPath(r: Ref, path: Option<seq<Tile>>)
      requires Separate() && Has(View(), r)
      modifies Objs()
      ensures unchanged(this) && Has(View(), r)
      ensures View() == WithBody(old(View()), r, BodyOf(old(View()), r).(movePath := path))
    {
      var e := EntityOf(r);
      e.movePath := path;
      BodyWritten(r);
    }

    /** `entity.tileX = t.x; entity.tileY = t.y` with the pixel position derived from them. */
    method MoveEntity(r: Ref, t: Tile)
      requires Separate() && Has(View(), r)
      modifies Objs()
      ensures unchanged(this) && Has(View(), r)
      ensures View() == WithBody(old(View()), r, EntityModel.MoveTo(BodyOf(old(View()), r), t))
    {
      var e := EntityOf(r);
      e.MoveTo(t);
      BodyWritten(r);
    }

    /** `entity.takeDamage(amount)`. */
    method Damage(r: Ref, amount: int)
      requires Separate() && Has(View(), r)
      modifies Objs()
      ensures unchanged(this) && Has(View(), r)
      ensures View() == WithBody(old(View()), r, EntityModel.TakeDamage(BodyOf(old(View()), r), amount))
    {
      var e := EntityOf(r);
      e.TakeDamage(amount);
      BodyWritten(r);
    }

    /** `monster.state = s`. */
    method SetState(k: string, s: AIState)
      requires Separate() && k in monsters
      modifies Objs()
      ensures unchanged(this)
      ensures View() == SetMonsterState(old(View()), k, s)
    {
      monsters[k].state := s;
      MonsterChanged(k);
      PlayersKept();
    }

    /** `entity.getSnapshot()` of the entity behind `r`. */
    function SnapshotOf(r: Ref): (s: Snapshot)
      requires Has(View(), r)
      reads this, Objs()
      ensures s == Movement.RefSnapshot(View(), r)
    {
      match r
      case PlayerRef(k) => players[k].Snapshot()
      case MonsterRef(k) => monsters[k].Snapshot()
    }

    // ----- socket handlers -----

    /** `handleConnection(socket)`: a new player under the socket id, at the player spawn point. */
    method HandleConnection(id: string)
      requires Valid()
      modifies this
      ensures Valid() && View() == Connect(old(View()), id)
    {
      ghost var w := View();
      PutPlayer(id);
      ConnectEffect(w, id);
    }

    /** `this.players[id] = new Player(id, x, y)` at the player spawn point. */
    method PutPlayer(id: string)
      requires Valid()
      modifies this
      ensures View() == Rules.PutPlayer(old(View()), id, NewPlayer(id, PLAYER_SPAWN.x, PLAYER_SPAWN.y))
      ensures Separate()
    {
      var player := new Player(id, PLAYER_SPAWN.x, PLAYER_SPAWN.y);
      if id !in players {
        playerOrder := playerOrder + [id];
      }
      players := players[id := player];
      MonstersKept();
      PlayerPut(id);
    }

    /**
     * The messages `handleConnection` sends once the player is in: both tables
     * to the new client (`currentPlayers`, `currentMonsters`) and the newcomer's
     * snapshot to the others (`newPlayer`).
     */
    method Welcome(id: string) returns (current: map<string, Snapshot>, currentMonsters: map<string, Snapshot>, joined: Snapshot)
      requires Valid() && id in players
      ensures current == PlayerSnapshots(View()) && currentMonsters == MonsterSnapshots(View())
      ensures id in current && joined == current[id]
    {
      current := PlayerSnapshotTable();
      ViewKept();
      currentMonsters := MonsterSnapshotTable();
      ViewKept();
      joined := players[id].Snapshot();
    }

    /** The `disconnect` handler: the player leaves the table. */
    method HandleDisconnect(id: string)
      requires Valid()
      modifies this
      ensures Valid() && View() == Disconnect(old(View()), id)
    {
      players := players - {id};
      playerOrder := RemoveKey(playerOrder, id);
      MonstersKept();
      assert PlayerTable() == old(PlayerTable()) - {id};
      assert View() == Disconnect(old(View()), id);
      DisconnectEffect(old(View()), id, 0, 0);
    }

    /** The `requestRespawn` handler: a dead player comes back at the spawn point; returns whether it did. */
    method HandleRequestRespawn(id: string) returns (respawned: bool)
      requires Valid()
      modifies Objs()
      ensures Valid() && View() == RequestRespawn(old(View()), id)
      ensures respawned <==> id in old(View()).players && !IsAlive(old(View()).players[id].body)
    {
      respawned := false;
      if id in players && !players[id].body.IsAlive() {
        var p := players[id];
        p.body.Respawn(PLAYER_SPAWN.x, PLAYER_SPAWN.y);
        respawned := true;
        PlayerChanged(id);
        MonstersKept();
      }
      RequestRespawnEffect(old(View()), id);
    }

    /** `handleRequestTarget`: a player targets a live monster (looked up first) or a live player. */
    method HandleRequestTarget(id: string, targetId: string) returns (updated: bool)
      requires Valid()
      modifies Objs()
      ensures Valid() && (View(), updated) == RequestTarget(old(View()), id, targetId)
    {
      var target: Option<Entity> :=
        if targetId in monsters then Some(monsters[targetId].body)
        else if targetId in players then Some(players[targetId].body)
        else None;
      updated := false;
      if id in players && target.Some? && target.value.IsAlive() {
        var p := players[id];
        p.targetId := Some(targetId);
        updated := true;
        PlayerChanged(id);
        MonstersKept();
      }
      RequestTargetEffect(old(View()), id, targetId);
    }

    // ----- monsters -----

    /** Add one monster of type `t` under key `k`. */
    method PutMonster(k: string, t: MonsterType)
      requires Valid()
      modifies this
      ensures View() == Rules.PutMonster(old(View()), k, NewMonster(k, t.spawnPoint.x, t.spawnPoint.y, t))
      ensures Separate()
    {
      var monster := new Monster(k, t.spawnPoint.x, t.spawnPoint.y, t);
      if k !in monsters {
        monsterOrder := monsterOrder + [k];
      }
      monsters := monsters[k := monster];
      PlayersKept();
      MonsterPut(k);
    }

    /** `spawnMonsters()`: one monster per configured type, under `${idPrefix}_${index + 1}`, at its spawn point. */
    method SpawnMonsters()
      requires Valid()
      modifies this
      ensures Valid() && View() == Rules.SpawnMonsters(old(View()))
    {
      SpawnEach(MONSTER_TYPES);
    }

    /** The `forEach` of `spawnMonsters` over `types`: the monster of the `i`-th type under `${idPrefix}_${i + 1}`. */
    method SpawnEach(types: seq<MonsterType>)
      requires Valid()
      modifies this
      ensures Valid() && View() == SpawnTypes(old(View()), types)
    {
      ghost var w0 := View();
      for i := 0 to |types|
        invariant Valid() && View() == SpawnTypes(w0, types[..i])
      {
        var t := types[i];
        SpawnTypesNext(w0, types, i);
        PutMonster(MonsterKey(t, i), t);
        SpawnTypesInv(w0, types[..i + 1]);
      }
      assert types[..|types|] == types;
    }

    /**
     * The callback of the respawn timer started by a kill: the monster comes
     * back to life at `at`, its type's spawn point.
     */
    method RespawnMonster(k: string, at: Tile) returns (snapshot: Snapshot)
      requires Valid() && k in monsters
      modifies Objs()
      ensures Valid() && View() == Rules.RespawnMonster(old(View()), k, at)
      ensures snapshot == MonsterSnapshot(View().monsters[k])
    {
      var monster := monsters[k];
      monster.body.Respawn(at.x, at.y);
      MonsterChanged(k);
      PlayersKept();
      RespawnMonsterEffect(old(View()), k, at);
      snapshot := monster.Snapshot();
    }

    // ----- combat and moves requested by a player -----

    /** `handleRequestAttack`: a player hits its targeted monster; see `Rules.RequestAttack`. */
    method HandleRequestAttack(id: string) returns (outcome: AttackOutcome)
      requires Valid()
      modifies Objs()
      ensures Valid() && (View(), outcome) == RequestAttack(old(View()), id)
    {
      RequestAttackInv(old(View()), id);
      if id !in players {
        return AttackIgnored;
      }
      var player := players[id];
      if player.targetId.None? || player.targetId.value == "" || !player.body.IsAlive() {
        return AttackIgnored;
      }
      var t := player.targetId.value;
      if t !in monsters || !monsters[t].body.IsAlive() {
        player.targetId := None;
        PlayerChanged(id);
        MonstersKept();
        return TargetLost;
      }
      outcome := HitTarget(id, t);
    }

    /** The range test and the blow, once player `id` has the live target `t`. */
    method HitTarget(id: string, t: string) returns (outcome: AttackOutcome)
      requires Separate() && id in players && t in monsters
      modifies Objs()
      ensures unchanged(this)
      ensures (View(), outcome) == Rules.HitTarget(old(View()), id, t)
    {
      var player := players[id];
      var target := monsters[t];
      var d2 := Dist2(player.body.tileX, player.body.tileY, target.body.tileX, target.body.tileY);
      if FartherThan(d2, PLAYER_ATTACK_RANGE) {
        return TargetTooFar;
      }
      target.body.TakeDamage(PLAYER_ATTACK_DAMAGE);
      if target.body.IsAlive() {
        MonsterChanged(t);
        PlayersKept();
        return TargetHit(t, target.body.health, false, None);
      }
      player.GainExperience(target.experience);
      if player.targetId == Some(target.body.id) {
        player.targetId := None;
      }
      var ty := FindType(MONSTER_TYPES, target.body.id);
      MonsterChanged(t);
      PlayerChanged(id);
      outcome := TargetHit(t, target.body.health, true, if ty.Some? then Some(ty.value.spawnPoint) else None);
    }

    /** `handleRequestMove`: one step in the requested direction; see `Rules.RequestMove`. */
    method HandleRequestMove(id: string, direction: string, now: int) returns (outcome: MoveOutcome)
      requires Valid()
      modifies Objs()
      ensures Valid() && (View(), outcome) == RequestMove(old(View()), id, direction, now)
    {
      ghost var w := View();
      RequestMoveInv(w, id, direction, now);
      if id !in players || !players[id].body.IsAlive() {
        RequestMoveIgnored(w, id, direction, now);
        return MoveIgnored;
      }
      var player := players[id];
      assert w.players[id].body == player.body.Val();
      if now < player.body.lastMoveTime + player.body.speed {
        RequestMoveTooSoon(w, id, direction, now);
        return MoveRejected;
      }
      var st := DecodeDirection(direction);
      var dest := Tile(player.body.tileX + st.dx, player.body.tileY + st.dy);
      RequestMoveSteps(w, id, direction, now, dest);
      outcome := TryStep(id, dest, now);
    }

    /**
     * Write the move time and clear the path of player `id`, then step onto
     * `dest` unless it is blocked. The occupancy test is made before the two
     * writes, which cannot change its answer.
     */
    method TryStep(id: string, dest: Tile, now: int) returns (outcome: MoveOutcome)
      requires Valid() && id in players
      modifies Objs()
      ensures unchanged(this)
      ensures (View(), outcome) == Rules.TryStep(old(View()), id, dest, now)
    {
      var blocked := IsTileBlocked(dest.x, dest.y);
      ViewKept();
      ghost var w := View();
      ghost var b1 := w.players[id].body.(lastMoveTime := now, movePath := None);
      BlockedIgnoresPathAndTime(w, PlayerRef(id), b1, dest.x, dest.y);
      SetMoveTime(PlayerRef(id), now);
      SetPath(PlayerRef(id), None);
      WithBodyTwice(w, PlayerRef(id), w.players[id].body.(lastMoveTime := now), b1);
      if !blocked {
        MoveEntity(PlayerRef(id), dest);
        WithBodyTwice(w, PlayerRef(id), b1, EntityModel.MoveTo(b1, dest));
        outcome := MoveAccepted;
      } else {
        outcome := MoveRejected;
      }
    }

    // ----- paths requested by a player -----

    /** `Object.values({...this.players, ...this.monsters})`: the players in insertion order, a monster replacing a player of the same key, then the other monsters. */
    method SpreadEntities() returns (refs: seq<Ref>)
      requires Valid()
      ensures refs == SpreadOrder(View())
    {
      var head := SpreadPlayerRefs(playerOrder, monsters.Keys);
      var tail := SpreadMonsterRefs(monsterOrder, players.Keys);
      refs := head + tail;
      assert View().monsters.Keys == monsters.Keys && View().players.Keys == players.Keys;
    }

    /** The entity object behind `r`. */
    function EntityOf(r: Ref): (e: Entity)
      requires Has(View(), r)
      reads this, Objs()
      ensures e.Val() == BodyOf(View(), r)
    {
      match r
      case PlayerRef(k) => players[k].body
      case MonsterRef(k) => monsters[k].body
    }

    /**
     * The `avoidAdditionalPoint` calls made before a `findPath`: the tile of
     * every live entity of `refs` whose id (`entity.playerId || entity.id`) is
     * not in `skip`, in the order of `refs`.
     */
    method AvoidList(refs: seq<Ref>, skip: set<string>) returns (tiles: seq<Tile>)
      requires Valid() && forall r :: r in refs ==> Has(View(), r)
      ensures (forall r :: r in refs ==> Has(View(), r)) && tiles == AvoidTiles(View(), refs, skip)
    {
      tiles := [];
      for i := 0 to |refs|
        invariant tiles == AvoidTiles(View(), refs[..i], skip)
      {
        var r := refs[i];
        assert refs[..i + 1][..i] == refs[..i];
        var e := EntityOf(r);
        assert e.Val() == BodyOf(View(), r);
        var entityId := match r
          case PlayerRef(k) => if players[k].playerId != "" then players[k].playerId else e.id
          case MonsterRef(k) => e.id;
        if e.IsAlive() && entityId !in skip {
          tiles := tiles + [Tile(e.tileX, e.tileY)];
        }
      }
      assert refs[..|refs|] == refs;
    }

    /**
     * `handleRequestPath`: the `findPath` call for a live player without a
     * path, from its tile to `target`, avoiding the other live entities. The
     * path found is handed to `StorePlayerPath`.
     */
    method HandleRequestPath(id: string, target: Tile) returns (req: Option<PathRequest>)
      requires Valid()
      ensures req == RequestPath(View(), id, target)
    {
      if id !in players || players[id].body.movePath.Some? || !players[id].body.IsAlive() {
        return None;
      }
      var player := players[id];
      var refs := SpreadEntities();
      SpreadOrderHas(View());
      var avoid := AvoidList(refs, {id});
      req := Some(PathRequest(PlayerPath, id, Tile(player.body.tileX, player.body.tileY), target, avoid));
    }

    /** The `findPath` callback of `handleRequestPath`: a path of two tiles or more is stored without its start. */
    method StorePlayerPath(id: string, path: Option<seq<Tile>>)
      requires Valid() && id in players
      modifies Objs()
      ensures Valid() && View() == Rules.StorePlayerPath(old(View()), id, path)
    {
      StorePlayerPathEffect(View(), id, path);
      if path.Some? && |path.value| > 1 {
        players[id].body.movePath := Some(path.value[1..]);
      }
      PlayerChanged(id);
      MonstersKept();
    }

    // ----- the movement phase -----

    /** The next waypoint is blocked: record the time, drop the path, and set a monster patrolling. */
    method Halt(r: Ref, now: int)
      requires Separate() && Has(View(), r)
      modifies Objs()
      ensures unchanged(this) && View() == Movement.Halt(old(View()), r, now)
    {
      ghost var w := View();
      SetMoveTime(r, now);
      SetPath(r, None);
      WithBodyTwice(w, r, BodyOf(w, r).(lastMoveTime := now), BodyOf(w, r).(lastMoveTime := now, movePath := None));
      if r.MonsterRef? {
        SetState(r.key, Patrolling);
      }
    }

    /** The next waypoint is free: record the time, shift it off the path, move onto it, then close a used-up path. */
    method Advance(r: Ref, now: int) returns (e: Option<MoveEvent>)
      requires Separate() && Has(View(), r)
      requires BodyOf(View(), r).movePath.Some? && |BodyOf(View(), r).movePath.value| > 0
      modifies Objs()
      ensures unchanged(this) && (View(), e) == Movement.Advance(old(View()), r, now)
    {
      var complete := Shift(r, now);
      e := Some(MoveEvent(r, SnapshotOf(r), complete));
      if complete {
        ClosePath(r);
      }
    }

    /** `entity.lastMoveTime = now; entity.movePath.shift()` and the move onto the waypoint shifted off; whether the path is used up. */
    method Shift(r: Ref, now: int) returns (complete: bool)
      requires Separate() && Has(View(), r)
      requires BodyOf(View(), r).movePath.Some? && |BodyOf(View(), r).movePath.value| > 0
      modifies Objs()
      ensures unchanged(this) && Has(View(), r)
      ensures var b := BodyOf(old(View()), r);
        && complete == (|b.movePath.value| == 1)
        && View() == WithBody(old(View()), r, EntityModel.MoveTo(b.(lastMoveTime := now, movePath := Some(b.movePath.value[1..])), b.movePath.value[0]))
    {
      ghost var w := View();
      ghost var b := BodyOf(w, r);
      var path := EntityOf(r).movePath.value;
      assert path == b.movePath.value;
      SetMoveTime(r, now);
      SetPath(r, Some(path[1..]));
      MoveEntity(r, path[0]);
      WithBodyTwice(w, r, b.(lastMoveTime := now), b.(lastMoveTime := now, movePath := Some(path[1..])));
      WithBodyTwice(w, r, b.(lastMoveTime := now, movePath := Some(path[1..])),
        EntityModel.MoveTo(b.(lastMoveTime := now, movePath := Some(path[1..])), path[0]));
      complete := |path| == 1;
    }

    /** A used-up path becomes `null`, and a returning monster starts patrolling. */
    method ClosePath(r: Ref)
      requires Separate() && Has(View(), r)
      modifies Objs()
      ensures unchanged(this) && View() == Movement.ClosePath(old(View()), r)
    {
      SetPath(r, None);
      if r.MonsterRef? {
        var returning := monsters[r.key].state == Returning;
        assert returning <==> View().monsters[r.key].state == Returning;
        if returning {
          SetState(r.key, Patrolling);
        }
      }
    }

    /**
     * One entity's turn in `executeMovement`. The occupancy test is made
     * before the move time is written, which cannot change its answer.
     */
    method StepEntity(r: Ref, now: int) returns (e: Option<MoveEvent>)
      requires Valid() && Has(View(), r)
      modifies Objs()
      ensures unchanged(this) && (View(), e) == Movement.StepEntity(old(View()), r, now)
    {
      var entity := EntityOf(r);
      assert entity.Val() == BodyOf(View(), r);
      if !(entity.IsAlive() && entity.movePath.Some? && |entity.movePath.value| > 0) {
        return None;
      }
      if now < entity.lastMoveTime + entity.speed {
        return None;
      }
      var next := entity.movePath.value[0];
      var blocked := IsTileBlocked(next.x, next.y);
      ViewKept();
      ghost var w := View();
      BlockedIgnoresTime(w, r, BodyOf(w, r).(lastMoveTime := now), next);
      if blocked {
        assert Movement.StepEntity(w, r, now) == (Movement.Halt(w, r, now), None);
        Halt(r, now);
        e := None;
      } else {
        assert Movement.StepEntity(w, r, now) == Movement.Advance(w, r, now);
        e := Advance(r, now);
      }
    }

    /** The turn of `refs[i]`, extending the events emitted so far. */
    method MoveNext(ghost w: World, refs: seq<Ref>, i: nat, now: int, events: seq<MoveEvent>) returns (events': seq<MoveEvent>)
      requires Valid() && (forall r :: r in refs ==> Has(w, r)) && i < |refs|
      requires (View(), events) == MoveAll(w, refs[..i], now)
      modifies Objs()
      ensures unchanged(this) && Valid()
      ensures (View(), events') == MoveAll(w, refs[..i + 1], now)
    {
      var r := refs[i];
      MoveAllNext(w, refs, i, now, View(), events);
      StepInv(View(), r, now);
      ghost var step := Movement.StepEntity(View(), r, now);
      var e := StepEntity(r, now);
      assert (View(), e) == step;
      events' := events + if e.Some? then [e.value] else [];
    }

    /** `executeMovement()` at time `now`: every entity of the spread takes its turn, in order. */
    method ExecuteMovement(now: int) returns (events: seq<MoveEvent>)
      requires Valid()
      modifies Objs()
      ensures Valid() && (View(), events) == Movement.ExecuteMovement(old(View()), now)
    {
      var refs := SpreadEntities();
      ViewKept();
      ghost var w := View();
      SpreadOrderHas(w);
      events := [];
      for i := 0 to |refs|
        invariant unchanged(this) && Valid()
        invariant (View(), events) == MoveAll(w, refs[..i], now)
      {
        events := MoveNext(w, refs, i, now, events);
      }
      assert refs[..|refs|] == refs;
      assert Movement.ExecuteMovement(w, now) == MoveAll(w, refs, now);
    }

    // ----- the monster AI phase -----

    /**
     * The search for the closest live player of monster `k` over the players
     * in insertion order; a player replaces the current choice only when
     * strictly closer. Squared distances order the same way as distances.
     */
    method FindClosestPlayer(k: string) returns (closest: Option<string>)
      requires Valid() && k in monsters
      ensures closest == ClosestPlayer(View(), k)
    {
      ghost var w := View();
      var monster := monsters[k].body;
      assert monster.Val() == w.monsters[k].body;
      closest := None;
      var minDistance := 0;
      for i := 0 to |playerOrder|
        invariant closest == Closest(w, playerOrder[..i], w.monsters[k].body)
        invariant closest.Some? ==> minDistance == DistTo(w.monsters[k].body, w.players[closest.value].body)
      {
        var key := playerOrder[i];
        assert key in w.playerOrder && key in w.players.Keys;
        var player := players[key].body;
        assert player.Val() == w.players[key].body;
        assert playerOrder[..i + 1][..i] == playerOrder[..i];
        if player.IsAlive() {
          var distance := Dist2(monster.tileX, monster.tileY, player.tileX, player.tileY);
          if closest.None? || distance < minDistance {
            closest := Some(key);
            minDistance := distance;
          }
        }
      }
      assert playerOrder[..|playerOrder|] == playerOrder;
    }

    /** The state switch: give up an out-of-range chase; chase the closest player `pk` when in range. */
    method Switch(k: string, pk: string)
      requires Separate() && k in monsters && pk in players
      modifies Objs()
      ensures unchanged(this)
      ensures View() == SetMonster(old(View()), k, Switched(old(View()), k, pk))
    {
      var monster := monsters[k];
      var player := players[pk];
      var distance := Dist2(monster.body.tileX, monster.body.tileY, player.body.tileX, player.body.tileY);
      var targetIsOutOfRange := FartherThan(distance, monster.detectionRange);
      if monster.state == Chasing && targetIsOutOfRange {
        monster.state := Returning;
        monster.targetId := None;
      }
      if !targetIsOutOfRange {
        monster.state := Chasing;
        monster.targetId := Some(player.playerId);
      }
      MonsterChanged(k);
      PlayersKept();
    }

    /** The attack of monster `k` on player `pk`: damage, the events, and after a kill the way home. */
    method Strike(k: string, pk: string, now: int) returns (events: seq<AIEvent>)
      requires Valid() && k in monsters && pk in players
      modifies Objs()
      ensures unchanged(this)
      ensures Turn(View(), None, events) == MonsterAI.Strike(old(View()), k, pk, now)
    {
      StrikeSteps(View(), k, pk, now);
      var monster := monsters[k];
      var target := players[pk];
      assert monster.damage == View().monsters[k].damage;
      SetAttackTime(k, now);
      Damage(PlayerRef(pk), monster.damage);
      ghost var hit := View().players[pk].body;
      assert target.body.Val() == hit;
      events := [Damaged(target.body.id, target.body.health, monster.damage)];
      if !target.body.IsAlive() {
        events := events + [Died(target.body.id)];
        GiveUp(k);
      }
    }

    /** `monster.lastAttackTime = now`. */
    method SetAttackTime(k: string, now: int)
      requires Separate() && k in monsters
      modifies Objs()
      ensures unchanged(this)
      ensures View() == SetMonster(old(View()), k, old(View()).monsters[k].(lastAttackTime := now))
    {
      monsters[k].lastAttackTime := now;
      MonsterChanged(k);
      PlayersKept();
    }

    /** `monster.state = 'returning'; monster.targetId = null`. */
    method GiveUp(k: string)
      requires Separate() && k in monsters
      modifies Objs()
      ensures unchanged(this)
      ensures View() == SetMonster(old(View()), k, old(View()).monsters[k].(state := Returning, targetId := None))
    {
      monsters[k].state := Returning;
      monsters[k].targetId := None;
      MonsterChanged(k);
      PlayersKept();
    }

    /** The `chasing` case: attack when in reach and rested, otherwise ask for a path towards the player. */
    method Engage(k: string, pk: string, now: int) returns (request: Option<PathRequest>, events: seq<AIEvent>)
      requires Valid() && k in monsters && pk in players
      modifies Objs()
      ensures unchanged(this)
      ensures Turn(View(), request, events) == MonsterAI.Engage(old(View()), k, pk, now)
    {
      var monster := monsters[k];
      var target := players[pk];
      var distance := Dist2(monster.body.tileX, monster.body.tileY, target.body.tileX, target.body.tileY);
      if WithinRange(distance, monster.attackRange) {
        request := None;
        if now > monster.lastAttackTime + monster.attackCooldown {
          events := Strike(k, pk, now);
        } else {
          events := [];
        }
      } else {
        var refs := SpreadEntities();
        ViewKept();
        SpreadOrderHas(View());
        var avoid := AvoidList(refs, {k, pk});
        ViewKept();
        request := Some(PathRequest(ChasePath, k, Tile(monster.body.tileX, monster.body.tileY),
                                    Tile(target.body.tileX, target.body.tileY), avoid));
        events := [];
      }
    }

    /** The `switch (monster.state)`: a patrol path, a path home, or the chase. */
    method Dispatch(k: string, pk: string, now: int, roll: Roll) returns (request: Option<PathRequest>, events: seq<AIEvent>)
      requires Valid() && k in monsters && pk in players && |grid| > 0
      modifies Objs()
      ensures unchanged(this)
      ensures Turn(View(), request, events) == MonsterAI.Dispatch(old(View()), k, pk, now, roll)
    {
      var monster := monsters[k];
      var from := Tile(monster.body.tileX, monster.body.tileY);
      match monster.state
      case Patrolling =>
        request := Some(PathRequest(PatrolPath, k, from, PatrolTarget(grid, monster.spawnPoint, roll), []));
        events := [];
      case Returning =>
        request := Some(PathRequest(ReturnPath, k, from, monster.spawnPoint, []));
        events := [];
      case Chasing =>
        request, events := Engage(k, pk, now);
    }

    /** One iteration of the `forEach` in `updateMonsterAI`, for the monster under key `k`. */
    method MonsterTurn(k: string, now: int, roll: Roll) returns (request: Option<PathRequest>, events: seq<AIEvent>)
      requires Valid() && k in monsters && |grid| > 0
      modifies Objs()
      ensures unchanged(this) && Valid()
      ensures Turn(View(), request, events) == MonsterAI.MonsterTurn(old(View()), k, now, roll)
    {
      ghost var w := View();
      TurnInv(w, k, now, roll);
      var monster := monsters[k];
      assert monster.body.Val() == w.monsters[k].body;
      if !monster.body.IsAlive() || monster.body.movePath.Some? {
        return None, [];
      }
      var closest := FindClosestPlayer(k);
      ViewKept();
      if closest.None? {
        return None, [];
      }
      var pk := closest.value;
      Switch(k, pk);
      SetMonsterInv(w, k, Switched(w, k, pk));
      request, events := Dispatch(k, pk, now, roll);
    }

    /** `updateMonsterAI()` at time `now`: every monster's turn, in insertion order; `roll` gives each monster's patrol draws. */
    method UpdateMonsterAI(now: int, roll: string -> Roll) returns (requests: seq<PathRequest>, events: seq<AIEvent>)
      requires Valid() && |grid| > 0
      modifies Objs()
      ensures Valid() && Phase(View(), requests, events) == MonsterAI.UpdateMonsterAI(old(View()), now, roll)
    {
      ghost var w := View();
      OrderCovers(w);
      requests, events := [], [];
      for i := 0 to |monsterOrder|
        invariant unchanged(this) && Valid()
        invariant Phase(View(), requests, events) == TurnAll(w, monsterOrder[..i], now, roll)
      {
        requests, events := TurnNext(w, i, now, roll, requests, events);
      }
      assert monsterOrder[..|monsterOrder|] == monsterOrder;
    }

    /** The turn of the `i`-th monster, extending the requests and events so far. */
    method TurnNext(ghost w: World, i: nat, now: int, roll: string -> Roll, requests: seq<PathRequest>, events: seq<AIEvent>)
      returns (requests': seq<PathRequest>, events': seq<AIEvent>)
      requires Valid() && Inv(w) && |w.grid| > 0 && w.monsterOrder == monsterOrder && i < |monsterOrder|
      requires forall k :: k in monsterOrder ==> k in w.monsters
      requires Phase(View(), requests, events) == TurnAll(w, monsterOrder[..i], now, roll)
      modifies Objs()
      ensures unchanged(this) && Valid()
      ensures Phase(View(), requests', events') == TurnAll(w, monsterOrder[..i + 1], now, roll)
    {
      var k := monsterOrder[i];
      TurnAllNext(w, monsterOrder, i, now, roll, Phase(View(), requests, events));
      ghost var t := MonsterAI.MonsterTurn(View(), k, now, roll(k));
      var request, es := MonsterTurn(k, now, roll(k));
      assert Turn(View(), request, es) == t;
      requests' := requests + if request.Some? then [request.value] else [];
      events' := events + es;
    }

    // ----- the path callbacks of the monster AI -----

    /** The patrol `findPath` callback: a path of more than one tile is stored without its start. */
    method OnPatrolPath(k: string, path: Option<seq<Tile>>)
      requires Valid() && k in monsters
      modifies Objs()
      ensures Valid() && View() == MonsterAI.OnPatrolPath(old(View()), k, path)
    {
      OnPatrolPathEffect(View(), k, path);
      if path.Some? && |path.value| > 1 {
        SetPath(MonsterRef(k), Some(path.value[1..]));
      }
    }

    /** The chase `findPath` callback: the path without its start and its end, stored if anything is left. */
    method OnChasePath(k: string, path: Option<seq<Tile>>)
      requires Valid() && k in monsters
      modifies Objs()
      ensures Valid() && View() == MonsterAI.OnChasePath(old(View()), k, path)
    {
      OnChasePathEffect(View(), k, path);
      if path.Some? && |path.value| > 1 {
        var inner := path.value[1..|path.value| - 1];
        if |inner| > 0 {
          SetPath(MonsterRef(k), Some(inner));
        }
      }
    }

    /** The return `findPath` callback: a longer path is stored without its start; a path of at most one tile means home. */
    method OnReturnPath(k: string, path: Option<seq<Tile>>)
      requires Valid() && k in monsters
      modifies Objs()
      ensures Valid() && View() == MonsterAI.OnReturnPath(old(View()), k, path)
    {
      OnReturnPathEffect(View(), k, path);
      if path.Some? && |path.value| > 1 {
        SetPath(MonsterRef(k), Some(path.value[1..]));
      } else if path.Some? {
        SetState(k, Patrolling);
      }
    }

    // ----- the game loop -----

    /** `setup()`: the monsters are spawned; the 200 ms interval is driven from outside through `Tick`. */
    method Setup()
      requires Valid()
      modifies this
      ensures Valid() && View() == Rules.SpawnMonsters(old(View()))
    {
      SpawnMonsters();
    }

    /**
     * One firing of the `setInterval` callback of `startGameLoop`: the
     * movement phase at `moveNow`, then the AI phase at `aiNow` (each phase
     * reads the clock itself), with `roll` giving the patrol draws.
     */
    method Tick(moveNow: int, aiNow: int, roll: string -> Roll) returns (moves: seq<MoveEvent>, requests: seq<PathRequest>, events: seq<AIEvent>)
      requires Valid() && |grid| > 0
      modifies Objs()
      ensures Valid()
      ensures var (w1, ms) := Movement.ExecuteMovement(old(View()), moveNow);
        moves == ms && Phase(View(), requests, events) == MonsterAI.UpdateMonsterAI(w1, aiNow, roll)
    {
      moves := ExecuteMovement(moveNow);
      requests, events := UpdateMonsterAI(aiNow, roll);
    }
  }

  /** The loop of `getSnapshot` over a players table, in its key order. */
  method SnapshotPlayers(order: seq<string>, table: map<string, PlayerRec>) returns (s: map<string, Snapshot>)
    requires OrderOf(table.Keys, order)
    ensures s == map k | k in table :: PlayerSnapshot(table[k])
  {
    s := map[];
    for i := 0 to |order|
      invariant s == map k | k in order[..i] :: PlayerSnapshot(table[k])
    {
      var k := order[i];
      assert order[..i + 1] == order[..i] + [k];
      s := s[k := PlayerSnapshot(table[k])];
    }
    assert order[..|order|] == order;
  }

  /** The loop of `getSnapshot` over a monsters table, in its key order. */
  method SnapshotMonsters(order: seq<string>, table: map<string, MonsterRec>) returns (s: map<string, Snapshot>)
    requires OrderOf(table.Keys, order)
    ensures s == map k | k in table :: MonsterSnapshot(table[k])
  {
    s := map[];
    for i := 0 to |order|
      invariant s == map k | k in order[..i] :: MonsterSnapshot(table[k])
    {
      var k := order[i];
      assert order[..i + 1] == order[..i] + [k];
      s := s[k := MonsterSnapshot(table[k])];
    }
    assert order[..|order|] == order;
  }

  /** The player part of the spread, one key of the players' order after the other. */
  method SpreadPlayerRefs(order: seq<string>, monsters: set<string>) returns (refs: seq<Ref>)
    ensures refs == SpreadPlayers(order, monsters)
  {
    refs := [];
    for i := 0 to |order|
      invariant refs == SpreadPlayers(order[..i], monsters)
    {
      var k := order[i];
      SpreadPlayersNext(order, i, monsters);
      refs := refs + [if k in monsters then MonsterRef(k) else PlayerRef(k)];
    }
    assert order[..|order|] == order;
  }

  /** The monster part of the spread: the monsters whose key no player has, in their order. */
  method SpreadMonsterRefs(order: seq<string>, players: set<string>) returns (refs: seq<Ref>)
    ensures refs == SpreadMonsters(order, players)
  {
    refs := [];
    for i := 0 to |order|
      invariant refs == SpreadMonsters(order[..i], players)
    {
      var k := order[i];
      SpreadMonstersNext(order, i, players);
      if k !in players {
        refs := refs + [MonsterRef(k)];
      }
    }
    assert order[..|order|] == order;
  }

  /** The orders enumerate the tables, so a search over an order covers its table. */
  lemma OrderCovers(w: World)
    requires Inv(w)
    ensures forall k :: k in w.players ==> k in w.playerOrder
    ensures forall k :: k in w.monsters ==> k in w.monsterOrder
  {
  }
}
