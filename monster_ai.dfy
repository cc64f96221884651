/**
 * `updateMonsterAI`, the second phase of every tick, and the three path
 * callbacks it registers. A monster without a pending path looks for the
 * closest live player, switches between patrolling, chasing and returning,
 * attacks a player in reach, and otherwise asks the path finder for a path.
 */
module MonsterAI {
  import opened Wrappers
  import opened Grid
  import opened EntityModel
  import opened GameState
  import opened Rules

  /** The two draws of `Math.floor(Math.random() * 5)` of a patrol, each in `0..4`. */
  datatype Roll = Roll(dx: int, dy: int)

  predicate ValidRoll(roll: Roll) {
    0 <= roll.dx <= 4 && 0 <= roll.dy <= 4
  }

  /** The events a monster's attack broadcasts. */
  datatype AIEvent = Damaged(id: string, health: int, damage: nat) | Died(id: string)

  /** What one monster's turn produces: the new state, the path request it issues, the events it sends. */
  datatype Turn = Turn(world: World, request: Option<PathRequest>, events: seq<AIEvent>)

  function TileOf(b: Body): Tile {
    Tile(b.tileX, b.tileY)
  }

  function DistTo(m: Body, p: Body): nat {
    Dist2(m.tileX, m.tileY, p.tileX, p.tileY)
  }

  // ----- the closest player -----

  /**
   * The search over `Object.values(this.players)` in insertion order: a live
   * player replaces the current choice only when strictly closer, so the
   * first of several equally close players wins.
   */
  function Closest(w: World, order: seq<string>, m: Body): (c: Option<string>)
    requires forall k :: k in order ==> k in w.players
    ensures c.Some? ==> c.value in order && IsAlive(w.players[c.value].body)
    decreases |order|
  {
    if order == [] then None
    else
      var c := Closest(w, order[..|order| - 1], m);
      var k := order[|order| - 1];
      var p := w.players[k].body;
      if !IsAlive(p) then c
      else if c.None? || DistTo(m, p) < DistTo(m, w.players[c.value].body) then Some(k)
      else c
  }

  /**
   * The search finds nothing exactly when no player of `order` is alive;
   * otherwise it finds a live player at minimal distance, and every live
   * player before it in `order` is strictly farther.
   */
  lemma {:induction false} ClosestSpec(w: World, order: seq<string>, m: Body)
    requires forall k :: k in order ==> k in w.players
    ensures var c := Closest(w, order, m);
      && (c.None? <==> forall k :: k in order ==> !IsAlive(w.players[k].body))
      && (c.Some? ==>
            && c.value in order && IsAlive(w.players[c.value].body)
            && (forall k :: k in order && IsAlive(w.players[k].body) ==>
                  DistTo(m, w.players[c.value].body) <= DistTo(m, w.players[k].body))
            && exists j :: 0 <= j < |order| && order[j] == c.value &&
                 forall i :: 0 <= i < j && IsAlive(w.players[order[i]].body) ==>
                   DistTo(m, w.players[order[i]].body) > DistTo(m, w.players[c.value].body))
    decreases |order|
  {
    if order != [] {
      var init := order[..|order| - 1];
      var k := order[|order| - 1];
      assert order == init + [k];
      ClosestSpec(w, init, m);
      var c := Closest(w, init, m);
      var p := w.players[k].body;
      if IsAlive(p) && (c.None? || DistTo(m, p) < DistTo(m, w.players[c.value].body)) {
        var j := |order| - 1;
        forall i | 0 <= i < j && IsAlive(w.players[order[i]].body)
          ensures DistTo(m, w.players[order[i]].body) > DistTo(m, p)
        {
          assert order[i] in init;
        }
      } else if c.Some? {
        var j :| 0 <= j < |init| && init[j] == c.value &&
          forall i :: 0 <= i < j && IsAlive(w.players[init[i]].body) ==>
            DistTo(m, w.players[init[i]].body) > DistTo(m, w.players[c.value].body);
        assert order[j] == c.value;
        forall i | 0 <= i < j && IsAlive(w.players[order[i]].body)
          ensures DistTo(m, w.players[order[i]].body) > DistTo(m, w.players[c.value].body)
        {
          assert order[i] == init[i];
        }
      }
    }
  }

  // ----- one monster's turn -----

  /** The patrol destination: the spawn point moved by `-2..2` on each axis, clamped into the map. */
  function PatrolTarget(grid: Map, spawn: Tile, roll: Roll): (t: Tile)
    requires |grid| > 0
    ensures 0 <= t.y < |grid| && 0 <= t.x && (|grid[0]| > 0 ==> t.x < |grid[0]|)
    ensures ValidRoll(roll) && 0 <= spawn.x < |grid[0]| && 0 <= spawn.y < |grid| ==>
      -2 <= t.x - spawn.x <= 2 && -2 <= t.y - spawn.y <= 2
  {
    Tile(Clamp(spawn.x + roll.dx - 2, 0, |grid[0]| - 1), Clamp(spawn.y + roll.dy - 2, 0, |grid| - 1))
  }

  /** Put monster record `m` under key `k`. */
  function SetMonster(w: World, k: string, m: MonsterRec): (w': World)
    requires k in w.monsters
    ensures SameShape(w, w')
  {
    w.(monsters := w.monsters[k := m])
  }

  /** The state switch before the dispatch: give up an out-of-range chase, chase a player in range. */
  function Retarget(m: MonsterRec, playerId: string, out: bool): (m': MonsterRec)
    ensures m'.body == m.body && m'.spawnPoint == m.spawnPoint && m'.lastAttackTime == m.lastAttackTime
  {
    var m1 := if m.state == Chasing && out then m.(state := Returning, targetId := None) else m;
    if !out then m1.(state := Chasing, targetId := Some(playerId)) else m1
  }

  /** The state after the switch: chasing exactly when the closest player is in range; the rest is kept. */
  lemma RetargetEffect(m: MonsterRec, playerId: string, out: bool)
    ensures var m' := Retarget(m, playerId, out);
      && m'.body == m.body && m'.lastAttackTime == m.lastAttackTime
      && (!out ==> m'.state == Chasing && m'.targetId == Some(playerId))
      && (out && m.state == Chasing ==> m'.state == Returning && m'.targetId == None)
      && (out && m.state != Chasing ==> m' == m)
      && (m'.state == Chasing <==> !out)
  {
  }

  /** Replacing a monster's record by one with the same body keeps the table invariant. */
  lemma SetMonsterInv(w: World, k: string, m: MonsterRec)
    requires Inv(w) && k in w.monsters && m.body == w.monsters[k].body
    ensures Inv(SetMonster(w, k, m))
  {
  }

  /** The closest live player of monster `k`, searched in insertion order. */
  function ClosestPlayer(w: World, k: string): (c: Option<string>)
    requires Inv(w) && k in w.monsters
    ensures c.Some? ==> c.value in w.players && IsAlive(w.players[c.value].body)
  {
    Closest(w, w.playerOrder, w.monsters[k].body)
  }

  /**
   * The attack: the player `pk` takes the monster's damage, the monster
   * records the time and, after a kill, goes home without a target.
   */
  function Strike(w: World, k: string, pk: string, now: int): (t: Turn)
    requires k in w.monsters && pk in w.players
    ensures SameShape(w, t.world)
  {
    var m := w.monsters[k];
    var hit := TakeDamage(w.players[pk].body, m.damage);
    var m' := if IsAlive(hit) then m.(lastAttackTime := now)
              else m.(lastAttackTime := now, state := Returning, targetId := None);
    Turn(SetMonster(WithBody(w, PlayerRef(pk), hit), k, m'), None,
         [Damaged(pk, hit.health, m.damage)] + if IsAlive(hit) then [] else [Died(pk)])
  }

  /** The attack as the sequence of writes it is made of: the attack time, the damage, then a kill's way home. */
  lemma StrikeSteps(w: World, k: string, pk: string, now: int)
    requires Inv(w) && k in w.monsters && pk in w.players
    ensures var m := w.monsters[k];
      var w1 := SetMonster(w, k, m.(lastAttackTime := now));
      var w2 := WithBody(w1, PlayerRef(pk), TakeDamage(w1.players[pk].body, m.damage));
      var hit := w2.players[pk].body;
      Strike(w, k, pk, now) ==
        Turn(if IsAlive(hit) then w2 else SetMonster(w2, k, w2.monsters[k].(state := Returning, targetId := None)),
             None, [Damaged(hit.id, hit.health, m.damage)] + if IsAlive(hit) then [] else [Died(hit.id)])
  {
  }

  /** The `chasing` branch, for a monster already switched to chase player `pk`. */
  function Engage(w: World, k: string, pk: string, now: int): (t: Turn)
    requires Inv(w) && k in w.monsters && pk in w.players
    ensures SameShape(w, t.world)
  {
    var m := w.monsters[k];
    if WithinRange(DistTo(m.body, w.players[pk].body), m.attackRange) then
      if now > m.lastAttackTime + m.attackCooldown then Strike(w, k, pk, now) else Turn(w, None, [])
    else
      SpreadOrderHas(w);
      Turn(w, Some(PathRequest(ChasePath, k, TileOf(m.body), TileOf(w.players[pk].body),
                               AvoidTiles(w, SpreadOrder(w), {k, pk}))), [])
  }

  /** The `switch (monster.state)` that follows the state switch. */
  function Dispatch(w: World, k: string, pk: string, now: int, roll: Roll): (t: Turn)
    requires Inv(w) && k in w.monsters && pk in w.players && |w.grid| > 0
    ensures SameShape(w, t.world)
  {
    var m := w.monsters[k];
    match m.state
    case Patrolling =>
      Turn(w, Some(PathRequest(PatrolPath, k, TileOf(m.body), PatrolTarget(w.grid, m.spawnPoint, roll), [])), [])
    case Returning =>
      Turn(w, Some(PathRequest(ReturnPath, k, TileOf(m.body), m.spawnPoint, [])), [])
    case Chasing =>
      Engage(w, k, pk, now)
  }

  /** The monster record after the state switch, for a live idle monster that sees player `pk`. */
  function Switched(w: World, k: string, pk: string): (m: MonsterRec)
    requires k in w.monsters && pk in w.players
    ensures m.body == w.monsters[k].body
  {
    var m := w.monsters[k];
    var p := w.players[pk];
    Retarget(m, p.playerId, FartherThan(DistTo(m.body, p.body), m.detectionRange))
  }

  /** One iteration of the `forEach` in `updateMonsterAI` for the monster under key `k`. */
  function MonsterTurn(w: World, k: string, now: int, roll: Roll): (t: Turn)
    requires Inv(w) && k in w.monsters && |w.grid| > 0
    ensures SameShape(w, t.world)
  {
    var m := w.monsters[k];
    var c := ClosestPlayer(w, k);
    if !IsAlive(m.body) || m.body.movePath.Some? || c.None? then Turn(w, None, [])
    else
      SetMonsterInv(w, k, Switched(w, k, c.value));
      Dispatch(SetMonster(w, k, Switched(w, k, c.value)), k, c.value, now, roll)
  }

  /** A dead monster, one still walking a path, or one with no live player to look at does nothing at all. */
  lemma TurnIdle(w: World, k: string, now: int, roll: Roll)
    requires Inv(w) && k in w.monsters && |w.grid| > 0
    requires !IsAlive(w.monsters[k].body) || w.monsters[k].body.movePath.Some? ||
             forall pk :: pk in w.players ==> !IsAlive(w.players[pk].body)
    ensures MonsterTurn(w, k, now, roll) == Turn(w, None, [])
  {
    ClosestSpec(w, w.playerOrder, w.monsters[k].body);
  }

  /**
   * The player a live idle monster looks at exists whenever some player is
   * alive: a live player at minimal distance, and every live player before it
   * in insertion order is strictly farther.
   */
  lemma ClosestPlayerSpec(w: World, k: string)
    requires Inv(w) && k in w.monsters
    ensures var c := ClosestPlayer(w, k);
      var m := w.monsters[k].body;
      && (c.None? <==> forall q :: q in w.players ==> !IsAlive(w.players[q].body))
      && (c.Some? ==>
            && (forall q :: q in w.players && IsAlive(w.players[q].body) ==>
                  DistTo(m, w.players[c.value].body) <= DistTo(m, w.players[q].body))
            && exists j :: 0 <= j < |w.playerOrder| && w.playerOrder[j] == c.value &&
                 forall i :: 0 <= i < j && IsAlive(w.players[w.playerOrder[i]].body) ==>
                   DistTo(m, w.players[w.playerOrder[i]].body) > DistTo(m, w.players[c.value].body))
  {
    ClosestSpec(w, w.playerOrder, w.monsters[k].body);
  }

  /**
   * A live idle monster whose closest live player `pk` is out of detection
   * range: a chaser gives up and heads home, a returning monster asks again
   * for the way home, a patrolling one asks for a path to a random tile at most
   * two tiles from its spawn point on each axis, inside the map.
   */
  lemma TurnOutOfRange(w: World, k: string, now: int, roll: Roll, pk: string)
    requires Inv(w) && k in w.monsters && |w.grid| > 0 && |w.grid[0]| > 0 && ValidRoll(roll)
    requires var m := w.monsters[k]; IsAlive(m.body) && m.body.movePath.None?
    requires ClosestPlayer(w, k) == Some(pk)
    requires FartherThan(DistTo(w.monsters[k].body, w.players[pk].body), w.monsters[k].detectionRange)
    ensures var m := w.monsters[k];
      var t := MonsterTurn(w, k, now, roll);
      && t.events == [] && t.request.Some?
      && t.world.players == w.players
      && t.request.value.requester == k && t.request.value.from == TileOf(m.body)
      && (m.state == Patrolling ==>
            var to := t.request.value.to;
            var sp := m.spawnPoint;
            && t.world == w
            && t.request.value.purpose == PatrolPath && t.request.value.avoid == []
            && 0 <= to.x < |w.grid[0]| && 0 <= to.y < |w.grid|
            && (0 <= sp.x < |w.grid[0]| ==> sp.x - 2 <= to.x <= sp.x + 2)
            && (0 <= sp.y < |w.grid| ==> sp.y - 2 <= to.y <= sp.y + 2))
      && (m.state != Patrolling ==>
            && t.world == SetMonster(w, k, m.(state := Returning, targetId := if m.state == Chasing then None else m.targetId))
            && t.request.value.purpose == ReturnPath && t.request.value.to == m.spawnPoint)
  {
    var m := w.monsters[k];
    var sp := m.spawnPoint;
    assert SetMonster(w, k, m) == w;
    ClampBounds(sp.x + roll.dx - 2, 0, |w.grid[0]| - 1);
    ClampBounds(sp.y + roll.dy - 2, 0, |w.grid| - 1);
  }

  /**
   * A live idle monster whose closest live player `pk` is in detection and
   * attack range chases it; with its cooldown strictly elapsed it hits the
   * player for its damage, and a kill sends the monster home; otherwise it
   * waits.
   */
  lemma TurnAttack(w: World, k: string, now: int, roll: Roll, pk: string)
    requires Inv(w) && k in w.monsters && |w.grid| > 0
    requires var m := w.monsters[k]; IsAlive(m.body) && m.body.movePath.None?
    requires ClosestPlayer(w, k) == Some(pk)
    requires var m := w.monsters[k]; var d2 := DistTo(m.body, w.players[pk].body);
      WithinRange(d2, m.detectionRange) && WithinRange(d2, m.attackRange)
    ensures var m := w.monsters[k];
      var t := MonsterTurn(w, k, now, roll);
      var hit := TakeDamage(w.players[pk].body, m.damage);
      && t.request == None
      && (now > m.lastAttackTime + m.attackCooldown ==>
            && t.world.players == w.players[pk := w.players[pk].(body := hit)]
            && t.world.monsters == w.monsters[k := m.(lastAttackTime := now,
                 state := if IsAlive(hit) then Chasing else Returning,
                 targetId := if IsAlive(hit) then Some(pk) else None)]
            && t.events == [Damaged(pk, hit.health, m.damage)] + (if IsAlive(hit) then [] else [Died(pk)]))
      && (now <= m.lastAttackTime + m.attackCooldown ==>
            t.world == SetMonster(w, k, m.(state := Chasing, targetId := Some(pk))) && t.events == [])
  {
    var m := w.monsters[k];
    var m2 := m.(state := Chasing, targetId := Some(pk));
    assert Switched(w, k, pk) == m2;
    var w1 := SetMonster(w, k, m2);
    assert MonsterTurn(w, k, now, roll) == Engage(w1, k, pk, now);
  }

  /**
   * A live idle monster whose closest live player `pk` is in detection range
   * but out of attack range asks for a path to that player's tile, avoiding
   * the tile of every other live entity except itself and its target.
   */
  lemma TurnPursue(w: World, k: string, now: int, roll: Roll, pk: string, t: Tile)
    requires Inv(w) && k in w.monsters && |w.grid| > 0
    requires var m := w.monsters[k]; IsAlive(m.body) && m.body.movePath.None?
    requires ClosestPlayer(w, k) == Some(pk)
    requires var m := w.monsters[k]; var d2 := DistTo(m.body, w.players[pk].body);
      WithinRange(d2, m.detectionRange) && FartherThan(d2, m.attackRange)
    ensures var m := w.monsters[k];
      var turn := MonsterTurn(w, k, now, roll);
      && turn.world == SetMonster(w, k, m.(state := Chasing, targetId := Some(pk)))
      && turn.events == []
      && turn.request.Some?
      && var req := turn.request.value;
      && req.purpose == ChasePath && req.requester == k
      && req.from == TileOf(m.body) && req.to == TileOf(w.players[pk].body)
      && (t in req.avoid <==>
            exists r :: r in SpreadOrder(w) && Has(w, r) && r.key != k && r.key != pk &&
                        IsAlive(BodyOf(w, r)) && TileOf(BodyOf(w, r)) == t)
  {
    var m := w.monsters[k];
    var m2 := m.(state := Chasing, targetId := Some(pk));
    assert Switched(w, k, pk) == m2;
    var w1 := SetMonster(w, k, m2);
    SetMonsterInv(w, k, m2);
    assert MonsterTurn(w, k, now, roll) == Engage(w1, k, pk, now);
    SameShapeSpread(w, w1);
    SpreadOrderHas(w1);
    AvoidTilesIff(w1, SpreadOrder(w1), {k, pk}, t);
    forall r | r in SpreadOrder(w1)
      ensures Has(w, r) && EntityId(w1, r) == r.key && BodyOf(w1, r) == BodyOf(w, r)
    {
      EntityIdIsKey(w1, r);
    }
  }

  /**
   * The attack rule of a whole turn: a player's record changes only when it is
   * the monster's closest live player, within detection and attack range,
   * with the cooldown strictly elapsed, and then only its health, lowered by
   * the monster's damage.
   */
  lemma TurnAttackRule(w: World, k: string, now: int, roll: Roll, q: string)
    requires Inv(w) && k in w.monsters && |w.grid| > 0 && q in w.players
    ensures var m := w.monsters[k];
      var t := MonsterTurn(w, k, now, roll);
      t.world.players[q] != w.players[q] ==>
        && IsAlive(m.body) && m.body.movePath.None?
        && ClosestPlayer(w, k) == Some(q)
        && WithinRange(DistTo(m.body, w.players[q].body), m.detectionRange)
        && WithinRange(DistTo(m.body, w.players[q].body), m.attackRange)
        && now > m.lastAttackTime + m.attackCooldown
        && t.world.players[q] == w.players[q].(body := TakeDamage(w.players[q].body, m.damage))
  {
    var m := w.monsters[k];
    var c := ClosestPlayer(w, k);
    var t := MonsterTurn(w, k, now, roll);
    if IsAlive(m.body) && m.body.movePath.None? && c.Some? {
      var pk := c.value;
      var m2 := Switched(w, k, pk);
      var w1 := SetMonster(w, k, m2);
      SetMonsterInv(w, k, m2);
      assert t == Dispatch(w1, k, pk, now, roll);
      RetargetEffect(m, w.players[pk].playerId, FartherThan(DistTo(m.body, w.players[pk].body), m.detectionRange));
      if m2.state == Chasing {
        assert t == Engage(w1, k, pk, now);
        var d2 := DistTo(m.body, w.players[pk].body);
        if WithinRange(d2, m.attackRange) && now > m.lastAttackTime + m.attackCooldown {
          assert t == Strike(w1, k, pk, now);
          assert t.world.players == w.players[pk := w.players[pk].(body := TakeDamage(w.players[pk].body, m.damage))];
        } else {
          assert t.world.players == w.players;
        }
      } else {
        assert t.world.players == w.players;
      }
    } else {
      assert t.world == w;
    }
  }

  /** A turn moves nobody and touches no path: every monster keeps its body, every other monster its record. */
  lemma TurnKeepsMonsters(w: World, k: string, now: int, roll: Roll)
    requires Inv(w) && k in w.monsters && |w.grid| > 0
    ensures var t := MonsterTurn(w, k, now, roll);
      && t.world.monsters[k].body == w.monsters[k].body
      && forall j :: j in w.monsters && j != k ==> t.world.monsters[j] == w.monsters[j]
  {
  }

  /** A turn keeps the table invariant. */
  lemma TurnInv(w: World, k: string, now: int, roll: Roll)
    requires Inv(w) && k in w.monsters && |w.grid| > 0
    ensures Inv(MonsterTurn(w, k, now, roll).world)
  {
    var m := w.monsters[k];
    var c := ClosestPlayer(w, k);
    var t := MonsterTurn(w, k, now, roll);
    if IsAlive(m.body) && m.body.movePath.None? && c.Some? {
      var pk := c.value;
      var m2 := Switched(w, k, pk);
      var w1 := SetMonster(w, k, m2);
      SetMonsterInv(w, k, m2);
      assert t == Dispatch(w1, k, pk, now, roll);
      DispatchInv(w1, k, pk, now, roll);
    }
  }

  /** The dispatch keeps the table invariant. */
  lemma DispatchInv(w: World, k: string, pk: string, now: int, roll: Roll)
    requires Inv(w) && k in w.monsters && pk in w.players && |w.grid| > 0
    ensures Inv(Dispatch(w, k, pk, now, roll).world)
  {
    var m := w.monsters[k];
    if m.state == Chasing && WithinRange(DistTo(m.body, w.players[pk].body), m.attackRange) &&
       now > m.lastAttackTime + m.attackCooldown {
      StrikeInv(w, k, pk, now);
    }
  }

  /** An attack keeps the table invariant. */
  lemma StrikeInv(w: World, k: string, pk: string, now: int)
    requires Inv(w) && k in w.monsters && pk in w.players
    ensures Inv(Strike(w, k, pk, now).world)
  {
    var m := w.monsters[k];
    var hit := TakeDamage(w.players[pk].body, m.damage);
    TakeDamageKeepsInv(w.players[pk].body, m.damage);
    var w2 := WithBody(w, PlayerRef(pk), hit);
    WithBodyInv(w, PlayerRef(pk), hit);
    SetMonsterInv(w2, k, m.(lastAttackTime := now));
    SetMonsterInv(w2, k, m.(lastAttackTime := now, state := Returning, targetId := None));
  }

  // ----- the whole phase -----

  /** The outcome of the phase: the new state, the path requests in issue order, the events in send order. */
  datatype Phase = Phase(world: World, requests: seq<PathRequest>, events: seq<AIEvent>)

  /** The turns of the monsters of `order`, in that order; `roll` gives each monster's patrol draws. */
  function TurnAll(w: World, order: seq<string>, now: int, roll: string -> Roll): (ph: Phase)
    requires Inv(w) && |w.grid| > 0 && forall k :: k in order ==> k in w.monsters
    ensures SameShape(w, ph.world) && Inv(ph.world)
    decreases |order|
  {
    if order == [] then Phase(w, [], [])
    else
      var ph := TurnAll(w, order[..|order| - 1], now, roll);
      var k := order[|order| - 1];
      TurnInv(ph.world, k, now, roll(k));
      var t := MonsterTurn(ph.world, k, now, roll(k));
      Phase(t.world, ph.requests + (if t.request.Some? then [t.request.value] else []), ph.events + t.events)
  }

  /** The fold one monster further. */
  lemma TurnAllNext(w: World, order: seq<string>, i: nat, now: int, roll: string -> Roll, ph: Phase)
    requires Inv(w) && |w.grid| > 0 && (forall k :: k in order ==> k in w.monsters) && i < |order|
    requires TurnAll(w, order[..i], now, roll) == ph
    ensures Inv(ph.world) && |ph.world.grid| > 0 && order[i] in ph.world.monsters
    ensures var t := MonsterTurn(ph.world, order[i], now, roll(order[i]));
      TurnAll(w, order[..i + 1], now, roll) ==
        Phase(t.world, ph.requests + (if t.request.Some? then [t.request.value] else []), ph.events + t.events)
  {
    assert order[..i + 1][..i] == order[..i];
  }

  /** `updateMonsterAI` at time `now`: every monster in insertion order. */
  function UpdateMonsterAI(w: World, now: int, roll: string -> Roll): (ph: Phase)
    requires Inv(w) && |w.grid| > 0
    ensures SameShape(w, ph.world) && Inv(ph.world)
  {
    TurnAll(w, w.monsterOrder, now, roll)
  }

  function Requesters(reqs: seq<PathRequest>): (ks: seq<string>)
    ensures |ks| == |reqs|
    ensures forall i :: 0 <= i < |reqs| ==> ks[i] == reqs[i].requester
  {
    if reqs == [] then [] else Requesters(reqs[..|reqs| - 1]) + [reqs[|reqs| - 1].requester]
  }

  /** Over a phase each monster issues at most one path request, and only for itself. */
  lemma {:induction false} TurnAllRequests(w: World, order: seq<string>, now: int, roll: string -> Roll)
    requires Inv(w) && |w.grid| > 0 && (forall k :: k in order ==> k in w.monsters) && Distinct(order)
    ensures var ph := TurnAll(w, order, now, roll);
      && Distinct(Requesters(ph.requests))
      && forall i :: 0 <= i < |ph.requests| ==> ph.requests[i].requester in order
    decreases |order|
  {
    if order != [] {
      var init := order[..|order| - 1];
      var k := order[|order| - 1];
      assert Distinct(init);
      TurnAllRequests(w, init, now, roll);
      var ph := TurnAll(w, init, now, roll);
      var t := MonsterTurn(ph.world, k, now, roll(k));
      forall i | 0 <= i < |ph.requests|
        ensures ph.requests[i].requester != k
      {
        assert ph.requests[i].requester in init;
      }
      MonsterTurnRequester(ph.world, k, now, roll(k));
    }
  }

  /** In one turn a player's record changes in its health only, which never rises. */
  lemma TurnHealthOnly(w: World, k: string, now: int, roll: Roll, q: string)
    requires Inv(w) && k in w.monsters && |w.grid| > 0 && q in w.players
    ensures var t := MonsterTurn(w, k, now, roll);
      && t.world.players[q] == w.players[q].(body := w.players[q].body.(health := t.world.players[q].body.health))
      && t.world.players[q].body.health <= w.players[q].body.health
  {
    TurnAttackRule(w, k, now, roll, q);
    TakeDamageKeepsInv(w.players[q].body, w.monsters[k].damage);
  }

  /**
   * The phase moves nobody and touches no path: every monster keeps its body,
   * and a player's record changes in its health only, which never rises.
   */
  lemma {:induction false} TurnAllFrame(w: World, order: seq<string>, now: int, roll: string -> Roll)
    requires Inv(w) && |w.grid| > 0 && (forall k :: k in order ==> k in w.monsters)
    ensures var ph := TurnAll(w, order, now, roll);
      && (forall k :: k in w.monsters ==> ph.world.monsters[k].body == w.monsters[k].body)
      && (forall q :: q in w.players ==>
            && ph.world.players[q] == w.players[q].(body := w.players[q].body.(health := ph.world.players[q].body.health))
            && ph.world.players[q].body.health <= w.players[q].body.health)
    decreases |order|
  {
    if order != [] {
      var init := order[..|order| - 1];
      var k := order[|order| - 1];
      TurnAllFrame(w, init, now, roll);
      var ph := TurnAll(w, init, now, roll);
      forall q | q in w.players
        ensures var t := MonsterTurn(ph.world, k, now, roll(k));
          && t.world.players[q] == ph.world.players[q].(body := ph.world.players[q].body.(health := t.world.players[q].body.health))
          && t.world.players[q].body.health <= ph.world.players[q].body.health
      {
        TurnHealthOnly(ph.world, k, now, roll(k), q);
      }
      TurnKeepsMonsters(ph.world, k, now, roll(k));
    }
  }

  /** A monster's request is always its own. */
  lemma MonsterTurnRequester(w: World, k: string, now: int, roll: Roll)
    requires Inv(w) && k in w.monsters && |w.grid| > 0
    ensures var t := MonsterTurn(w, k, now, roll);
      t.request.Some? ==> t.request.value.requester == k && t.request.value.from == TileOf(w.monsters[k].body)
  {
  }

  // ----- the path callbacks -----

  /** Store a non-empty path on monster `k`. */
  function SetMonsterPath(w: World, k: string, path: seq<Tile>): (w': World)
    requires k in w.monsters
    ensures SameShape(w, w')
  {
    WithBody(w, MonsterRef(k), w.monsters[k].body.(movePath := Some(path)))
  }

  /** The patrol callback: a path of more than one tile is stored without its start. */
  function OnPatrolPath(w: World, k: string, path: Option<seq<Tile>>): (w': World)
    requires k in w.monsters
    ensures SameShape(w, w') && w'.players == w.players
  {
    if path.Some? && |path.value| > 1 then SetMonsterPath(w, k, path.value[1..]) else w
  }

  /**
   * The chase callback: a path of more than one tile loses its start and its
   * end (the target's own tile) and is stored if anything is left.
   */
  function OnChasePath(w: World, k: string, path: Option<seq<Tile>>): (w': World)
    requires k in w.monsters
    ensures SameShape(w, w') && w'.players == w.players
  {
    if path.Some? && |path.value| > 1 then
      var inner := path.value[1..|path.value| - 1];
      if |inner| > 0 then SetMonsterPath(w, k, inner) else w
    else w
  }

  /**
   * The return callback: a path of more than one tile is stored without its
   * start; a path of at most one tile means the monster is home and patrols
   * again; no path changes nothing.
   */
  function OnReturnPath(w: World, k: string, path: Option<seq<Tile>>): (w': World)
    requires k in w.monsters
    ensures SameShape(w, w') && w'.players == w.players
  {
    if path.Some? && |path.value| > 1 then SetMonsterPath(w, k, path.value[1..])
    else if path.Some? then SetMonster(w, k, w.monsters[k].(state := Patrolling))
    else w
  }

  /** The patrol callback stores the found path minus its start, never an empty one. */
  lemma OnPatrolPathEffect(w: World, k: string, path: Option<seq<Tile>>)
    requires Inv(w) && k in w.monsters
    ensures var w' := OnPatrolPath(w, k, path);
      && Inv(w')
      && (path.Some? && |path.value| > 1 ==>
            && w'.monsters[k].body.movePath.Some?
            && [path.value[0]] + w'.monsters[k].body.movePath.value == path.value
            && w' == SetMonster(w, k, w.monsters[k].(body := w.monsters[k].body.(movePath := Some(path.value[1..])))))
      && (path.None? || |path.value| <= 1 ==> w' == w)
  {
    if path.Some? && |path.value| > 1 {
      WithBodyInv(w, MonsterRef(k), w.monsters[k].body.(movePath := Some(path.value[1..])));
    }
  }

  /**
   * The chase callback stores the found path minus its first and last tile
   * exactly when that leaves at least one tile; a path that only joins the
   * monster to its target stores nothing.
   */
  lemma OnChasePathEffect(w: World, k: string, path: Option<seq<Tile>>)
    requires Inv(w) && k in w.monsters
    ensures var w' := OnChasePath(w, k, path);
      && Inv(w')
      && (path.Some? && |path.value| > 2 ==>
            && w'.monsters[k].body.movePath.Some?
            && [path.value[0]] + w'.monsters[k].body.movePath.value + [path.value[|path.value| - 1]] == path.value
            && w' == SetMonster(w, k, w.monsters[k].(body := w.monsters[k].body.(movePath := w'.monsters[k].body.movePath))))
      && (path.None? || |path.value| <= 2 ==> w' == w)
  {
    if path.Some? && |path.value| > 2 {
      var p := path.value;
      WithBodyInv(w, MonsterRef(k), w.monsters[k].body.(movePath := Some(p[1..|p| - 1])));
      assert [p[0]] + p[1..|p| - 1] + [p[|p| - 1]] == p;
    }
  }

  /**
   * The return callback: a path of more than one tile is stored without its
   * start and the state is kept; an empty or one-tile path switches the monster
   * to patrolling; no path changes nothing.
   */
  lemma OnReturnPathEffect(w: World, k: string, path: Option<seq<Tile>>)
    requires Inv(w) && k in w.monsters
    ensures var w' := OnReturnPath(w, k, path);
      && Inv(w')
      && (path.Some? && |path.value| > 1 ==>
            && w'.monsters[k].body.movePath.Some?
            && [path.value[0]] + w'.monsters[k].body.movePath.value == path.value
            && w'.monsters[k].state == w.monsters[k].state
            && w' == SetMonster(w, k, w.monsters[k].(body := w.monsters[k].body.(movePath := Some(path.value[1..])))))
      && (path.Some? && |path.value| <= 1 ==> w' == SetMonster(w, k, w.monsters[k].(state := Patrolling)))
      && (path.None? ==> w' == w)
  {
    if path.Some? && |path.value| > 1 {
      WithBodyInv(w, MonsterRef(k), w.monsters[k].body.(movePath := Some(path.value[1..])));
    }
  }
}
