/**
 * `executeMovement`, the first phase of every tick: each entity of
 * `{...players, ...monsters}` that is alive, has a path and whose cooldown has
 * elapsed takes the next waypoint, unless that tile is blocked, in which case
 * its path is dropped.
 */
module Movement {
  import opened Wrappers
  import opened Grid
  import opened EntityModel
  import opened GameState

  /** `entityMoved`: the snapshot after the step and whether the path is now used up. */
  datatype MoveEvent = MoveEvent(entity: Ref, snapshot: Snapshot, pathComplete: bool)

  function RefSnapshot(w: World, r: Ref): Snapshot
    requires Has(w, r)
  {
    match r
    case PlayerRef(k) => PlayerSnapshot(w.players[k])
    case MonsterRef(k) => MonsterSnapshot(w.monsters[k])
  }

  function SetMonsterState(w: World, k: string, s: AIState): (w': World)
    requires k in w.monsters
    ensures SameShape(w, w')
  {
    w.(monsters := w.monsters[k := w.monsters[k].(state := s)])
  }

  /** The entity takes part in this tick: alive, a non-empty path, and its cooldown elapsed. */
  predicate Due(b: Body, now: int) {
    IsAlive(b) && b.movePath.Some? && |b.movePath.value| > 0 && now >= b.lastMoveTime + b.speed
  }

  /** One entity's turn in `executeMovement`. */
  function StepEntity(w: World, r: Ref, now: int): (res: (World, Option<MoveEvent>))
    requires Has(w, r)
    ensures SameShape(w, res.0)
  {
    var b := BodyOf(w, r);
    if !(IsAlive(b) && b.movePath.Some? && |b.movePath.value| > 0) then (w, None)
    else if now < b.lastMoveTime + b.speed then (w, None)
    else
      var next := b.movePath.value[0];
      if Blocked(WithBody(w, r, b.(lastMoveTime := now)), next.x, next.y) then (Halt(w, r, now), None)
      else Advance(w, r, now)
  }

  /** The next waypoint is blocked: the move time is recorded, the path dropped, and a monster starts patrolling. */
  function Halt(w: World, r: Ref, now: int): (w': World)
    requires Has(w, r)
    ensures SameShape(w, w')
  {
    var w1 := WithBody(w, r, BodyOf(w, r).(lastMoveTime := now, movePath := None));
    if r.MonsterRef? then SetMonsterState(w1, r.key, Patrolling) else w1
  }

  /**
   * The next waypoint is free: the move time is recorded, the waypoint shifted
   * off the path and the entity put on it; the event is built at that point.
   * A used-up path then becomes `null` and a returning monster starts patrolling.
   */
  function Advance(w: World, r: Ref, now: int): (res: (World, Option<MoveEvent>))
    requires Has(w, r) && BodyOf(w, r).movePath.Some? && |BodyOf(w, r).movePath.value| > 0
    ensures SameShape(w, res.0)
  {
    var path := BodyOf(w, r).movePath.value;
    var rest := path[1..];
    var w1 := WithBody(w, r, MoveTo(BodyOf(w, r).(lastMoveTime := now, movePath := Some(rest)), path[0]));
    var event := MoveEvent(r, RefSnapshot(w1, r), |rest| == 0);
    (if |rest| > 0 then w1 else ClosePath(w1, r), Some(event))
  }

  /** A used-up path becomes `null`, and a returning monster starts patrolling. */
  function ClosePath(w: World, r: Ref): (w': World)
    requires Has(w, r)
    ensures SameShape(w, w')
  {
    var w1 := WithBody(w, r, BodyOf(w, r).(movePath := None));
    if r.MonsterRef? && w1.monsters[r.key].state == Returning then SetMonsterState(w1, r.key, Patrolling) else w1
  }

  /** `executeMovement` over the entities `refs`, in that order; the events in emission order. */
  function MoveAll(w: World, refs: seq<Ref>, now: int): (res: (World, seq<MoveEvent>))
    requires forall r :: r in refs ==> Has(w, r)
    ensures SameShape(w, res.0)
    decreases |refs|
  {
    if refs == [] then (w, [])
    else
      var (w1, es) := MoveAll(w, refs[..|refs| - 1], now);
      SameShapeHas(w, w1, refs[|refs| - 1]);
      var (w2, e) := StepEntity(w1, refs[|refs| - 1], now);
      (w2, es + if e.Some? then [e.value] else [])
  }

  /** The fold one entity further. */
  lemma MoveAllNext(w: World, refs: seq<Ref>, i: nat, now: int, w1: World, es: seq<MoveEvent>)
    requires (forall r :: r in refs ==> Has(w, r)) && i < |refs|
    requires MoveAll(w, refs[..i], now) == (w1, es)
    ensures Has(w1, refs[i])
    ensures var (w2, e) := StepEntity(w1, refs[i], now);
      MoveAll(w, refs[..i + 1], now) == (w2, es + if e.Some? then [e.value] else [])
  {
    assert refs[..i + 1][..i] == refs[..i];
    SameShapeHas(w, w1, refs[i]);
  }

  /** The movement phase of a tick at time `now`. */
  function ExecuteMovement(w: World, now: int): (res: (World, seq<MoveEvent>))
    requires Inv(w)
    ensures SameShape(w, res.0) && Inv(res.0)
  {
    SpreadOrderHas(w);
    MoveAllInv(w, SpreadOrder(w), now);
    MoveAll(w, SpreadOrder(w), now)
  }

  // ----- one step -----

  /** An entity that is dead, idle or still cooling down is skipped and nothing changes. */
  lemma StepSkips(w: World, r: Ref, now: int)
    requires Has(w, r) && !Due(BodyOf(w, r), now)
    ensures StepEntity(w, r, now) == (w, None)
  {
  }

  /**
   * A due entity whose next waypoint is blocked records the time, loses its
   * path without moving, and a monster falls back to patrolling.
   */
  lemma StepBlocked(w: World, r: Ref, now: int)
    requires Has(w, r) && Due(BodyOf(w, r), now)
    requires var next := BodyOf(w, r).movePath.value[0]; Blocked(w, next.x, next.y)
    ensures var (w', e) := StepEntity(w, r, now);
      var b := BodyOf(w, r);
      && e == None
      && BodyOf(w', r) == b.(lastMoveTime := now, movePath := None)
      && (r.MonsterRef? ==> w'.monsters[r.key] == w.monsters[r.key].(body := BodyOf(w', r), state := Patrolling))
      && (r.PlayerRef? ==> w'.players[r.key] == w.players[r.key].(body := BodyOf(w', r)))
  {
    var b := BodyOf(w, r);
    BlockedIgnoresTime(w, r, b.(lastMoveTime := now), b.movePath.value[0]);
  }

  /** Changing an entity's move time never changes what is blocked. */
  lemma BlockedIgnoresTime(w: World, r: Ref, b: Body, t: Tile)
    requires Has(w, r) && b == BodyOf(w, r).(lastMoveTime := b.lastMoveTime)
    ensures Blocked(WithBody(w, r, b), t.x, t.y) <==> Blocked(w, t.x, t.y)
  {
    var w' := WithBody(w, r, b);
    if PlayerOn(w, t.x, t.y) {
      var k :| k in w.players && Occupies(w.players[k].body, t.x, t.y);
      assert Occupies(w'.players[k].body, t.x, t.y);
    }
    if PlayerOn(w', t.x, t.y) {
      var k :| k in w'.players && Occupies(w'.players[k].body, t.x, t.y);
      assert Occupies(w.players[k].body, t.x, t.y);
    }
    if MonsterOn(w, t.x, t.y) {
      var k :| k in w.monsters && Occupies(w.monsters[k].body, t.x, t.y);
      assert Occupies(w'.monsters[k].body, t.x, t.y);
    }
    if MonsterOn(w', t.x, t.y) {
      var k :| k in w'.monsters && Occupies(w'.monsters[k].body, t.x, t.y);
      assert Occupies(w.monsters[k].body, t.x, t.y);
    }
  }

  /**
   * A due entity whose next waypoint is free moves onto it (pixels derived
   * from the tile), consumes exactly that one waypoint and records the time.
   * `pathComplete` holds exactly when that was the last waypoint; then the path
   * is reset to `null` and a returning monster starts patrolling.
   */
  lemma StepAdvances(w: World, r: Ref, now: int)
    requires Has(w, r) && Due(BodyOf(w, r), now)
    requires var next := BodyOf(w, r).movePath.value[0]; !Blocked(w, next.x, next.y)
    ensures var (w', e) := StepEntity(w, r, now);
      var b := BodyOf(w, r);
      var path := b.movePath.value;
      var b' := BodyOf(w', r);
      && e.Some? && e.value.entity == r
      && b'.tileX == path[0].x && b'.tileY == path[0].y
      && b'.x == Pixel(path[0].x) && b'.y == Pixel(path[0].y)
      && b'.lastMoveTime == now
      && (e.value.pathComplete <==> |path| == 1)
      && b'.movePath == (if |path| == 1 then None else Some(path[1..]))
      && b' == b.(tileX := b'.tileX, tileY := b'.tileY, x := b'.x, y := b'.y, lastMoveTime := now, movePath := b'.movePath)
      && (r.MonsterRef? ==>
            w'.monsters[r.key] == w.monsters[r.key].(body := b', state :=
              if |path| == 1 && w.monsters[r.key].state == Returning then Patrolling else w.monsters[r.key].state))
      && (r.PlayerRef? ==> w'.players[r.key] == w.players[r.key].(body := b'))
  {
    var b := BodyOf(w, r);
    BlockedIgnoresTime(w, r, b.(lastMoveTime := now), b.movePath.value[0]);
  }

  /** A step changes the record of its own entity only. */
  lemma StepFrame(w: World, r: Ref, now: int, r': Ref)
    requires Has(w, r) && Has(w, r') && r' != r
    ensures Has(StepEntity(w, r, now).0, r') && Agrees(w, StepEntity(w, r, now).0, r')
  {
  }

  /** Changing a monster's AI state keeps the table invariant. */
  lemma SetMonsterStateInv(w: World, k: string, s: AIState)
    requires Inv(w) && k in w.monsters
    ensures Inv(SetMonsterState(w, k, s))
  {
  }

  /** A step keeps the table invariant. */
  lemma StepInv(w: World, r: Ref, now: int)
    requires Inv(w) && Has(w, r)
    ensures Inv(StepEntity(w, r, now).0)
  {
    var b := BodyOf(w, r);
    if Due(b, now) {
      var next := b.movePath.value[0];
      if Blocked(WithBody(w, r, b.(lastMoveTime := now)), next.x, next.y) {
        HaltInv(w, r, now);
      } else {
        AdvanceInv(w, r, now);
      }
    }
  }

  lemma HaltInv(w: World, r: Ref, now: int)
    requires Inv(w) && Has(w, r)
    ensures Inv(Halt(w, r, now))
  {
    var b1 := BodyOf(w, r).(lastMoveTime := now, movePath := None);
    WithBodyInv(w, r, b1);
    if r.MonsterRef? {
      SetMonsterStateInv(WithBody(w, r, b1), r.key, Patrolling);
    }
  }

  lemma AdvanceInv(w: World, r: Ref, now: int)
    requires Inv(w) && Has(w, r) && BodyOf(w, r).movePath.Some? && |BodyOf(w, r).movePath.value| > 0
    ensures Inv(Advance(w, r, now).0)
  {
    var path := BodyOf(w, r).movePath.value;
    var b1 := MoveTo(BodyOf(w, r).(lastMoveTime := now, movePath := Some(path[1..])), path[0]);
    if |path| == 1 {
      WithBodyTwice(w, r, b1, b1.(movePath := None));
      WithBodyInv(w, r, b1.(movePath := None));
      if r.MonsterRef? {
        SetMonsterStateInv(WithBody(w, r, b1.(movePath := None)), r.key, Patrolling);
      }
    } else {
      WithBodyInv(w, r, b1);
    }
  }

  // ----- the whole phase -----

  /** The path relation of one tick: unchanged, dropped, or exactly its first waypoint consumed. */
  predicate AtMostOneWaypoint(before: Option<seq<Tile>>, after: Option<seq<Tile>>) {
    after == before || after == None ||
    (before.Some? && |before.value| > 1 && after == Some(before.value[1..]))
  }

  /**
   * Over a whole phase each entity consumes at most one waypoint, because the
   * spread visits it at most once and the others' steps never touch it; an
   * entity not visited keeps its record.
   */
  lemma {:induction false} MoveAllAtMostOne(w: World, refs: seq<Ref>, now: int, r: Ref)
    requires forall x :: x in refs ==> Has(w, x)
    requires Distinct(refs) && Has(w, r)
    ensures var w' := MoveAll(w, refs, now).0;
      && Has(w', r)
      && AtMostOneWaypoint(BodyOf(w, r).movePath, BodyOf(w', r).movePath)
      && (r !in refs ==> Agrees(w, w', r))
    decreases |refs|
  {
    if refs != [] {
      var init := refs[..|refs| - 1];
      var last := refs[|refs| - 1];
      assert Distinct(init);
      MoveAllAtMostOne(w, init, now, r);
      var w1 := MoveAll(w, init, now).0;
      SameShapeHas(w, w1, last);
      if last == r {
        assert r !in init;
        var b := BodyOf(w1, r);
        if Due(b, now) {
          var next := b.movePath.value[0];
          if Blocked(w1, next.x, next.y) {
            StepBlocked(w1, r, now);
          } else {
            StepAdvances(w1, r, now);
          }
        } else {
          StepSkips(w1, r, now);
        }
      } else {
        StepFrame(w1, last, now, r);
        if r !in refs {
          assert r !in init;
        }
      }
    }
  }

  /** The phase keeps the table invariant. */
  lemma {:induction false} MoveAllInv(w: World, refs: seq<Ref>, now: int)
    requires Inv(w) && forall x :: x in refs ==> Has(w, x)
    ensures Inv(MoveAll(w, refs, now).0)
    decreases |refs|
  {
    if refs != [] {
      MoveAllInv(w, refs[..|refs| - 1], now);
      var w1 := MoveAll(w, refs[..|refs| - 1], now).0;
      SameShapeHas(w, w1, refs[|refs| - 1]);
      StepInv(w1, refs[|refs| - 1], now);
    }
  }

  /**
   * The movement phase of a tick: it keeps the invariant, and every entity
   * moves along its path by at most one waypoint.
   */
  lemma ExecuteMovementEffect(w: World, now: int, r: Ref)
    requires Inv(w) && Has(w, r)
    ensures var w' := ExecuteMovement(w, now).0;
      && Inv(w') && Has(w', r)
      && AtMostOneWaypoint(BodyOf(w, r).movePath, BodyOf(w', r).movePath)
  {
    SpreadOrderMembers(w);
    MoveAllAtMostOne(w, SpreadOrder(w), now, r);
    MoveAllInv(w, SpreadOrder(w), now);
  }
}
