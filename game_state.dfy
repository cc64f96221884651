/**
 * The state the game manager owns, as a value: the grid, the players table and
 * the monsters table (each an id-keyed dictionary with its insertion order,
 * which is the order JavaScript iterates it in), the occupancy check, and the
 * iteration order of `{...players, ...monsters}`.
 */
module GameState {
  import opened Wrappers
  import opened Grid
  import opened EntityModel

  datatype World = World(
    grid: Map,
    players: map<string, PlayerRec>,
    playerOrder: seq<string>,
    monsters: map<string, MonsterRec>,
    monsterOrder: seq<string>)

  /** No element occurs twice. */
  predicate Distinct<T(==)>(s: seq<T>) {
    forall i, j :: 0 <= i < j < |s| ==> s[i] != s[j]
  }

  /** `order` lists the keys `keys`, each once. */
  predicate OrderOf(keys: set<string>, order: seq<string>) {
    Distinct(order) && (forall k :: k in keys ==> k in order) && (forall k :: k in order ==> k in keys)
  }

  /**
   * The invariant of the tables: each is enumerated by its order, every entry
   * is stored under its own id (and a player's `playerId` is that id), and every
   * entity is well formed.
   */
  predicate Inv(w: World) {
    && OrderOf(w.players.Keys, w.playerOrder)
    && OrderOf(w.monsters.Keys, w.monsterOrder)
    && (forall k :: k in w.players ==>
          w.players[k].body.id == k && w.players[k].playerId == k && BodyInv(w.players[k].body))
    && (forall k :: k in w.monsters ==>
          w.monsters[k].body.id == k && BodyInv(w.monsters[k].body))
  }

  /** Two worlds with the same grid, the same keys and the same orders. */
  predicate SameShape(w: World, w': World) {
    && w'.grid == w.grid
    && w'.players.Keys == w.players.Keys && w'.playerOrder == w.playerOrder
    && w'.monsters.Keys == w.monsters.Keys && w'.monsterOrder == w.monsterOrder
  }

  // ----- occupancy -----

  /** A live entity standing on `(x, y)`. */
  predicate Occupies(b: Body, x: int, y: int) {
    IsAlive(b) && b.tileX == x && b.tileY == y
  }

  predicate PlayerOn(w: World, x: int, y: int) {
    exists k :: k in w.players && Occupies(w.players[k].body, x, y)
  }

  predicate MonsterOn(w: World, x: int, y: int) {
    exists k :: k in w.monsters && Occupies(w.monsters[k].body, x, y)
  }

  /** `isTileBlocked(x, y)`: off the grid, a wall, or a live player or monster there. */
  predicate Blocked(w: World, x: int, y: int) {
    MapBlocked(w.grid, x, y) || PlayerOn(w, x, y) || MonsterOn(w, x, y)
  }

  /** Every live entity blocks its own tile. */
  lemma LiveEntityBlocks(w: World, k: string, isMonster: bool)
    requires if isMonster then k in w.monsters && IsAlive(w.monsters[k].body)
             else k in w.players && IsAlive(w.players[k].body)
    ensures isMonster ==> Blocked(w, w.monsters[k].body.tileX, w.monsters[k].body.tileY)
    ensures !isMonster ==> Blocked(w, w.players[k].body.tileX, w.players[k].body.tileY)
  {
    if isMonster {
      var b := w.monsters[k].body;
      assert Occupies(w.monsters[k].body, b.tileX, b.tileY);
    } else {
      var b := w.players[k].body;
      assert Occupies(w.players[k].body, b.tileX, b.tileY);
    }
  }

  /**
   * Dead entities never block: a walkable tile is blocked exactly when some
   * live player or monster stands on it, whatever the dead ones do.
   */
  lemma BlockedIff(w: World, x: int, y: int)
    requires !MapBlocked(w.grid, x, y)
    ensures Blocked(w, x, y) <==>
      (exists k :: k in w.players && IsAlive(w.players[k].body) && w.players[k].body.tileX == x && w.players[k].body.tileY == y) ||
      (exists k :: k in w.monsters && IsAlive(w.monsters[k].body) && w.monsters[k].body.tileX == x && w.monsters[k].body.tileY == y)
  {
  }

  // ----- entity references and the spread order -----

  /** An entity of either table: a player or a monster, by key. */
  datatype Ref = PlayerRef(key: string) | MonsterRef(key: string)

  predicate Has(w: World, r: Ref) {
    match r
    case PlayerRef(k) => k in w.players
    case MonsterRef(k) => k in w.monsters
  }

  lemma SameShapeHas(w: World, w': World, r: Ref)
    requires SameShape(w, w')
    ensures Has(w', r) <==> Has(w, r)
  {
  }

  function BodyOf(w: World, r: Ref): Body
    requires Has(w, r)
  {
    match r
    case PlayerRef(k) => w.players[k].body
    case MonsterRef(k) => w.monsters[k].body
  }

  /** Replace the entity fields of one entity, leaving everything else as it is. */
  function WithBody(w: World, r: Ref, b: Body): (w': World)
    requires Has(w, r)
    ensures SameShape(w, w') && Has(w', r) && BodyOf(w', r) == b
  {
    match r
    case PlayerRef(k) => w.(players := w.players[k := w.players[k].(body := b)])
    case MonsterRef(k) => w.(monsters := w.monsters[k := w.monsters[k].(body := b)])
  }

  /** A second replacement of the same entity's fields overrides the first. */
  lemma WithBodyTwice(w: World, r: Ref, b1: Body, b2: Body)
    requires Has(w, r)
    ensures WithBody(WithBody(w, r, b1), r, b2) == WithBody(w, r, b2)
  {
  }

  /** The whole record of `r` is the same in both worlds. */
  predicate Agrees(w: World, w': World, r: Ref)
    requires Has(w, r) && Has(w', r)
  {
    match r
    case PlayerRef(k) => w'.players[k] == w.players[k]
    case MonsterRef(k) => w'.monsters[k] == w.monsters[k]
  }

  /** Updating one entity leaves the records of all the others as they were. */
  lemma WithBodyFrame(w: World, r: Ref, b: Body, r': Ref)
    requires Has(w, r) && Has(w, r') && r' != r
    ensures Has(WithBody(w, r, b), r') && Agrees(w, WithBody(w, r, b), r')
  {
  }

  /** A well-formed body stored under its own id keeps the invariant. */
  lemma WithBodyInv(w: World, r: Ref, b: Body)
    requires Inv(w) && Has(w, r) && BodyInv(b) && b.id == BodyOf(w, r).id
    ensures Inv(WithBody(w, r, b))
  {
  }

  /** `entity.playerId || entity.id`. */
  function EntityId(w: World, r: Ref): string
    requires Has(w, r)
  {
    match r
    case PlayerRef(k) => if w.players[k].playerId != "" then w.players[k].playerId else w.players[k].body.id
    case MonsterRef(k) => w.monsters[k].body.id
  }

  /** Under the invariant an entity's id is its key. */
  lemma EntityIdIsKey(w: World, r: Ref)
    requires Inv(w) && Has(w, r)
    ensures EntityId(w, r) == r.key
  {
  }

  /** The player part of `Object.values({...players, ...monsters})`: a monster under the same key takes the player's place. */
  function SpreadPlayers(order: seq<string>, monsters: set<string>): seq<Ref> {
    if order == [] then []
    else
      var k := order[|order| - 1];
      SpreadPlayers(order[..|order| - 1], monsters) + [if k in monsters then MonsterRef(k) else PlayerRef(k)]
  }

  /** The monster part: the monsters whose key no player had. */
  function SpreadMonsters(order: seq<string>, players: set<string>): seq<Ref> {
    if order == [] then []
    else
      var k := order[|order| - 1];
      SpreadMonsters(order[..|order| - 1], players) + (if k in players then [] else [MonsterRef(k)])
  }

  /** One more key of the players' order. */
  lemma SpreadPlayersNext(order: seq<string>, i: nat, monsters: set<string>)
    requires i < |order|
    ensures SpreadPlayers(order[..i + 1], monsters) ==
      SpreadPlayers(order[..i], monsters) + [if order[i] in monsters then MonsterRef(order[i]) else PlayerRef(order[i])]
  {
    assert order[..i + 1][..i] == order[..i];
  }

  /** One more key of the monsters' order. */
  lemma SpreadMonstersNext(order: seq<string>, i: nat, players: set<string>)
    requires i < |order|
    ensures SpreadMonsters(order[..i + 1], players) ==
      SpreadMonsters(order[..i], players) + (if order[i] in players then [] else [MonsterRef(order[i])])
  {
    assert order[..i + 1][..i] == order[..i];
  }

  /** `Object.values({...this.players, ...this.monsters})`, in iteration order. */
  function SpreadOrder(w: World): seq<Ref> {
    SpreadPlayers(w.playerOrder, w.monsters.Keys) + SpreadMonsters(w.monsterOrder, w.players.Keys)
  }

  lemma {:induction false} SpreadPlayersMembers(order: seq<string>, monsters: set<string>, r: Ref)
    ensures r in SpreadPlayers(order, monsters) <==>
      r.key in order && (r.MonsterRef? <==> r.key in monsters)
    ensures Distinct(order) ==> Distinct(SpreadPlayers(order, monsters))
  {
    if order != [] {
      var init := order[..|order| - 1];
      SpreadPlayersMembers(init, monsters, r);
      assert order == init + [order[|order| - 1]];
      assert r.key in order <==> r.key in init || r.key == order[|order| - 1];
      if Distinct(order) {
        var k := order[|order| - 1];
        var last := if k in monsters then MonsterRef(k) else PlayerRef(k);
        DistinctInit(order);
        SpreadPlayersMembers(init, monsters, last);
        DistinctConcat(SpreadPlayers(init, monsters), [last]);
      }
    }
  }

  lemma {:induction false} SpreadMonstersMembers(order: seq<string>, players: set<string>, r: Ref)
    ensures r in SpreadMonsters(order, players) <==> r.MonsterRef? && r.key in order && r.key !in players
    ensures Distinct(order) ==> Distinct(SpreadMonsters(order, players))
  {
    if order != [] {
      var init := order[..|order| - 1];
      var k := order[|order| - 1];
      SpreadMonstersMembers(init, players, r);
      assert order == init + [k];
      assert r.key in order <==> r.key in init || r.key == k;
      assert SpreadMonsters(order, players) == SpreadMonsters(init, players) + (if k in players then [] else [MonsterRef(k)]);
      if Distinct(order) {
        DistinctInit(order);
        if k !in players {
          SpreadMonstersMembers(init, players, MonsterRef(k));
          DistinctConcat(SpreadMonsters(init, players), [MonsterRef(k)]);
        }
      }
    }
  }

  /** Dropping the last element keeps a sequence duplicate-free, and that element does not occur before it. */
  lemma DistinctInit<T>(s: seq<T>)
    requires Distinct(s) && |s| > 0
    ensures Distinct(s[..|s| - 1]) && s[|s| - 1] !in s[..|s| - 1]
  {
    var init := s[..|s| - 1];
    forall i | 0 <= i < |init|
      ensures init[i] != s[|s| - 1]
    {
      assert init[i] == s[i];
    }
  }

  /** Two duplicate-free sequences with no common element concatenate to a duplicate-free one. */
  lemma DistinctConcat<T>(a: seq<T>, b: seq<T>)
    requires Distinct(a) && Distinct(b)
    requires forall x :: x in a ==> x !in b
    ensures Distinct(a + b)
  {
    var s := a + b;
    forall i, j | 0 <= i < j < |s| ensures s[i] != s[j] {
      if j >= |a| {
        assert s[j] == b[j - |a|];
        if i >= |a| {
          assert s[i] == b[i - |a|];
        } else {
          assert s[i] in a;
        }
      }
    }
  }

  /**
   * The spread visits every monster, and every player whose key no monster
   * shares, each exactly once.
   */
  lemma SpreadOrderMembers(w: World)
    requires Inv(w)
    ensures Distinct(SpreadOrder(w))
    ensures forall r :: r in SpreadOrder(w) <==>
      Has(w, r) && (r.PlayerRef? ==> r.key !in w.monsters)
  {
    var a := SpreadPlayers(w.playerOrder, w.monsters.Keys);
    var b := SpreadMonsters(w.monsterOrder, w.players.Keys);
    forall r ensures ((r in a || r in b) <==> Has(w, r) && (r.PlayerRef? ==> r.key !in w.monsters))
                 && (r in a ==> r !in b) {
      SpreadPlayersMembers(w.playerOrder, w.monsters.Keys, r);
      SpreadMonstersMembers(w.monsterOrder, w.players.Keys, r);
    }
    SpreadPlayersMembers(w.playerOrder, w.monsters.Keys, PlayerRef(""));
    SpreadMonstersMembers(w.monsterOrder, w.players.Keys, PlayerRef(""));
    DistinctConcat(a, b);
  }

  /** Every entry of the spread is in the tables. */
  lemma SpreadOrderHas(w: World)
    requires Inv(w)
    ensures forall r :: r in SpreadOrder(w) ==> Has(w, r)
  {
    SpreadOrderMembers(w);
  }

  /** The spread depends on keys and orders only. */
  lemma SameShapeSpread(w: World, w': World)
    requires SameShape(w, w')
    ensures SpreadOrder(w') == SpreadOrder(w)
  {
  }

  // ----- temporary obstacles -----

  /**
   * The tiles passed to `avoidAdditionalPoint`, in call order: every live
   * entity of `refs` whose `playerId || id` is not in `skip`.
   */
  function AvoidTiles(w: World, refs: seq<Ref>, skip: set<string>): (ts: seq<Tile>)
    requires forall r :: r in refs ==> Has(w, r)
    ensures |ts| <= |refs|
  {
    if refs == [] then []
    else
      var r := refs[|refs| - 1];
      var b := BodyOf(w, r);
      AvoidTiles(w, refs[..|refs| - 1], skip) +
        (if IsAlive(b) && EntityId(w, r) !in skip then [Tile(b.tileX, b.tileY)] else [])
  }

  /** An avoided tile is the tile of a live entity of `refs` outside `skip`, and each such tile is avoided. */
  lemma {:induction false} AvoidTilesIff(w: World, refs: seq<Ref>, skip: set<string>, t: Tile)
    requires forall r :: r in refs ==> Has(w, r)
    ensures t in AvoidTiles(w, refs, skip) <==>
      exists r :: r in refs && IsAlive(BodyOf(w, r)) && EntityId(w, r) !in skip &&
                  Tile(BodyOf(w, r).tileX, BodyOf(w, r).tileY) == t
  {
    if refs != [] {
      var init := refs[..|refs| - 1];
      var last := refs[|refs| - 1];
      assert refs == init + [last];
      AvoidTilesIff(w, init, skip, t);
      if exists r :: r in refs && IsAlive(BodyOf(w, r)) && EntityId(w, r) !in skip &&
                     Tile(BodyOf(w, r).tileX, BodyOf(w, r).tileY) == t {
        var r :| r in refs && IsAlive(BodyOf(w, r)) && EntityId(w, r) !in skip &&
                 Tile(BodyOf(w, r).tileX, BodyOf(w, r).tileY) == t;
        if r != last {
          assert r in init;
        }
      }
    }
  }

  // ----- snapshots -----

  /** `getSnapshot(this.players)`. */
  function PlayerSnapshots(w: World): (s: map<string, Snapshot>)
    ensures s.Keys == w.players.Keys
  {
    map k | k in w.players :: PlayerSnapshot(w.players[k])
  }

  /** `getSnapshot(this.monsters)`. */
  function MonsterSnapshots(w: World): (s: map<string, Snapshot>)
    ensures s.Keys == w.monsters.Keys
  {
    map k | k in w.monsters :: MonsterSnapshot(w.monsters[k])
  }
}
