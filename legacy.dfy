/**
 * The first, single-file server (`server/server.js`): one table of plain
 * player records keyed by socket id, with its own occupancy test and move
 * handler. There are no monsters, no health and no move cooldown; the map is
 * the 12 x 20 literal of that file.
 */
module Legacy {
  import opened Grid
  import GameState
  import Rules

  /** The map literal of the legacy server: 1 is a wall, 0 is floor. */
  const MAP: Map := [
    [1, 1, 1, 1, 1, 1, 1, 1, 1, 1, 1, 1, 1, 1, 1, 1, 1, 1, 1, 1],
    [1, 0, 0, 0, 0, 0, 0, 0, 0, 0, 0, 0, 0, 1, 0, 0, 0, 0, 0, 1],
    [1, 0, 0, 0, 0, 0, 0, 0, 0, 0, 0, 0, 0, 1, 0, 0, 0, 0, 0, 1],
    [1, 0, 0, 1, 1, 1, 1, 0, 0, 0, 1, 1, 0, 1, 0, 0, 1, 1, 0, 1],
    [1, 0, 0, 0, 0, 0, 1, 0, 0, 0, 0, 0, 0, 1, 0, 0, 0, 0, 0, 1],
    [1, 0, 0, 0, 0, 0, 1, 0, 0, 0, 0, 0, 0, 0, 0, 0, 0, 0, 0, 1],
    [1, 0, 0, 1, 0, 0, 1, 0, 0, 1, 1, 1, 1, 1, 0, 0, 1, 0, 0, 1],
    [1, 0, 0, 1, 0, 0, 1, 0, 0, 1, 0, 0, 0, 1, 0, 0, 1, 0, 0, 1],
    [1, 0, 0, 1, 0, 0, 0, 0, 0, 1, 0, 0, 0, 1, 0, 0, 1, 0, 0, 1],
    [1, 0, 0, 0, 0, 0, 0, 0, 0, 0, 0, 0, 0, 0, 0, 0, 0, 0, 0, 1],
    [1, 0, 0, 0, 0, 0, 0, 0, 0, 0, 0, 0, 0, 0, 0, 0, 0, 0, 0, 1],
    [1, 1, 1, 1, 1, 1, 1, 1, 1, 1, 1, 1, 1, 1, 1, 1, 1, 1, 1, 1]
  ]

  /** Every connection starts on tile (1, 1). */
  const START: Tile := Tile(1, 1)

  /** The move duration every legacy player carries, in milliseconds. */
  const SPEED: int := 50

  /** One entry of the legacy `players` table. */
  datatype Entry = Entry(tileX: int, tileY: int, x: int, y: int, playerId: string, color: string, speed: int)

  /** The legacy server's state: the map and the `players` table with its key order. */
  datatype Table = Table(grid: Map, players: map<string, Entry>, order: seq<string>)

  /** The order enumerates the table. */
  predicate TableInv(t: Table) {
    GameState.OrderOf(t.players.Keys, t.order)
  }

  /**
   * The legacy `isTileBlocked`: a missing row, a cell equal to 1, or any
   * player on the tile. A column outside an existing row is not a wall here.
   */
  predicate Blocked(t: Table, x: int, y: int) {
    || !(0 <= y < |t.grid|)
    || (0 <= x < |t.grid[y]| && t.grid[y][x] == 1)
    || exists k :: k in t.players && t.players[k].tileX == x && t.players[k].tileY == y
  }

  /** The record a connection creates; `color` is the random colour string, given as input. */
  function NewEntry(id: string, color: string): Entry {
    Entry(START.x, START.y, Pixel(START.x), Pixel(START.y), id, color, SPEED)
  }

  /** The `connection` handler: `players[socket.id] = { ... }`. */
  function Connect(t: Table, id: string, color: string): (t': Table)
    ensures t'.players.Keys == t.players.Keys + {id} && t'.grid == t.grid
  {
    t.(players := t.players[id := NewEntry(id, color)], order := if id in t.players then t.order else t.order + [id])
  }

  /** The `disconnect` handler: `delete players[socket.id]`. */
  function Disconnect(t: Table, id: string): (t': Table)
    ensures t'.players.Keys == t.players.Keys - {id} && t'.grid == t.grid
  {
    t.(players := t.players - {id}, order := Rules.RemoveKey(t.order, id))
  }

  /** What the legacy `requestMove` handler does: nothing, `moveRejected`, or `playerMoved` with the moved record. */
  datatype LegacyMove = Ignored | Rejected | Moved(entry: Entry)

  /** The legacy `requestMove`: one step in the decoded direction unless the destination is blocked; no cooldown. */
  function RequestMove(t: Table, id: string, direction: string): (res: (Table, LegacyMove))
    ensures res.0.players.Keys == t.players.Keys && res.0.order == t.order && res.0.grid == t.grid
    ensures !res.1.Moved? ==> res.0 == t
  {
    if id !in t.players then (t, Ignored)
    else
      var p := t.players[id];
      var st := DecodeDirection(direction);
      StepTo(t, id, Tile(p.tileX + st.dx, p.tileY + st.dy))
  }

  /** The step of player `id` onto `dest`, unless it is blocked. */
  function StepTo(t: Table, id: string, dest: Tile): (res: (Table, LegacyMove))
    requires id in t.players
    ensures res.0.players.Keys == t.players.Keys && res.0.order == t.order && res.0.grid == t.grid
    ensures res.1.Moved? <==> !Blocked(t, dest.x, dest.y)
    ensures res.1.Moved? ==> res.0.players[id] == res.1.entry && res.1.entry.tileX == dest.x && res.1.entry.tileY == dest.y
  {
    if Blocked(t, dest.x, dest.y) then (t, Rejected)
    else
      var p := t.players[id].(tileX := dest.x, tileY := dest.y, x := Pixel(dest.x), y := Pixel(dest.y));
      (t.(players := t.players[id := p]), Moved(p))
  }

  // ----- the occupancy test -----

  /**
   * A missing row and a wall block; any player on the tile blocks, with no
   * test of life; a free floor tile does not block; and a column outside an
   * existing row counts as free when no player stands there.
   */
  lemma BlockedCases(t: Table, x: int, y: int)
    ensures !(0 <= y < |t.grid|) ==> Blocked(t, x, y)
    ensures 0 <= y < |t.grid| && 0 <= x < |t.grid[y]| && t.grid[y][x] == 1 ==> Blocked(t, x, y)
    ensures forall k :: k in t.players && t.players[k].tileX == x && t.players[k].tileY == y ==> Blocked(t, x, y)
    ensures (&& 0 <= y < |t.grid|
             && !(0 <= x < |t.grid[y]| && t.grid[y][x] == 1)
             && (forall k :: k in t.players ==> t.players[k].tileX != x || t.players[k].tileY != y))
            ==> !Blocked(t, x, y)
  {
  }

  /**
   * Where the two servers differ on the map: a column outside an existing
   * row is a wall for the newer test but free for the legacy one.
   */
  lemma OffRowDiffers(t: Table, x: int, y: int)
    requires 0 <= y < |t.grid| && !(0 <= x < |t.grid[y]|)
    requires forall k :: k in t.players ==> t.players[k].tileX != x || t.players[k].tileY != y
    ensures !Blocked(t, x, y) && MapBlocked(t.grid, x, y)
  {
  }

  // ----- the handlers -----

  /**
   * A connection adds the socket's record on (1, 1) with pixel (48, 48),
   * `playerId` the socket id and speed 50; the other entries are unchanged.
   */
  lemma ConnectEffect(t: Table, id: string, color: string)
    requires TableInv(t)
    ensures var t' := Connect(t, id, color);
      && TableInv(t')
      && id in t'.players
      && t'.players[id] == Entry(1, 1, 48, 48, id, color, 50)
      && (forall k :: k in t.players && k != id ==> k in t'.players && t'.players[k] == t.players[k])
      && t'.players.Keys == t.players.Keys + {id}
  {
    if id !in t.players {
      Rules.DistinctAppend(t.order, id);
    }
  }

  /** A disconnect removes exactly that entry, and the other entries are unchanged. */
  lemma DisconnectEffect(t: Table, id: string)
    requires TableInv(t)
    ensures var t' := Disconnect(t, id);
      && TableInv(t')
      && id !in t'.players
      && t'.players.Keys == t.players.Keys - {id}
      && (forall k :: k in t'.players ==> t'.players[k] == t.players[k])
  {
    Rules.RemoveKeyDistinct(t.order, id);
  }

  /**
   * An unknown socket's request does nothing. A known player steps by the
   * decoded direction exactly when the destination is not blocked, and then
   * only its tile and pixel position change; a rejected step changes nothing.
   * There is no time input: nothing limits how often a player moves.
   */
  lemma RequestMoveEffect(t: Table, id: string, direction: string)
    ensures var (t', out) := RequestMove(t, id, direction);
      && (id !in t.players ==> t' == t && out == Ignored)
      && (id in t.players ==>
            var p := t.players[id];
            var st := DecodeDirection(direction);
            var dx := p.tileX + st.dx;
            var dy := p.tileY + st.dy;
            && (out.Moved? <==> !Blocked(t, dx, dy))
            && (out == Rejected <==> Blocked(t, dx, dy))
            && (out == Rejected ==> t' == t)
            && (out.Moved? ==>
                  && out.entry == t'.players[id]
                  && t'.players == t.players[id := p.(tileX := dx, tileY := dy, x := dx * 32 + 16, y := dy * 32 + 16)]
                  && t'.order == t.order && t'.grid == t.grid))
  {
  }

  // ----- the map keeps players inside -----

  /** A tile of the legacy map that is inside it and not a wall. */
  predicate Floor(x: int, y: int) {
    0 <= y < |MAP| && 0 <= x < |MAP[y]| && MAP[y][x] != 1
  }

  /** Every player of a table over the legacy map stands on a floor tile. */
  predicate OnFloor(t: Table) {
    t.grid == MAP && forall k :: k in t.players ==> Floor(t.players[k].tileX, t.players[k].tileY)
  }

  /** Every row of the legacy map has 20 cells and starts and ends with a wall. */
  lemma MapWalled(y: int)
    requires 0 <= y < |MAP|
    ensures |MAP| == 12 && |MAP[y]| == 20 && MAP[y][0] == 1 && MAP[y][19] == 1
  {
    assert y == 0 || y == 1 || y == 2 || y == 3 || y == 4 || y == 5 ||
           y == 6 || y == 7 || y == 8 || y == 9 || y == 10 || y == 11;
  }

  /**
   * A step of at most one tile from a floor tile that the legacy test lets
   * through lands on a floor tile: the walled border means the off-row gap of
   * the test is never reached from the start tile.
   */
  lemma FreeStepIsFloor(t: Table, x: int, y: int, dx: int, dy: int)
    requires t.grid == MAP && Floor(x, y) && -1 <= dx <= 1 && -1 <= dy <= 1
    requires !Blocked(t, x + dx, y + dy)
    ensures Floor(x + dx, y + dy)
  {
    MapWalled(y);
    MapWalled(y + dy);
  }

  /** A step taken by player `id` keeps every player on a floor tile. */
  lemma StepKeepsFloor(t: Table, id: string, dest: Tile, x: int, y: int, dx: int, dy: int)
    requires OnFloor(t) && id in t.players
    requires x == t.players[id].tileX && y == t.players[id].tileY
    requires -1 <= dx <= 1 && -1 <= dy <= 1 && dest == Tile(x + dx, y + dy)
    ensures OnFloor(StepTo(t, id, dest).0)
  {
    if !Blocked(t, dest.x, dest.y) {
      FreeStepIsFloor(t, x, y, dx, dy);
    }
  }

  /** The start tile (1, 1) is floor, so a connection keeps every player on a floor tile. */
  lemma ConnectKeepsFloor(t: Table, id: string, color: string)
    requires OnFloor(t)
    ensures OnFloor(Connect(t, id, color))
  {
    assert MAP[1][1] == 0;
  }

  /** A disconnect removes a player and moves nobody. */
  lemma DisconnectKeepsFloor(t: Table, id: string)
    requires OnFloor(t)
    ensures OnFloor(Disconnect(t, id))
  {
  }

  /** For a known socket, a move request is the step by the decoded direction, by at most one tile per axis. */
  lemma RequestMoveIsStep(t: Table, id: string, direction: string) returns (dest: Tile)
    requires id in t.players
    ensures RequestMove(t, id, direction) == StepTo(t, id, dest)
    ensures -1 <= dest.x - t.players[id].tileX <= 1 && -1 <= dest.y - t.players[id].tileY <= 1
  {
    var p := t.players[id];
    var st := DecodeDirection(direction);
    dest := Tile(p.tileX + st.dx, p.tileY + st.dy);
  }

  /** A move request keeps every player on a floor tile. */
  lemma MoveKeepsFloor(t: Table, id: string, direction: string)
    requires OnFloor(t)
    ensures OnFloor(RequestMove(t, id, direction).0)
  {
    if id in t.players {
      var dest := RequestMoveIsStep(t, id, direction);
      var x, y := t.players[id].tileX, t.players[id].tileY;
      StepKeepsFloor(t, id, dest, x, y, dest.x - x, dest.y - y);
    }
  }

  /** Starting from the empty table on the legacy map, every handler keeps every player on a floor tile. */
  lemma HandlersKeepFloor(t: Table, id: string, color: string, direction: string)
    requires OnFloor(t)
    ensures OnFloor(Connect(t, id, color))
    ensures OnFloor(Disconnect(t, id))
    ensures OnFloor(RequestMove(t, id, direction).0)
  {
    ConnectKeepsFloor(t, id, color);
    DisconnectKeepsFloor(t, id);
    MoveKeepsFloor(t, id, direction);
  }

  // ----- the mutable table -----

  /** The legacy server's module-level `players` object, with the map it reads. */
  class LegacyServer {
    const grid: Map
    var players: map<string, Entry>
    var order: seq<string>

    function View(): Table
      reads this
    {
      Table(grid, players, order)
    }

    /** Server start: the map literal and an empty table. */
    constructor()
      ensures View() == Table(MAP, map[], []) && OnFloor(View()) && TableInv(View())
    {
      grid := MAP;
      players := map[];
      order := [];
    }

    /** `isTileBlocked(x, y)`: the map test, then every player in key order. */
    method IsTileBlocked(x: int, y: int) returns (blocked: bool)
      requires TableInv(View())
      ensures blocked == Blocked(View(), x, y)
    {
      if !(0 <= y < |grid|) || (0 <= x < |grid[y]| && grid[y][x] == 1) {
        return true;
      }
      for i := 0 to |order|
        invariant forall j :: 0 <= j < i ==> players[order[j]].tileX != x || players[order[j]].tileY != y
      {
        var player := players[order[i]];
        if player.tileX == x && player.tileY == y {
          return true;
        }
      }
      assert forall k :: k in players ==> k in order;
      return false;
    }

    /** The `connection` handler; returns the `currentPlayers` table and the `newPlayer` record it sends. */
    method HandleConnection(id: string, color: string) returns (current: map<string, Entry>, joined: Entry)
      requires TableInv(View())
      modifies this
      ensures View() == Connect(old(View()), id, color) && TableInv(View())
      ensures current == players && joined == players[id]
    {
      ConnectEffect(View(), id, color);
      if id !in players {
        order := order + [id];
      }
      players := players[id := NewEntry(id, color)];
      current := players;
      joined := players[id];
    }

    /** The `disconnect` handler. */
    method HandleDisconnect(id: string)
      requires TableInv(View())
      modifies this
      ensures View() == Disconnect(old(View()), id) && TableInv(View())
    {
      DisconnectEffect(View(), id);
      players := players - {id};
      order := Rules.RemoveKey(order, id);
    }

    /** The `requestMove` handler. */
    method HandleRequestMove(id: string, direction: string) returns (outcome: LegacyMove)
      requires TableInv(View())
      modifies this
      ensures (View(), outcome) == RequestMove(old(View()), id, direction) && TableInv(View())
    {
      if id !in players {
        return Ignored;
      }
      var player := players[id];
      var st := DecodeDirection(direction);
      var targetTileX := player.tileX + st.dx;
      var targetTileY := player.tileY + st.dy;
      var blocked := IsTileBlocked(targetTileX, targetTileY);
      if !blocked {
        player := player.(tileX := targetTileX, tileY := targetTileY, x := Pixel(targetTileX), y := Pixel(targetTileY));
        players := players[id := player];
        outcome := Moved(player);
      } else {
        outcome := Rejected;
      }
    }
  }
}
