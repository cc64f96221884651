/**
 * The tile grid and the integer geometry every part of the server shares:
 * tile coordinates, the tile-to-pixel rule, the cell lookup with JavaScript's
 * `undefined` for a missing row or column, squared distances compared with
 * (real) ranges in place of `Math.sqrt`, and the decoding of a direction string.
 */
module Grid {
  import opened Wrappers

  /** A tile coordinate (`{x, y}` in the server). */
  datatype Tile = Tile(x: int, y: int)

  /** The row-major grid of tile flags; 1 is a wall, every other value is walkable. */
  type Map = seq<seq<int>>

  const TILE_SIZE: int := 32

  /** Pixel coordinate of the centre of tile `t`: `t * 32 + 16`. */
  function Pixel(t: int): int {
    t * TILE_SIZE + TILE_SIZE / 2
  }

  /** The tile a pixel lies in (floor division by the tile size). */
  function TileOfPixel(p: int): int {
    p / TILE_SIZE
  }

  /** The pixel rule loses nothing: the tile is recovered from its pixel coordinate. */
  lemma PixelRoundTrip(t: int)
    ensures TileOfPixel(Pixel(t)) == t
    ensures Pixel(t) % TILE_SIZE == TILE_SIZE / 2
  {
    assert Pixel(t) == TILE_SIZE * t + 16;
  }

  /** Distinct tiles have distinct pixel coordinates. */
  lemma PixelInjective(a: int, b: int)
    ensures Pixel(a) == Pixel(b) <==> a == b
  {
    PixelRoundTrip(a);
    PixelRoundTrip(b);
  }

  /** `map[y][x]`: `None` stands for `undefined` (no row `y`, or no column `x` in it). */
  function Cell(grid: Map, x: int, y: int): (c: Option<int>)
    ensures c.Some? <==> 0 <= y < |grid| && 0 <= x < |grid[y]|
    ensures c.Some? ==> c.value == grid[y][x]
  {
    if 0 <= y < |grid| && 0 <= x < |grid[y]| then Some(grid[y][x]) else None
  }

  /**
   * The grid part of the occupancy check of the game manager: a missing row,
   * a missing cell or a wall (flag 1) blocks.
   */
  predicate MapBlocked(grid: Map, x: int, y: int) {
    Cell(grid, x, y).None? || Cell(grid, x, y) == Some(1)
  }

  /** A tile inside the grid whose flag is not 1 is exactly a tile the grid does not block. */
  lemma MapBlockedIff(grid: Map, x: int, y: int)
    ensures !MapBlocked(grid, x, y) <==> 0 <= y < |grid| && 0 <= x < |grid[y]| && grid[y][x] != 1
  {
  }

  /** Squared Euclidean distance between two tiles. */
  function Dist2(x1: int, y1: int, x2: int, y2: int): nat {
    (x1 - x2) * (x1 - x2) + (y1 - y2) * (y1 - y2)
  }

  /**
   * `Math.sqrt(d2) > r`, stated without the square root: a negative range is
   * exceeded by every distance, otherwise compare the squares.
   */
  predicate FartherThan(d2: nat, r: real) {
    r < 0.0 || (d2 as real) > r * r
  }

  /** `Math.sqrt(d2) <= r`. */
  predicate WithinRange(d2: nat, r: real) {
    !FartherThan(d2, r)
  }

  /** Against the range 1.5 (adjacent, diagonals included) the test is `d2 >= 3`. */
  lemma FartherThanOneAndAHalf(d2: nat)
    ensures FartherThan(d2, 1.5) <==> d2 >= 3
  {
    if d2 >= 3 {
      assert (d2 as real) >= 3.0;
    } else {
      assert (d2 as real) <= 2.0;
    }
  }

  /** Against a whole-number range `r` the test is `d2 > r * r`. */
  lemma FartherThanWhole(d2: nat, r: nat)
    ensures FartherThan(d2, r as real) <==> d2 > r * r
  {
    assert (r as real) * (r as real) == (r * r) as real;
  }

  /** `Math.max(lo, Math.min(hi, v))`. */
  function Clamp(v: int, lo: int, hi: int): int {
    if lo > (if hi < v then hi else v) then lo else if hi < v then hi else v
  }

  /** A clamped value lies in `[lo, hi]` when that interval is not empty, and moves only a value outside it. */
  lemma ClampBounds(v: int, lo: int, hi: int)
    ensures lo <= Clamp(v, lo, hi)
    ensures lo <= hi ==> Clamp(v, lo, hi) <= hi
    ensures lo <= v <= hi ==> Clamp(v, lo, hi) == v
  {
  }

  // ----- direction strings -----

  /** `w` is a prefix of `s`. */
  predicate StartsWith(s: string, w: string) {
    |w| <= |s| && s[..|w|] == w
  }

  /** JavaScript's `s.includes(w)`, scanning from the left. */
  predicate Contains(s: string, w: string)
    decreases |s|
  {
    StartsWith(s, w) || (|s| > 0 && Contains(s[1..], w))
  }

  /** `w` occurs in `s` starting at index `i`. */
  predicate OccursAt(s: string, w: string, i: int) {
    0 <= i <= |s| - |w| && s[i..i + |w|] == w
  }

  /** An occurrence anywhere makes `Contains` true. */
  lemma {:induction false} OccursAtContains(s: string, w: string, i: int)
    requires OccursAt(s, w, i)
    ensures Contains(s, w)
    decreases i
  {
    if i == 0 {
      assert s[..|w|] == s[0..0 + |w|];
    } else {
      assert s[1..][i - 1..i - 1 + |w|] == s[i..i + |w|];
      OccursAtContains(s[1..], w, i - 1);
    }
  }

  /** `Contains` finds an occurrence: the first index where `w` starts. */
  lemma {:induction false} ContainsAt(s: string, w: string) returns (i: int)
    requires Contains(s, w)
    ensures OccursAt(s, w, i)
    decreases |s|
  {
    if StartsWith(s, w) {
      i := 0;
      assert s[0..0 + |w|] == s[..|w|];
    } else {
      var j := ContainsAt(s[1..], w);
      assert s[j + 1..j + 1 + |w|] == s[1..][j..j + |w|];
      i := j + 1;
    }
  }

  /** `Contains` is the substring relation. */
  lemma ContainsIff(s: string, w: string)
    ensures Contains(s, w) <==> exists i :: OccursAt(s, w, i)
  {
    if exists i :: OccursAt(s, w, i) {
      var i :| OccursAt(s, w, i);
      OccursAtContains(s, w, i);
    }
    if Contains(s, w) {
      var i := ContainsAt(s, w);
    }
  }

  /** One tile step. */
  datatype Step = Step(dx: int, dy: int)

  /**
   * The step a direction string asks for: `up` gives dy = -1 but `down`, checked
   * afterwards, overrides it with +1; `left` gives dx = -1 and `right` overrides it.
   */
  function DecodeDirection(direction: string): (st: Step)
    ensures -1 <= st.dx <= 1 && -1 <= st.dy <= 1
    ensures st.dy == 1 <==> Contains(direction, "down")
    ensures st.dy == -1 <==> Contains(direction, "up") && !Contains(direction, "down")
    ensures st.dx == 1 <==> Contains(direction, "right")
    ensures st.dx == -1 <==> Contains(direction, "left") && !Contains(direction, "right")
  {
    var dy := if Contains(direction, "up") then -1 else 0;
    var dy := if Contains(direction, "down") then 1 else dy;
    var dx := if Contains(direction, "left") then -1 else 0;
    var dx := if Contains(direction, "right") then 1 else dx;
    Step(dx, dy)
  }

  /** A string naming none of the four keywords decodes to the null step. */
  lemma UnknownDirectionIsNullStep(direction: string)
    requires !Contains(direction, "up") && !Contains(direction, "down")
    requires !Contains(direction, "left") && !Contains(direction, "right")
    ensures DecodeDirection(direction) == Step(0, 0)
  {
  }
}
