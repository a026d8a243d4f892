/** The single-actor grid of `WTF.py`: a `World` of cell rewards, red cells
    worth `MIN_REWARD` and green ones `MAX_REWARD`, and a `WorldEnv` in
    which one player walks that grid. */
module Wtf {
  import opened Wrappers

  /** `settings.COLS` and `settings.ROWS`: the player's moves are bounded
      by these, not by the size of the world. */
  const Cols: int := 6
  const Rows: int := 5
  const MinReward: int := -10
  const MaxReward: int := 10

  /** `settings.REDS` and `settings.GREENS`, as `(x, y)` pairs. */
  const Reds: seq<(int, int)> := [(3, 4), (1, 2), (4, 0)]
  const Greens: seq<(int, int)> := [(2, 4)]

  /** The reward `World` gives cell `(x, y)`: a green cell wins over a red
      one, and every other cell is worth 0. */
  function InitialReward(x: int, y: int): int {
    if (x, y) in Greens then MaxReward else if (x, y) in Reds then MinReward else 0
  }

  /** The rows of a `height` by `width` world, indexed `[y][x]`. */
  function InitialCells(height: nat, width: nat): seq<seq<int>> {
    seq(height, y => seq(width, x => InitialReward(x, y)))
  }

  /** Every marked cell lies inside a `height` by `width` grid (otherwise
      `_init_rewards` raises `IndexError`). */
  predicate HoldsMarks(height: int, width: int) {
    forall k :: 0 <= k < |Reds + Greens| ==> 0 <= (Reds + Greens)[k].0 < width && 0 <= (Reds + Greens)[k].1 < height
  }

  /** `cells` has `height` rows of `width` entries each. */
  ghost predicate Shaped(cells: seq<seq<int>>, height: nat, width: nat) {
    |cells| == height && forall y :: 0 <= y < height ==> |cells[y]| == width
  }

  class World {
    const height: nat
    const width: nat
    var cells: seq<seq<int>>

    /** The marked cells fit, and the cells hold the initial rewards. */
    ghost predicate Valid()
      reads this
    {
      HoldsMarks(height, width) && cells == InitialCells(height, width)
    }

    /** `World(height, width)`: a zero grid, then `_init_rewards`. */
    constructor (h: nat, w: nat)
      requires HoldsMarks(h, w)
      ensures Valid() && height == h && width == w
    {
      height, width := h, w;
      cells := seq(h, _ => seq(w, _ => 0));
      new;
      InitRewards();
    }

    /** `_init_rewards`: paint the red cells, then the green ones, so that
        a cell in both ends green. */
    method InitRewards()
      requires HoldsMarks(height, width) && cells == seq(height, _ => seq(width, _ => 0))
      modifies this`cells
      ensures Valid()
    {
      for i := 0 to |Reds|
        invariant Shaped(cells, height, width)
        invariant forall y, x :: 0 <= y < height && 0 <= x < width ==>
          cells[y][x] == if (x, y) in Reds[..i] then MinReward else 0
      {
        var (x, y) := Reds[i];
        assert (Reds + Greens)[i] == Reds[i];
        cells := cells[y := cells[y][x := MinReward]];
        assert Reds[..i + 1] == Reds[..i] + [Reds[i]];
      }
      assert Reds[..|Reds|] == Reds;
      for j := 0 to |Greens|
        invariant Shaped(cells, height, width)
        invariant forall y, x :: 0 <= y < height && 0 <= x < width ==>
          cells[y][x] == if (x, y) in Greens[..j] then MaxReward else if (x, y) in Reds then MinReward else 0
      {
        var (x, y) := Greens[j];
        assert (Reds + Greens)[|Reds| + j] == Greens[j];
        cells := cells[y := cells[y][x := MaxReward]];
        assert Greens[..j + 1] == Greens[..j] + [Greens[j]];
      }
      assert Greens[..|Greens|] == Greens;
      forall y | 0 <= y < height
        ensures cells[y] == InitialCells(height, width)[y]
      {
      }
    }

    /** `reward_at(x, y)`: the reward of cell `(x, y)`. */
    function RewardAt(x: int, y: int): (r: int)
      reads this
      requires Valid() && 0 <= x < width && 0 <= y < height
      ensures r == InitialReward(x, y)
      ensures r == MaxReward <==> (x, y) in Greens
      ensures r == MinReward <==> (x, y) in Reds && (x, y) !in Greens
    {
      cells[y][x]
    }

    /** `pad_size`: `(height, width)`. */
    function PadSize(): (r: (nat, nat))
      reads this
      ensures r == (height, width)
    {
      (height, width)
    }
  }

  /** `xy_to_state`: the row-major number of `(x, y)` in a world `width`
      wide. */
  function CellNumber(width: int, x: int, y: int): int {
    width * y + x
  }

  /** `state_to_xy`: Python's `%` and `//`, which for a positive width
      agree with Dafny's. */
  function CellOf(width: int, state: int): (int, int)
    requires width > 0
  {
    (state % width, state / width)
  }

  /** A positive number times a positive one is at least the first. */
  lemma MulAtLeast(a: int, b: int)
    requires a > 0 && b >= 1
    ensures a * b >= a
  {
  }

  /** The quotient and remainder by a positive `width` are the only pair
      that rebuilds the dividend with a remainder below `width`. */
  lemma {:induction false} DivModUnique(width: int, s: int, q: int, r: int)
    requires width > 0 && s == width * q + r && 0 <= r < width
    ensures s / width == q && s % width == r
  {
    var q', r' := s / width, s % width;
    assert width * (q' - q) == r - r';
    if q' > q {
      MulAtLeast(width, q' - q);
    } else if q' < q {
      MulAtLeast(width, q - q');
    }
  }

  /** Numbering a cell and reading the number back gives the cell, for
      every column of the world and every row. */
  lemma {:induction false} CellOfInvertsCellNumber(width: int, x: int, y: int)
    requires width > 0 && 0 <= x < width
    ensures CellOf(width, CellNumber(width, x, y)) == (x, y)
  {
    DivModUnique(width, width * y + x, y, x);
  }

  /** Every number is the number of the cell it is read back as. */
  lemma CellNumberInvertsCellOf(width: int, state: int)
    requires width > 0
    ensures var (x, y) := CellOf(width, state); CellNumber(width, x, y) == state && 0 <= x < width
  {
  }

  /** A `step` error: an action outside 0..3 (`ValueError`), or a player
      outside the world's cells (`IndexError` in `reward_at`). */
  datatype StepError = UnknownAction | OutOfWorld

  /** What `step` returns: the new state, the reward and `done`. */
  datatype Outcome = Outcome(state: int, reward: int, done: bool)

  /** The player's position after `action`: 0 right, 1 left, 2 down, 3 up,
      each blocked at the `COLS` or `ROWS` edge. */
  function Moved(x: int, y: int, action: int): (int, int) {
    if action == 0 && x < Cols - 1 then (x + 1, y)
    else if action == 1 && x > 0 then (x - 1, y)
    else if action == 2 && y < Rows - 1 then (x, y + 1)
    else if action == 3 && y > 0 then (x, y - 1)
    else (x, y)
  }

  /** `step(action)` of a player at `(x, y)` in a `height` by `width`
      world whose episode length is `len`: the new position and the
      outcome or the error. */
  function Next(height: nat, width: nat, len: int, x: int, y: int, action: int)
    : (r: (int, int, Result<Outcome, StepError>))
  {
    if action !in {0, 1, 2, 3} then (x, y, Err(UnknownAction))
    else
      var (x', y') := Moved(x, y, action);
      if 0 <= x' < width && 0 <= y' < height
      then (x', y', Ok(Outcome(CellNumber(width, x', y'), InitialReward(x', y'), len >= 100)))
      else (x', y', Err(OutOfWorld))
  }

  /** `step` rejects exactly the actions outside 0..3, and leaves the
      player where it was when it does. */
  lemma NextRejectsUnknownActions(height: nat, width: nat, len: int, x: int, y: int, action: int)
    ensures var (x', y', r) := Next(height, width, len, x, y, action);
      && (r == Err(UnknownAction) <==> !(0 <= action <= 3))
      && (r == Err(UnknownAction) ==> (x', y') == (x, y))
  {
  }

  /** A player on the `COLS` by `ROWS` pad stays on it and moves at most
      one cell. */
  lemma NextStaysOnPad(height: nat, width: nat, len: int, x: int, y: int, action: int)
    requires 0 <= x < Cols && 0 <= y < Rows
    ensures var (x', y', r) := Next(height, width, len, x, y, action);
      && 0 <= x' < Cols && 0 <= y' < Rows
      && (if x' < x then x - x' else x' - x) + (if y' < y then y - y' else y' - y) <= 1
  {
  }

  /** `step` succeeds exactly when the action is known and the new
      position is a cell of the world; it then reports that cell's number
      and reward, and `done` exactly when the episode has 100 steps. */
  lemma NextObserves(height: nat, width: nat, len: int, x: int, y: int, action: int)
    requires width > 0
    ensures var (x', y', r) := Next(height, width, len, x, y, action);
      && (r.Ok? <==> 0 <= action <= 3 && 0 <= x' < width && 0 <= y' < height)
      && (r.Ok? ==> CellOf(width, r.value.state) == (x', y') && r.value.reward == InitialReward(x', y')
                    && (r.value.done <==> len >= 100))
  {
    var (x', y', r) := Next(height, width, len, x, y, action);
    if r.Ok? {
      CellOfInvertsCellNumber(width, x', y');
    }
  }

  class WorldEnv {
    const world: World
    var episodeLen: int
    var playerX: int
    var playerY: int

    /** The player is on the `COLS` by `ROWS` pad, and the episode length
        is the 0 `reset` set (nothing increments it). */
    ghost predicate Valid()
      reads this, world
    {
      && world.Valid() && world.width > 0
      && 0 <= playerX < Cols && 0 <= playerY < Rows
      && episodeLen == 0
    }

    /** `WorldEnv(world)`, which ends with `reset()`. */
    constructor (w: World)
      requires w.Valid()
      ensures Valid() && world == w && playerX == 0 && playerY == 0
    {
      assert (Reds + Greens)[0] == (3, 4);
      world := w;
      new;
      var _ := Reset();
    }

    /** `xy_to_state(x, y)`. */
    function XyToState(x: int, y: int): (s: int)
      reads this
      ensures s == CellNumber(world.width, x, y)
      ensures 0 <= x < world.width ==> CellOf(world.width, s) == (x, y)
    {
      if 0 <= x < world.width then
        CellOfInvertsCellNumber(world.width, x, y);
        world.width * y + x
      else
        world.width * y + x
    }

    /** `state_to_xy(state)`. */
    function StateToXy(state: int): (p: (int, int))
      reads this, world
      requires Valid()
      ensures p == CellOf(world.width, state)
      ensures CellNumber(world.width, p.0, p.1) == state && 0 <= p.0 < world.width
    {
      CellNumberInvertsCellOf(world.width, state);
      (state % world.width, state / world.width)
    }

    /** `step(action)`: the new position, and the outcome or the error; an
        `IndexError` leaves the player at the position it moved to. */
    method Step(action: int) returns (r: Result<Outcome, StepError>)
      requires Valid()
      modifies this
      ensures Valid()
      ensures (playerX, playerY, r) == Next(world.height, world.width, old(episodeLen), old(playerX), old(playerY), action)
      ensures r.Ok? ==> !r.value.done
    {
      if action !in {0, 1, 2, 3} {
        return Err(UnknownAction);
      }
      if action == 0 && playerX < Cols - 1 {
        playerX := playerX + 1;
      }
      if action == 1 && playerX > 0 {
        playerX := playerX - 1;
      }
      if action == 2 && playerY < Rows - 1 {
        playerY := playerY + 1;
      }
      if action == 3 && playerY > 0 {
        playerY := playerY - 1;
      }
      if !(playerX < world.width && playerY < world.height) {
        return Err(OutOfWorld);
      }
      var reward := world.RewardAt(playerX, playerY);
      var done := episodeLen >= 100;
      r := Ok(Outcome(world.width * playerY + playerX, reward, done));
    }

    /** `reset()`: the player back at `(0, 0)`, whose number is 0. */
    method Reset() returns (s: int)
      modifies this`playerX, this`playerY, this`episodeLen
      ensures playerX == 0 && playerY == 0 && episodeLen == 0
      ensures s == CellNumber(world.width, 0, 0) && s == 0
    {
      playerX, playerY := 0, 0;
      episodeLen := 0;
      s := world.width * playerY + playerX;
    }

    /** `n_states`: one state per cell of the world. */
    function NStates(): (n: int)
      reads this, world
      requires Valid()
      ensures n == world.height * world.width
      ensures forall x, y :: 0 <= x < world.width && 0 <= y < world.height ==> 0 <= XyToState(x, y) < n
    {
      CellNumbersInRange(world.height, world.width);
      world.height * world.width
    }

    /** `n_actions`: right, left, down and up. */
    function NActions(): (n: int)
      ensures n == 4
    {
      4
    }
  }

  /** Every cell of a `height` by `width` world has a number below
      `height * width`. */
  lemma CellNumbersInRange(height: int, width: int)
    requires width > 0
    ensures forall x, y :: 0 <= x < width && 0 <= y < height ==> 0 <= CellNumber(width, x, y) < height * width
  {
    forall x, y | 0 <= x < width && 0 <= y < height
      ensures 0 <= CellNumber(width, x, y) < height * width
    {
      assert width * y + x < width * (y + 1);
      assert width * (y + 1) <= width * height;
    }
  }
}
