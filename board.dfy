/** `GameCell` and `GameBoard` of `gameLogic.py`: a height x width grid of
    cells, each with its reward, its terrain flags and the flags that mark
    which object stands on it. */
module Board {
  import opened Wrappers
  import opened Geometry
  import opened ActionsObjectsList
  import opened Params

  datatype GameCell = GameCell(x: int, y: int, reward: real, isTerminal: bool,
                               scratIsHere: bool, hippoIsHere: bool, watermelonIsHere: bool,
                               lavaIsHere: bool, isGreen: bool)

  /** The reward of a cell: lava first, then green, otherwise nothing. */
  function CellRewardOf(p: GameParams, q: Pos): real {
    if q in p.layout.lava then p.config.lavaReward
    else if q in p.layout.green then p.config.greenReward
    else 0.0
  }

  /** The cell at column `x`, row `y` of a board built from `p`. */
  function NewCell(p: GameParams, x: int, y: int): GameCell {
    var q := Pos(x, y);
    GameCell(x, y, CellRewardOf(p, q), q in p.layout.terminal,
             p.starts.scrat == Some(q), p.starts.hippo == Some(q), p.starts.watermelon == Some(q),
             q in p.layout.lava, q in p.layout.green)
  }

  /** The rows of a board built from `p`, row `y` holding the cells of that row. */
  function NewBoard(p: GameParams): seq<seq<GameCell>> {
    var height := if p.Height() > 0 then p.Height() else 0;
    var width := if p.Width() > 0 then p.Width() else 0;
    seq(height, y => seq(width, x => NewCell(p, x, y)))
  }

  predicate Rectangular(cells: seq<seq<GameCell>>, height: int, width: int) {
    |cells| == height && forall y :: 0 <= y < |cells| ==> |cells[y]| == width
  }

  predicate InGrid(cells: seq<seq<GameCell>>, q: Pos) {
    0 <= q.y < |cells| && 0 <= q.x < |cells[q.y]|
  }

  /** What the board makes of a built cell: lava wins over green for the
      reward, and each object is marked at its start position. */
  lemma NewBoardCell(p: GameParams, q: Pos)
    requires OnBoard(q, p.Height(), p.Width())
    ensures Rectangular(NewBoard(p), p.Height(), p.Width())
    ensures var c := NewBoard(p)[q.y][q.x];
      && c.x == q.x && c.y == q.y
      && (q in p.layout.lava ==> c.reward == p.config.lavaReward)
      && (q !in p.layout.lava && q in p.layout.green ==> c.reward == p.config.greenReward)
      && (q !in p.layout.lava && q !in p.layout.green ==> c.reward == 0.0)
      && (c.isTerminal <==> q in p.layout.terminal)
      && (c.lavaIsHere <==> q in p.layout.lava)
      && (c.isGreen <==> q in p.layout.green)
      && (c.scratIsHere <==> p.starts.scrat == Some(q))
      && (c.hippoIsHere <==> p.starts.hippo == Some(q))
      && (c.watermelonIsHere <==> p.starts.watermelon == Some(q))
  {
  }

  /** The first argument of `move_object`: one of the `Objects` tags, or a
      game object itself, which equals none of the tags. */
  datatype ObjectArg = Tag(o: Objects) | Instance(o: Objects)

  function Flag(c: GameCell, o: Objects): bool {
    match o
    case Scrat => c.scratIsHere
    case Hippo => c.hippoIsHere
    case Watermelon => c.watermelonIsHere
  }

  /** A cell without its occupancy flags. */
  function Terrain(c: GameCell): GameCell {
    c.(scratIsHere := false, hippoIsHere := false, watermelonIsHere := false)
  }

  function SetFlag(cells: seq<seq<GameCell>>, o: Objects, q: Pos, v: bool): (r: seq<seq<GameCell>>)
    requires InGrid(cells, q)
    ensures |r| == |cells| && forall y :: 0 <= y < |r| ==> |r[y]| == |cells[y]|
  {
    var c := cells[q.y][q.x];
    var c' := match o
      case Scrat => c.(scratIsHere := v)
      case Hippo => c.(hippoIsHere := v)
      case Watermelon => c.(watermelonIsHere := v);
    cells[q.y := cells[q.y][q.x := c']]
  }

  /** Setting one flag of the cell at `q` changes that flag there and
      nothing else on the board. */
  lemma SetFlagEffect(cells: seq<seq<GameCell>>, o: Objects, q: Pos, v: bool)
    requires InGrid(cells, q)
    ensures var r := SetFlag(cells, o, q, v);
      && Flag(r[q.y][q.x], o) == v
      && forall y, x :: 0 <= y < |cells| && 0 <= x < |cells[y]| ==>
           && Terrain(r[y][x]) == Terrain(cells[y][x])
           && (forall o' :: o' != o ==> Flag(r[y][x], o') == Flag(cells[y][x], o'))
           && (Pos(x, y) != q ==> r[y][x] == cells[y][x])
  {
  }

  /** The board after `move_object(obj, from, to)`. */
  function MoveFlags(cells: seq<seq<GameCell>>, obj: ObjectArg, from: Pos, to: Pos): (r: seq<seq<GameCell>>)
    requires InGrid(cells, from) && InGrid(cells, to)
    ensures |r| == |cells| && forall y :: 0 <= y < |r| ==> |r[y]| == |cells[y]|
  {
    match obj
    case Tag(o) => SetFlag(SetFlag(cells, o, from, false), o, to, true)
    case Instance(_) => cells
  }

  /** Moving a tagged object sets its flag at the target, clears it at the
      source and leaves every other flag and every reward as it was; an
      object instance leaves the board unchanged. */
  lemma MoveFlagsEffect(cells: seq<seq<GameCell>>, obj: ObjectArg, from: Pos, to: Pos)
    requires InGrid(cells, from) && InGrid(cells, to)
    ensures obj.Instance? ==> MoveFlags(cells, obj, from, to) == cells
    ensures obj.Tag? ==>
      var r := MoveFlags(cells, obj, from, to);
      && Flag(r[to.y][to.x], obj.o)
      && (from != to ==> !Flag(r[from.y][from.x], obj.o))
      && forall y, x :: 0 <= y < |cells| && 0 <= x < |cells[y]| ==>
           && Terrain(r[y][x]) == Terrain(cells[y][x])
           && (forall o :: o != obj.o ==> Flag(r[y][x], o) == Flag(cells[y][x], o))
           && (Pos(x, y) != from && Pos(x, y) != to ==> r[y][x] == cells[y][x])
  {
    match obj
    case Instance(_) =>
    case Tag(o) =>
      var mid := SetFlag(cells, o, from, false);
      SetFlagEffect(cells, o, from, false);
      SetFlagEffect(mid, o, to, true);
  }

  /** The board shows the terrain built from `p`, Scrat's flag exactly at
      `scratAt` and the Hippo's flag exactly at `hippoAt`. (The Watermelon's
      flags are not part of it: they go stale while it is carried.) */
  predicate Matches(cells: seq<seq<GameCell>>, p: GameParams, scratAt: Pos, hippoAt: Option<Pos>)
    requires Rectangular(cells, p.Height(), p.Width())
  {
    forall y, x :: 0 <= y < p.Height() && 0 <= x < p.Width() ==>
      && Terrain(cells[y][x]) == Terrain(NewCell(p, x, y))
      && cells[y][x].scratIsHere == (Pos(x, y) == scratAt)
      && cells[y][x].hippoIsHere == (hippoAt == Some(Pos(x, y)))
  }

  /** Two boards of the same shape carry the same Watermelon flags. */
  predicate SameMelonFlags(a: seq<seq<GameCell>>, b: seq<seq<GameCell>>) {
    && |a| == |b|
    && (forall y :: 0 <= y < |a| ==> |a[y]| <= |b[y]|)
    && forall y, x :: 0 <= y < |a| && 0 <= x < |a[y]| ==>
         a[y][x].watermelonIsHere == b[y][x].watermelonIsHere
  }

  lemma SameMelonFlagsTrans(a: seq<seq<GameCell>>, b: seq<seq<GameCell>>, c: seq<seq<GameCell>>)
    requires SameMelonFlags(a, b) && SameMelonFlags(b, c)
    ensures SameMelonFlags(a, c)
  {
  }

  /** Moving Scrat's or the Hippo's flag leaves the Watermelon's flags. */
  lemma MoveKeepsMelonFlags(cells: seq<seq<GameCell>>, o: Objects, from: Pos, to: Pos)
    requires InGrid(cells, from) && InGrid(cells, to) && o != Objects.Watermelon
    ensures SameMelonFlags(MoveFlags(cells, Tag(o), from, to), cells)
  {
    MoveFlagsEffect(cells, Tag(o), from, to);
  }

  /** A freshly built board matches the parameters and the start positions. */
  lemma NewBoardMatches(p: GameParams, scratAt: Pos)
    requires p.Height() >= 0 && p.Width() >= 0 && p.starts.scrat == Some(scratAt)
    ensures Rectangular(NewBoard(p), p.Height(), p.Width())
    ensures Matches(NewBoard(p), p, scratAt, p.starts.hippo)
  {
  }

  /** Moving Scrat's or the Hippo's flag to a new cell keeps the board
      matching, with that actor now at the new cell; moving the
      Watermelon's flag leaves the match as it was. */
  lemma MoveMatches(cells: seq<seq<GameCell>>, p: GameParams, o: Objects, from: Pos, to: Pos,
                    scratAt: Pos, hippoAt: Option<Pos>)
    requires Rectangular(cells, p.Height(), p.Width())
    requires OnBoard(from, p.Height(), p.Width()) && OnBoard(to, p.Height(), p.Width()) && from != to
    requires Matches(cells, p, scratAt, hippoAt)
    requires o == Objects.Scrat ==> from == scratAt
    requires o == Objects.Hippo ==> hippoAt == Some(from)
    ensures var r := MoveFlags(cells, Tag(o), from, to);
      && Rectangular(r, p.Height(), p.Width())
      && Matches(r, p, if o == Objects.Scrat then to else scratAt, if o == Objects.Hippo then Some(to) else hippoAt)
      && (o != Objects.Watermelon ==> SameMelonFlags(r, cells))
  {
    MoveFlagsEffect(cells, Tag(o), from, to);
    var r := MoveFlags(cells, Tag(o), from, to);
    var scratAt', hippoAt' := if o == Objects.Scrat then to else scratAt, if o == Objects.Hippo then Some(to) else hippoAt;
    forall y, x | 0 <= y < p.Height() && 0 <= x < p.Width()
      ensures Terrain(r[y][x]) == Terrain(NewCell(p, x, y))
      ensures r[y][x].scratIsHere == (Pos(x, y) == scratAt')
      ensures r[y][x].hippoIsHere == (hippoAt' == Some(Pos(x, y)))
    {
      assert Terrain(r[y][x]) == Terrain(cells[y][x]);
      if Pos(x, y) != from && Pos(x, y) != to {
        assert r[y][x] == cells[y][x];
      }
    }
    if o != Objects.Watermelon {
      forall y, x | 0 <= y < |r| && 0 <= x < |r[y]|
        ensures r[y][x].watermelonIsHere == cells[y][x].watermelonIsHere
      {
        assert Flag(r[y][x], Objects.Watermelon) == Flag(cells[y][x], Objects.Watermelon);
      }
    }
  }

  class GameBoard {
    var cells: seq<seq<GameCell>>

    constructor (params: GameParams)
      ensures cells == NewBoard(params)
    {
      var height := if params.Height() > 0 then params.Height() else 0;
      var width := if params.Width() > 0 then params.Width() else 0;
      var board: seq<seq<GameCell>> := [];
      var y := 0;
      while y < height
        invariant 0 <= y <= height
        invariant board == NewBoard(params)[..y]
      {
        var curRow: seq<GameCell> := [];
        var x := 0;
        while x < width
          invariant 0 <= x <= width
          invariant curRow == NewBoard(params)[y][..x]
        {
          curRow := curRow + [NewCell(params, x, y)];
          x := x + 1;
        }
        assert curRow == NewBoard(params)[y];
        assert NewBoard(params)[..y + 1] == NewBoard(params)[..y] + [NewBoard(params)[y]];
        board := board + [curRow];
        y := y + 1;
      }
      assert NewBoard(params)[..y] == NewBoard(params);
      cells := board;
    }

    method MoveObject(obj: ObjectArg, oldPosition: Pos, newPosition: Pos)
      requires InGrid(cells, oldPosition) && InGrid(cells, newPosition)
      modifies this
      ensures cells == MoveFlags(old(cells), obj, oldPosition, newPosition)
    {
      match obj {
        case Tag(o) =>
          cells := SetFlag(cells, o, oldPosition, false);
          cells := SetFlag(cells, o, newPosition, true);
        case Instance(_) =>
      }
    }

    function CellReward(q: Pos): real
      reads this
      requires InGrid(cells, q)
    {
      cells[q.y][q.x].reward
    }

    function IsTerminal(q: Pos): bool
      reads this
      requires InGrid(cells, q)
    {
      cells[q.y][q.x].isTerminal
    }

    function IsGreen(q: Pos): bool
      reads this
      requires InGrid(cells, q)
    {
      cells[q.y][q.x].isGreen
    }

    function ScratIsHere(q: Pos): bool
      reads this
      requires InGrid(cells, q)
    {
      cells[q.y][q.x].scratIsHere
    }

    function HippoIsHere(q: Pos): bool
      reads this
      requires InGrid(cells, q)
    {
      cells[q.y][q.x].hippoIsHere
    }

    function WatermelonIsHere(q: Pos): bool
      reads this
      requires InGrid(cells, q)
    {
      cells[q.y][q.x].watermelonIsHere
    }

    function LavaIsHere(q: Pos): bool
      reads this
      requires InGrid(cells, q)
    {
      cells[q.y][q.x].lavaIsHere
    }
  }
}
