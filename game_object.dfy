/** `gameObject.py`: the objects that stand on the board. `GameObject` keeps
    a position, the previous position, the board size, the lava cells and a
    probability of moving on its own; Scrat, the Hippo and the Watermelon
    add their flags. The subclasses hold their `GameObject` part as `base`. */
module GameObjects {
  import opened Wrappers
  import opened Geometry
  import opened ActionsObjectsList
  import opened Params

  /** The state of a `GameObject` as a value. */
  datatype Body = Body(pos: Pos, prev: Pos, height: int, width: int, lava: seq<Pos>, moveProb: real)

  /** `b` after `change_position(d)`: the old position becomes the previous one. */
  function Moved(b: Body, d: (int, int)): Body {
    b.(prev := b.pos, pos := Shift(b.pos, d))
  }

  /** The random numbers one call of `take_random_action` may consume: the
      `random()` value compared with the move probability and the four
      `randint(0, 3)` samples. */
  datatype Dice = Dice(u: real, draws: seq<int>)
  {
    predicate Valid() {
      0.0 <= u < 1.0 && |draws| == 4 && forall i :: 0 <= i < |draws| ==> 0 <= draws[i] <= 3
    }
  }

  /** The move a sample selects if it stays on the board and out of lava. */
  function LegalMove(b: Body, draw: int): Option<Actions> {
    if draw == 0 && b.pos.x > 0 && Pos(b.pos.x - 1, b.pos.y) !in b.lava then Some(Left)
    else if draw == 1 && b.pos.y > 0 && Pos(b.pos.x, b.pos.y - 1) !in b.lava then Some(Up)
    else if draw == 2 && b.pos.x < b.width - 1 && Pos(b.pos.x + 1, b.pos.y) !in b.lava then Some(Right)
    else if draw == 3 && b.pos.y < b.height - 1 && Pos(b.pos.x, b.pos.y + 1) !in b.lava then Some(Down)
    else None
  }

  /** The move of the first sample that selects one, if any does. */
  function FirstLegal(b: Body, draws: seq<int>): (r: Option<Actions>)
    ensures r.None? <==> forall i :: 0 <= i < |draws| ==> LegalMove(b, draws[i]).None?
    ensures r.Some? ==> exists i :: 0 <= i < |draws| && r == LegalMove(b, draws[i])
                          && forall j :: 0 <= j < i ==> LegalMove(b, draws[j]).None?
  {
    if draws == [] then None
    else
      match LegalMove(b, draws[0])
      case Some(a) => Some(a)
      case None =>
        var r := FirstLegal(b, draws[1..]);
        assert forall i :: 1 <= i < |draws| ==> draws[1..][i - 1] == draws[i];
        r
  }

  /** What `take_random_action` returns: nothing unless the object moves at
      all and the `random()` value falls below its probability, then the
      first of the four samples that selects a legal move. */
  function RandomAction(b: Body, d: Dice): Option<Actions> {
    if b.moveProb > 0.0 && d.u < b.moveProb then FirstLegal(b, d.draws) else None
  }

  lemma LegalMoveSafe(b: Body, draw: int)
    requires OnBoard(b.pos, b.height, b.width)
    requires LegalMove(b, draw).Some?
    ensures var a := LegalMove(b, draw).value;
      && a.IsMove()
      && OnBoard(Shift(b.pos, a.Delta()), b.height, b.width)
      && Shift(b.pos, a.Delta()) !in b.lava
  {
  }

  /** A random move is one step that keeps the object on the board and out of
      the lava it knows about; an object whose probability is not positive
      never moves. */
  lemma RandomActionSafe(b: Body, d: Dice)
    requires OnBoard(b.pos, b.height, b.width)
    ensures b.moveProb <= 0.0 ==> RandomAction(b, d).None?
    ensures RandomAction(b, d).Some? ==>
      var a := RandomAction(b, d).value;
      && a.IsMove()
      && OnBoard(Shift(b.pos, a.Delta()), b.height, b.width)
      && Shift(b.pos, a.Delta()) !in b.lava
      && Manhattan(Moved(b, a.Delta()).pos, b.pos) == 1
  {
    if RandomAction(b, d).Some? {
      var i :| 0 <= i < |d.draws| && RandomAction(b, d) == LegalMove(b, d.draws[i]);
      LegalMoveSafe(b, d.draws[i]);
    }
  }

  class GameObject {
    var x: int
    var y: int
    var prevX: int
    var prevY: int
    var gameHeight: int
    var gameWidth: int
    var lavaCells: seq<Pos>
    var moveProb: real

    /** The base constructor together with the subclass part that places the
        object at `start` and sets its move probability. */
    constructor (params: GameParams, start: Pos, moveProb: real)
      ensures Snapshot() == Body(start, Pos(-1, -1), params.Height(), params.Width(), params.layout.lava, moveProb)
    {
      x, y := start.x, start.y;
      prevX, prevY := -1, -1;
      gameHeight, gameWidth := params.Height(), params.Width();
      lavaCells := params.layout.lava;
      this.moveProb := moveProb;
    }

    function Snapshot(): Body
      reads this
    {
      Body(Pos(x, y), Pos(prevX, prevY), gameHeight, gameWidth, lavaCells, moveProb)
    }

    function CurPosition(): Pos
      reads this
    {
      Pos(x, y)
    }

    function PrevPosition(): Pos
      reads this
    {
      Pos(prevX, prevY)
    }

    /** The last displacement: the one that leads from the previous position
        to the current one. */
    function DxDy(): (d: (int, int))
      reads this
      ensures Shift(PrevPosition(), d) == CurPosition()
    {
      (x - prevX, y - prevY)
    }

    method ChangePosition(dx: int, dy: int)
      modifies this`x, this`y, this`prevX, this`prevY
      ensures Snapshot() == Moved(old(Snapshot()), (dx, dy))
      ensures DxDy() == (dx, dy)
    {
      prevX, prevY := x, y;
      x, y := x + dx, y + dy;
    }

    method TakeRandomAction(d: Dice) returns (r: Option<Actions>)
      requires d.Valid()
      ensures r == RandomAction(Snapshot(), d)
    {
      r := None;
      if moveProb > 0.0 {
        var takeAction := d.u < moveProb;
        if takeAction {
          var actionTaken := false;
          var numSamples := 0;
          while !actionTaken && numSamples < 4
            invariant 0 <= numSamples <= 4
            invariant actionTaken ==> r.Some? && r == FirstLegal(Snapshot(), d.draws)
            invariant !actionTaken ==> r.None? && FirstLegal(Snapshot(), d.draws) == FirstLegal(Snapshot(), d.draws[numSamples..])
          {
            var draw := d.draws[numSamples];
            assert d.draws[numSamples..][1..] == d.draws[numSamples + 1..];
            if draw == 0 && x > 0 && Pos(x - 1, y) !in lavaCells {
              r, actionTaken := Some(Left), true;
            } else if draw == 1 && y > 0 && Pos(x, y - 1) !in lavaCells {
              r, actionTaken := Some(Up), true;
            } else if draw == 2 && x < gameWidth - 1 && Pos(x + 1, y) !in lavaCells {
              r, actionTaken := Some(Right), true;
            } else if draw == 3 && y < gameHeight - 1 && Pos(x, y + 1) !in lavaCells {
              r, actionTaken := Some(Down), true;
            }
            numSamples := numSamples + 1;
          }
          if numSamples == 4 && !actionTaken {
            r := None;
          }
        }
      }
    }

    /** Refreshes the board size and the lava cells the object avoids. */
    method UpdateParams(params: GameParams)
      modifies this`gameHeight, this`gameWidth, this`lavaCells
      ensures Snapshot() == old(Snapshot()).(height := params.Height(), width := params.Width(),
                                               lava := params.layout.lava)
    {
      gameHeight, gameWidth := params.Height(), params.Width();
      lavaCells := params.layout.lava;
    }

    /** The common part of the subclasses' `reset_position`. */
    method ResetPosition(start: Pos)
      modifies this`x, this`y, this`prevX, this`prevY
      ensures Snapshot() == old(Snapshot()).(pos := start, prev := Pos(-1, -1))
    {
      x, y := start.x, start.y;
      prevX, prevY := -1, -1;
    }
  }

  class Scrat {
    const base: GameObject
    var carryingWatermelon: bool

    constructor (params: GameParams)
      requires params.starts.scrat.Some?
      ensures fresh(base) && !carryingWatermelon
      ensures base.Snapshot() == Body(params.starts.scrat.value, Pos(-1, -1), params.Height(), params.Width(),
                                      params.layout.lava, 0.0)
    {
      base := new GameObject(params, params.starts.scrat.value, 0.0);
      carryingWatermelon := false;
    }

    method ResetPosition(params: GameParams)
      requires params.starts.scrat.Some?
      modifies base`x, base`y, base`prevX, base`prevY
      ensures base.Snapshot() == old(base.Snapshot()).(pos := params.starts.scrat.value, prev := Pos(-1, -1))
    {
      base.ResetPosition(params.starts.scrat.value);
    }

    method TakeWatermelon()
      modifies this`carryingWatermelon
      ensures carryingWatermelon
    {
      carryingWatermelon := true;
    }

    method ReleaseWatermelon()
      modifies this`carryingWatermelon
      ensures !carryingWatermelon
    {
      carryingWatermelon := false;
    }
  }

  class Hippo {
    const base: GameObject
    var isFed: bool

    constructor (params: GameParams)
      requires params.starts.hippo.Some?
      ensures fresh(base) && !isFed
      ensures base.Snapshot() == Body(params.starts.hippo.value, Pos(-1, -1), params.Height(), params.Width(),
                                      params.layout.lava, params.config.hippoMoveProb)
    {
      base := new GameObject(params, params.starts.hippo.value, params.config.hippoMoveProb);
      isFed := false;
    }

    method ResetPosition(params: GameParams)
      requires params.starts.hippo.Some?
      modifies base`x, base`y, base`prevX, base`prevY
      ensures base.Snapshot() == old(base.Snapshot()).(pos := params.starts.hippo.value, prev := Pos(-1, -1))
    {
      base.ResetPosition(params.starts.hippo.value);
    }

    method BecomeFed()
      modifies this`isFed
      ensures isFed
    {
      isFed := true;
    }

    method BecomeHungry()
      modifies this`isFed
      ensures !isFed
    {
      isFed := false;
    }
  }

  class Watermelon {
    const base: GameObject
    var isTaken: bool
    var isEaten: bool

    constructor (params: GameParams)
      requires params.starts.watermelon.Some?
      ensures fresh(base) && !isTaken && !isEaten
      ensures base.Snapshot() == Body(params.starts.watermelon.value, Pos(-1, -1), params.Height(),
                                      params.Width(), params.layout.lava, params.config.watermelonMoveProb)
    {
      base := new GameObject(params, params.starts.watermelon.value, params.config.watermelonMoveProb);
      isTaken, isEaten := false, false;
    }

    method ResetPosition(params: GameParams)
      requires params.starts.watermelon.Some?
      modifies base`x, base`y, base`prevX, base`prevY
      ensures base.Snapshot() == old(base.Snapshot()).(pos := params.starts.watermelon.value, prev := Pos(-1, -1))
    {
      base.ResetPosition(params.starts.watermelon.value);
    }

    method BecomeTaken()
      modifies this`isTaken
      ensures isTaken
    {
      isTaken := true;
    }

    method BecomeReleased()
      modifies this`isTaken
      ensures !isTaken
    {
      isTaken := false;
    }

    method BecomeEaten()
      modifies this`isEaten
      ensures isEaten
    {
      isEaten := true;
    }

    method BecomeNotEaten()
      modifies this`isEaten
      ensures !isEaten
    {
      isEaten := false;
    }
  }
}
