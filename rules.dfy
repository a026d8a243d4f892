/** The game of `GameLogic` as a function on values: the state of the board
    and of the three actors, and what `step`, `reset` and `full_reset` make
    of it. The class `GameLogic` is proved to follow these functions. */
module Rules {
  import opened Wrappers
  import opened Geometry
  import opened ActionsObjectsList
  import opened Params
  import opened ParamsFacts
  import opened GameObjects
  import opened Board

  datatype ScratState = ScratState(body: Body, carrying: bool)
  datatype HippoState = HippoState(body: Body, isFed: bool)
  datatype MelonState = MelonState(body: Body, isTaken: bool, isEaten: bool)

  /** Everything `GameLogic` holds. `lastAction` is `None` until a step. */
  datatype GameState = GameState(params: GameParams, cells: seq<seq<GameCell>>, scrat: ScratState,
                                 hippo: Option<HippoState>, melon: Option<MelonState>,
                                 nActions: int, lastAction: Option<int>,
                                 lastReward: real, fullReward: real, done: bool)

  /** The exceptions `step` can raise: the failed `assert` on the action,
      and the `RuntimeError`s of `watermelon_position` and `hippo_position`. */
  datatype GameError = InvalidAction | NoWatermelon | NoHippo

  /** What `step` returns (its `info` is always `None`). */
  datatype Observation = Observation(state: int, reward: real, done: bool)

  /** The state after `step`, and its result or the exception it raised. */
  datatype Stepped = Stepped(after: GameState, result: Result<Observation, GameError>)

  /** Parameters a game can run on: resolved far enough that Scrat has a
      start, and every start is on the board. */
  predicate Playable(p: GameParams) {
    && p.Height() > 0 && p.Width() > 0
    && StartsOnBoard(p.starts, p.Height(), p.Width())
    && p.starts.scrat.Some?
    && (p.starts.hippo.None? ==> !p.config.hippoRandom)
    && (p.starts.watermelon.None? ==> !p.config.watermelonRandom)
  }

  predicate BodyOk(b: Body, p: GameParams, moveProb: real) {
    OnBoard(b.pos, p.Height(), p.Width()) && b.height == p.Height() && b.width == p.Width() && b.moveProb == moveProb
  }

  /** The invariant of `GameLogic`: the actors stand on the board, a Hippo
      and a Watermelon exist exactly when the parameters place them, a
      carried Watermelon is on Scrat's cell, Scrat carries the Watermelon
      exactly when it is taken, and the Hippo is fed exactly when the
      Watermelon is eaten. */
  predicate ValidState(s: GameState) {
    var p := s.params;
    && Playable(p)
    && Rectangular(s.cells, p.Height(), p.Width())
    && BodyOk(s.scrat.body, p, 0.0)
    && (s.hippo.Some? <==> p.starts.hippo.Some?)
    && (s.melon.Some? <==> p.starts.watermelon.Some?)
    && (s.hippo.Some? ==> BodyOk(s.hippo.value.body, p, p.config.hippoMoveProb))
    && (s.melon.Some? ==> BodyOk(s.melon.value.body, p, p.config.watermelonMoveProb))
    && s.nActions == (if s.melon.Some? then 6 else 4)
    && (s.scrat.carrying ==> s.melon.Some? && s.melon.value.body.pos == s.scrat.body.pos)
    && (s.melon.Some? ==> s.melon.value.isTaken == s.scrat.carrying)
    && (s.hippo.Some? ==> s.hippo.value.isFed == (s.melon.Some? && s.melon.value.isEaten))
    && (s.melon.Some? && s.melon.value.isEaten ==> s.hippo.Some?)
  }

  /** Where the Hippo stands, if there is one. */
  function HippoAt(s: GameState): Option<Pos> {
    if s.hippo.Some? then Some(s.hippo.value.body.pos) else None
  }

  /** The board agrees with the parameters and with Scrat and the Hippo,
      and every actor knows the lava of the parameters. */
  predicate Consistent(s: GameState)
    requires ValidState(s)
  {
    var p := s.params;
    && Matches(s.cells, p, s.scrat.body.pos, HippoAt(s))
    && s.scrat.body.lava == p.layout.lava
    && (s.hippo.Some? ==> s.hippo.value.body.lava == p.layout.lava)
    && (s.melon.Some? ==> s.melon.value.body.lava == p.layout.lava)
  }

  // ---------------------------------------------------------------------
  // step

  function ScratPos(s: GameState): Pos { s.scrat.body.pos }

  /** `_move_object(obj, a)` may run: the actor exists, the target is on the
      board and a moving Watermelon is not carried. */
  predicate CanMove(s: GameState, obj: Objects, a: Actions) {
    && ValidState(s) && a.IsMove()
    && match obj
       case Scrat => OnBoard(Shift(s.scrat.body.pos, a.Delta()), s.params.Height(), s.params.Width())
       case Hippo => s.hippo.Some? && OnBoard(Shift(s.hippo.value.body.pos, a.Delta()), s.params.Height(), s.params.Width())
       case Watermelon => s.melon.Some? && !s.melon.value.isTaken
                          && OnBoard(Shift(s.melon.value.body.pos, a.Delta()), s.params.Height(), s.params.Width())
  }

  /** `_move_object(obj, a)`: the actor moves and the board follows; a
      carried Watermelon moves with Scrat, but the board is handed the
      Watermelon object instead of its tag and keeps its flags. */
  function MoveObject(s: GameState, obj: Objects, a: Actions): (r: GameState)
    requires CanMove(s, obj, a)
    ensures ValidState(r)
    ensures r.params == s.params && r.nActions == s.nActions
  {
    var d := a.Delta();
    match obj
    case Scrat =>
      var b := Moved(s.scrat.body, d);
      var s1 := s.(scrat := s.scrat.(body := b), cells := MoveFlags(s.cells, Tag(Objects.Scrat), b.prev, b.pos));
      if s1.scrat.carrying then
        var m := s1.melon.value;
        var mb := Moved(m.body, d);
        s1.(melon := Some(m.(body := mb)), cells := MoveFlags(s1.cells, Instance(Objects.Watermelon), mb.prev, mb.pos))
      else s1
    case Hippo =>
      var h := s.hippo.value;
      var b := Moved(h.body, d);
      s.(hippo := Some(h.(body := b)), cells := MoveFlags(s.cells, Tag(Objects.Hippo), b.prev, b.pos))
    case Watermelon =>
      var m := s.melon.value;
      var b := Moved(m.body, d);
      s.(melon := Some(m.(body := b)), cells := MoveFlags(s.cells, Tag(Objects.Watermelon), b.prev, b.pos))
  }

  /** The Hippo's own random move (lines 455-458). */
  function HippoTurn(s: GameState, d: Dice): (r: GameState)
    requires ValidState(s)
    ensures ValidState(r)
    ensures r.params == s.params && r.nActions == s.nActions
  {
    if s.hippo.None? then s
    else
      var b := s.hippo.value.body;
      match RandomAction(b, d)
      case None => s
      case Some(a) =>
        RandomActionSafe(b, d);
        MoveObject(s, Objects.Hippo, a)
  }

  /** The Watermelon's own random move while it is neither taken nor eaten
      (lines 460-464). */
  function MelonTurn(s: GameState, d: Dice): (r: GameState)
    requires ValidState(s)
    ensures ValidState(r)
    ensures r.params == s.params && r.nActions == s.nActions
  {
    if s.melon.None? || s.melon.value.isTaken || s.melon.value.isEaten then s
    else
      var b := s.melon.value.body;
      match RandomAction(b, d)
      case None => s
      case Some(a) =>
        RandomActionSafe(b, d);
        MoveObject(s, Objects.Watermelon, a)
  }

  /** Scrat's move for actions 0-3 when the edge does not block it
      (lines 469-476). */
  function ScratMove(s: GameState, action: int): (r: GameState)
    requires ValidState(s)
    ensures ValidState(r)
    ensures r.params == s.params && r.nActions == s.nActions
  {
    var pos := s.scrat.body.pos;
    if action == 0 && pos.x > 0 then MoveObject(s, Objects.Scrat, Left)
    else if action == 1 && pos.y > 0 then MoveObject(s, Objects.Scrat, Up)
    else if action == 2 && pos.x < s.params.Width() - 1 then MoveObject(s, Objects.Scrat, Right)
    else if action == 3 && pos.y < s.params.Height() - 1 then MoveObject(s, Objects.Scrat, Down)
    else s
  }

  /** `_interact_with_watermelon(kind)`. */
  function MelonInteraction(s: GameState, kind: Actions): GameState
    requires s.melon.Some?
  {
    var m := s.melon.value;
    match kind
    case Take => s.(scrat := s.scrat.(carrying := true), melon := Some(m.(isTaken := true)))
    case Put => s.(scrat := s.scrat.(carrying := false), melon := Some(m.(isTaken := false)))
    case Feed => s.(scrat := s.scrat.(carrying := false), melon := Some(m.(isTaken := false, isEaten := true)))
    case _ => s
  }

  /** `_interact_with_hippo(FEED)`: the Hippo is fed and the feeding reward
      is returned. */
  function HippoInteraction(s: GameState): (GameState, real)
    requires s.hippo.Some?
  {
    (s.(hippo := Some(s.hippo.value.(isFed := true))), s.params.config.hippoFedReward)
  }

  /** TAKE and PUT_FEED (lines 477-484): the new state and the action's
      reward, or the exception raised when the Watermelon or the Hippo is
      missing. `lastHippo` is where the Hippo stood before its move. */
  function Interact(s: GameState, action: int, lastHippo: Option<Pos>): (r: (GameState, Result<real, GameError>))
    requires ValidState(s)
    ensures ValidState(r.0)
    ensures r.0.params == s.params && r.0.nActions == s.nActions
  {
    var pos := s.scrat.body.pos;
    if action == 4 then
      if s.melon.None? then (s, Err(NoWatermelon))
      else if pos == s.melon.value.body.pos then (MelonInteraction(s, Take), Ok(0.0))
      else (s, Ok(0.0))
    else if action == 5 && s.scrat.carrying then
      if s.hippo.None? then (s, Err(NoHippo))
      else if pos == s.hippo.value.body.pos && Some(pos) == lastHippo then
        var (s', bonus) := HippoInteraction(MelonInteraction(s, Feed));
        (s', Ok(bonus))
      else (MelonInteraction(s, Put), Ok(0.0))
    else (s, Ok(0.0))
  }

  /** The reward, the total, `done` and the encoded state (lines 486-500). */
  function Finish(s: GameState, bonus: real): (r: (GameState, Observation))
    requires ValidState(s)
    ensures ValidState(r.0)
    ensures r.0.params == s.params && r.0.nActions == s.nActions
  {
    var pos := s.scrat.body.pos;
    var cell := s.cells[pos.y][pos.x];
    var reward := cell.reward + bonus + s.params.config.tickPenalty;
    var done := cell.isTerminal || (s.hippo.Some? && s.hippo.value.isFed);
    (s.(lastReward := reward, fullReward := s.fullReward + reward, done := done),
     Observation(pos.y * s.params.Width() + pos.x, reward, done))
  }

  /** `step(action)`, with `hd` and `md` the random numbers the Hippo and
      the Watermelon draw. */
  function StepSpec(s: GameState, action: int, hd: Dice, md: Dice): (r: Stepped)
    requires ValidState(s)
    ensures ValidState(r.after)
    ensures r.after.params == s.params && r.after.nActions == s.nActions
  {
    if !(0 <= action <= s.nActions) then Stepped(s, Err(InvalidAction))
    else
      var s1 := s.(lastAction := Some(action));
      assert ValidState(s1);
      Advance(s1, action, HippoAt(s), hd, md)
  }

  /** The three moves of a step: the Hippo's, the Watermelon's, then
      Scrat's (lines 455-476). */
  function Moves(s: GameState, action: int, hd: Dice, md: Dice): (r: GameState)
    requires ValidState(s)
    ensures ValidState(r)
    ensures r.params == s.params && r.nActions == s.nActions
  {
    ScratMove(MelonTurn(HippoTurn(s, hd), md), action)
  }

  /** `step` once the action is admitted and recorded: the actors move, the
      action interacts, and the reward is booked. `lastHippo` is where the
      Hippo stood before its move. */
  function Advance(s: GameState, action: int, lastHippo: Option<Pos>, hd: Dice, md: Dice): (r: Stepped)
    requires ValidState(s)
    ensures ValidState(r.after)
    ensures r.after.params == s.params && r.after.nActions == s.nActions
  {
    var (s3, res) := Interact(Moves(s, action, hd, md), action, lastHippo);
    match res
    case Err(e) => Stepped(s3, Err(e))
    case Ok(bonus) =>
      var (s4, obs) := Finish(s3, bonus);
      Stepped(s4, Ok(obs))
  }

  // ---------------------------------------------------------------------
  // reset and full_reset

  /** The game freshly built from `p` (`_generate_new_game`). */
  function Fresh(p: GameParams): (s: GameState)
    requires Playable(p)
    ensures ValidState(s)
  {
    var melon := FreshMelon(p);
    GameState(p, NewBoard(p), FreshScrat(p), FreshHippo(p), melon, if melon.Some? then 6 else 4,
              None, 0.0, 0.0, false)
  }

  /** An actor's body at its start, before any move. */
  function StartBody(p: GameParams, start: Pos, moveProb: real): Body {
    Body(start, Pos(-1, -1), p.Height(), p.Width(), p.layout.lava, moveProb)
  }

  function FreshScrat(p: GameParams): ScratState
    requires p.starts.scrat.Some?
  {
    ScratState(StartBody(p, p.starts.scrat.value, 0.0), false)
  }

  function FreshHippo(p: GameParams): Option<HippoState> {
    if p.starts.hippo.Some?
    then Some(HippoState(StartBody(p, p.starts.hippo.value, p.config.hippoMoveProb), false))
    else None
  }

  function FreshMelon(p: GameParams): Option<MelonState> {
    if p.starts.watermelon.Some?
    then Some(MelonState(StartBody(p, p.starts.watermelon.value, p.config.watermelonMoveProb), false, false))
    else None
  }

  /** `reset_position` followed by `update_params`. */
  function ResetBody(b: Body, start: Pos, p: GameParams): Body {
    b.(pos := start, prev := Pos(-1, -1), height := p.Height(), width := p.Width(), lava := p.layout.lava)
  }

  /** `_reset_objects`. */
  function ResetObjects(s: GameState): (r: GameState)
    requires ValidState(s)
    ensures ValidState(r)
  {
    var p := s.params;
    var scrat := ScratState(ResetBody(s.scrat.body, p.starts.scrat.value, p), false);
    var hippo := if p.starts.hippo.Some?
      then Some(HippoState(ResetBody(s.hippo.value.body, p.starts.hippo.value, p), false))
      else s.hippo;
    var melon := if p.starts.watermelon.Some?
      then Some(MelonState(ResetBody(s.melon.value.body, p.starts.watermelon.value, p), false, false))
      else s.melon;
    s.(cells := NewBoard(p), scrat := scrat, hippo := hippo, melon := melon)
  }

  /** `_fill_start_params(resample)` on the whole state: the counters are
      cleared and the parameters resolved. */
  function FillSpec(s: GameState, resample: bool, sh: Shuffles): (r: (GameState, bool))
    requires ValidState(s) && sh.Valid(s.params.Height(), s.params.Width())
    ensures ValidState(r.0)
  {
    var f := Resolve(s.params, resample, sh);
    ResolvePreserves(s.params, resample, sh);
    (s.(params := f.params, lastAction := None, lastReward := 0.0, fullReward := 0.0), f.ok)
  }

  /** `reset()`: the state and the encoded start state, `None` when the
      resolution raised. */
  function ResetSpec(s: GameState, sh: Shuffles): (r: (GameState, Option<int>))
    requires ValidState(s) && sh.Valid(s.params.Height(), s.params.Width())
    ensures ValidState(r.0)
  {
    var (s1, ok) := FillSpec(s, false, sh);
    if !ok then (s1, None) else StartObserved(ResetObjects(s1))
  }

  /** The end of `reset()` (lines 731-734): `done` from Scrat's cell and the
      Hippo, and the encoded state. */
  function StartObserved(s: GameState): (r: (GameState, Option<int>))
    requires ValidState(s)
    ensures ValidState(r.0)
  {
    var pos := s.scrat.body.pos;
    var cell := s.cells[pos.y][pos.x];
    (s.(done := cell.isTerminal || (s.hippo.Some? && s.hippo.value.isFed)),
     Some(s.params.Width() * pos.y + pos.x))
  }

  /** `full_reset()`: the state, and whether the resolution completed. */
  function FullResetSpec(s: GameState, sh: Shuffles): (r: (GameState, bool))
    requires ValidState(s) && sh.Valid(s.params.Height(), s.params.Width())
    ensures ValidState(r.0)
  {
    var (s1, ok) := FillSpec(s, true, sh);
    if !ok then (s1, false) else (ResetObjects(s1), true)
  }
}
