/** The class `GameLogic` of `gameLogic.py`: the board, the three actors and
    the counters of one game, updated in place by `step`, `reset` and
    `full_reset`. Every method is proved to follow the functions of module
    `Rules` on the state it holds. The random numbers the Python code
    draws are passed in: `Shuffles` for the shuffled board lists of
    `_generate_random_positions`, `Dice` for the Hippo's and the
    Watermelon's `take_random_action`. */
module Logic {
  import opened Wrappers
  import opened Geometry
  import opened ActionsObjectsList
  import opened Params
  import opened ParamsFacts
  import opened GameObjects
  import opened Board
  import opened Rules

  class GameLogic {
    var startParams: GameParams
    var board: GameBoard?
    var done: bool
    var nActions: int
    var lastAction: Option<int>
    var lastReward: real
    var fullReward: real
    var scrat: Scrat?
    var hippo: Hippo?
    var watermelon: Watermelon?

    /** The objects the game is made of. */
    ghost function Repr(): set<object>
      reads this
    {
      {this}
      + (if board != null then {board} else {})
      + (if scrat != null then {scrat, scrat.base} else {})
      + (if hippo != null then {hippo, hippo.base} else {})
      + (if watermelon != null then {watermelon, watermelon.base} else {})
    }

    /** The objects the fields refer to. */
    ghost function Parts(): (GameBoard?, Scrat?, Hippo?, Watermelon?)
      reads this
    {
      (board, scrat, hippo, watermelon)
    }

    /** The board and Scrat exist, and the actors do not share a position
        object. */
    ghost predicate Wellformed()
      reads this
    {
      && board != null && scrat != null
      && (hippo != null ==> hippo.base != scrat.base)
      && (watermelon != null ==> watermelon.base != scrat.base && (hippo != null ==> watermelon.base != hippo.base))
    }

    /** The game this object holds, as a value. */
    ghost function State(): GameState
      reads this, Repr()
      requires Wellformed()
    {
      GameState(startParams, board.cells, ScratState(scrat.base.Snapshot(), scrat.carryingWatermelon),
                HippoView(), MelonView(), nActions, lastAction, lastReward, fullReward, done)
    }

    ghost function HippoView(): Option<HippoState>
      reads this, hippo, if hippo != null then {hippo.base} else {}
    {
      if hippo != null then Some(HippoState(hippo.base.Snapshot(), hippo.isFed)) else None
    }

    ghost function MelonView(): Option<MelonState>
      reads this, watermelon, if watermelon != null then {watermelon.base} else {}
    {
      if watermelon != null
      then Some(MelonState(watermelon.base.Snapshot(), watermelon.isTaken, watermelon.isEaten))
      else None
    }

    ghost predicate Valid()
      reads this, Repr()
    {
      Wellformed() && ValidState(State())
    }

    /** `GameLogic(params)`: the parameters are resolved and the game is
        built from them. The constructor needs the resolution to complete
        (in Python a failing draw raises out of the constructor). */
    constructor (params: GameParams, sh: Shuffles)
      requires Configured(params) && sh.Valid(params.Height(), params.Width())
      requires Resolve(params, false, sh).ok
      ensures Valid() && fresh(board) && fresh(scrat) && fresh(scrat.base)
      ensures hippo != null ==> fresh(hippo) && fresh(hippo.base)
      ensures watermelon != null ==> fresh(watermelon) && fresh(watermelon.base)
      ensures startParams == Resolve(params, false, sh).params
      ensures State() == Fresh(startParams)
    {
      startParams := params;
      board := null;
      done := false;
      nActions := 0;
      lastAction := None;
      lastReward := 0.0;
      fullReward := 0.0;
      scrat := null;
      hippo := null;
      watermelon := null;
      new;
      GenerateNewGame(sh);
    }

    /** `_generate_random_positions(n, exclude)` on the shuffled cell list
        `positions`: scans the list for cells not excluded until it has `n`
        of them; `None` where Python runs off the end of the list. */
    method GenerateRandomPositions(n: nat, exclude: seq<Pos>, positions: seq<Pos>) returns (r: Option<seq<Pos>>)
      ensures r == FirstFree(positions, exclude, n)
    {
      var out: seq<Pos> := [];
      var i := 0;
      while |out| < n
        invariant 0 <= i <= |positions|
        invariant out == Free(positions[..i], exclude) && |out| <= n
        decreases |positions| - i
      {
        if i == |positions| {
          assert positions[..i] == positions;
          return None;
        }
        assert positions[..i + 1][..i] == positions[..i];
        if positions[i] !in exclude {
          out := out + [positions[i]];
        }
        i := i + 1;
      }
      FreePrefix(positions, i, exclude);
      assert forall k :: 0 <= k < n ==> Free(positions, exclude)[k] == out[k];
      assert Free(positions, exclude)[..n] == out;
      r := Some(out);
    }

    /** `_fill_start_params(resample)`: clears the counters and resolves
        the parameters stage by stage; `false` where a draw raises, with
        the stages before it applied. */
    method FillStartParams(resample: bool, sh: Shuffles) returns (ok: bool)
      modifies this`startParams, this`lastAction, this`lastReward, this`fullReward
      ensures Fill(startParams, ok) == Resolve(old(startParams), resample, sh)
      ensures lastAction == None && lastReward == 0.0 && fullReward == 0.0
    {
      lastAction, lastReward, fullReward := None, 0.0, 0.0;
      ok := FillLava(resample, sh.lava);
      if !ok {
        return;
      }
      ok := FillGreen(resample, sh.green);
      if !ok {
        return;
      }
      ok := FillTerminal(resample, sh.terminal);
      if !ok {
        return;
      }
      ok := FillStarts(resample, sh);
    }

    /** Lava first, so that nothing else starts in it (lines 340-341). */
    method FillLava(resample: bool, sh: seq<Pos>) returns (ok: bool)
      modifies this`startParams
      ensures var (l, ok') := ResolveLava(startParams.config, old(startParams.layout), resample, sh);
        startParams == old(startParams).(layout := l) && ok == ok'
    {
      var c := startParams.config;
      ok := true;
      if (|startParams.layout.lava| == 0 || resample) && c.lavaRandom > 0 {
        var cells := GenerateRandomPositions(c.lavaRandom, [], sh);
        if cells.None? {
          return false;
        }
        startParams := startParams.(layout := startParams.layout.(lava := cells.value));
      }
    }

    /** Green cells, avoiding lava (lines 345-348). */
    method FillGreen(resample: bool, sh: seq<Pos>) returns (ok: bool)
      modifies this`startParams
      ensures var (l, ok') := ResolveGreen(startParams.config, old(startParams.layout), resample, sh);
        startParams == old(startParams).(layout := l) && ok == ok'
    {
      var c := startParams.config;
      ok := true;
      if (|startParams.layout.green| == 0 || resample) && c.greenRandom > 0 {
        var cells := GenerateRandomPositions(c.greenRandom, startParams.layout.lava, sh);
        if cells.None? {
          return false;
        }
        startParams := startParams.(layout := startParams.layout.(green := cells.value));
      }
    }

    /** Terminal cells: restored on resampling, drawn, and extended by the
        terminal lava and green cells (lines 351-384). */
    method FillTerminal(resample: bool, sh: seq<Pos>) returns (ok: bool)
      modifies this`startParams
      ensures var (l, ok') := ResolveTerminal(startParams.config, old(startParams.layout), resample, sh);
        startParams == old(startParams).(layout := l) && ok == ok'
    {
      var c := startParams.config;
      var anyTerminalIsRandom := c.terminalRandom > 0 || (c.lavaRandom > 0 && c.lavaIsTerminal)
                                 || (c.greenRandom > 0 && c.greenIsTerminal);
      if resample && anyTerminalIsRandom {
        startParams := startParams.(layout := startParams.layout.(terminal := c.initialTerminalCells));
      }
      ok := DrawTerminalCells(resample, sh);
      if !ok {
        return;
      }
      ghost var l2 := startParams.layout;
      if resample || (c.terminalRandom == 0 && |startParams.layout.terminal| == |c.initialTerminalCells|) {
        if c.lavaIsTerminal {
          startParams := startParams.(layout := startParams.layout.(terminal := startParams.layout.terminal
                                                                                + startParams.layout.lava));
        }
        if c.greenIsTerminal {
          startParams := startParams.(layout := startParams.layout.(terminal := startParams.layout.terminal
                                                                                + startParams.layout.green));
        }
        assert startParams.layout.terminal == l2.terminal + TerminalExtras(c, l2);
      }
    }

    /** The drawing of the terminal cells (lines 351-376). */
    method DrawTerminalCells(resample: bool, sh: seq<Pos>) returns (ok: bool)
      modifies this`startParams
      ensures var (l, ok') := DrawTerminal(startParams.config, old(startParams.layout), resample, sh);
        startParams == old(startParams).(layout := l) && ok == ok'
    {
      var c := startParams.config;
      ghost var l1 := startParams.layout;
      ok := true;
      if (|startParams.layout.terminal| == 0 || resample) && c.terminalRandom > 0 {
        var exclude: seq<Pos> := [];
        var numToGenerate: int;
        if c.lavaIsTerminal {
          numToGenerate := c.terminalRandom - |startParams.layout.lava|;
          exclude := exclude + startParams.layout.lava;
        } else {
          numToGenerate := c.terminalRandom;
        }
        if c.greenIsTerminal {
          numToGenerate := numToGenerate - |startParams.layout.green|;
          exclude := exclude + startParams.layout.green;
        }
        assert numToGenerate == TerminalQuota(c, l1);
        assert exclude == TerminalExtras(c, l1);
        if numToGenerate > 0 {
          var cells := GenerateRandomPositions(numToGenerate, exclude, sh);
          if cells.None? {
            return false;
          }
          startParams := startParams.(layout := startParams.layout.(terminal := cells.value));
        } else {
          startParams := startParams.(layout := startParams.layout.(terminal := []));
        }
      }
    }

    /** The actors' start positions: Scrat avoids terminal cells, the Hippo
        lava, the Watermelon both (lines 387-399). */
    method FillStarts(resample: bool, sh: Shuffles) returns (ok: bool)
      modifies this`startParams
      ensures var (st, ok') := ResolveStarts(startParams.config, startParams.layout, old(startParams.starts), resample, sh);
        startParams == old(startParams).(starts := st) && ok == ok'
    {
      var c := startParams.config;
      ok := true;
      if (startParams.starts.scrat.None? || resample) && c.scratRandom {
        var out := GenerateRandomPositions(1, startParams.layout.terminal, sh.scrat);
        if out.None? {
          return false;
        }
        startParams := startParams.(starts := startParams.starts.(scrat := Some(out.value[0])));
      }
      if (startParams.starts.hippo.None? || resample) && c.hippoRandom {
        var out := GenerateRandomPositions(1, startParams.layout.lava, sh.hippo);
        if out.None? {
          return false;
        }
        startParams := startParams.(starts := startParams.starts.(hippo := Some(out.value[0])));
      }
      if (startParams.starts.watermelon.None? || resample) && c.watermelonRandom {
        var out := GenerateRandomPositions(1, startParams.layout.lava + startParams.layout.terminal, sh.watermelon);
        if out.None? {
          return false;
        }
        startParams := startParams.(starts := startParams.starts.(watermelon := Some(out.value[0])));
      }
    }

    /** `_generate_new_game`, as called from the constructor (no actor
        exists yet): resolve the parameters and build the board and the
        actors. */
    method GenerateNewGame(sh: Shuffles)
      requires Configured(startParams) && sh.Valid(startParams.Height(), startParams.Width())
      requires Resolve(startParams, false, sh).ok
      requires hippo == null && watermelon == null
      modifies this
      ensures Valid() && fresh(board) && fresh(scrat) && fresh(scrat.base)
      ensures hippo != null ==> fresh(hippo) && fresh(hippo.base)
      ensures watermelon != null ==> fresh(watermelon) && fresh(watermelon.base)
      ensures startParams == Resolve(old(startParams), false, sh).params
      ensures State() == Fresh(startParams).(done := old(done))
    {
      ghost var p0 := startParams;
      var ok := FillStartParams(false, sh);
      ResolvePreserves(p0, false, sh);
      CreateObjects();
    }

    /** The objects `_generate_new_game` creates from the resolved
        parameters, and the number of actions (lines 409-427). */
    method CreateObjects()
      requires Playable(startParams) && hippo == null && watermelon == null
      modifies this
      ensures startParams == old(startParams)
      ensures fresh(board) && fresh(scrat) && fresh(scrat.base)
      ensures hippo != null ==> fresh(hippo) && fresh(hippo.base)
      ensures watermelon != null ==> fresh(watermelon) && fresh(watermelon.base)
      ensures Wellformed()
      ensures State() == Fresh(startParams).(lastAction := old(lastAction), lastReward := old(lastReward),
                                             fullReward := old(fullReward), done := old(done))
      ensures Valid()
    {
      var b := new GameBoard(startParams);
      var sc := new Scrat(startParams);
      var hp: Hippo? := null;
      if startParams.starts.hippo.Some? {
        hp := new Hippo(startParams);
      }
      var wm: Watermelon? := null;
      if startParams.starts.watermelon.Some? {
        wm := new Watermelon(startParams);
      }
      board, scrat, hippo, watermelon := b, sc, hp, wm;
      if watermelon != null {
        nActions := 6;
      } else {
        nActions := 4;
      }
    }

    /** `_move_object(obj, direction)`, one method per branch. */
    method MoveObject(obj: Objects, a: Actions)
      requires Valid() && CanMove(State(), obj, a)
      modifies Repr()
      ensures Valid() && Parts() == old(Parts())
      ensures State() == Rules.MoveObject(old(State()), obj, a)
    {
      match obj {
        case Scrat => MoveScrat(a);
        case Hippo => MoveHippo(a);
        case Watermelon => MoveWatermelon(a);
      }
    }

    /** Scrat's branch: Scrat moves, and a carried Watermelon with it. */
    method MoveScrat(a: Actions)
      requires Valid() && CanMove(State(), Objects.Scrat, a)
      modifies Repr()
      ensures Valid() && Parts() == old(Parts())
      ensures State() == Rules.MoveObject(old(State()), Objects.Scrat, a)
    {
      var d := a.Delta();
      ShiftScrat(d);
      if scrat.carryingWatermelon {
        DragWatermelon(d);
      }
    }

    /** Scrat's own part of `_move_object`: its body and its board flag move. */
    method ShiftScrat(d: (int, int))
      requires Wellformed() && Rectangular(board.cells, startParams.Height(), startParams.Width())
      requires OnBoard(scrat.base.CurPosition(), startParams.Height(), startParams.Width())
      requires OnBoard(Shift(scrat.base.CurPosition(), d), startParams.Height(), startParams.Width())
      modifies scrat.base, board
      ensures Wellformed()
      ensures var s := old(State()); var b := Moved(s.scrat.body, d);
        State() == s.(scrat := s.scrat.(body := b), cells := MoveFlags(s.cells, Tag(Objects.Scrat), b.prev, b.pos))
    {
      scrat.base.ChangePosition(d.0, d.1);
      board.MoveObject(Tag(Objects.Scrat), scrat.base.PrevPosition(), scrat.base.CurPosition());
    }

    /** The carried Watermelon follows Scrat; the board is handed the object
        itself and so keeps its flags. */
    method DragWatermelon(d: (int, int))
      requires Wellformed() && watermelon != null
      requires InGrid(board.cells, watermelon.base.CurPosition())
      requires InGrid(board.cells, Shift(watermelon.base.CurPosition(), d))
      modifies watermelon.base, board
      ensures Wellformed()
      ensures State() == old(State()).(melon := Some(old(State()).melon.value.(body := Moved(old(State()).melon.value.body, d))))
    {
      watermelon.base.ChangePosition(d.0, d.1);
      board.MoveObject(Instance(Objects.Watermelon), watermelon.base.PrevPosition(),
                       watermelon.base.CurPosition());
    }

    method MoveHippo(a: Actions)
      requires Valid() && CanMove(State(), Objects.Hippo, a)
      modifies Repr()
      ensures Valid() && Parts() == old(Parts())
      ensures State() == Rules.MoveObject(old(State()), Objects.Hippo, a)
    {
      var d := a.Delta();
      hippo.base.ChangePosition(d.0, d.1);
      board.MoveObject(Tag(Objects.Hippo), hippo.base.PrevPosition(), hippo.base.CurPosition());
    }

    method MoveWatermelon(a: Actions)
      requires Valid() && CanMove(State(), Objects.Watermelon, a)
      modifies Repr()
      ensures Valid() && Parts() == old(Parts())
      ensures State() == Rules.MoveObject(old(State()), Objects.Watermelon, a)
    {
      var d := a.Delta();
      watermelon.base.ChangePosition(d.0, d.1);
      board.MoveObject(Tag(Objects.Watermelon), watermelon.base.PrevPosition(), watermelon.base.CurPosition());
    }

    /** `_interact_with_watermelon(kind)`. */
    method InteractWithWatermelon(kind: Actions)
      requires Wellformed() && watermelon != null
      modifies scrat, watermelon
      ensures Wellformed() && State() == MelonInteraction(old(State()), kind)
    {
      if kind == Take {
        scrat.TakeWatermelon();
        watermelon.BecomeTaken();
      } else if kind == Put {
        scrat.ReleaseWatermelon();
        watermelon.BecomeReleased();
      } else if kind == Feed {
        scrat.ReleaseWatermelon();
        watermelon.BecomeReleased();
        watermelon.BecomeEaten();
      }
    }

    /** `_interact_with_hippo(FEED)`: the only kind its `assert` admits. */
    method InteractWithHippo(kind: Actions) returns (reward: real)
      requires Wellformed() && hippo != null && kind == Feed
      modifies hippo
      ensures Wellformed() && (State(), reward) == HippoInteraction(old(State()))
    {
      hippo.BecomeFed();
      reward := startParams.config.hippoFedReward;
    }

    /** `step(action)`: the game moves on as `StepSpec` says; an exception
        of the Python code is the `Err` result. */
    method Step(action: int, hd: Dice, md: Dice) returns (r: Result<Observation, GameError>)
      requires Valid() && hd.Valid() && md.Valid()
      modifies Repr()
      ensures Valid() && Parts() == old(Parts())
      ensures Stepped(State(), r) == StepSpec(old(State()), action, hd, md)
    {
      if !(0 <= action <= nActions) {
        return Err(InvalidAction);
      }
      lastAction := Some(action);
      var lastHippo := if hippo != null then Some(hippo.base.CurPosition()) else None;
      r := Advance(action, lastHippo, hd, md);
    }

    /** The rest of `step`, after the action is admitted and recorded. */
    method Advance(action: int, lastHippo: Option<Pos>, hd: Dice, md: Dice) returns (r: Result<Observation, GameError>)
      requires Valid() && hd.Valid() && md.Valid()
      modifies Repr()
      ensures Valid() && Parts() == old(Parts())
      ensures Stepped(State(), r) == Rules.Advance(old(State()), action, lastHippo, hd, md)
    {
      HippoActs(hd);
      WatermelonActs(md);
      ScratActs(action);
      var actionReward := ActionInteracts(action, lastHippo);
      if actionReward.Err? {
        return Err(actionReward.error);
      }
      var obs := RecordReward(actionReward.value);
      r := Ok(obs);
    }

    /** The reward, the total, `done` and the encoded state at the end of
        `step` (lines 486-500). */
    method RecordReward(actionReward: real) returns (obs: Observation)
      requires Valid()
      modifies this`lastReward, this`fullReward, this`done
      ensures Valid()
      ensures (State(), obs) == Finish(old(State()), actionReward)
    {
      var pos := scrat.base.CurPosition();
      var tickPenalty := startParams.config.tickPenalty;
      var cellReward := board.CellReward(pos);
      lastReward := cellReward + actionReward + tickPenalty;
      fullReward := fullReward + lastReward;
      done := board.IsTerminal(pos) || (hippo != null && hippo.isFed);
      var state := pos.y * startParams.Width() + pos.x;
      obs := Observation(state, lastReward, done);
    }

    /** The Hippo's own move at the start of `step` (lines 455-458). */
    method HippoActs(hd: Dice)
      requires Valid() && hd.Valid()
      modifies Repr()
      ensures Valid() && Parts() == old(Parts())
      ensures State() == HippoTurn(old(State()), hd)
    {
      if hippo != null {
        var direction := hippo.base.TakeRandomAction(hd);
        if direction.Some? {
          RandomActionSafe(hippo.base.Snapshot(), hd);
          MoveObject(Objects.Hippo, direction.value);
        }
      }
    }

    /** The Watermelon's own move, unless it is taken or eaten (lines
        460-464). */
    method WatermelonActs(md: Dice)
      requires Valid() && md.Valid()
      modifies Repr()
      ensures Valid() && Parts() == old(Parts())
      ensures State() == MelonTurn(old(State()), md)
    {
      if watermelon != null {
        if !(watermelon.isTaken || watermelon.isEaten) {
          var direction := watermelon.base.TakeRandomAction(md);
          if direction.Some? {
            RandomActionSafe(watermelon.base.Snapshot(), md);
            MoveObject(Objects.Watermelon, direction.value);
          }
        }
      }
    }

    /** Scrat's move for actions 0-3 unless the edge blocks it (lines
        469-476). */
    method ScratActs(action: int)
      requires Valid()
      modifies Repr()
      ensures Valid() && Parts() == old(Parts())
      ensures State() == ScratMove(old(State()), action)
    {
      var pos := scrat.base.CurPosition();
      if action == 0 && pos.x > 0 {
        MoveObject(Objects.Scrat, Left);
      } else if action == 1 && pos.y > 0 {
        MoveObject(Objects.Scrat, Up);
      } else if action == 2 && pos.x < startParams.Width() - 1 {
        MoveObject(Objects.Scrat, Right);
      } else if action == 3 && pos.y < startParams.Height() - 1 {
        MoveObject(Objects.Scrat, Down);
      }
    }

    /** TAKE and PUT_FEED (lines 477-484): the action's reward, or the
        `RuntimeError` of a missing Watermelon or Hippo. */
    method ActionInteracts(action: int, lastHippo: Option<Pos>) returns (res: Result<real, GameError>)
      requires Valid()
      modifies Repr()
      ensures Valid() && Parts() == old(Parts())
      ensures (State(), res) == Interact(old(State()), action, lastHippo)
    {
      res := Ok(0.0);
      if action == Take.Code() {
        res := TryTake();
      }
      if action == PutFeed.Code() && scrat.carryingWatermelon {
        res := TryPutFeed(lastHippo);
      }
    }

    /** TAKE: Scrat picks up the Watermelon on its cell; without a
        Watermelon, `watermelon_position` raises. */
    method TryTake() returns (res: Result<real, GameError>)
      requires Valid()
      modifies Repr()
      ensures Valid() && Parts() == old(Parts())
      ensures (State(), res) == Interact(old(State()), Take.Code(), None)
    {
      if watermelon == null {
        return Err(NoWatermelon);
      }
      if scrat.base.CurPosition() == watermelon.base.CurPosition() {
        InteractWithWatermelon(Take);
      }
      res := Ok(0.0);
    }

    /** PUT_FEED while carrying: the Hippo is fed when it stands on Scrat's
        cell and stood there before its move, otherwise the Watermelon is
        put down; without a Hippo, `hippo_position` raises. */
    method TryPutFeed(lastHippo: Option<Pos>) returns (res: Result<real, GameError>)
      requires Valid() && scrat.carryingWatermelon
      modifies Repr()
      ensures Valid() && Parts() == old(Parts())
      ensures (State(), res) == Interact(old(State()), PutFeed.Code(), lastHippo)
    {
      if hippo == null {
        return Err(NoHippo);
      }
      var pos := scrat.base.CurPosition();
      if pos == hippo.base.CurPosition() && Some(pos) == lastHippo {
        InteractWithWatermelon(Feed);
        var reward := InteractWithHippo(Feed);
        res := Ok(reward);
      } else {
        InteractWithWatermelon(Put);
        res := Ok(0.0);
      }
    }

    /** `_reset_objects`: a new board, and every actor back at its start
        with the current parameters and its flags cleared. */
    method ResetObjects()
      requires Valid()
      modifies Repr()
      ensures fresh(board) && Parts() == old(Parts()).(0 := board)
      ensures Wellformed() && State() == Rules.ResetObjects(old(State()))
      ensures Valid()
    {
      board := new GameBoard(startParams);
      ResetScrat();
      if startParams.starts.hippo.Some? {
        ResetHippo();
      }
      if startParams.starts.watermelon.Some? {
        ResetWatermelon();
      }
    }

    /** Scrat's part of `_reset_objects` (lines 708-711). */
    method ResetScrat()
      requires Wellformed() && startParams.starts.scrat.Some?
      modifies scrat, scrat.base
      ensures scrat.base.Snapshot()
              == ResetBody(old(scrat.base.Snapshot()), startParams.starts.scrat.value, startParams)
      ensures !scrat.carryingWatermelon
    {
      scrat.ResetPosition(startParams);
      scrat.base.UpdateParams(startParams);
      scrat.ReleaseWatermelon();
    }

    /** The Hippo's part of `_reset_objects` (lines 714-717). */
    method ResetHippo()
      requires Wellformed() && hippo != null && startParams.starts.hippo.Some?
      modifies hippo, hippo.base
      ensures hippo.base.Snapshot()
              == ResetBody(old(hippo.base.Snapshot()), startParams.starts.hippo.value, startParams)
      ensures !hippo.isFed
    {
      hippo.ResetPosition(startParams);
      hippo.base.UpdateParams(startParams);
      hippo.BecomeHungry();
    }

    /** The Watermelon's part of `_reset_objects` (lines 720-725). */
    method ResetWatermelon()
      requires Wellformed() && watermelon != null && startParams.starts.watermelon.Some?
      modifies watermelon, watermelon.base
      ensures watermelon.base.Snapshot()
              == ResetBody(old(watermelon.base.Snapshot()), startParams.starts.watermelon.value, startParams)
      ensures !watermelon.isTaken && !watermelon.isEaten
    {
      watermelon.ResetPosition(startParams);
      watermelon.base.UpdateParams(startParams);
      watermelon.BecomeReleased();
      watermelon.BecomeNotEaten();
    }

    /** `reset()`: resolve without resampling, put everything back at its
        start and return the start state; `None` where the resolution
        raises. */
    method Reset(sh: Shuffles) returns (r: Option<int>)
      requires Valid() && sh.Valid(startParams.Height(), startParams.Width())
      modifies Repr()
      ensures Valid() && Parts() == old(Parts()).(0 := board) && (board == old(board) || fresh(board))
      ensures (State(), r) == ResetSpec(old(State()), sh)
    {
      ghost var s0 := State();
      var ok := FillStartParams(false, sh);
      assert (State(), ok) == FillSpec(s0, false, sh);
      if !ok {
        return None;
      }
      ResetObjects();
      r := ObserveStart();
    }

    /** The end of `reset()`: `done` from Scrat's start cell and the Hippo,
        and the encoded start state. */
    method ObserveStart() returns (r: Option<int>)
      requires Valid()
      modifies this`done
      ensures Valid()
      ensures (State(), r) == StartObserved(old(State()))
    {
      var pos := scrat.base.CurPosition();
      done := board.IsTerminal(pos) || (hippo != null && hippo.isFed);
      r := Some(startParams.Width() * pos.y + pos.x);
    }

    /** `full_reset()`: resolve with resampling and put everything back at
        its start; `false` where the resolution raises. */
    method FullReset(sh: Shuffles) returns (ok: bool)
      requires Valid() && sh.Valid(startParams.Height(), startParams.Width())
      modifies Repr()
      ensures Valid() && Parts() == old(Parts()).(0 := board) && (board == old(board) || fresh(board))
      ensures (State(), ok) == FullResetSpec(old(State()), sh)
    {
      ghost var s0 := State();
      ok := FillStartParams(true, sh);
      assert (State(), ok) == FillSpec(s0, true, sh);
      if ok {
        ResetObjects();
      }
    }

    /** `n_states`: one state per cell. */
    function NStates(): (n: int)
      reads this, Repr()
      requires Valid()
      ensures n == startParams.Height() * startParams.Width() && n > 0
    {
      startParams.Width() * startParams.Height()
    }

    /** `scrat_position`. */
    function ScratPosition(): (q: Pos)
      reads this, Repr()
      requires Valid()
      ensures q == ScratPos(State()) && OnBoard(q, startParams.Height(), startParams.Width())
    {
      scrat.base.CurPosition()
    }

    /** `hippo_position`: raises `RuntimeError` without a Hippo. */
    function HippoPosition(): (r: Result<Pos, GameError>)
      reads this, Repr()
      requires Valid()
      ensures r.Err? <==> startParams.starts.hippo.None?
      ensures r.Ok? ==> r.value == State().hippo.value.body.pos && OnBoard(r.value, startParams.Height(), startParams.Width())
    {
      if hippo != null then Ok(hippo.base.CurPosition()) else Err(NoHippo)
    }

    /** `hippo_is_fed`: raises `RuntimeError` without a Hippo. */
    function HippoIsFed(): (r: Result<bool, GameError>)
      reads this, Repr()
      requires Valid()
      ensures r.Err? <==> startParams.starts.hippo.None?
      ensures r.Ok? ==> (r.value <==> State().melon.Some? && State().melon.value.isEaten)
    {
      if hippo != null then Ok(hippo.isFed) else Err(NoHippo)
    }

    /** `watermelon_position`: raises `RuntimeError` without a Watermelon. */
    function WatermelonPosition(): (r: Result<Pos, GameError>)
      reads this, Repr()
      requires Valid()
      ensures r.Err? <==> startParams.starts.watermelon.None?
      ensures r.Ok? ==> r.value == State().melon.value.body.pos && OnBoard(r.value, startParams.Height(), startParams.Width())
      ensures r.Ok? && scrat.carryingWatermelon ==> r.value == ScratPos(State())
    {
      if watermelon != null then Ok(watermelon.base.CurPosition()) else Err(NoWatermelon)
    }
  }
}
