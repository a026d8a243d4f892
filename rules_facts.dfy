/** Properties of one `step`, of `reset` and of `full_reset`. */
module RulesFacts {
  import opened Wrappers
  import opened Geometry
  import opened ActionsObjectsList
  import opened Params
  import opened ParamsFacts
  import opened GameObjects
  import opened Board
  import opened Rules

  /** The flags of the three actors. */
  function FlagsOf(s: GameState): (bool, Option<bool>, Option<(bool, bool)>) {
    (s.scrat.carrying,
     if s.hippo.Some? then Some(s.hippo.value.isFed) else None,
     if s.melon.Some? then Some((s.melon.value.isTaken, s.melon.value.isEaten)) else None)
  }

  /** The counters `step` and the resets update. */
  function CountersOf(s: GameState): (Option<int>, real, real, bool) {
    (s.lastAction, s.lastReward, s.fullReward, s.done)
  }

  /** The lava cells each actor knows about. */
  function LavasOf(s: GameState): (seq<Pos>, Option<seq<Pos>>, Option<seq<Pos>>) {
    (s.scrat.body.lava,
     if s.hippo.Some? then Some(s.hippo.value.body.lava) else None,
     if s.melon.Some? then Some(s.melon.value.body.lava) else None)
  }

  /** The actor is at least as far from lava as it was: outside its lava
      list if it started outside. */
  predicate OutOfLava(b: Body) { b.pos !in b.lava }

  /** `_move_object` moves the actor (and a carried Watermelon with Scrat)
      one step and changes no flag, counter or lava list. */
  lemma MoveObjectFacts(s: GameState, obj: Objects, a: Actions)
    requires CanMove(s, obj, a)
    ensures var r := MoveObject(s, obj, a);
      && CountersOf(r) == CountersOf(s) && FlagsOf(r) == FlagsOf(s) && LavasOf(r) == LavasOf(s)
      && ScratPos(r) == (if obj == Objects.Scrat then Shift(ScratPos(s), a.Delta()) else ScratPos(s))
      && (s.hippo.Some? ==>
            r.hippo.value.body.pos
            == (if obj == Objects.Hippo then Shift(s.hippo.value.body.pos, a.Delta()) else s.hippo.value.body.pos))
      && (s.melon.Some? ==>
            r.melon.value.body.pos
            == (if obj == Objects.Watermelon || (obj == Objects.Scrat && s.scrat.carrying)
                then Shift(s.melon.value.body.pos, a.Delta()) else s.melon.value.body.pos))
  {
  }

  /** Scrat's move leaves the Watermelon's flags alone (even when it carries
      the Watermelon) and keeps the board consistent. */
  lemma MoveScratBoard(s: GameState, a: Actions)
    requires CanMove(s, Objects.Scrat, a)
    ensures SameMelonFlags(MoveObject(s, Objects.Scrat, a).cells, s.cells)
    ensures Consistent(s) ==> Consistent(MoveObject(s, Objects.Scrat, a))
  {
    var from := s.scrat.body.pos;
    var to := Shift(from, a.Delta());
    var c1 := MoveFlags(s.cells, Tag(Objects.Scrat), from, to);
    assert MoveObject(s, Objects.Scrat, a).cells == c1;
    MoveKeepsMelonFlags(s.cells, Objects.Scrat, from, to);
    if Consistent(s) {
      MoveMatches(s.cells, s.params, Objects.Scrat, from, to, from, HippoAt(s));
    }
  }

  /** The Hippo's move leaves the Watermelon's flags alone and keeps the
      board consistent. */
  lemma MoveHippoBoard(s: GameState, a: Actions)
    requires CanMove(s, Objects.Hippo, a)
    ensures SameMelonFlags(MoveObject(s, Objects.Hippo, a).cells, s.cells)
    ensures Consistent(s) ==> Consistent(MoveObject(s, Objects.Hippo, a))
  {
    var from := s.hippo.value.body.pos;
    var to := Shift(from, a.Delta());
    MoveKeepsMelonFlags(s.cells, Objects.Hippo, from, to);
    if Consistent(s) {
      MoveMatches(s.cells, s.params, Objects.Hippo, from, to, s.scrat.body.pos, HippoAt(s));
    }
  }

  /** The Watermelon's own move keeps the board consistent. */
  lemma MoveMelonBoard(s: GameState, a: Actions)
    requires CanMove(s, Objects.Watermelon, a)
    ensures Consistent(s) ==> Consistent(MoveObject(s, Objects.Watermelon, a))
  {
    var from := s.melon.value.body.pos;
    var to := Shift(from, a.Delta());
    if Consistent(s) {
      MoveMatches(s.cells, s.params, Objects.Watermelon, from, to, s.scrat.body.pos, HippoAt(s));
    }
  }

  lemma HippoTurnFacts(s: GameState, d: Dice)
    requires ValidState(s)
    ensures var r := HippoTurn(s, d);
      && r.scrat == s.scrat && r.melon == s.melon
      && CountersOf(r) == CountersOf(s) && FlagsOf(r) == FlagsOf(s) && LavasOf(r) == LavasOf(s)
      && (s.hippo.Some? ==> Manhattan(r.hippo.value.body.pos, s.hippo.value.body.pos) <= 1)
      && (s.hippo.Some? && OutOfLava(s.hippo.value.body) ==> OutOfLava(r.hippo.value.body))
      && SameMelonFlags(r.cells, s.cells)
      && (Consistent(s) ==> Consistent(r))
  {
    if s.hippo.Some? {
      var b := s.hippo.value.body;
      RandomActionSafe(b, d);
      if RandomAction(b, d).Some? {
        var a := RandomAction(b, d).value;
        MoveObjectFacts(s, Objects.Hippo, a);
        MoveHippoBoard(s, a);
      }
    }
  }

  lemma MelonTurnFacts(s: GameState, d: Dice)
    requires ValidState(s)
    ensures var r := MelonTurn(s, d);
      && r.scrat == s.scrat && r.hippo == s.hippo
      && CountersOf(r) == CountersOf(s) && FlagsOf(r) == FlagsOf(s) && LavasOf(r) == LavasOf(s)
      && (s.melon.Some? && s.melon.value.isTaken ==> r == s)
      && (s.melon.Some? ==> Manhattan(r.melon.value.body.pos, s.melon.value.body.pos) <= 1)
      && (s.melon.Some? && OutOfLava(s.melon.value.body) ==> OutOfLava(r.melon.value.body))
      && (Consistent(s) ==> Consistent(r))
  {
    if s.melon.Some? && !s.melon.value.isTaken && !s.melon.value.isEaten {
      var b := s.melon.value.body;
      RandomActionSafe(b, d);
      if RandomAction(b, d).Some? {
        var a := RandomAction(b, d).value;
        MoveObjectFacts(s, Objects.Watermelon, a);
        MoveMelonBoard(s, a);
      }
    }
  }

  /** The action's move as a delta: 0 left, 1 up, 2 right, 3 down. */
  function MoveOf(action: int): (a: Actions)
    requires 0 <= action <= 3
    ensures a.IsMove()
  {
    if action == 0 then Left else if action == 1 then Up else if action == 2 then Right else Down
  }

  /** Where Scrat ends up: one step in the action's direction when that
      stays on the board, otherwise where it was. */
  function ScratTarget(s: GameState, action: int): (t: Pos) {
    var p := ScratPos(s);
    if 0 <= action <= 3 && OnBoard(Shift(p, MoveOf(action).Delta()), s.params.Height(), s.params.Width())
    then Shift(p, MoveOf(action).Delta())
    else p
  }

  /** `ScratMove` is `_move_object` in the action's direction when that
      stays on the board, and nothing otherwise. */
  lemma ScratMoveCases(s: GameState, action: int)
    requires ValidState(s)
    ensures ScratTarget(s, action) != ScratPos(s) ==>
      CanMove(s, Objects.Scrat, MoveOf(action))
      && ScratMove(s, action) == MoveObject(s, Objects.Scrat, MoveOf(action))
    ensures ScratTarget(s, action) == ScratPos(s) ==> ScratMove(s, action) == s
  {
  }

  /** Scrat's target is at most one cell away. */
  lemma ScratTargetNear(s: GameState, action: int)
    ensures Manhattan(ScratTarget(s, action), ScratPos(s)) <= 1
  {
  }

  lemma ScratMoveFacts(s: GameState, action: int)
    requires ValidState(s)
    ensures var r := ScratMove(s, action);
      && r.hippo == s.hippo
      && CountersOf(r) == CountersOf(s) && FlagsOf(r) == FlagsOf(s) && LavasOf(r) == LavasOf(s)
      && ScratPos(r) == ScratTarget(s, action)
      && (!s.scrat.carrying ==> r.melon == s.melon)
      && SameMelonFlags(r.cells, s.cells)
      && (Consistent(s) ==> Consistent(r))
  {
    ScratMoveCases(s, action);
    if ScratTarget(s, action) != ScratPos(s) {
      ScratStepFacts(s, MoveOf(action));
    }
  }

  lemma ScratStepFacts(s: GameState, a: Actions)
    requires CanMove(s, Objects.Scrat, a)
    ensures var r := MoveObject(s, Objects.Scrat, a);
      && r.hippo == s.hippo
      && CountersOf(r) == CountersOf(s) && FlagsOf(r) == FlagsOf(s) && LavasOf(r) == LavasOf(s)
      && ScratPos(r) == Shift(ScratPos(s), a.Delta())
      && SameMelonFlags(r.cells, s.cells)
      && (Consistent(s) ==> Consistent(r))
  {
    MoveObjectFacts(s, Objects.Scrat, a);
    MoveScratBoard(s, a);
  }

  /** Whether PUT_FEED feeds: Scrat carries the Watermelon and stands on the
      Hippo's cell, where the Hippo also stood before its move. */
  predicate Feeds(s: GameState, action: int, lastHippo: Option<Pos>) {
    && action == 5 && s.scrat.carrying && s.hippo.Some?
    && ScratPos(s) == s.hippo.value.body.pos && lastHippo == Some(ScratPos(s))
  }

  lemma InteractFacts(s: GameState, action: int, lastHippo: Option<Pos>)
    requires ValidState(s)
    ensures var (r, res) := Interact(s, action, lastHippo);
      && r.cells == s.cells && ScratPos(r) == ScratPos(s)
      && (r.hippo.Some? ==> r.hippo.value.body == s.hippo.value.body)
      && (r.melon.Some? ==> r.melon.value.body == s.melon.value.body)
      && CountersOf(r) == CountersOf(s) && LavasOf(r) == LavasOf(s)
      && (res == Err(NoWatermelon) <==> action == 4 && s.melon.None?)
      && (res == Err(NoHippo) <==> action == 5 && s.scrat.carrying && s.hippo.None?)
      && res != Err(InvalidAction)
      && (res.Err? ==> r == s)
      && (res.Ok? ==> res.value == if Feeds(s, action, lastHippo) then s.params.config.hippoFedReward else 0.0)
      && (!s.scrat.carrying && r.scrat.carrying ==> action == 4 && ScratPos(s) == s.melon.value.body.pos)
      && (s.scrat.carrying && res.Ok? && action == 5 ==> !r.scrat.carrying)
      && (s.scrat.carrying && action != 5 ==> r.scrat.carrying)
      && (s.hippo.Some? ==> (r.hippo.value.isFed <==> s.hippo.value.isFed || Feeds(s, action, lastHippo)))
  {
  }

  // ---------------------------------------------------------------------
  // One step

  /** The Hippo's and the Watermelon's random moves together. */
  lemma TurnsFacts(s: GameState, hd: Dice, md: Dice)
    requires ValidState(s)
    ensures var r := MelonTurn(HippoTurn(s, hd), md);
      && r.scrat == s.scrat
      && CountersOf(r) == CountersOf(s) && FlagsOf(r) == FlagsOf(s) && LavasOf(r) == LavasOf(s)
      && (s.hippo.Some? ==> Manhattan(r.hippo.value.body.pos, s.hippo.value.body.pos) <= 1)
      && (s.hippo.Some? && OutOfLava(s.hippo.value.body) ==> OutOfLava(r.hippo.value.body))
      && (s.melon.Some? ==> Manhattan(r.melon.value.body.pos, s.melon.value.body.pos) <= 1)
      && (s.melon.Some? && OutOfLava(s.melon.value.body) ==> OutOfLava(r.melon.value.body))
      && (s.scrat.carrying ==> SameMelonFlags(r.cells, s.cells))
      && (Consistent(s) ==> Consistent(r))
  {
    var s2 := HippoTurn(s, hd);
    HippoTurnFacts(s, hd);
    MelonTurnFacts(s2, md);
  }

  /** The three moves of an admitted step together: every actor moves at
      most one cell, Scrat as its action and the board edge say, a Hippo or
      a free Watermelon outside lava stays outside, and no flag, counter or
      lava list changes. */
  lemma MovesFacts(s: GameState, action: int, hd: Dice, md: Dice)
    requires ValidState(s) && 0 <= action <= s.nActions
    ensures var s1 := s.(lastAction := Some(action));
      var r := Moves(s1, action, hd, md);
      && CountersOf(r) == CountersOf(s1) && FlagsOf(r) == FlagsOf(s) && LavasOf(r) == LavasOf(s)
      && ScratPos(r) == ScratTarget(s, action)
      && Manhattan(ScratPos(r), ScratPos(s)) <= 1
      && (s.hippo.Some? ==> Manhattan(r.hippo.value.body.pos, s.hippo.value.body.pos) <= 1)
      && (s.hippo.Some? && OutOfLava(s.hippo.value.body) ==> OutOfLava(r.hippo.value.body))
      && (s.melon.Some? ==> Manhattan(r.melon.value.body.pos, s.melon.value.body.pos) <= 1)
      && (s.melon.Some? && !s.scrat.carrying && OutOfLava(s.melon.value.body) ==> OutOfLava(r.melon.value.body))
  {
    var s1 := s.(lastAction := Some(action));
    assert ValidState(s1);
    var s3 := MelonTurn(HippoTurn(s1, hd), md);
    TurnsFacts(s1, hd, md);
    ScratMoveFacts(s3, action);
    ScratTargetNear(s, action);
    assert ScratTarget(s3, action) == ScratTarget(s, action);
  }

  /** The three moves keep the board consistent, and a carried Watermelon
      leaves its board flags behind. */
  lemma MovesBoard(s: GameState, action: int, hd: Dice, md: Dice)
    requires ValidState(s) && 0 <= action <= s.nActions
    ensures var s1 := s.(lastAction := Some(action));
      var r := Moves(s1, action, hd, md);
      && (s.scrat.carrying ==> SameMelonFlags(r.cells, s.cells))
      && (Consistent(s) ==> Consistent(r))
  {
    var s1 := s.(lastAction := Some(action));
    assert ValidState(s1) && (Consistent(s) ==> Consistent(s1));
    var s3 := MelonTurn(HippoTurn(s1, hd), md);
    TurnsFacts(s1, hd, md);
    ScratMoveFacts(s3, action);
    var r := Moves(s1, action, hd, md);
    assert r == ScratMove(s3, action);
    if s.scrat.carrying {
      SameMelonFlagsTrans(r.cells, s3.cells, s.cells);
    }
  }

  /** Each actor moves at most one cell per step; Scrat moves exactly as
      its action and the board edge say, and a carried Watermelon stays on
      Scrat's cell. */
  lemma StepMoves(s: GameState, action: int, hd: Dice, md: Dice)
    requires ValidState(s)
    ensures var r := StepSpec(s, action, hd, md).after;
      && ScratPos(r) == (if 0 <= action <= s.nActions then ScratTarget(s, action) else ScratPos(s))
      && Manhattan(ScratPos(r), ScratPos(s)) <= 1
      && (s.hippo.Some? ==> r.hippo.Some? && Manhattan(r.hippo.value.body.pos, s.hippo.value.body.pos) <= 1)
      && (s.melon.Some? ==> r.melon.Some? && Manhattan(r.melon.value.body.pos, s.melon.value.body.pos) <= 1)
      && (r.scrat.carrying ==> r.melon.Some? && r.melon.value.body.pos == ScratPos(r))
  {
    if 0 <= action <= s.nActions {
      var s1 := s.(lastAction := Some(action));
      MovesFacts(s, action, hd, md);
      InteractFacts(Moves(s1, action, hd, md), action, HippoAt(s));
    }
  }

  /** What `step` returns and records: on success the reward is the cell's
      reward plus the feeding reward (paid exactly when PUT_FEED feeds) plus
      the tick penalty, the total grows by it, `done` says that Scrat's cell
      is terminal or the Hippo is fed, and the state is `y * width + x`,
      below `n_states`. */
  lemma StepOutputs(s: GameState, action: int, hd: Dice, md: Dice)
    requires ValidState(s)
    ensures var st := StepSpec(s, action, hd, md);
      var r, pos := st.after, ScratPos(st.after);
      st.result.Ok? ==>
        var obs := st.result.value;
        var fed := action == 5 && s.scrat.carrying && s.hippo.Some?
                   && ScratPos(s) == s.hippo.value.body.pos && ScratPos(s) == r.hippo.value.body.pos;
        && r.lastAction == Some(action)
        && obs.reward == r.lastReward
        && obs.reward == r.cells[pos.y][pos.x].reward
                         + (if fed then s.params.config.hippoFedReward else 0.0)
                         + s.params.config.tickPenalty
        && r.fullReward == s.fullReward + obs.reward
        && obs.done == r.done
        && (obs.done <==> r.cells[pos.y][pos.x].isTerminal || (r.hippo.Some? && r.hippo.value.isFed))
        && obs.state == pos.y * s.params.Width() + pos.x
        && 0 <= obs.state < s.params.Height() * s.params.Width()
  {
    if 0 <= action <= s.nActions {
      var s1 := s.(lastAction := Some(action));
      MovesFacts(s, action, hd, md);
      InteractFacts(Moves(s1, action, hd, md), action, HippoAt(s));
      var pos := ScratPos(StepSpec(s, action, hd, md).after);
      var h, w := s.params.Height(), s.params.Width();
      CellIndexInRange(pos, h, w);
    }
  }

  /** The errors of `step`: an action outside `0..n_actions` is refused and
      changes nothing; TAKE without a Watermelon and PUT_FEED while carrying
      without a Hippo raise after the actors' random moves. */
  lemma StepErrors(s: GameState, action: int, hd: Dice, md: Dice)
    requires ValidState(s)
    ensures var st := StepSpec(s, action, hd, md);
      && (st.result == Err(InvalidAction) <==> !(0 <= action <= s.nActions))
      && (st.result == Err(InvalidAction) ==> st.after == s)
      && (st.result == Err(NoWatermelon) <==> action == 4 && s.melon.None?)
      && (st.result == Err(NoHippo) <==> action == 5 && s.scrat.carrying && s.hippo.None?)
  {
    if 0 <= action <= s.nActions {
      var s1 := s.(lastAction := Some(action));
      MovesFacts(s, action, hd, md);
      InteractFacts(Moves(s1, action, hd, md), action, HippoAt(s));
    }
  }

  /** The guard `0 <= action <= n_actions` admits `n_actions` itself: on a
      board without a Watermelon, action 4 passes the guard and fails as
      TAKE; on a board with one, action 6 is a step in which Scrat stays. */
  lemma StepAdmitsNActions(s: GameState, hd: Dice, md: Dice)
    requires ValidState(s)
    ensures s.melon.None? ==> StepSpec(s, s.nActions, hd, md).result == Err(NoWatermelon)
    ensures s.melon.Some? ==>
      StepSpec(s, s.nActions, hd, md).result.Ok?
      && ScratPos(StepSpec(s, s.nActions, hd, md).after) == ScratPos(s)
  {
    StepErrors(s, s.nActions, hd, md);
    StepMoves(s, s.nActions, hd, md);
  }

  /** Scrat starts carrying only by TAKE on the Watermelon's cell; the
      Hippo becomes fed only by PUT_FEED while carrying, with the Hippo on
      Scrat's cell before and after its move; a successful PUT_FEED while
      carrying always drops the Watermelon. */
  lemma StepInteractions(s: GameState, action: int, hd: Dice, md: Dice)
    requires ValidState(s)
    ensures var st := StepSpec(s, action, hd, md);
      var r := st.after;
      && (!s.scrat.carrying && r.scrat.carrying ==>
            action == 4 && r.melon.Some? && ScratPos(r) == r.melon.value.body.pos && ScratPos(r) == ScratPos(s))
      && (s.hippo.Some? && !s.hippo.value.isFed && r.hippo.value.isFed ==>
            && action == 5 && s.scrat.carrying
            && ScratPos(r) == ScratPos(s) && ScratPos(s) == s.hippo.value.body.pos
            && ScratPos(r) == r.hippo.value.body.pos)
      && (s.scrat.carrying && action == 5 && st.result.Ok? ==> !r.scrat.carrying)
      && (r.melon.Some? ==> r.melon.value.isTaken == r.scrat.carrying)
      && (r.hippo.Some? ==> r.hippo.value.isFed == (r.melon.Some? && r.melon.value.isEaten))
  {
    if 0 <= action <= s.nActions {
      var s1 := s.(lastAction := Some(action));
      MovesFacts(s, action, hd, md);
      InteractFacts(Moves(s1, action, hd, md), action, HippoAt(s));
    }
  }

  /** A Hippo outside the lava it knows stays outside; so does a Watermelon
      that Scrat does not carry at the start of the step. */
  lemma StepAvoidsLava(s: GameState, action: int, hd: Dice, md: Dice)
    requires ValidState(s)
    ensures var r := StepSpec(s, action, hd, md).after;
      && (s.hippo.Some? && OutOfLava(s.hippo.value.body) ==> OutOfLava(r.hippo.value.body))
      && (s.melon.Some? && !s.scrat.carrying && OutOfLava(s.melon.value.body) ==> OutOfLava(r.melon.value.body))
      && LavasOf(r) == LavasOf(s)
  {
    if 0 <= action <= s.nActions {
      var s1 := s.(lastAction := Some(action));
      MovesFacts(s, action, hd, md);
      InteractFacts(Moves(s1, action, hd, md), action, HippoAt(s));
    }
  }

  /** A step keeps the board consistent with the parameters, Scrat and the
      Hippo; so a successful step's reward is the parameters' cell reward
      (lava before green) plus bonus and penalty, and `done` means Scrat's
      cell is a terminal cell or the Hippo is fed. */
  lemma StepKeepsConsistent(s: GameState, action: int, hd: Dice, md: Dice)
    requires ValidState(s) && Consistent(s)
    ensures var st := StepSpec(s, action, hd, md);
      var r, pos := st.after, ScratPos(st.after);
      && Consistent(r)
      && r.cells[pos.y][pos.x].reward == CellRewardOf(s.params, pos)
      && (r.cells[pos.y][pos.x].isTerminal <==> pos in s.params.layout.terminal)
  {
    if 0 <= action <= s.nActions {
      var s1 := s.(lastAction := Some(action));
      MovesBoard(s, action, hd, md);
      InteractFacts(Moves(s1, action, hd, md), action, HippoAt(s));
    }
    var r := StepSpec(s, action, hd, md).after;
    var pos := ScratPos(r);
    assert Terrain(r.cells[pos.y][pos.x]) == Terrain(NewCell(s.params, pos.x, pos.y));
    assert r.cells[pos.y][pos.x].reward == Terrain(r.cells[pos.y][pos.x]).reward;
  }

  /** With no positive reward anywhere (lava, green, feeding and tick all at
      most 0), the total reward never grows. */
  lemma StepRewardNonPositive(s: GameState, action: int, hd: Dice, md: Dice)
    requires ValidState(s) && Consistent(s)
    requires s.params.config.lavaReward <= 0.0 && s.params.config.greenReward <= 0.0
    requires s.params.config.hippoFedReward <= 0.0 && s.params.config.tickPenalty <= 0.0
    ensures var st := StepSpec(s, action, hd, md);
      st.result.Ok? ==> st.result.value.reward <= 0.0 && st.after.fullReward <= s.fullReward
  {
    StepOutputs(s, action, hd, md);
    StepKeepsConsistent(s, action, hd, md);
  }

  /** The board's Watermelon flags do not follow a carried Watermelon: a
      step that starts with Scrat carrying leaves every such flag as it was,
      although the Watermelon moves with Scrat. */
  lemma CarriedWatermelonFlagsStale(s: GameState, action: int, hd: Dice, md: Dice)
    requires ValidState(s) && s.scrat.carrying
    ensures var r := StepSpec(s, action, hd, md).after;
      && SameMelonFlags(r.cells, s.cells)
      && r.melon.value.body.pos == ScratPos(r)
      && ScratPos(r) == (if 0 <= action <= s.nActions then ScratTarget(s, action) else ScratPos(s))
  {
    if 0 <= action <= s.nActions {
      var s1 := s.(lastAction := Some(action));
      var m := Moves(s1, action, hd, md);
      MovesFacts(s, action, hd, md);
      MovesBoard(s, action, hd, md);
      InteractFacts(m, action, HippoAt(s));
      var r := StepSpec(s, action, hd, md).after;
      assert r.cells == m.cells && ScratPos(r) == ScratPos(m);
    }
  }

  // ---------------------------------------------------------------------
  // reset and full_reset

  /** A freshly built game is consistent. */
  lemma FreshConsistent(p: GameParams)
    requires Playable(p)
    ensures Consistent(Fresh(p))
  {
    NewBoardMatches(p, p.starts.scrat.value);
  }

  /** `_reset_objects` after a completed resolution gives the freshly built
      game of the new parameters, keeping only the counters. */
  lemma ResetObjectsIsFresh(s: GameState)
    requires ValidState(s)
    ensures var r := ResetObjects(s);
      r == Fresh(s.params).(lastAction := s.lastAction, lastReward := s.lastReward,
                            fullReward := s.fullReward, done := s.done)
  {
  }

  /** `reset()`: when the resolution completes, the game is the freshly
      built game of the resolved parameters, `done` says whether Scrat
      starts on a terminal cell, and the start state is returned; when it
      raises, the counters are cleared and the actors and the board are
      untouched. */
  lemma ResetRestores(s: GameState, sh: Shuffles)
    requires ValidState(s) && sh.Valid(s.params.Height(), s.params.Width())
    ensures var (r, res) := ResetSpec(s, sh);
      var f := Resolve(s.params, false, sh);
      && r.params == f.params
      && (res.Some? <==> f.ok)
      && (res.Some? ==>
            var start := r.params.starts.scrat.value;
            && r == Fresh(r.params).(done := start in r.params.layout.terminal)
            && res == Some(r.params.Width() * start.y + start.x)
            && 0 <= res.value < r.params.Height() * r.params.Width()
            && Consistent(r))
      && (res.None? ==>
            && r.scrat == s.scrat && r.hippo == s.hippo && r.melon == s.melon && r.cells == s.cells
            && r.lastAction == None && r.lastReward == 0.0 && r.fullReward == 0.0)
  {
    var (s1, ok) := FillSpec(s, false, sh);
    if ok {
      var p := s1.params;
      var start := p.starts.scrat.value;
      ResetObjectsIsFresh(s1);
      NewBoardCell(p, start);
      FreshConsistent(p);
      CellIndexInRange(start, p.Height(), p.Width());
    }
  }

  /** On resolved parameters `reset()` keeps the parameters and succeeds. */
  lemma ResetKeepsResolved(s: GameState, sh: Shuffles)
    requires ValidState(s) && sh.Valid(s.params.Height(), s.params.Width()) && Resolved(s.params)
    ensures ResetSpec(s, sh).0.params == s.params && ResetSpec(s, sh).1.Some?
  {
    ResolvedIsFixedPoint(s.params, sh);
  }

  /** `full_reset()`: when the resolution completes, the game is the freshly
      built game of the resampled parameters, except that `done` keeps its
      old value; the result is resolved when the terminal list was at
      least as long as the initial one or terminal cells are random. */
  lemma FullResetRestores(s: GameState, sh: Shuffles)
    requires ValidState(s) && sh.Valid(s.params.Height(), s.params.Width())
    ensures var (r, ok) := FullResetSpec(s, sh);
      var f := Resolve(s.params, true, sh);
      && r.params == f.params
      && ok == f.ok
      && (ok ==> r == Fresh(r.params).(done := s.done) && Consistent(r))
      && (ok && (s.params.config.terminalRandom > 0 || |s.params.layout.terminal| >= |s.params.config.initialTerminalCells|)
          ==> Resolved(r.params))
      && (!ok ==> r.scrat == s.scrat && r.hippo == s.hippo && r.melon == s.melon && r.cells == s.cells)
  {
    var (s1, ok) := FillSpec(s, true, sh);
    if ok {
      ResetObjectsIsFresh(s1);
      FreshConsistent(s1.params);
      if s.params.config.terminalRandom > 0
         || |s.params.layout.terminal| >= |s.params.config.initialTerminalCells| {
        ResolveEstablishesResolved(s.params, true, sh);
      }
    }
  }
}
