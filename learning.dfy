/** `q_learning` and the class `QLearning` of
    `mdp_visualizer/logic/q_learning.py` run on a `GameLogic`, with the
    table held in a two-dimensional array that the run updates in place.
    Each is proved against the functions of module `QSpec`. */
module Learning {
  import opened Wrappers
  import opened Params
  import opened GameObjects
  import opened Rules
  import opened RulesFacts
  import opened Logic
  import opened QSpec

  /** The contents of the table, row by row. */
  ghost function Table(q: array2<real>): (t: seq<seq<real>>)
    reads q
    ensures |t| == q.Length0
    ensures forall i :: 0 <= i < |t| ==> |t[i]| == q.Length1
    ensures forall i, j :: 0 <= i < q.Length0 && 0 <= j < q.Length1 ==> t[i][j] == q[i, j]
  {
    seq(q.Length0, i requires 0 <= i < q.Length0 reads q => seq(q.Length1, j requires 0 <= j < q.Length1 reads q => q[i, j]))
  }

  /** The environment a `GameLogic` holding `s` is, for `q_learning`: a
      sound one. */
  function EnvOf(s: GameState): (env: Env<GameState>)
    ensures env.Sound() && env.nActions == s.nActions
  {
    GameEnvSound(s.params, s.nActions);
    GameEnv(s.params, s.nActions)
  }

  /** `q_table[s, :]`: a copy of row `i`. */
  method Row(q: array2<real>, i: int) returns (row: seq<real>)
    requires 0 <= i < q.Length0
    ensures row == Table(q)[i]
  {
    row := [];
    var j := 0;
    while j < q.Length1
      invariant 0 <= j <= q.Length1
      invariant row == Table(q)[i][..j]
    {
      row := row + [q[i, j]];
      j := j + 1;
    }
  }

  /** `np.max(q_table[i, :])`: the largest entry of row `i`, computed by
      one pass over the row. */
  method MaxOfRow(q: array2<real>, i: int) returns (m: real)
    requires 0 <= i < q.Length0 && q.Length1 > 0
    ensures m == RowMax(Table(q)[i])
  {
    ghost var row := Table(q)[i];
    m := q[i, 0];
    var j := 1;
    while j < q.Length1
      invariant 1 <= j <= q.Length1
      invariant m == RowMax(row[..j])
    {
      assert row[..j + 1][..j] == row[..j];
      if q[i, j] > m {
        m := q[i, j];
      }
      j := j + 1;
    }
    assert row[..j] == row;
  }

  /** `q_table[i, j] = v`: one entry changes, the rest of the table stays. */
  method SetEntry(q: array2<real>, i: int, j: int, v: real)
    requires 0 <= i < q.Length0 && 0 <= j < q.Length1
    modifies q
    ensures Table(q) == old(Table(q))[i := old(Table(q))[i][j := v]]
  {
    ghost var t := Table(q);
    q[i, j] := v;
    forall k | 0 <= k < q.Length0
      ensures Table(q)[k] == t[i := t[i][j := v]][k]
    {
    }
  }

  /** One pass of the loop of `q_learning` (lines 118-132): choose an
      action, step the game and, if `step` did not raise, update the entry
      of the action and record the step. */
  method Iteration(env: GameLogic, q: array2<real>, s: int, rAll: real, info: Info, lr: real, gamma: real,
                   eps: real, d: Draw)
    returns (s': int, rAll': real, done: bool, info': Info, err: Option<GameError>)
    requires env.Valid() && q !in env.Repr() && d.Valid()
    requires Fits(EnvOf(env.State()), Run(env.State(), Table(q), rAll, s, false, info, None))
    modifies env.Repr(), q
    ensures env.Valid() && env.Parts() == old(env.Parts())
    ensures Run(env.State(), Table(q), rAll', s', done, info', err)
            == Iterate(EnvOf(old(env.State())), Run(old(env.State()), old(Table(q)), rAll, s, false, info, None),
                       lr, gamma, eps, d)
  {
    ghost var e0, t0 := env.State(), Table(q);
    assert |t0[s]| == q.Length1;
    var a, res := ChooseAndStep(env, q, s, eps, d);
    ghost var after := env.State();
    IterateChosen(EnvOf(e0), Run(e0, t0, rAll, s, false, info, None), lr, gamma, eps, d, a, (after, res));
    s', rAll', done, info', err := Absorbed(q, e0, s, rAll, info, a, after, res, lr, gamma);
  }

  /** The rest of the iteration once `step` has answered: on an observation,
      line 125 on the array and the record of the step (lines 125-132). */
  method Absorbed(q: array2<real>, ghost e: GameState, s: int, rAll: real, info: Info, a: int, ghost after: GameState,
                  res: Result<Observation, GameError>, lr: real, gamma: real)
    returns (s': int, rAll': real, done: bool, info': Info, err: Option<GameError>)
    requires 0 <= s < q.Length0 && 0 <= a < q.Length1
    requires res.Ok? ==> 0 <= res.value.state < q.Length0 && q.Length1 > 0
    modifies q
    ensures Run(after, Table(q), rAll', s', done, info', err)
            == Absorb(Run(e, old(Table(q)), rAll, s, false, info, None), a, (after, res), lr, gamma)
  {
    match res
    case Err(e) =>
      s', rAll', done, info', err := s, rAll, false, info, Some(e);
    case Ok(obs) =>
      Learn(q, s, a, obs.state, obs.reward, lr, gamma);
      info' := Info(info.rewards + [obs.reward], info.actions + [a], info.states + [obs.state]);
      s', rAll', done, err := obs.state, rAll + obs.reward, obs.done, None;
  }

  /** Lines 118-124: the epsilon-greedy choice on row `s` and `env.step`,
      which is the `step` of the environment `EnvOf` makes of the game. */
  method ChooseAndStep(env: GameLogic, q: array2<real>, s: int, eps: real, d: Draw)
    returns (a: int, res: Result<Observation, GameError>)
    requires env.Valid() && q !in env.Repr() && d.Valid()
    requires 0 <= s < q.Length0 && q.Length1 > 0
    modifies env.Repr()
    ensures env.Valid() && env.Parts() == old(env.Parts())
    ensures EnvOf(env.State()) == EnvOf(old(env.State()))
    ensures a == Choose(Table(q)[s], eps, d)
    ensures EnvOf(old(env.State())).step(old(env.State()), a, d.hd, d.md) == (env.State(), res)
  {
    var row := Row(q, s);
    a := Choose(row, eps, d);
    res := env.Step(a, d.hd, d.md);
  }

  /** Line 125 on the array: `Q[s, a]` takes the temporal-difference update
      towards `reward` and the best value of row `next`. */
  method Learn(q: array2<real>, s: int, a: int, next: int, reward: real, lr: real, gamma: real)
    requires 0 <= s < q.Length0 && 0 <= a < q.Length1 && 0 <= next < q.Length0
    modifies q
    ensures Table(q) == Learned(old(Table(q)), s, a, next, reward, lr, gamma)
  {
    var best := MaxOfRow(q, next);
    var qa := q[s, a];
    SetEntry(q, s, a, TdUpdate(qa, lr, gamma, reward, best));
  }

  /** `q_learning(env, s, n_steps, q_table, lr, gamma, eps)` on a table the
      caller supplies: at most `n_steps` iterations, each with the draws of
      its own, ending after the first `done` or at the first exception of
      `step`. The table is updated in place and the returned values are
      those of the run `QSpec.QLearning` describes. */
  method Train(env: GameLogic, s: int, nSteps: nat, q: array2<real>, lr: real, gamma: real, eps: real,
               draws: seq<Draw>)
    returns (rAll: real, sOut: int, done: bool, info: Info, err: Option<GameError>)
    requires env.Valid() && q !in env.Repr()
    requires Fits(EnvOf(env.State()), Start(env.State(), Table(q), s))
    requires |draws| >= nSteps && AllValid(draws)
    modifies env.Repr(), q
    ensures env.Valid() && env.Parts() == old(env.Parts())
    ensures Run(env.State(), Table(q), rAll, sOut, done, info, err)
            == QSpec.QLearning(EnvOf(old(env.State())), old(env.State()), old(Table(q)), s, nSteps, lr, gamma, eps, draws)
  {
    ghost var E := EnvOf(env.State());
    ghost var r0 := Start(env.State(), Table(q), s);
    rAll, sOut, done, info, err := 0.0, s, false, Info([], [], [s]), None;
    var i := 0;
    while i < nSteps
      invariant 0 <= i <= nSteps && !done && err.None?
      invariant env.Valid() && env.Parts() == old(env.Parts()) && EnvOf(env.State()) == E
      invariant Fits(E, Run(env.State(), Table(q), rAll, sOut, done, info, err))
      invariant RunFrom(E, r0, lr, gamma, eps, draws, nSteps)
                == RunFrom(E, Run(env.State(), Table(q), rAll, sOut, done, info, err), lr, gamma, eps,
                           draws[i..], nSteps - i)
      decreases nSteps - i
    {
      ghost var cur := Run(env.State(), Table(q), rAll, sOut, done, info, err);
      assert draws[i..][0] == draws[i] && draws[i..][1..] == draws[i + 1..];
      sOut, rAll, done, info, err := Iteration(env, q, sOut, rAll, info, lr, gamma, eps, draws[i]);
      assert EnvOf(env.State()) == E;
      if err.Some? || done {
        return;
      }
      i := i + 1;
    }
  }

  /** The table `q_learning` starts from when it is given none: all zeros,
      one row per state and one column per action. */
  ghost function Zeros(rows: int, cols: int): (t: seq<seq<real>>)
    requires rows >= 0 && cols >= 0
    ensures |t| == rows && forall i :: 0 <= i < rows ==> t[i] == seq(cols, _ => 0.0)
  {
    seq(rows, _ => seq(cols, _ => 0.0))
  }

  /** `np.zeros([rows, cols])`. */
  method NewZeroTable(rows: nat, cols: nat) returns (q: array2<real>)
    ensures fresh(q) && q.Length0 == rows && q.Length1 == cols
    ensures Table(q) == Zeros(rows, cols)
  {
    q := new real[rows, cols]((i, j) => 0.0);
    ZeroTable(q);
  }

  /** An array whose entries are all zero holds the zero table. */
  lemma ZeroTable(q: array2<real>)
    requires forall i, j :: 0 <= i < q.Length0 && 0 <= j < q.Length1 ==> q[i, j] == 0.0
    ensures Table(q) == Zeros(q.Length0, q.Length1)
  {
    forall i | 0 <= i < q.Length0
      ensures Table(q)[i] == Zeros(q.Length0, q.Length1)[i]
    {
    }
  }

  /** `q_learning` with `q_table` optional: without one, a zero table of
      `n_states` rows and `n_actions` columns is made first. The table the
      run ends with is returned. */
  method QLearningRun(env: GameLogic, s: int, nSteps: nat, qTable: array2?<real>, lr: real, gamma: real, eps: real,
                      draws: seq<Draw>)
    returns (rAll: real, q: array2<real>, sOut: int, done: bool, info: Info, err: Option<GameError>)
    requires env.Valid() && qTable !in env.Repr()
    requires qTable != null ==> Fits(EnvOf(env.State()), Start(env.State(), Table(qTable), s))
    requires qTable == null ==> 0 <= s < env.NStates()
    requires |draws| >= nSteps && AllValid(draws)
    modifies env.Repr(), qTable
    ensures env.Valid() && env.Parts() == old(env.Parts())
    ensures qTable != null ==> q == qTable
    ensures qTable == null ==> fresh(q)
    ensures var t0 := if qTable != null then old(Table(qTable)) else Zeros(old(env.NStates()), old(env.nActions));
      Run(env.State(), Table(q), rAll, sOut, done, info, err)
      == QSpec.QLearning(EnvOf(old(env.State())), old(env.State()), t0, s, nSteps, lr, gamma, eps, draws)
  {
    if qTable == null {
      q := NewZeroTable(env.NStates(), env.nActions);
    } else {
      q := qTable;
    }
    rAll, sOut, done, info, err := Train(env, s, nSteps, q, lr, gamma, eps, draws);
  }

  /** `env.reset()` on resolved parameters: it returns a state and keeps
      the parameters and the number of actions. */
  method ResetGame(env: GameLogic, sh: Shuffles) returns (state: int)
    requires env.Valid() && ParamsFacts.Resolved(env.startParams)
    requires sh.Valid(env.startParams.Height(), env.startParams.Width())
    modifies env.Repr()
    ensures env.Valid() && forall o :: o in env.Repr() ==> o in old(env.Repr()) || fresh(o)
    ensures env.startParams == old(env.startParams) && env.nActions == old(env.nActions)
    ensures (env.State(), Some(state)) == ResetSpec(old(env.State()), sh)
    ensures 0 <= state < env.NStates()
  {
    ResetSucceeds(env.State(), sh);
    var r := env.Reset(sh);
    state := r.value;
  }

  /** On resolved parameters `reset()` succeeds, keeps the parameters and
      returns a state of the table. */
  lemma ResetSucceeds(s: GameState, sh: Shuffles)
    requires ValidState(s) && sh.Valid(s.params.Height(), s.params.Width()) && ParamsFacts.Resolved(s.params)
    ensures var (r, res) := ResetSpec(s, sh);
      && r.params == s.params && res.Some? && 0 <= res.value < s.params.Height() * s.params.Width()
  {
    ResetKeepsResolved(s, sh);
    ResetRestores(s, sh);
  }

  /** The class `QLearning`: a game, a table and the current state. */
  class QLearning {
    const env: GameLogic
    var q: array2<real>
    var state: int

    /** The game is valid and keeps to resolved parameters, so that `reset`
        always succeeds, and the table is not part of the game. */
    ghost predicate Valid()
      reads this, env, env.Repr()
    {
      && env.Valid() && ParamsFacts.Resolved(env.startParams)
      && q !in env.Repr() && this !in env.Repr()
    }

    /** The table has one row per state of the game and one column per
        action, and `state` is a state. */
    ghost predicate Fitted()
      reads this, env, env.Repr()
      requires Valid()
    {
      q.Length0 == env.NStates() && q.Length1 == env.nActions && 0 <= state < q.Length0
    }

    /** `QLearning(env)`: a zero table sized from the game, then
        `state = env.reset()`. */
    constructor (game: GameLogic, sh: Shuffles)
      requires game.Valid() && ParamsFacts.Resolved(game.startParams)
      requires sh.Valid(game.startParams.Height(), game.startParams.Width())
      modifies game.Repr()
      ensures Valid() && Fitted() && env == game && fresh(q)
      ensures forall o :: o in env.Repr() ==> o in old(game.Repr()) || fresh(o)
      ensures Table(q) == Zeros(old(game.NStates()), old(game.nActions))
      ensures (env.State(), Some(state)) == ResetSpec(old(game.State()), sh)
    {
      var table := NewZeroTable(game.NStates(), game.nActions);
      env, q, state := game, table, 0;
      new;
      Reset(sh);
    }

    /** `reset_q(env)`: a zero table sized from `other` when given, else
        from the own game; the own game is reset either way. */
    method ResetQ(other: GameLogic?, sh: Shuffles)
      requires Valid() && sh.Valid(env.startParams.Height(), env.startParams.Width())
      requires other != null ==> other.Valid()
      modifies this, env.Repr()
      ensures Valid() && fresh(q)
      ensures forall o :: o in env.Repr() ==> o in old(env.Repr()) || fresh(o)
      ensures other == null ==> Table(q) == Zeros(old(env.NStates()), old(env.nActions))
      ensures other != null ==> Table(q) == Zeros(old(other.NStates()), old(other.nActions))
      ensures (env.State(), Some(state)) == ResetSpec(old(env.State()), sh)
    {
      var g := if other != null then other else env;
      NewTable(g.NStates(), g.nActions);
      Reset(sh);
    }

    /** `self.Q = np.zeros([rows, cols])`. */
    method NewTable(rows: nat, cols: nat)
      requires Valid()
      modifies this`q
      ensures Valid() && fresh(q) && Table(q) == Zeros(rows, cols)
    {
      q := NewZeroTable(rows, cols);
    }

    /** `step(lr, gamma, eps)`: one iteration of `q_learning` on the own
        table and state, keeping the new state; an exception of the game's
        `step` leaves `state` as it was. */
    method Step(lr: real, gamma: real, eps: real, d: Draw) returns (rAll: real, done: bool, info: Info,
                                                                     err: Option<GameError>)
      requires Valid() && Fitted() && d.Valid()
      modifies this, env.Repr(), q
      ensures Valid() && Fitted() && q == old(q) && env.Parts() == old(env.Parts())
      ensures Run(env.State(), Table(q), rAll, state, done, info, err)
              == QSpec.QLearning(EnvOf(old(env.State())), old(env.State()), old(Table(q)), old(state), 1, lr, gamma, eps, [d])
    {
      assert Fits(EnvOf(env.State()), Start(env.State(), Table(q), state));
      rAll, state, done, info, err := Train(env, state, 1, q, lr, gamma, eps, [d]);
    }

    /** `reset()`: `state = env.reset()`. */
    method Reset(sh: Shuffles)
      requires Valid() && sh.Valid(env.startParams.Height(), env.startParams.Width())
      modifies this`state, env.Repr()
      ensures Valid() && env.startParams == old(env.startParams) && env.nActions == old(env.nActions)
      ensures forall o :: o in env.Repr() ==> o in old(env.Repr()) || fresh(o)
      ensures (env.State(), Some(state)) == ResetSpec(old(env.State()), sh)
      ensures 0 <= state < env.NStates()
    {
      var s := ResetGame(env, sh);
      ghost var after := env.State();
      state := s;
      assert env.State() == after;
    }

    /** `get_q_values()`: the table itself, not a copy. */
    method GetQValues() returns (t: array2<real>)
      ensures t == q
    {
      t := q;
    }

    /** `get_q_values(state)` for a state number: the Q-values of that
        state, one per action. */
    method GetQValuesAt(i: int) returns (row: seq<real>)
      requires 0 <= i < q.Length0
      ensures row == Table(q)[i]
    {
      row := Row(q, i);
    }

    /** `get_q_values((x, y))`: the row of cell `(x, y)`, numbered
        `game_width * y + x`. */
    method GetQValuesXY(x: int, y: int) returns (row: seq<real>)
      requires Valid() && 0 <= env.startParams.Width() * y + x < q.Length0
      ensures row == Table(q)[env.startParams.Width() * y + x]
    {
      row := Row(q, env.startParams.Width() * y + x);
    }

    /** `get_value(state)`: the value of the state, the largest of its
        Q-values. */
    method GetValue(i: int) returns (v: real)
      requires 0 <= i < q.Length0 && q.Length1 > 0
      ensures v in Table(q)[i]
      ensures forall j :: 0 <= j < q.Length1 ==> q[i, j] <= v
    {
      v := MaxOfRow(q, i);
    }
  }
}
