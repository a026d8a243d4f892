/** The function `q_learning` of `q_learning.py` on values: epsilon-greedy
    choice with tie-breaking among near-maximal actions, the temporal
    difference update of one table entry, and the trace of one run. The
    environment is any state with a `step` (`Env`); `GameEnv` is `GameLogic`
    as the functions of module `Rules` describe it. Q-values and rewards
    are reals. */
module QSpec {
  import opened Wrappers
  import opened Params
  import opened GameObjects
  import opened Rules
  import opened RulesFacts

  /** `MAX_FLOAT_DIFF` of the settings: values closer than this to the
      row maximum count as maximal. */
  const MaxFloatDiff: real := 0.000001

  function Abs(x: real): real {
    if x < 0.0 then -x else x
  }

  /** `max(qvalues)`, and `np.max` of a row. */
  function RowMax(row: seq<real>): (m: real)
    requires |row| > 0
    ensures m in row
    ensures forall i :: 0 <= i < |row| ==> row[i] <= m
  {
    if |row| == 1 then row[0]
    else
      var m := RowMax(row[..|row| - 1]);
      assert forall i :: 0 <= i < |row| - 1 ==> row[..|row| - 1][i] == row[i];
      if row[|row| - 1] > m then row[|row| - 1] else m
  }

  predicate NearMax(row: seq<real>, i: int)
    requires |row| > 0
  {
    0 <= i < |row| && Abs(row[i] - RowMax(row)) < MaxFloatDiff
  }

  /** The indices from `k` on whose value is within `MaxFloatDiff` of `m`,
      in increasing order. */
  function CloseFrom(row: seq<real>, m: real, k: nat): (c: seq<int>)
    requires k <= |row|
    ensures forall j :: 0 <= j < |c| ==> k <= c[j] < |row| && Abs(row[c[j]] - m) < MaxFloatDiff
    ensures forall i :: k <= i < |row| && Abs(row[i] - m) < MaxFloatDiff ==> i in c
    decreases |row| - k
  {
    if k == |row| then []
    else if Abs(row[k] - m) < MaxFloatDiff then [k] + CloseFrom(row, m, k + 1)
    else CloseFrom(row, m, k + 1)
  }

  /** `np.where(np.abs(qvalues - value) < MAX_FLOAT_DIFF)[0]`: exactly the
      near-maximal actions, never none. */
  function Candidates(row: seq<real>): (c: seq<int>)
    requires |row| > 0
    ensures |c| > 0
    ensures forall j :: 0 <= j < |c| ==> NearMax(row, c[j])
    ensures forall i :: NearMax(row, i) ==> i in c
  {
    var m := RowMax(row);
    var c := CloseFrom(row, m, 0);
    assert forall i :: 0 <= i < |row| && row[i] == m ==> i in c;
    c
  }

  /** `np.random.choice(n)` for the uniform sample `v` in `[0, 1)`. */
  function Pick(v: real, n: int): (k: int)
    requires 0.0 <= v < 1.0 && n > 0
    ensures 0 <= k < n
  {
    var x := v * n as real;
    assert x < n as real;
    x.Floor
  }

  /** The random numbers one iteration consumes: `u` for the epsilon test,
      `v` for the choice among actions, and the Hippo's and the
      Watermelon's draws inside `step`. */
  datatype Draw = Draw(u: real, v: real, hd: Dice, md: Dice)
  {
    predicate Valid() {
      0.0 <= u < 1.0 && 0.0 <= v < 1.0 && hd.Valid() && md.Valid()
    }
  }

  predicate AllValid(draws: seq<Draw>) {
    forall k :: 0 <= k < |draws| ==> draws[k].Valid()
  }

  /** The epsilon-greedy choice (lines 118-123): below `eps` any action,
      otherwise one of the near-maximal ones. */
  function Choose(row: seq<real>, eps: real, d: Draw): (a: int)
    requires |row| > 0 && d.Valid()
    ensures 0 <= a < |row|
    ensures d.u >= eps ==> NearMax(row, a)
  {
    if d.u < eps then Pick(d.v, |row|)
    else
      var c := Candidates(row);
      c[Pick(d.v, |c|)]
  }

  /** The sample `j / n` makes `np.random.choice(n)` return `j`. */
  lemma PickExact(j: int, n: int)
    requires 0 <= j < n
    ensures 0.0 <= j as real / n as real < 1.0
    ensures Pick(j as real / n as real, n) == j
  {
    var v := j as real / n as real;
    assert v * n as real == j as real;
  }

  /** Every near-maximal action is a possible greedy choice (when `eps`
      leaves room for a greedy draw at all). */
  lemma GreedyReachesEveryCandidate(row: seq<real>, eps: real, i: int)
    requires |row| > 0 && NearMax(row, i) && eps < 1.0
    ensures exists d: Draw :: d.Valid() && d.u >= eps && Choose(row, eps, d) == i
  {
    var c := Candidates(row);
    var j :| 0 <= j < |c| && c[j] == i;
    PickExact(j, |c|);
    var u := if eps <= 0.0 then 0.0 else eps;
    var d := Draw(u, j as real / |c| as real, Dice(0.0, [0, 0, 0, 0]), Dice(0.0, [0, 0, 0, 0]));
    assert d.Valid();
    assert Choose(row, eps, d) == c[j];
  }

  /** The trace `q_learning` returns as `info`. */
  datatype Info = Info(rewards: seq<real>, actions: seq<int>, states: seq<int>)

  /** What `q_learning` uses of its environment, whose state has type `E`:
      `step`, which gives the next state and the observation or the
      exception, the invariant `inv` that `step` keeps, and the numbers of
      states and actions that size the table. */
  datatype Env<!E(!new)> = Env(step: (E, int, Dice, Dice) -> (E, Result<Observation, GameError>), inv: E -> bool,
                        nStates: int, nActions: int)
  {
    /** `step` keeps the invariant, and an observed state numbers a row. */
    ghost predicate Sound() {
      forall e, a, hd, md :: inv(e) ==>
        && inv(step(e, a, hd, md).0)
        && (step(e, a, hd, md).1.Ok? ==> 0 <= step(e, a, hd, md).1.value.state < nStates)
    }
  }

  /** Everything one run carries from iteration to iteration: the
      environment's state, the table, `r_all`, `s`, `done`, `info`, and the
      exception `step` raised, if any. */
  datatype Run<E> = Run(env: E, table: seq<seq<real>>, rAll: real, s: int, done: bool,
                        info: Info, error: Option<GameError>)

  /** The table has one row per state of the environment and one column
      per action, and `s` is a state. */
  predicate Fits<E(!new)>(env: Env<E>, r: Run<E>) {
    && env.inv(r.env)
    && env.nActions > 0
    && |r.table| == env.nStates
    && (forall i :: 0 <= i < |r.table| ==> |r.table[i]| == env.nActions)
    && 0 <= r.s < |r.table|
  }

  /** `GameLogic.step` on the values of module `Rules`. */
  function GameStep(s: GameState, a: int, hd: Dice, md: Dice): (GameState, Result<Observation, GameError>) {
    if ValidState(s) then
      var st := StepSpec(s, a, hd, md);
      (st.after, st.result)
    else (s, Err(InvalidAction))
  }

  /** A `GameLogic` on parameters `p` with `na` actions as an environment. */
  function GameEnv(p: GameParams, na: int): Env<GameState> {
    Env((s, a, hd, md) => GameStep(s, a, hd, md), s => ValidState(s) && s.params == p && s.nActions == na,
        p.Height() * p.Width(), na)
  }

  /** `GameLogic` is a sound environment: `step` keeps it valid on the same
      parameters and observes a cell of the board. */
  lemma GameEnvSound(p: GameParams, na: int)
    ensures GameEnv(p, na).Sound()
  {
    var env := GameEnv(p, na);
    forall s, a, hd, md | env.inv(s)
      ensures env.inv(env.step(s, a, hd, md).0)
      ensures env.step(s, a, hd, md).1.Ok? ==> 0 <= env.step(s, a, hd, md).1.value.state < env.nStates
    {
      StepOutputs(s, a, hd, md);
    }
  }

  /** The temporal-difference update of line 125: `q` moves by `lr` of the
      way towards `reward + gamma * next`. */
  function TdUpdate(q: real, lr: real, gamma: real, reward: real, next: real): real {
    q + lr * (reward + gamma * next - q)
  }

  /** The table after line 125: entry `(s, a)` updated towards the reward
      and the best value of row `next`, both read from the old table. */
  function Learned(table: seq<seq<real>>, s: int, a: int, next: int, reward: real, lr: real, gamma: real)
    : seq<seq<real>>
    requires 0 <= s < |table| && 0 <= a < |table[s]| && 0 <= next < |table| && |table[next]| > 0
  {
    table[s := table[s][a := TdUpdate(table[s][a], lr, gamma, reward, RowMax(table[next]))]]
  }

  /** The table and trace after a step that observed `obs` after action `a`:
      `Q[s, a]` moves towards the temporal-difference target computed on the
      old table (line 125). */
  function Record<E>(r: Run<E>, after: E, a: int, obs: Observation, lr: real, gamma: real): Run<E>
    requires 0 <= r.s < |r.table| && 0 <= a < |r.table[r.s]|
    requires 0 <= obs.state < |r.table| && |r.table[obs.state]| > 0
  {
    Run(after, Learned(r.table, r.s, a, obs.state, obs.reward, lr, gamma), r.rAll + obs.reward, obs.state, obs.done,
        Info(r.info.rewards + [obs.reward], r.info.actions + [a], r.info.states + [obs.state]), None)
  }

  /** The run after `step` answered action `a` with `st`: an exception
      ends the run with the environment as `step` left it, an observation
      is recorded. */
  function Absorb<E>(r: Run<E>, a: int, st: (E, Result<Observation, GameError>), lr: real, gamma: real): Run<E>
    requires 0 <= r.s < |r.table| && 0 <= a < |r.table[r.s]|
    requires st.1.Ok? ==> 0 <= st.1.value.state < |r.table| && |r.table[st.1.value.state]| > 0
  {
    match st.1
    case Err(e) => r.(env := st.0, error := Some(e))
    case Ok(obs) => Record(r, st.0, a, obs, lr, gamma)
  }

  /** One iteration of the loop (lines 118-132): choose, step, update
      `Q[s, a]` from the old table, and record. An exception of `step`
      ends the run with the environment as `step` left it. */
  function Iterate<E(!new)>(env: Env<E>, r: Run<E>, lr: real, gamma: real, eps: real, d: Draw): (r': Run<E>)
    requires env.Sound() && Fits(env, r) && d.Valid()
    ensures Fits(env, r')
  {
    var a := Choose(r.table[r.s], eps, d);
    Absorb(r, a, env.step(r.env, a, d.hd, d.md), lr, gamma)
  }

  /** An iteration is the choice of `a` followed by `step`'s answer `st`. */
  lemma IterateChosen<E(!new)>(env: Env<E>, r: Run<E>, lr: real, gamma: real, eps: real, d: Draw, a: int,
                               st: (E, Result<Observation, GameError>))
    requires env.Sound() && Fits(env, r) && d.Valid()
    requires a == Choose(r.table[r.s], eps, d) && st == env.step(r.env, a, d.hd, d.md)
    ensures Iterate(env, r, lr, gamma, eps, d) == Absorb(r, a, st, lr, gamma)
  {
  }

  /** At most `n` iterations from `r`, stopping after the first that
      reports `done` or raises. */
  function RunFrom<E(!new)>(env: Env<E>, r: Run<E>, lr: real, gamma: real, eps: real, draws: seq<Draw>, n: nat): (r': Run<E>)
    requires env.Sound() && Fits(env, r) && |draws| >= n && AllValid(draws)
    ensures Fits(env, r')
    decreases n
  {
    if n == 0 then r
    else
      var r1 := Iterate(env, r, lr, gamma, eps, draws[0]);
      if r1.error.Some? || r1.done then r1 else RunFrom(env, r1, lr, gamma, eps, draws[1..], n - 1)
  }

  /** The run of `q_learning(env, s, n_steps, q_table, lr, gamma, eps)`. */
  function QLearning<E(!new)>(env: Env<E>, e: E, table: seq<seq<real>>, s: int, n: nat, lr: real, gamma: real,
                        eps: real, draws: seq<Draw>): Run<E>
    requires env.Sound() && Fits(env, Start(e, table, s)) && |draws| >= n && AllValid(draws)
  {
    RunFrom(env, Start(e, table, s), lr, gamma, eps, draws, n)
  }

  /** The run before the first iteration (lines 108-116). */
  function Start<E>(e: E, table: seq<seq<real>>, s: int): Run<E> {
    Run(e, table, 0.0, s, false, Info([], [], [s]), None)
  }

  function Sum(xs: seq<real>): real {
    if xs == [] then 0.0 else Sum(xs[..|xs| - 1]) + xs[|xs| - 1]
  }

  /** The trace is well formed: one more state than actions and rewards,
      the last state is `s`, and `r_all` is the sum of the rewards. */
  predicate Traced<E>(r: Run<E>) {
    && |r.info.states| == |r.info.actions| + 1
    && |r.info.rewards| == |r.info.actions|
    && r.info.states[|r.info.states| - 1] == r.s
    && r.rAll == Sum(r.info.rewards)
  }

  /** The trace of `r'` continues the trace of `r`. */
  predicate Extends<E>(r: Run<E>, r': Run<E>) {
    && |r.info.actions| <= |r'.info.actions|
    && |r.info.states| <= |r'.info.states|
    && |r.info.rewards| <= |r'.info.rewards|
    && r'.info.actions[..|r.info.actions|] == r.info.actions
    && r'.info.states[..|r.info.states|] == r.info.states
    && r'.info.rewards[..|r.info.rewards|] == r.info.rewards
  }

  lemma ExtendsTrans<E>(r0: Run<E>, r1: Run<E>, r2: Run<E>)
    requires Extends(r0, r1) && Extends(r1, r2)
    ensures Extends(r0, r2)
  {
    assert r2.info.actions[..|r1.info.actions|][..|r0.info.actions|] == r2.info.actions[..|r0.info.actions|];
    assert r2.info.states[..|r1.info.states|][..|r0.info.states|] == r2.info.states[..|r0.info.states|];
    assert r2.info.rewards[..|r1.info.rewards|][..|r0.info.rewards|] == r2.info.rewards[..|r0.info.rewards|];
  }

  /** Recording a step extends the trace by that step and keeps it well
      formed. */
  lemma RecordTrace<E>(r: Run<E>, after: E, a: int, obs: Observation, lr: real, gamma: real)
    requires 0 <= r.s < |r.table| && 0 <= a < |r.table[r.s]|
    requires 0 <= obs.state < |r.table| && |r.table[obs.state]| > 0
    requires Traced(r)
    ensures var r' := Record(r, after, a, obs, lr, gamma);
      && Traced(r') && Extends(r, r')
      && |r'.info.actions| == |r.info.actions| + 1
      && r'.info.actions[|r.info.actions|] == a
      && r'.info.rewards[|r.info.rewards|] == obs.reward
  {
    var rw := r.info.rewards + [obs.reward];
    assert rw[..|rw| - 1] == r.info.rewards;
  }

  /** One iteration extends the trace by the step it took, or, after an
      exception, leaves the trace, `r_all` and `s` as they were. */
  lemma IterateTrace<E(!new)>(env: Env<E>, r: Run<E>, lr: real, gamma: real, eps: real, d: Draw)
    requires env.Sound() && Fits(env, r) && d.Valid() && Traced(r)
    ensures var r' := Iterate(env, r, lr, gamma, eps, d);
      && Traced(r') && Extends(r, r')
      && |r'.info.actions| == |r.info.actions| + (if r'.error.None? then 1 else 0)
  {
    var a := Choose(r.table[r.s], eps, d);
    var st := env.step(r.env, a, d.hd, d.md);
    if st.1.Ok? {
      RecordTrace(r, st.0, a, st.1.value, lr, gamma);
    }
  }

  /** One iteration changes at most one entry of the table: `Q[s, a]` for
      the action it chose, set to the temporal-difference update of the old
      table; an exception leaves the table, the trace, `r_all` and `s` as
      they were. */
  lemma IterateUpdatesOneEntry<E(!new)>(env: Env<E>, r: Run<E>, lr: real, gamma: real, eps: real, d: Draw)
    requires env.Sound() && Fits(env, r) && d.Valid() && Traced(r)
    ensures var r' := Iterate(env, r, lr, gamma, eps, d);
      && Traced(r') && Extends(r, r')
      && (r'.error.Some? ==> r'.table == r.table && r'.info == r.info && r'.rAll == r.rAll && r'.s == r.s)
      && (r'.error.None? ==>
            |r'.info.actions| == |r.info.actions| + 1
            && var a := r'.info.actions[|r.info.actions|];
            var q := r.table[r.s][a];
            && 0 <= a < env.nActions
            && (d.u >= eps ==> NearMax(r.table[r.s], a))
            && r'.table[r.s][a] == q + lr * (r'.info.rewards[|r.info.rewards|] + gamma * RowMax(r.table[r'.s]) - q)
            && (forall i, j :: 0 <= i < |r.table| && 0 <= j < |r.table[i]| && (i, j) != (r.s, a) ==>
                  r'.table[i][j] == r.table[i][j]))
  {
    var a := Choose(r.table[r.s], eps, d);
    var st := env.step(r.env, a, d.hd, d.md);
    if st.1.Ok? {
      RecordTrace(r, st.0, a, st.1.value, lr, gamma);
    }
  }

  /** The loop runs at most `n` iterations and stops early only after a
      `done` or an exception; the trace stays well formed and only grows,
      and `r_all` stays the sum of the recorded rewards. */
  lemma {:induction false} RunFromShape<E(!new)>(env: Env<E>, r: Run<E>, lr: real, gamma: real, eps: real,
                                          draws: seq<Draw>, n: nat)
    requires env.Sound() && Fits(env, r) && |draws| >= n && AllValid(draws) && Traced(r)
    ensures var r' := RunFrom(env, r, lr, gamma, eps, draws, n);
      && Traced(r') && Extends(r, r')
      && |r'.info.actions| <= |r.info.actions| + n
      && (|r'.info.actions| < |r.info.actions| + n ==> r'.error.Some? || r'.done)
    decreases n
  {
    if n > 0 {
      var r1 := Iterate(env, r, lr, gamma, eps, draws[0]);
      IterateTrace(env, r, lr, gamma, eps, draws[0]);
      if r1.error.None? && !r1.done {
        RunFromShape(env, r1, lr, gamma, eps, draws[1..], n - 1);
        ExtendsTrans(r, r1, RunFrom(env, r1, lr, gamma, eps, draws[1..], n - 1));
      }
    }
  }

  /** With learning rate 0 the table never changes (the test with `lr=0`
      in `tests/test_q_learning.py`). */
  lemma {:induction false} ZeroRateKeepsTable<E(!new)>(env: Env<E>, r: Run<E>, gamma: real, eps: real, draws: seq<Draw>,
                                                n: nat)
    requires env.Sound() && Fits(env, r) && |draws| >= n && AllValid(draws)
    ensures RunFrom(env, r, 0.0, gamma, eps, draws, n).table == r.table
    decreases n
  {
    if n > 0 {
      var a := Choose(r.table[r.s], eps, draws[0]);
      var st := env.step(r.env, a, draws[0].hd, draws[0].md);
      var r1 := Iterate(env, r, 0.0, gamma, eps, draws[0]);
      if st.1.Ok? {
        assert r.table[r.s][a := r.table[r.s][a]] == r.table[r.s];
        assert r1.table == r.table[r.s := r.table[r.s]] == r.table;
      }
      if r1.error.None? && !r1.done {
        ZeroRateKeepsTable(env, r1, gamma, eps, draws[1..], n - 1);
      }
    }
  }

  /** A run of `q_learning` starts its trace at `s`, keeps it well formed
      and takes at most `n_steps` actions, fewer only after a `done` or an
      exception. */
  lemma QLearningShape<E(!new)>(env: Env<E>, e: E, table: seq<seq<real>>, s: int, n: nat, lr: real, gamma: real,
                          eps: real, draws: seq<Draw>)
    requires env.Sound() && Fits(env, Start(e, table, s)) && |draws| >= n && AllValid(draws)
    ensures var r := QLearning(env, e, table, s, n, lr, gamma, eps, draws);
      && |r.info.states| > 0 && r.info.states[0] == s
      && Traced(r)
      && |r.info.actions| <= n
      && (|r.info.actions| < n ==> r.done || r.error.Some?)
  {
    var r0 := Start(e, table, s);
    RunFromShape(env, r0, lr, gamma, eps, draws, n);
    var r := RunFrom(env, r0, lr, gamma, eps, draws, n);
    assert r.info.states[..1] == [s];
  }
}
