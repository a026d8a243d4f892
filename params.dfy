/** `GameParams` and its resolution by `GameLogic._fill_start_params`:
    random lava, green and terminal cells and random start positions are
    drawn in a fixed order, each from its own shuffle of the board. */
module Params {
  import opened Wrappers
  import opened Geometry

  /** The part of `GameParams` that resolution never changes. Random counts
      are naturals (0 stands for the Python `False`). */
  datatype Config = Config(
    gameHeight: int, gameWidth: int,
    scratRandom: bool,
    hippoRandom: bool, hippoMoveProb: real, hippoFedReward: real,
    watermelonRandom: bool, watermelonMoveProb: real,
    lavaRandom: nat, lavaIsTerminal: bool, lavaReward: real,
    terminalRandom: nat,
    greenRandom: nat, greenIsTerminal: bool, greenReward: real,
    tickPenalty: real,
    initialTerminalCells: seq<Pos>)

  /** The cell lists of `GameParams`. */
  datatype Layout = Layout(lava: seq<Pos>, green: seq<Pos>, terminal: seq<Pos>)

  /** The start positions of `GameParams`; `None` when unset. */
  datatype Starts = Starts(scrat: Option<Pos>, hippo: Option<Pos>, watermelon: Option<Pos>)

  /** The game configuration (`GameParams` without its unused `game_mode`). */
  datatype GameParams = GameParams(config: Config, layout: Layout, starts: Starts)
  {
    function Height(): int { config.gameHeight }
    function Width(): int { config.gameWidth }
  }

  /** What `GameParams.__init__` establishes: the explicitly given terminal
      cells are remembered as the initial ones. */
  predicate AsConstructed(p: GameParams) {
    p.config.initialTerminalCells == p.layout.terminal
  }

  /** Start positions that are set lie on the board. */
  predicate StartsOnBoard(st: Starts, height: int, width: int) {
    && (st.scrat.Some? ==> OnBoard(st.scrat.value, height, width))
    && (st.hippo.Some? ==> OnBoard(st.hippo.value, height, width))
    && (st.watermelon.Some? ==> OnBoard(st.watermelon.value, height, width))
  }

  /** A configuration the game can be built from: a non-empty board, fixed
      starts on it, and a Scrat start that is given or drawn. */
  predicate Configured(p: GameParams) {
    && p.Height() > 0 && p.Width() > 0
    && StartsOnBoard(p.starts, p.Height(), p.Width())
    && (p.starts.scrat.Some? || p.config.scratRandom)
  }

  /** A result of `random.shuffle` on the list of all board cells: every
      cell exactly once. */
  predicate IsShuffle(s: seq<Pos>, height: int, width: int) {
    && height >= 0 && width >= 0
    && |s| == height * width
    && (forall i :: 0 <= i < |s| ==> OnBoard(s[i], height, width))
    && Distinct(s)
  }

  /** One shuffle for each place `_fill_start_params` draws positions. */
  datatype Shuffles = Shuffles(lava: seq<Pos>, green: seq<Pos>, terminal: seq<Pos>,
                               scrat: seq<Pos>, hippo: seq<Pos>, watermelon: seq<Pos>)
  {
    predicate Valid(height: int, width: int) {
      && IsShuffle(lava, height, width) && IsShuffle(green, height, width)
      && IsShuffle(terminal, height, width) && IsShuffle(scrat, height, width)
      && IsShuffle(hippo, height, width) && IsShuffle(watermelon, height, width)
    }
  }

  // ---------------------------------------------------------------------
  // _generate_random_positions

  /** The cells of `s` that are not excluded, in the order of `s`. */
  function Free(s: seq<Pos>, exclude: seq<Pos>): (r: seq<Pos>)
    ensures |r| <= |s|
    ensures forall q :: q in r <==> q in s && q !in exclude
  {
    if s == [] then []
    else Free(s[..|s| - 1], exclude) + (if s[|s| - 1] in exclude then [] else [s[|s| - 1]])
  }

  /** What `_generate_random_positions` returns for the shuffle `s`: the
      first `n` free cells of the shuffle, or `None` when the scan runs off
      the end of the list (an `IndexError` in Python). */
  function FirstFree(s: seq<Pos>, exclude: seq<Pos>, n: nat): (r: Option<seq<Pos>>)
    ensures r.Some? ==> |r.value| == n
    ensures r.None? <==> |Free(s, exclude)| < n
  {
    var free := Free(s, exclude);
    if |free| >= n then Some(free[..n]) else None
  }

  lemma {:induction false} FreeAppend(a: seq<Pos>, b: seq<Pos>, exclude: seq<Pos>)
    ensures Free(a + b, exclude) == Free(a, exclude) + Free(b, exclude)
    decreases |b|
  {
    if b == [] {
      assert a + b == a;
    } else {
      var b' := b[..|b| - 1];
      assert (a + b)[..|a + b| - 1] == a + b';
      FreeAppend(a, b', exclude);
    }
  }

  /** Scanning a longer prefix of the shuffle only adds free cells at the end. */
  lemma FreePrefix(s: seq<Pos>, i: nat, exclude: seq<Pos>)
    requires i <= |s|
    ensures Free(s[..i], exclude) <= Free(s, exclude)
  {
    assert s == s[..i] + s[i..];
    FreeAppend(s[..i], s[i..], exclude);
  }

  lemma {:induction false} FreeDistinct(s: seq<Pos>, exclude: seq<Pos>)
    requires Distinct(s)
    ensures Distinct(Free(s, exclude))
    decreases |s|
  {
    if s != [] {
      var s' := s[..|s| - 1];
      FreeDistinct(s', exclude);
      assert s[|s| - 1] !in s';
    }
  }

  /** The positions drawn from a shuffle of the board are exactly `n`
      distinct board cells, none of them excluded. */
  lemma FirstFreeSound(s: seq<Pos>, exclude: seq<Pos>, n: nat, height: int, width: int)
    requires IsShuffle(s, height, width)
    requires FirstFree(s, exclude, n).Some?
    ensures var out := FirstFree(s, exclude, n).value;
      && |out| == n && Distinct(out)
      && (forall q :: q in out ==> OnBoard(q, height, width) && q !in exclude)
  {
    var free := Free(s, exclude);
    FreeDistinct(s, exclude);
    forall q | q in free[..n] ensures OnBoard(q, height, width) && q !in exclude {
      assert q in free;
    }
  }

  // ---------------------------------------------------------------------
  // _fill_start_params, stage by stage

  function ResolveLava(c: Config, l: Layout, resample: bool, sh: seq<Pos>): (Layout, bool) {
    if (|l.lava| == 0 || resample) && c.lavaRandom > 0 then
      match FirstFree(sh, [], c.lavaRandom)
      case None => (l, false)
      case Some(cells) => (l.(lava := cells), true)
    else (l, true)
  }

  function ResolveGreen(c: Config, l: Layout, resample: bool, sh: seq<Pos>): (Layout, bool) {
    if (|l.green| == 0 || resample) && c.greenRandom > 0 then
      match FirstFree(sh, l.lava, c.greenRandom)
      case None => (l, false)
      case Some(cells) => (l.(green := cells), true)
    else (l, true)
  }

  predicate AnyTerminalIsRandom(c: Config) {
    || c.terminalRandom > 0
    || (c.lavaRandom > 0 && c.lavaIsTerminal)
    || (c.greenRandom > 0 && c.greenIsTerminal)
  }

  /** The lava and green cells that are terminal by their kind. */
  function TerminalExtras(c: Config, l: Layout): seq<Pos> {
    (if c.lavaIsTerminal then l.lava else []) + (if c.greenIsTerminal then l.green else [])
  }

  /** How many terminal cells are drawn at random: `terminal_random` less
      the lava and green cells that are terminal by their kind. */
  function TerminalQuota(c: Config, l: Layout): int {
    (if c.lavaIsTerminal then c.terminalRandom - |l.lava| else c.terminalRandom)
      - (if c.greenIsTerminal then |l.green| else 0)
  }

  /** Regenerating the terminal cells (lines 358-377). */
  function DrawTerminal(c: Config, l: Layout, resample: bool, sh: seq<Pos>): (Layout, bool) {
    if (|l.terminal| == 0 || resample) && c.terminalRandom > 0 then
      if TerminalQuota(c, l) > 0 then
        match FirstFree(sh, TerminalExtras(c, l), TerminalQuota(c, l))
        case None => (l, false)
        case Some(cells) => (l.(terminal := cells), true)
      else (l.(terminal := []), true)
    else (l, true)
  }

  /** Whether the terminal lava and green cells are appended (lines 379-380). */
  predicate AppendsExtras(c: Config, l: Layout, resample: bool) {
    resample || (c.terminalRandom == 0 && |l.terminal| == |c.initialTerminalCells|)
  }

  function ResolveTerminal(c: Config, l: Layout, resample: bool, sh: seq<Pos>): (Layout, bool) {
    var l1 := if resample && AnyTerminalIsRandom(c) then l.(terminal := c.initialTerminalCells) else l;
    var (l2, ok) := DrawTerminal(c, l1, resample, sh);
    if !ok then (l2, false)
    else if AppendsExtras(c, l2, resample) then (l2.(terminal := l2.terminal + TerminalExtras(c, l2)), true)
    else (l2, true)
  }

  /** One start position: drawn (one cell, avoiding `exclude`) when the actor
      is random and the position is unset or resampling is asked for. */
  function ChooseStart(start: Option<Pos>, random: bool, resample: bool, sh: seq<Pos>,
                       exclude: seq<Pos>): (r: (Option<Pos>, bool))
    ensures !r.1 ==> r.0 == start
  {
    if (start.None? || resample) && random then
      match FirstFree(sh, exclude, 1)
      case None => (start, false)
      case Some(out) => (Some(out[0]), true)
    else (start, true)
  }

  function ResolveStarts(c: Config, l: Layout, st: Starts, resample: bool, sh: Shuffles): (Starts, bool) {
    var (scrat, ok1) := ChooseStart(st.scrat, c.scratRandom, resample, sh.scrat, l.terminal);
    var st1 := st.(scrat := scrat);
    if !ok1 then (st1, false)
    else
      var (hippo, ok2) := ChooseStart(st1.hippo, c.hippoRandom, resample, sh.hippo, l.lava);
      var st2 := st1.(hippo := hippo);
      if !ok2 then (st2, false)
      else
        var (melon, ok3) := ChooseStart(st2.watermelon, c.watermelonRandom, resample, sh.watermelon,
                                        l.lava + l.terminal);
        (st2.(watermelon := melon), ok3)
  }

  /** The parameters after resolution, and whether it completed (`false`:
      a draw ran out of free cells and Python raised, keeping what had been
      assigned until then). */
  datatype Fill = Fill(params: GameParams, ok: bool)

  function ResolveLayout(c: Config, l: Layout, resample: bool, sh: Shuffles): (Layout, bool) {
    var (l1, ok1) := ResolveLava(c, l, resample, sh.lava);
    if !ok1 then (l1, false)
    else
      var (l2, ok2) := ResolveGreen(c, l1, resample, sh.green);
      if !ok2 then (l2, false)
      else ResolveTerminal(c, l2, resample, sh.terminal)
  }

  /** `_fill_start_params(resample)` on the parameters `p`. */
  function Resolve(p: GameParams, resample: bool, sh: Shuffles): (r: Fill)
    ensures r.params.config == p.config
  {
    var (l, ok) := ResolveLayout(p.config, p.layout, resample, sh);
    if !ok then Fill(p.(layout := l), false)
    else
      var (st, ok') := ResolveStarts(p.config, l, p.starts, resample, sh);
      Fill(GameParams(p.config, l, st), ok')
  }
}
