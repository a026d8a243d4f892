/** What `_fill_start_params` guarantees about the parameters it resolves. */
module ParamsFacts {
  import opened Wrappers
  import opened Geometry
  import opened Params

  /** A drawn start is a board cell outside `exclude`; a start is never
      unset by the draw, and an unset start of a fixed actor stays unset. */
  lemma ChooseStartSound(start: Option<Pos>, random: bool, resample: bool, sh: seq<Pos>,
                         exclude: seq<Pos>, height: int, width: int)
    requires IsShuffle(sh, height, width)
    ensures var (r, ok) := ChooseStart(start, random, resample, sh, exclude);
      && (r == start || (r.Some? && OnBoard(r.value, height, width) && r.value !in exclude))
      && (start.Some? ==> r.Some?)
      && (start.None? && !random ==> r.None?)
      && (ok && (start.None? || resample) && random ==>
            r.Some? && OnBoard(r.value, height, width) && r.value !in exclude)
  {
    if (start.None? || resample) && random && FirstFree(sh, exclude, 1).Some? {
      FirstFreeSound(sh, exclude, 1, height, width);
      assert FirstFree(sh, exclude, 1).value[0] in FirstFree(sh, exclude, 1).value;
    }
  }

  /** The start stage keeps set starts set, fixed unset starts unset and
      every start on the board, also when a draw fails half way; when it
      completes, every random actor has a start. */
  lemma ResolveStartsSound(c: Config, l: Layout, st: Starts, resample: bool, sh: Shuffles)
    requires sh.Valid(c.gameHeight, c.gameWidth)
    ensures var (r, ok) := ResolveStarts(c, l, st, resample, sh);
      && (StartsOnBoard(st, c.gameHeight, c.gameWidth) ==> StartsOnBoard(r, c.gameHeight, c.gameWidth))
      && (st.scrat.Some? ==> r.scrat.Some?)
      && (st.hippo.Some? ==> r.hippo.Some?)
      && (st.watermelon.Some? ==> r.watermelon.Some?)
      && (st.hippo.None? && !c.hippoRandom ==> r.hippo.None?)
      && (st.watermelon.None? && !c.watermelonRandom ==> r.watermelon.None?)
      && (ok ==>
            && (c.scratRandom ==> r.scrat.Some?)
            && (c.hippoRandom ==> r.hippo.Some?)
            && (c.watermelonRandom ==> r.watermelon.Some?))
      && (ok && (st.scrat.None? || resample) && c.scratRandom ==> r.scrat.value !in l.terminal)
      && (ok && (st.hippo.None? || resample) && c.hippoRandom ==> r.hippo.value !in l.lava)
      && (ok && (st.watermelon.None? || resample) && c.watermelonRandom ==>
            r.watermelon.value !in l.lava && r.watermelon.value !in l.terminal)
  {
    var h, w := c.gameHeight, c.gameWidth;
    ChooseStartSound(st.scrat, c.scratRandom, resample, sh.scrat, l.terminal, h, w);
    var (scrat, ok1) := ChooseStart(st.scrat, c.scratRandom, resample, sh.scrat, l.terminal);
    var st1 := st.(scrat := scrat);
    if ok1 {
      ChooseStartSound(st1.hippo, c.hippoRandom, resample, sh.hippo, l.lava, h, w);
      var (hippo, ok2) := ChooseStart(st1.hippo, c.hippoRandom, resample, sh.hippo, l.lava);
      var st2 := st1.(hippo := hippo);
      if ok2 {
        ChooseStartSound(st2.watermelon, c.watermelonRandom, resample, sh.watermelon, l.lava + l.terminal, h, w);
      }
    }
  }

  /** Resolution keeps set starts set, fixed unset starts unset and every
      start on the board, also when a draw fails half way. */
  lemma ResolvePreserves(p: GameParams, resample: bool, sh: Shuffles)
    requires sh.Valid(p.Height(), p.Width())
    ensures var r := Resolve(p, resample, sh).params;
      && (StartsOnBoard(p.starts, p.Height(), p.Width()) ==> StartsOnBoard(r.starts, p.Height(), p.Width()))
      && (p.starts.scrat.Some? ==> r.starts.scrat.Some?)
      && (p.starts.hippo.Some? ==> r.starts.hippo.Some?)
      && (p.starts.watermelon.Some? ==> r.starts.watermelon.Some?)
      && (p.starts.hippo.None? && !p.config.hippoRandom ==> r.starts.hippo.None?)
      && (p.starts.watermelon.None? && !p.config.watermelonRandom ==> r.starts.watermelon.None?)
      && (Resolve(p, resample, sh).ok ==>
            && (p.config.scratRandom ==> r.starts.scrat.Some?)
            && (p.config.hippoRandom ==> r.starts.hippo.Some?)
            && (p.config.watermelonRandom ==> r.starts.watermelon.Some?))
  {
    var (l, ok) := ResolveLayout(p.config, p.layout, resample, sh);
    if ok {
      ResolveStartsSound(p.config, l, p.starts, resample, sh);
    }
  }

  lemma ResolveLavaSound(c: Config, l: Layout, resample: bool, sh: seq<Pos>)
    requires IsShuffle(sh, c.gameHeight, c.gameWidth)
    requires ResolveLava(c, l, resample, sh).1
    ensures var r := ResolveLava(c, l, resample, sh).0;
      && r.green == l.green
      && ((|l.lava| == 0 || resample) && c.lavaRandom > 0 ==>
            |r.lava| == c.lavaRandom && Distinct(r.lava)
            && forall q :: q in r.lava ==> OnBoard(q, c.gameHeight, c.gameWidth))
  {
    if (|l.lava| == 0 || resample) && c.lavaRandom > 0 {
      FirstFreeSound(sh, [], c.lavaRandom, c.gameHeight, c.gameWidth);
    }
  }

  lemma ResolveGreenSound(c: Config, l: Layout, resample: bool, sh: seq<Pos>)
    requires IsShuffle(sh, c.gameHeight, c.gameWidth)
    requires ResolveGreen(c, l, resample, sh).1
    ensures var r := ResolveGreen(c, l, resample, sh).0;
      && r.lava == l.lava
      && ((|l.green| == 0 || resample) && c.greenRandom > 0 ==>
            |r.green| == c.greenRandom && Distinct(r.green)
            && forall q :: q in r.green ==> OnBoard(q, c.gameHeight, c.gameWidth) && q !in r.lava)
  {
    if (|l.green| == 0 || resample) && c.greenRandom > 0 {
      FirstFreeSound(sh, l.lava, c.greenRandom, c.gameHeight, c.gameWidth);
    }
  }

  /** The cell-list stages: a drawn lava or green list holds the asked
      number of distinct board cells, and drawn green cells avoid lava. */
  lemma ResolveLayoutSound(c: Config, l: Layout, resample: bool, sh: Shuffles)
    requires sh.Valid(c.gameHeight, c.gameWidth)
    requires ResolveLayout(c, l, resample, sh).1
    ensures var r := ResolveLayout(c, l, resample, sh).0;
      && ((|l.lava| == 0 || resample) && c.lavaRandom > 0 ==>
            |r.lava| == c.lavaRandom && Distinct(r.lava)
            && forall q :: q in r.lava ==> OnBoard(q, c.gameHeight, c.gameWidth))
      && ((|l.green| == 0 || resample) && c.greenRandom > 0 ==>
            |r.green| == c.greenRandom && Distinct(r.green)
            && forall q :: q in r.green ==> OnBoard(q, c.gameHeight, c.gameWidth) && q !in r.lava)
  {
    var (l1, ok1) := ResolveLava(c, l, resample, sh.lava);
    ResolveLavaSound(c, l, resample, sh.lava);
    var (l2, ok2) := ResolveGreen(c, l1, resample, sh.green);
    ResolveGreenSound(c, l1, resample, sh.green);
    var r := ResolveTerminal(c, l2, resample, sh.terminal).0;
    assert r.lava == l2.lava && r.green == l2.green;
  }

  /** The exclusions of `_fill_start_params`: each list that is drawn holds
      the asked number of distinct board cells, green cells avoid lava, a
      drawn Scrat start avoids the terminal cells, a drawn Hippo start avoids
      lava and a drawn Watermelon start avoids both. */
  lemma ResolveExclusions(p: GameParams, resample: bool, sh: Shuffles)
    requires sh.Valid(p.Height(), p.Width())
    requires Resolve(p, resample, sh).ok
    ensures var c, r := p.config, Resolve(p, resample, sh).params;
      && ((|p.layout.lava| == 0 || resample) && c.lavaRandom > 0 ==>
            |r.layout.lava| == c.lavaRandom && Distinct(r.layout.lava)
            && forall q :: q in r.layout.lava ==> OnBoard(q, p.Height(), p.Width()))
      && ((|p.layout.green| == 0 || resample) && c.greenRandom > 0 ==>
            |r.layout.green| == c.greenRandom && Distinct(r.layout.green)
            && forall q :: q in r.layout.green ==> OnBoard(q, p.Height(), p.Width()) && q !in r.layout.lava)
      && ((p.starts.scrat.None? || resample) && c.scratRandom ==>
            r.starts.scrat.Some? && r.starts.scrat.value !in r.layout.terminal)
      && ((p.starts.hippo.None? || resample) && c.hippoRandom ==>
            r.starts.hippo.Some? && r.starts.hippo.value !in r.layout.lava)
      && ((p.starts.watermelon.None? || resample) && c.watermelonRandom ==>
            r.starts.watermelon.Some? && r.starts.watermelon.value !in r.layout.lava
            && r.starts.watermelon.value !in r.layout.terminal)
  {
    var (l, ok) := ResolveLayout(p.config, p.layout, resample, sh);
    ResolveLayoutSound(p.config, p.layout, resample, sh);
    ResolveStartsSound(p.config, l, p.starts, resample, sh);
  }

  /** Lava that is terminal by its kind and green that is terminal by its
      kind end up among the terminal cells whenever the append of lines
      379-384 runs: on every resampling, and on a plain resolution without
      random terminal cells whose terminal list still has its initial
      length. */
  lemma TerminalCover(p: GameParams, resample: bool, sh: Shuffles)
    requires Resolve(p, resample, sh).ok
    requires resample || (p.config.terminalRandom == 0 && |p.layout.terminal| == |p.config.initialTerminalCells|)
    ensures var r := Resolve(p, resample, sh).params;
      forall q :: q in TerminalExtras(r.config, r.layout) ==> q in r.layout.terminal
  {
  }

  /** Without random terminal cells, resampling appends the terminal lava and
      green cells again each time: the list grows by their number while its
      set of cells stays the same. */
  lemma ResampleRepeatsAppend(p: GameParams, sh: Shuffles)
    requires !AnyTerminalIsRandom(p.config)
    requires Resolve(p, true, sh).ok
    requires forall q :: q in TerminalExtras(p.config, p.layout) ==> q in p.layout.terminal
    ensures var r := Resolve(p, true, sh).params;
      && r.layout.terminal == p.layout.terminal + TerminalExtras(p.config, p.layout)
      && forall q :: q in r.layout.terminal <==> q in p.layout.terminal
  {
  }

  /** With `terminal_random` set, the first resolution (at construction)
      never appends the terminal lava: one lava cell and one random terminal
      cell leave no terminal cell at all, while a resampling marks the lava
      terminal. */
  lemma ConstructionSkipsTerminalLava(sh: Shuffles)
    ensures var p := GameParams(
              Config(2, 2, false, false, -1.0, 100.0, false, -1.0, 0, true, -10.0, 1, 0, true, 10.0, 0.0, []),
              Layout([Pos(0, 0)], [], []),
              Starts(Some(Pos(1, 1)), None, None));
      && Resolve(p, false, sh) == Fill(p, true)
      && Pos(0, 0) !in Resolve(p, false, sh).params.layout.terminal
      && Resolve(p, true, sh) == Fill(p.(layout := p.layout.(terminal := [Pos(0, 0)])), true)
  {
  }

  /** Parameters that a plain resolution (`reset`) leaves as they are. */
  predicate Resolved(p: GameParams) {
    LayoutResolved(p.config, p.layout) && StartsResolved(p.config, p.starts)
  }

  predicate LayoutResolved(c: Config, l: Layout) {
    && (c.lavaRandom == 0 || |l.lava| > 0)
    && (c.greenRandom == 0 || |l.green| > 0)
    && (c.terminalRandom == 0 || |l.terminal| > 0 || TerminalQuota(c, l) <= 0)
    && (c.terminalRandom > 0 || |l.terminal| != |c.initialTerminalCells| || TerminalExtras(c, l) == [])
  }

  predicate StartsResolved(c: Config, st: Starts) {
    && (c.scratRandom ==> st.scrat.Some?)
    && (c.hippoRandom ==> st.hippo.Some?)
    && (c.watermelonRandom ==> st.watermelon.Some?)
  }

  /** `reset` does not resample: resolved parameters resolve to themselves. */
  lemma ResolvedIsFixedPoint(p: GameParams, sh: Shuffles)
    requires Resolved(p)
    ensures Resolve(p, false, sh) == Fill(p, true)
  {
    var c, l := p.config, p.layout;
    if AppendsExtras(c, l, false) {
      assert l.terminal + TerminalExtras(c, l) == l.terminal;
    }
    assert ResolveLayout(c, l, false, sh) == (l, true);
  }

  /** A completed resolution leaves resolved parameters, provided the
      terminal list is at least as long as the initial one (as after
      `GameParams.__init__`) or terminal cells are random. */
  lemma ResolveEstablishesResolved(p: GameParams, resample: bool, sh: Shuffles)
    requires Resolve(p, resample, sh).ok
    requires p.config.terminalRandom > 0 || |p.layout.terminal| >= |p.config.initialTerminalCells|
    ensures Resolved(Resolve(p, resample, sh).params)
  {
    var (l, ok) := ResolveLayout(p.config, p.layout, resample, sh);
    ResolveLayoutEstablishes(p.config, p.layout, resample, sh);
    ResolveStartsEstablishes(p.config, l, p.starts, resample, sh);
  }

  lemma ResolveLayoutEstablishes(c: Config, l: Layout, resample: bool, sh: Shuffles)
    requires ResolveLayout(c, l, resample, sh).1
    requires c.terminalRandom > 0 || |l.terminal| >= |c.initialTerminalCells|
    ensures LayoutResolved(c, ResolveLayout(c, l, resample, sh).0)
  {
    var (l1, ok1) := ResolveLava(c, l, resample, sh.lava);
    var (l2, ok2) := ResolveGreen(c, l1, resample, sh.green);
    assert c.lavaRandom == 0 || |l2.lava| > 0;
    assert c.greenRandom == 0 || |l2.green| > 0;
    assert l2.terminal == l.terminal;
    ResolveTerminalEstablishes(c, l2, resample, sh.terminal);
  }

  /** The terminal stage keeps lava and green and leaves a terminal list
      that is drawn, or whose extras were appended exactly when it had the
      initial length. */
  lemma ResolveTerminalEstablishes(c: Config, l: Layout, resample: bool, sh: seq<Pos>)
    requires ResolveTerminal(c, l, resample, sh).1
    requires c.terminalRandom > 0 || |l.terminal| >= |c.initialTerminalCells|
    ensures var r := ResolveTerminal(c, l, resample, sh).0;
      && r.lava == l.lava && r.green == l.green
      && (c.terminalRandom == 0 || |r.terminal| > 0 || TerminalQuota(c, r) <= 0)
      && (c.terminalRandom > 0 || |r.terminal| != |c.initialTerminalCells| || TerminalExtras(c, r) == [])
  {
    var l3 := if resample && AnyTerminalIsRandom(c) then l.(terminal := c.initialTerminalCells) else l;
    var (l4, ok4) := DrawTerminal(c, l3, resample, sh);
    assert TerminalExtras(c, l4) == TerminalExtras(c, l) && TerminalQuota(c, l4) == TerminalQuota(c, l);
  }

  lemma ResolveStartsEstablishes(c: Config, l: Layout, st: Starts, resample: bool, sh: Shuffles)
    requires ResolveStarts(c, l, st, resample, sh).1
    ensures StartsResolved(c, ResolveStarts(c, l, st, resample, sh).0)
  {
  }
}
