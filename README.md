# Scrat, the Hippo and the Watermelon, verified

This project models the back end of the MDP visualiser in Dafny: the game
that the reinforcement-learning agent plays, the tabular Q-learning that
trains on it, the animation step of the value display, and the small grid
world of `WTF.py`.

* **The game** (`GameLogic`, `GameBoard`, `GameParams`, `GameObject` with
  `Scrat`, `Hippo` and `Watermelon`) is a board of cells that may be lava,
  green or terminal.
  * Scrat moves by the agent's actions 0..3, takes the Watermelon (4) and
    puts it down or feeds it to the Hippo (5).
  * The Hippo and the Watermelon move at random.
  * Lava, green and terminal cells and the start positions can be drawn at
    random when a game is built or reset.
  * The classes are Dafny classes whose methods change their fields. Each
    one is proved against a value-level specification in modules `Params`,
    `Rules`, `ParamsFacts` and `RulesFacts`, about which the game's
    promises are proved.
* **Q-learning** (`q_learning` and class `QLearning`) is an epsilon-greedy
  loop. Each iteration picks an action, steps the game, applies the
  temporal-difference update to the table and records the trace.
  * The table is a two-dimensional array updated in place.
  * The loop is a method, proved equal to a recursive specification,
    `QSpec.QLearning`.
  * That specification is written over any environment that keeps an
    invariant. It is then instantiated with the game.
* **`value_update`** moves a displayed value towards its target by at least
  a minimum step. Repeating it reaches the target.
* **`World` and `WorldEnv`** are a fixed reward grid and a player who walks
  it.

Randomness is an explicit input, so every random call becomes a value the
caller supplies:

* `random.shuffle` becomes the `Shuffles` permutations.
* `random()` with `randint(0, 3)` becomes `Dice`.
* `np.random.rand()` with `np.random.choice` becomes `Draw`.

## Model

| member | source | states |
|---|---|---|
| ActionsObjectsList.Delta | mdp_visualizer/logic/actions_objects_list.py:14-17 | a move changes exactly one coordinate, by one |
| ActionsObjectsList.Code | mdp_visualizer/logic/actions_objects_list.py:18-21 | the non-move actions are numbered 4..7 |
| Geometry.CellIndexInRange | mdp_visualizer/logic/gameLogic.py:603-606 | the row-major number of a cell on the board is below `n_states` |
| GameObjects.FirstLegal | mdp_visualizer/logic/gameObject.py:95-117 | the sampling loop yields no move iff none of the four samples selects a legal one; otherwise it yields the move of the first sample that does |
| GameObjects.Moved | mdp_visualizer/logic/gameObject.py:74-85 | `change_position`: the old position becomes the previous one and the position moves by the delta |
| GameObjects.LegalMove | mdp_visualizer/logic/gameObject.py:99-112 | sample 0, 1, 2 or 3 selects left, up, right or down when that neighbour is on the board and not lava, otherwise nothing |
| GameObjects.RandomAction | mdp_visualizer/logic/gameObject.py:87-119 | a move is tried only when `move_prob` is positive and the draw falls below it, and is then the first legal sample |
| GameObjects.LegalMoveSafe | mdp_visualizer/logic/gameObject.py:99-112 | a selected move keeps the object on the board and out of lava |
| GameObjects.RandomActionSafe | mdp_visualizer/logic/gameObject.py:87-119 | with `move_prob <= 0` there is no move; any move taken stays on the board, avoids lava and goes exactly one cell |
| GameObjects.GameObject.constructor | mdp_visualizer/logic/gameObject.py:16-33 | the object starts at its position, with previous position (-1, -1), the board size, the lava cells and its move probability |
| GameObjects.GameObject.DxDy | mdp_visualizer/logic/gameObject.py:59-63 | shifting the previous position by `dx_dy` gives the current one |
| GameObjects.GameObject.ChangePosition | mdp_visualizer/logic/gameObject.py:74-85 | the old position becomes the previous one, the position moves by (dx, dy), and `dx_dy` is then (dx, dy) |
| GameObjects.GameObject.TakeRandomAction | mdp_visualizer/logic/gameObject.py:87-119 | the result is the random-move specification on the object's snapshot and dice |
| GameObjects.GameObject.UpdateParams | mdp_visualizer/logic/gameObject.py:121-132 | only the board size and the lava cells change |
| GameObjects.GameObject.ResetPosition | mdp_visualizer/logic/gameObject.py:157-160 | the position becomes the start, the previous one (-1, -1); nothing else changes |
| GameObjects.Scrat.constructor | mdp_visualizer/logic/gameObject.py:138-148 | Scrat stands on its start position, immobile, not carrying |
| GameObjects.Scrat.ResetPosition | mdp_visualizer/logic/gameObject.py:150-160 | Scrat back on its start position, with previous position (-1, -1) |
| GameObjects.Scrat.TakeWatermelon | mdp_visualizer/logic/gameObject.py:162-165 | Scrat carries the Watermelon |
| GameObjects.Scrat.ReleaseWatermelon | mdp_visualizer/logic/gameObject.py:167-170 | Scrat carries nothing |
| GameObjects.Hippo.constructor | mdp_visualizer/logic/gameObject.py:182-197 | the Hippo stands on its start position, moves with `hippo_move_prob`, and is hungry |
| GameObjects.Hippo.ResetPosition | mdp_visualizer/logic/gameObject.py:199-209 | the Hippo back on its start position, with previous position (-1, -1) |
| GameObjects.Hippo.BecomeFed | mdp_visualizer/logic/gameObject.py:211-214 | the Hippo is fed |
| GameObjects.Hippo.BecomeHungry | mdp_visualizer/logic/gameObject.py:216-219 | the Hippo is hungry |
| GameObjects.Watermelon.constructor | mdp_visualizer/logic/gameObject.py:231-247 | the Watermelon is on its start position, moves with `watermelon_move_prob`, and is neither taken nor eaten |
| GameObjects.Watermelon.ResetPosition | mdp_visualizer/logic/gameObject.py:249-259 | the Watermelon back on its start position, with previous position (-1, -1) |
| GameObjects.Watermelon.BecomeTaken | mdp_visualizer/logic/gameObject.py:261-264 | the Watermelon is taken |
| GameObjects.Watermelon.BecomeReleased | mdp_visualizer/logic/gameObject.py:266-269 | the Watermelon is not taken |
| GameObjects.Watermelon.BecomeEaten | mdp_visualizer/logic/gameObject.py:271-274 | the Watermelon is eaten |
| GameObjects.Watermelon.BecomeNotEaten | mdp_visualizer/logic/gameObject.py:276-279 | the Watermelon is not eaten |
| Board.NewBoardCell | mdp_visualizer/logic/gameLogic.py:68-90 | a built board has the parameters' shape; each cell knows its coordinates; its reward is lava's, else green's, else 0; each of its flags holds iff the parameters put that thing there |
| Board.CellRewardOf | mdp_visualizer/logic/gameLogic.py:80-85 | a cell's reward is the lava reward on lava, else the green reward on green, else 0 |
| Board.NewCell | mdp_visualizer/logic/gameLogic.py:74-89 | a cell knows its coordinates, its reward, whether it is terminal, lava or green, and which actor starts on it |
| Board.NewBoard | mdp_visualizer/logic/gameLogic.py:68-90 | `height` rows of `width` cells, row `y` holding the cells of that row |
| Board.SetFlag | mdp_visualizer/logic/gameLogic.py:101-109 | setting one actor flag of one cell keeps the board's shape |
| Board.MoveFlags | mdp_visualizer/logic/gameLogic.py:92-109 | moving a flag keeps the board's shape |
| Board.MoveFlagsEffect | mdp_visualizer/logic/gameLogic.py:92-109 | an object instance (not an `Objects` tag) changes nothing; a tag sets the flag at the target and clears it at a different source; terrain, other objects' flags and every other cell are unchanged |
| Board.MoveKeepsMelonFlags | mdp_visualizer/logic/gameLogic.py:101-106 | moving Scrat or the Hippo leaves every Watermelon flag |
| Board.NewBoardMatches | mdp_visualizer/logic/gameLogic.py:68-90 | a freshly built board agrees with the parameters and the start positions |
| Board.MoveMatches | mdp_visualizer/logic/gameLogic.py:92-109 | moving an actor's flag to another on-board cell keeps the board in agreement with the new positions; moving Scrat or the Hippo leaves the Watermelon flags |
| Board.GameBoard.constructor | mdp_visualizer/logic/gameLogic.py:68-90 | the cells are the board built from the parameters |
| Board.GameBoard.MoveObject | mdp_visualizer/logic/gameLogic.py:92-109 | the cells become the flag move of the old cells |
| Params.Free | mdp_visualizer/logic/gameLogic.py:314-325 | the free cells of a shuffle are exactly its cells that are not excluded |
| Params.FirstFree | mdp_visualizer/logic/gameLogic.py:303-325 | `n` cells are drawn iff the shuffle has at least `n` free cells |
| Params.FirstFreeSound | mdp_visualizer/logic/gameLogic.py:303-325 | the drawn cells are `n` distinct board cells, none of them excluded |
| Params.FreeDistinct | mdp_visualizer/logic/gameLogic.py:318-323 | the free cells of a repetition-free shuffle have no repetition |
| Params.ChooseStart | mdp_visualizer/logic/gameLogic.py:386-399 | a failed draw leaves the start position as it was |
| Params.Resolve | mdp_visualizer/logic/gameLogic.py:328-399 | resolution never changes the configuration |
| Params.ResolveLava | mdp_visualizer/logic/gameLogic.py:339-341 | lava is drawn, with no exclusion, when the list is empty or resampling and `lava_random` is set; a draw that fails stops the resolution |
| Params.ResolveGreen | mdp_visualizer/logic/gameLogic.py:344-348 | green cells are drawn outside lava on the same condition with `green_random` |
| Params.AnyTerminalIsRandom | mdp_visualizer/logic/gameLogic.py:351-353 | some terminal cells are random: `terminal_random`, or random lava that is terminal, or random green that is terminal |
| Params.TerminalExtras | mdp_visualizer/logic/gameLogic.py:381-384 | the lava cells when lava is terminal, then the green cells when green is terminal |
| Params.TerminalQuota | mdp_visualizer/logic/gameLogic.py:362-370 | `terminal_random` less the terminal lava and green cells |
| Params.DrawTerminal | mdp_visualizer/logic/gameLogic.py:358-377 | terminal cells are drawn outside the terminal lava and green cells when the list is empty or resampling and `terminal_random` is set, and cleared when the quota is not positive |
| Params.AppendsExtras | mdp_visualizer/logic/gameLogic.py:379-380 | the extras are appended when resampling, or when `terminal_random` is unset and the list is as long as the initial one |
| Params.ResolveTerminal | mdp_visualizer/logic/gameLogic.py:350-384 | restore the initial terminal cells on a resample with random terminal cells, draw, then append the extras |
| Params.ResolveStarts | mdp_visualizer/logic/gameLogic.py:386-399 | Scrat avoids terminal cells, the Hippo lava, the Watermelon both; each is drawn when unset or resampling and random; the first failing draw stops |
| Params.ResolveLayout | mdp_visualizer/logic/gameLogic.py:339-384 | lava, then green, then terminal cells, stopping at the first failing draw |
| ParamsFacts.ChooseStartSound | mdp_visualizer/logic/gameLogic.py:386-399 | the start is kept or drawn on the board outside the excluded cells; a set start stays set; an unset start without randomness stays unset; a required draw that succeeds gives such a cell |
| ParamsFacts.ResolveStartsSound | mdp_visualizer/logic/gameLogic.py:386-399 | the starts stay on the board; set starts stay set; random starts are set when resolution succeeds; Scrat avoids terminal cells, the Hippo lava, the Watermelon both |
| ParamsFacts.ResolvePreserves | mdp_visualizer/logic/gameLogic.py:328-399 | the same facts about the starts, for the whole `_fill_start_params` |
| ParamsFacts.ResolveLavaSound | mdp_visualizer/logic/gameLogic.py:339-341 | the green cells are kept; drawn lava is `lava_random` distinct board cells |
| ParamsFacts.ResolveGreenSound | mdp_visualizer/logic/gameLogic.py:344-348 | the lava is kept; drawn green cells are `green_random` distinct board cells outside lava |
| ParamsFacts.ResolveLayoutSound | mdp_visualizer/logic/gameLogic.py:339-384 | the lava and green facts hold after the whole layout step |
| ParamsFacts.ResolveExclusions | mdp_visualizer/logic/gameLogic.py:328-399 | after a successful resolution, drawn lava and green cells are distinct and disjoint, and drawn starts avoid the cells they must avoid |
| ParamsFacts.TerminalCover | mdp_visualizer/logic/gameLogic.py:379-384 | when the extras are appended, every terminal lava and green cell is terminal |
| ParamsFacts.ResampleRepeatsAppend | mdp_visualizer/logic/gameLogic.py:354-384 | without random terminal cells, a resample appends the terminal lava and green cells again, so they are listed twice while the set of terminal cells stays the same |
| ParamsFacts.ConstructionSkipsTerminalLava | mdp_visualizer/logic/gameLogic.py:354-384 | on a board with one lava cell and one random terminal cell, building leaves no terminal cell, and only a resample makes the lava terminal |
| ParamsFacts.ResolvedIsFixedPoint | mdp_visualizer/logic/gameLogic.py:727-731 | `reset` resolves already resolved parameters to themselves, successfully |
| ParamsFacts.ResolveEstablishesResolved | mdp_visualizer/logic/gameLogic.py:328-399 | a successful resolution yields resolved parameters (unless the initial terminal list is longer than the current one) |
| ParamsFacts.ResolveLayoutEstablishes | mdp_visualizer/logic/gameLogic.py:339-384 | the layout part of that fact |
| ParamsFacts.ResolveTerminalEstablishes | mdp_visualizer/logic/gameLogic.py:350-384 | the terminal part, with lava and green unchanged |
| ParamsFacts.ResolveStartsEstablishes | mdp_visualizer/logic/gameLogic.py:386-399 | a successful start step sets every random start |
| Rules.MoveObject | mdp_visualizer/logic/gameLogic.py:502-523 | moving an actor keeps the game invariant, the parameters and the action count |
| Rules.HippoTurn | mdp_visualizer/logic/gameLogic.py:455-458 | the Hippo's random move keeps the invariant |
| Rules.MelonTurn | mdp_visualizer/logic/gameLogic.py:460-464 | the Watermelon's random move keeps the invariant |
| Rules.ScratMove | mdp_visualizer/logic/gameLogic.py:469-476 | Scrat's move keeps the invariant |
| Rules.Interact | mdp_visualizer/logic/gameLogic.py:477-484 | take, put and feed keep the invariant |
| Rules.MelonInteraction | mdp_visualizer/logic/gameLogic.py:525-541 | take sets carrying and taken; put clears them; feed clears them and makes the Watermelon eaten |
| Rules.HippoInteraction | mdp_visualizer/logic/gameLogic.py:543-557 | feeding makes the Hippo fed and pays `hippo_fed_reward` |
| Rules.Finish | mdp_visualizer/logic/gameLogic.py:486-500 | recording the reward and `done` keeps the invariant |
| Rules.StepSpec | mdp_visualizer/logic/gameLogic.py:431-500 | `step` keeps the invariant, the parameters and the action count |
| Rules.Moves | mdp_visualizer/logic/gameLogic.py:455-476 | the three moves of a step keep the invariant |
| Rules.Advance | mdp_visualizer/logic/gameLogic.py:452-500 | the step after its admission keeps the invariant |
| Rules.Fresh | mdp_visualizer/logic/gameLogic.py:401-427 | a newly built game satisfies the invariant |
| Rules.StartBody | mdp_visualizer/logic/gameObject.py:16-33 | an actor's body on its start, previous position (-1, -1), with the board size, the lava and its move probability |
| Rules.FreshScrat | mdp_visualizer/logic/gameLogic.py:413 | Scrat on its start, immobile and not carrying |
| Rules.FreshHippo | mdp_visualizer/logic/gameLogic.py:415-417 | a hungry Hippo on its start exactly when its start is set |
| Rules.FreshMelon | mdp_visualizer/logic/gameLogic.py:419-421 | a Watermelon, neither taken nor eaten, on its start exactly when its start is set |
| Rules.ResetBody | mdp_visualizer/logic/gameLogic.py:709-712 | `reset_position` then `update_params`: the start, previous (-1, -1), the new board size and lava |
| Rules.ResetObjects | mdp_visualizer/logic/gameLogic.py:703-725 | `_reset_objects` keeps the invariant |
| Rules.FillSpec | mdp_visualizer/logic/gameLogic.py:328-399 | `_fill_start_params` keeps the invariant |
| Rules.ResetSpec | mdp_visualizer/logic/gameLogic.py:727-734 | `reset` keeps the invariant |
| Rules.StartObserved | mdp_visualizer/logic/gameLogic.py:732-734 | observing the start keeps the invariant |
| Rules.FullResetSpec | mdp_visualizer/logic/gameLogic.py:736-740 | `full_reset` keeps the invariant |
| RulesFacts.MoveObjectFacts | mdp_visualizer/logic/gameLogic.py:502-523 | only the moved actor's position changes (and a carried Watermelon's, with Scrat), by the move's delta; flags, counters and lava lists stay |
| RulesFacts.MoveScratBoard | mdp_visualizer/logic/gameLogic.py:510-517 | Scrat's move keeps the Watermelon flags and the board's agreement with the actors |
| RulesFacts.MoveHippoBoard | mdp_visualizer/logic/gameLogic.py:518-520 | the Hippo's move keeps the Watermelon flags and that agreement |
| RulesFacts.MoveMelonBoard | mdp_visualizer/logic/gameLogic.py:521-523 | the Watermelon's own move keeps that agreement |
| RulesFacts.HippoTurnFacts | mdp_visualizer/logic/gameLogic.py:455-458 | only the Hippo moves, by at most one cell, and never into lava |
| RulesFacts.MelonTurnFacts | mdp_visualizer/logic/gameLogic.py:460-464 | only the Watermelon moves, at most one cell, never into lava, and not at all while taken |
| RulesFacts.MoveOf | mdp_visualizer/logic/gameLogic.py:469-476 | actions 0..3 are moves |
| RulesFacts.ScratMoveCases | mdp_visualizer/logic/gameLogic.py:469-476 | Scrat moves iff its target differs from its position, and then by a legal move |
| RulesFacts.ScratTargetNear | mdp_visualizer/logic/gameLogic.py:469-476 | Scrat's target is at most one cell away |
| RulesFacts.ScratMoveFacts | mdp_visualizer/logic/gameLogic.py:469-476 | Scrat ends on its target; the Hippo, flags, counters and lava lists stay; an uncarried Watermelon stays |
| RulesFacts.ScratStepFacts | mdp_visualizer/logic/gameLogic.py:510-517 | one move of Scrat shifts it by the delta and keeps everything else that matters |
| RulesFacts.InteractFacts | mdp_visualizer/logic/gameLogic.py:477-484 | take, put and feed move nothing; the error cases hold exactly when the Python properties raise; an error changes nothing; the reward is `hippo_fed_reward` exactly when feeding; the Hippo becomes fed exactly when fed |
| RulesFacts.TurnsFacts | mdp_visualizer/logic/gameLogic.py:455-464 | the two random moves leave Scrat, move each other actor by at most one cell and keep it out of lava |
| RulesFacts.MovesFacts | mdp_visualizer/logic/gameLogic.py:455-476 | after the moves of a step, Scrat is on its target and every actor moved by at most one cell |
| RulesFacts.MovesBoard | mdp_visualizer/logic/gameLogic.py:455-476 | the moves keep the board's agreement, and keep Watermelon flags while Scrat carries it |
| RulesFacts.StepMoves | mdp_visualizer/logic/gameLogic.py:431-500 | after `step`, Scrat is on its target (or unmoved for an invalid action), every actor moved by at most one cell, and a carried Watermelon is with Scrat |
| RulesFacts.StepOutputs | mdp_visualizer/logic/gameLogic.py:486-500 | the reward is the cell's reward plus the feeding reward plus the tick penalty; the total grows by it; `done` iff a terminal cell or a fed Hippo; the state is Scrat's row-major number, below `n_states` |
| RulesFacts.StepErrors | mdp_visualizer/logic/gameLogic.py:446 | an action outside 0..n_actions is refused and changes nothing; take without a Watermelon and feed without a Hippo fail, exactly then |
| RulesFacts.StepAdmitsNActions | mdp_visualizer/logic/gameLogic.py:446 | the assertion admits `n_actions` itself: 4 fails looking for a Watermelon, 6 is a step without a move |
| RulesFacts.StepInteractions | mdp_visualizer/logic/gameLogic.py:477-484 | Scrat takes the Watermelon only by action 4 on its cell; the Hippo is fed only by action 5 with both on the Hippo's cell before and after its move; a successful 5 while carrying always releases; the taken and fed flags stay tied to carrying and eating |
| RulesFacts.StepAvoidsLava | mdp_visualizer/logic/gameLogic.py:455-464 | the Hippo and an uncarried Watermelon never step into lava; the lava lists stay |
| RulesFacts.StepKeepsConsistent | mdp_visualizer/logic/gameLogic.py:431-500 | the board stays in agreement with the actors, and Scrat's cell has the reward and terminality the parameters give |
| RulesFacts.StepRewardNonPositive | mdp_visualizer/logic/gameLogic.py:486-492 | with no positive reward configured, no step gains reward |
| RulesFacts.CarriedWatermelonFlagsStale | mdp_visualizer/logic/gameLogic.py:514-517 | while carried, the Watermelon moves with Scrat but its board flags do not move |
| RulesFacts.FreshConsistent | mdp_visualizer/logic/gameLogic.py:401-427 | a new game's board agrees with the actors |
| RulesFacts.ResetObjectsIsFresh | mdp_visualizer/logic/gameLogic.py:703-725 | `_reset_objects` gives the newly built game, counters kept |
| RulesFacts.ResetRestores | mdp_visualizer/logic/gameLogic.py:727-734 | `reset` returns a state iff resolution succeeds, and then the newly built game with `done` set by Scrat's start cell, and Scrat's start number; otherwise the actors stay and the counters are cleared |
| RulesFacts.ResetKeepsResolved | mdp_visualizer/logic/gameLogic.py:727-734 | on resolved parameters `reset` keeps them and returns a state |
| RulesFacts.FullResetRestores | mdp_visualizer/logic/gameLogic.py:736-740 | `full_reset` resamples, rebuilds on success and otherwise keeps the actors |
| Logic.GameLogic.constructor | mdp_visualizer/logic/gameLogic.py:272-300 | the game is the one built from the resolved parameters |
| Logic.GameLogic.GenerateRandomPositions | mdp_visualizer/logic/gameLogic.py:303-325 | the loop returns the first `n` free cells of the shuffle, or fails when there are fewer |
| Logic.GameLogic.FillStartParams | mdp_visualizer/logic/gameLogic.py:328-399 | the parameters become their resolution, and the counters are cleared |
| Logic.GameLogic.FillLava | mdp_visualizer/logic/gameLogic.py:339-341 | the lava step of the resolution |
| Logic.GameLogic.FillGreen | mdp_visualizer/logic/gameLogic.py:344-348 | the green step |
| Logic.GameLogic.FillTerminal | mdp_visualizer/logic/gameLogic.py:350-384 | the terminal step |
| Logic.GameLogic.DrawTerminalCells | mdp_visualizer/logic/gameLogic.py:358-377 | the drawing of terminal cells |
| Logic.GameLogic.FillStarts | mdp_visualizer/logic/gameLogic.py:386-399 | the start positions step |
| Logic.GameLogic.GenerateNewGame | mdp_visualizer/logic/gameLogic.py:401-427 | resolve, then build the board and the actors: the new game of the resolved parameters |
| Logic.GameLogic.CreateObjects | mdp_visualizer/logic/gameLogic.py:409-427 | the board, Scrat and the optional actors are new, and the game is the freshly built one |
| Logic.GameLogic.MoveObject | mdp_visualizer/logic/gameLogic.py:502-523 | the game becomes the specified move |
| Logic.GameLogic.MoveScrat | mdp_visualizer/logic/gameLogic.py:510-517 | Scrat's branch: the specified Scrat move |
| Logic.GameLogic.ShiftScrat | mdp_visualizer/logic/gameLogic.py:511-512 | Scrat's body and its board flag move by the delta |
| Logic.GameLogic.DragWatermelon | mdp_visualizer/logic/gameLogic.py:515-517 | the carried Watermelon's body moves; the board does not |
| Logic.GameLogic.MoveHippo | mdp_visualizer/logic/gameLogic.py:518-520 | the Hippo's branch |
| Logic.GameLogic.MoveWatermelon | mdp_visualizer/logic/gameLogic.py:521-523 | the Watermelon's branch |
| Logic.GameLogic.InteractWithWatermelon | mdp_visualizer/logic/gameLogic.py:525-541 | take, put or feed sets the carrying, taken and eaten flags as specified |
| Logic.GameLogic.InteractWithHippo | mdp_visualizer/logic/gameLogic.py:543-557 | feeding makes the Hippo fed and yields `hippo_fed_reward` |
| Logic.GameLogic.Step | mdp_visualizer/logic/gameLogic.py:431-500 | the new game and the result are those of the step specification |
| Logic.GameLogic.Advance | mdp_visualizer/logic/gameLogic.py:452-500 | the rest of the step, as specified |
| Logic.GameLogic.RecordReward | mdp_visualizer/logic/gameLogic.py:486-500 | the reward, total, `done` and state, as specified |
| Logic.GameLogic.HippoActs | mdp_visualizer/logic/gameLogic.py:455-458 | the Hippo's random move, as specified |
| Logic.GameLogic.WatermelonActs | mdp_visualizer/logic/gameLogic.py:460-464 | the Watermelon's random move, as specified |
| Logic.GameLogic.ScratActs | mdp_visualizer/logic/gameLogic.py:469-476 | Scrat's move, as specified |
| Logic.GameLogic.ActionInteracts | mdp_visualizer/logic/gameLogic.py:477-484 | take, put or feed, as specified |
| Logic.GameLogic.TryTake | mdp_visualizer/logic/gameLogic.py:477-478 | action 4, as specified |
| Logic.GameLogic.TryPutFeed | mdp_visualizer/logic/gameLogic.py:479-484 | action 5 while carrying, as specified |
| Logic.GameLogic.ResetObjects | mdp_visualizer/logic/gameLogic.py:703-725 | a new board, and the actors reset, as specified |
| Logic.GameLogic.ResetScrat | mdp_visualizer/logic/gameLogic.py:709-712 | Scrat on its start, with the new board size and lava, not carrying |
| Logic.GameLogic.ResetHippo | mdp_visualizer/logic/gameLogic.py:714-718 | the Hippo on its start, updated, hungry |
| Logic.GameLogic.ResetWatermelon | mdp_visualizer/logic/gameLogic.py:720-725 | the Watermelon on its start, updated, neither taken nor eaten |
| Logic.GameLogic.Reset | mdp_visualizer/logic/gameLogic.py:727-734 | the new game and the returned state are those of the reset specification |
| Logic.GameLogic.ObserveStart | mdp_visualizer/logic/gameLogic.py:732-734 | `done` and the start state, as specified |
| Logic.GameLogic.FullReset | mdp_visualizer/logic/gameLogic.py:736-740 | the new game is that of the full reset specification |
| Logic.GameLogic.NStates | mdp_visualizer/logic/gameLogic.py:603-606 | height times width, and positive |
| Logic.GameLogic.ScratPosition | mdp_visualizer/logic/gameLogic.py:628-632 | Scrat's position, on the board |
| Logic.GameLogic.HippoPosition | mdp_visualizer/logic/gameLogic.py:647-654 | an error iff there is no Hippo, otherwise its position, on the board |
| Logic.GameLogic.HippoIsFed | mdp_visualizer/logic/gameLogic.py:656-663 | an error iff there is no Hippo, otherwise fed iff the Watermelon is eaten |
| Logic.GameLogic.WatermelonPosition | mdp_visualizer/logic/gameLogic.py:672-679 | an error iff there is no Watermelon, otherwise its position, on the board; while carried, Scrat's position |
| Utils.StepSize | mdp_visualizer/utils.py:45-46 | the step is at least the minimum step and at least a twentieth of the distance, and equals one of them |
| Utils.ValueUpdate | mdp_visualizer/utils.py:33-53 | done iff the distance is below the step, and then the value is the target; otherwise the value moves by exactly the step |
| Utils.NoOvershoot | mdp_visualizer/utils.py:48-53 | an unfinished update moves towards the target without passing it, and shortens the distance by at least the minimum step |
| Utils.AnimateConverges | mdp_visualizer/utils.py:33-53 | `Animate` is the GUI timer's repeated `value_update` ticks, at most `n` of them, stopping at the first tick that reports done; with a positive minimum step it ends exactly on the target once the distance is below `n` minimum steps |
| QSpec.RowMax | mdp_visualizer/logic/q_learning.py:121-122 | the maximum is in the row and at least every entry |
| QSpec.CloseFrom | mdp_visualizer/logic/q_learning.py:123 | the indices from `k` on whose value is within `MAX_FLOAT_DIFF` of `m`, all of them |
| QSpec.Candidates | mdp_visualizer/logic/q_learning.py:121-123 | the greedy candidates are exactly the near-maximal actions, and there is one |
| QSpec.Pick | mdp_visualizer/logic/q_learning.py:119 | a uniform draw picks an index below `n` |
| QSpec.Choose | mdp_visualizer/logic/q_learning.py:118-123 | the action is a valid one, and near-maximal when the draw is not below `eps` |
| QSpec.PickExact | mdp_visualizer/logic/q_learning.py:119 | every index is picked by some draw |
| QSpec.GreedyReachesEveryCandidate | mdp_visualizer/logic/q_learning.py:121-123 | every near-maximal action is chosen by some greedy draw |
| QSpec.GameEnvSound | mdp_visualizer/logic/q_learning.py:124 | the game as an environment keeps its invariant, and every state it reports numbers a row of the table |
| QSpec.Iterate | mdp_visualizer/logic/q_learning.py:118-132 | an iteration keeps the run fitting the table |
| QSpec.IterateChosen | mdp_visualizer/logic/q_learning.py:118-125 | an iteration is the chosen action followed by `step`'s answer |
| QSpec.RunFrom | mdp_visualizer/logic/q_learning.py:117-135 | the loop keeps the run fitting the table |
| QSpec.RecordTrace | mdp_visualizer/logic/q_learning.py:127-132 | recording an observation extends the trace by one action, reward and state, and adds the reward to the total |
| QSpec.IterateTrace | mdp_visualizer/logic/q_learning.py:124-132 | an iteration extends the trace, by one action unless `step` raised |
| QSpec.IterateUpdatesOneEntry | mdp_visualizer/logic/q_learning.py:118-132 | if `step` raises, table, trace, total and state stay; otherwise exactly entry (s, a) changes, by the temporal-difference rule with the next row's maximum, for a valid and (when greedy) near-maximal `a` |
| QSpec.TdUpdate | mdp_visualizer/logic/q_learning.py:125 | `q + lr * (r + gamma * next - q)` |
| QSpec.Learned | mdp_visualizer/logic/q_learning.py:125 | the table with entry (s, a) set by the temporal-difference rule on the maximum of row `next` |
| QSpec.Record | mdp_visualizer/logic/q_learning.py:125-132 | the update, then the new state, reward and action appended, the reward added, and `s` and `done` taken from the observation |
| QSpec.Absorb | mdp_visualizer/logic/q_learning.py:124-132 | an exception of `step` ends the run with the game as `step` left it and the table and trace kept; otherwise the observation is recorded |
| QSpec.Start | mdp_visualizer/logic/q_learning.py:108-116 | the trace `[s]` with no actions or rewards, a zero total and `done` false |
| QSpec.QLearning | mdp_visualizer/logic/q_learning.py:90-137 | `n_steps` iterations from the start, stopping on `done` or an error |
| QSpec.GameStep | mdp_visualizer/logic/gameLogic.py:431-500 | `GameLogic.step` on a game value |
| QSpec.GameEnv | mdp_visualizer/logic/q_learning.py:124 | a game on fixed parameters as an environment, with `n_states` and `n_actions` |
| QSpec.RunFromShape | mdp_visualizer/logic/q_learning.py:117-135 | the run extends the trace by at most `n` actions, and stops early only on `done` or an error |
| QSpec.ZeroRateKeepsTable | tests/test_q_learning.py:74-81 | with learning rate 0 the table does not change |
| QSpec.QLearningShape | mdp_visualizer/logic/q_learning.py:90-137 | the trace starts at `s`, the total is the sum of the rewards, and there are at most `n_steps` actions, fewer only on `done` or an error |
| Learning.Table | mdp_visualizer/logic/q_learning.py:105-106 | the table's rows are the array's rows |
| Learning.EnvOf | mdp_visualizer/logic/q_learning.py:124 | the game's environment is sound and has the game's number of actions |
| Learning.Row | mdp_visualizer/logic/q_learning.py:121 | the copy is the row of the table |
| Learning.MaxOfRow | mdp_visualizer/logic/q_learning.py:125 | the loop computes the row's maximum |
| Learning.SetEntry | mdp_visualizer/logic/q_learning.py:125 | exactly one entry changes |
| Learning.Iteration | mdp_visualizer/logic/q_learning.py:118-132 | one pass of the loop body is an iteration of the specification |
| Learning.Absorbed | mdp_visualizer/logic/q_learning.py:125-132 | the update and the trace after `step`, as specified |
| Learning.ChooseAndStep | mdp_visualizer/logic/q_learning.py:118-124 | the action is the specified choice and the game takes the specified step |
| Learning.Learn | mdp_visualizer/logic/q_learning.py:125 | the table after the temporal-difference update, as specified |
| Learning.Train | mdp_visualizer/logic/q_learning.py:108-137 | the loop's result is the specified run |
| Learning.Zeros | mdp_visualizer/logic/q_learning.py:105-106 | every row of the zero table is all zeros |
| Learning.NewZeroTable | mdp_visualizer/logic/q_learning.py:105-106 | a new array holding the zero table |
| Learning.ZeroTable | mdp_visualizer/logic/q_learning.py:105-106 | an array of zeros holds the zero table |
| Learning.QLearningRun | mdp_visualizer/logic/q_learning.py:90-137 | `q_learning` returns the specified run, on the given table (updated in place) or on a new zero table |
| Learning.ResetGame | mdp_visualizer/logic/gameLogic.py:727-734 | on resolved parameters `reset` keeps them and returns a state below `n_states` |
| Learning.ResetSucceeds | mdp_visualizer/logic/gameLogic.py:727-734 | on resolved parameters the reset specification keeps them and returns a state below `n_states` |
| Learning.QLearning.constructor | mdp_visualizer/logic/q_learning.py:22-30 | a zero table of `n_states` by `n_actions`, and `state` is the state `reset` returns |
| Learning.QLearning.ResetQ | mdp_visualizer/logic/q_learning.py:32-40 | a new zero table sized from the given game or the own one, and the own game reset |
| Learning.QLearning.NewTable | mdp_visualizer/logic/q_learning.py:39 | a new zero table |
| Learning.QLearning.Step | mdp_visualizer/logic/q_learning.py:42-55 | one iteration of `q_learning` on the own table, in place, and the new state kept |
| Learning.QLearning.Reset | mdp_visualizer/logic/q_learning.py:57-59 | `state` is the state `reset` returns |
| Learning.QLearning.GetQValues | mdp_visualizer/logic/q_learning.py:70-71 | the table itself, not a copy |
| Learning.QLearning.GetQValuesAt | mdp_visualizer/logic/q_learning.py:75-76 | the row of a state number |
| Learning.QLearning.GetQValuesXY | mdp_visualizer/logic/q_learning.py:72-74 | the row of the cell `(x, y)`, numbered `width * y + x` |
| Learning.QLearning.GetValue | mdp_visualizer/logic/q_learning.py:78-87 | the row's maximum: in the row and at least every entry |
| Wtf.World.constructor | WTF.py:8-12 | the cells hold the initial rewards |
| Wtf.World.InitRewards | WTF.py:14-19 | red cells get `MIN_REWARD` and green cells `MAX_REWARD`, green last |
| Wtf.World.RewardAt | WTF.py:21-22 | the reward is `MAX_REWARD` exactly on green cells, `MIN_REWARD` exactly on red cells that are not green, 0 elsewhere |
| Wtf.World.PadSize | WTF.py:24-26 | the height and the width |
| Wtf.InitialReward | WTF.py:14-19 | `MAX_REWARD` on green cells, else `MIN_REWARD` on red cells, else 0 |
| Wtf.InitialCells | WTF.py:8-19 | `height` rows of `width` initial rewards |
| Wtf.CellNumber | WTF.py:40-42 | `w * y + x` |
| Wtf.CellOf | WTF.py:44-48 | `(state % w, state // w)` |
| Wtf.Moved | WTF.py:66-73 | action 0 goes right, 1 left, 2 down and 3 up, each only inside the `COLS` by `ROWS` pad |
| Wtf.Next | WTF.py:54-86 | an unknown action raises; otherwise the player moves and the cell's number and reward are reported, with `done` iff the episode has 100 steps; a cell outside the world raises |
| Wtf.CellOfInvertsCellNumber | WTF.py:40-48 | `state_to_xy(xy_to_state(x, y)) == (x, y)` for every column and row |
| Wtf.CellNumberInvertsCellOf | WTF.py:40-48 | `xy_to_state(state_to_xy(s)) == s`, with a column in range |
| Wtf.NextRejectsUnknownActions | WTF.py:63-64 | exactly the actions outside 0..3 raise, and the player stays |
| Wtf.NextStaysOnPad | WTF.py:66-73 | the player stays on the `COLS` by `ROWS` pad and moves at most one cell |
| Wtf.NextObserves | WTF.py:54-86 | a step succeeds iff the action is known and the player is in the world; it then reports the cell's number and reward, and `done` iff the episode has 100 steps |
| Wtf.CellNumbersInRange | WTF.py:95-98 | every cell's number is below `n_states` |
| Wtf.WorldEnv.constructor | WTF.py:30-35 | the player is at (0, 0) |
| Wtf.WorldEnv.XyToState | WTF.py:40-42 | `w * y + x`, which `state_to_xy` maps back to `(x, y)` for every column `0 <= x < w` |
| Wtf.WorldEnv.StateToXy | WTF.py:44-48 | `(state % w, state // w)`: a column in `0 .. w` that `xy_to_state` maps back to `state` |
| Wtf.WorldEnv.Step | WTF.py:54-86 | the new position and the result are those of the step specification, and `done` is never set |
| Wtf.WorldEnv.Reset | WTF.py:88-93 | the player at (0, 0), episode length 0, state 0 |
| Wtf.WorldEnv.NStates | WTF.py:95-98 | height times width, above every cell's number |
| Wtf.WorldEnv.NActions | WTF.py:100-102 | 4 |

## Left out

- The Qt user interface, animations and scenes: they only read the game.
- `game_mode` and the defaults of `GameParams`' constructor: parameters are given as values.
- `GameParams` is shared by reference in Python; the model copies it into each actor as a value. The values only differ while they are out of step, as they are in Python.
- Floating-point numbers are reals: no rounding, NaN or infinity.
- Randomness is an input (shuffles, dice and draws); probability distributions are not modelled.
- `np.random.choice` over the candidates maps the draw `v` to index `floor(v * n)`; the real generator is not modelled.
- Logic.GameLogic.constructor: requires the resolution to succeed. In Python a failing draw raises out of the constructor, and no object is built.
- Logic.GameLogic.constructor and Logic.GameLogic.GenerateNewGame: require `Params.Configured`, that is positive board dimensions, fixed start positions on the board, and a Scrat start or `scrat_random`. Python also runs outside it, and the model does not capture what then happens:
  - with neither a Scrat start nor `scrat_random`, `Scrat(...)` at gameLogic.py:413 reads `scrat_start_position[0]` of `None` (gameObject.py:143) and raises `TypeError`;
  - a fixed start off the board either raises `IndexError` later, on the first board access there, or, when negative, indexes the board from its end;
  - a board with no rows or columns builds an empty board, on which the first access raises `IndexError`.
- `_generate_random_positions` raises `IndexError` when there are too few free cells. The model returns `None`, and the callers then stop and report the failure.
- The environment of `q_learning` is the game, through `QSpec.GameEnv`. The generic specification accepts any environment, but other Python environments (such as `WorldEnv`) are not run through `Learning`.
- Learning.QLearningRun: requires `0 <= s < n_states` and a table of `n_states` by `n_actions`. NumPy's negative indexing and broadcasting are not modelled.
- Learning.QLearning.constructor, Learning.QLearning.Reset, Learning.QLearning.ResetQ and Learning.QLearning.Step: require parameters that are already resolved, so that `reset` returns a state. In Python a `reset` whose resolution fails raises later.
- Learning.QLearning.ResetQ: `env or self.env` is modelled as a null test on the game (Python's truthiness of a game object is always true).
- Learning.QLearning.ResetQ: sizes the table from the given game, but resets the own game, as written.
- `GameLogic.done` is `None` in Python when there is no Hippo and Scrat's cell is not terminal; the model uses `false`.
- The board lookups (`cell_reward`, `is_terminal` and the like) and the list properties (`lava_cells` and others) are plain reads without contracts.
- `_move_object` line 517 passes the Watermelon object rather than `Objects.WATERMELON`, so no branch of `move_object` moves its flags. This is modelled as written (`RulesFacts.CarriedWatermelonFlagsStale`).
- Wtf.World.constructor: requires every red and green cell to fit in the grid; otherwise Python raises `IndexError`.
- Wtf.World.RewardAt: requires non-negative in-range coordinates; Python's negative indexing is not modelled, and the model's players never go negative.
- `EnvGameInterface` in `WTF.py` calls an older `q_learning` signature; it is not part of this model.
- `settings.py` is not part of this model beyond the constants copied into `Wtf` and `QSpec`.
