# DentalScannerEnv, modelled in Dafny

This project models `DentalScannerEnv`, a deterministic grid-world environment for
reinforcement learning. The agent moves on a fixed 5x5 grid of cell codes:
0 is neutral or start, 1 is the goal (4,4), 2 is a hazard ((1,1), (1,3), (2,2)),
3 is an issue cell (3,1) and 4 is the engaged cell (0,4). The environment keeps
the agent position, a hazard retry counter (limit 3) and an invalid-move counter
(limit 3). `reset` puts everything back to the start. `step(action)` tries to
move Up, Down, Left or Right, refuses a move that would leave the grid, scores
the cell the agent then stands on, and reports `terminated` and `truncated`. The
observation is the grid with the agent's cell overwritten by -1.

Files:

- `custom_env.dfy`, module `CustomEnv`: the cell codes (`State`), the grid
  (`StateGrid`, `CellAt`), the observation (`GetObs`), the one-step transition on
  values (`StepSpec`), runs of several steps (`Run`) and the lemmas about them,
  and the class `DentalScannerEnv`. The class has the fields `row`, `col`,
  `retryCount` and `invalidActions`. Its `Reset` and `Step` update them in place
  and are proved to agree with `Initial` and `StepSpec`.
- `scripted_episodes.dfy`, module `ScriptedEpisodes`: the scripted walks of the
  repository's test scripts, driven through the class from a fresh reset. Each
  one states the reward, `terminated` and `truncated` of every step; `ShortWalk`
  states, as its script checks, whether either flag is set.

The model follows the code exactly, including these behaviours, which differ from
what a reader might expect of such an environment:

- A refused move is penalised (-1) and counted only when the agent's own cell has
  code 0. The invalid-move branch is the last `elif` of the scoring chain, and
  scoring reads the cell the agent stands on after the attempt. A refused move
  from the engaged cell (0,4) earns +3 and is not counted. A refused move from the
  goal (4,4) earns +10 and reports `terminated` again.
- An action outside 0..3 leaves the position as it is. It is treated as an
  accepted move, so the current cell is scored again.
- `terminated` and `truncated` are not absorbing. `step` never checks whether the
  episode has ended.
- There is no step counter and no step limit. A hazard hit that reaches the retry
  limit gives -5, with no extra penalty.

## Model

| member | source | states |
|---|---|---|
| CustomEnv.State.Value | environment/custom_env.py:7-12 | each label's code lies in 0..4 |
| CustomEnv.ValuesDistinct | environment/custom_env.py:7-12 | two labels have the same code if and only if they are the same label |
| CustomEnv.Rejected | environment/custom_env.py:58-63 | from a cell on the grid, a move is refused exactly when the agent stands on the edge it moves towards: Up in row 0, Down in row 4, Left in column 0, Right in column 4 |
| CustomEnv.CellAt | environment/custom_env.py:28-34 | every cell holds one of the five codes; the goal is exactly (4,4), the engaged cell exactly (0,4), the issue cell exactly (3,1), and the hazards exactly (1,1), (1,3) and (2,2) |
| CustomEnv.GetObs | environment/custom_env.py:96-100 | the observation is 5x5 and equals the grid at every cell except the agent's; -1 appears at a cell if and only if it is the agent's cell, so exactly one cell is marked |
| CustomEnv.Target | environment/custom_env.py:52-56 | the attempted position is one unit step from the current one for actions 0..3, and is the current position for any other action |
| CustomEnv.StepSpec | environment/custom_env.py:49-94 | one step keeps the position on the grid; a refused move keeps it, an accepted one reaches the target; an action outside 0..3 is accepted, does not move and is not counted; the reward is read from the cell occupied after the attempt (hazard -5, goal 10, issue 2, engaged 3, code 0: -1 if refused, else 0); the retry counter grows by one exactly on a hazard; the invalid counter grows by one exactly on a refused move onto a code-0 cell; terminated iff goal, or hazard with the retry count at 3 or more; truncated iff the invalid branch fired with the count at 3 or more; never both |
| CustomEnv.Run | environment/custom_env.py:49-94 | any sequence of steps without a reset keeps the position on the grid, and each counter never decreases and grows by at most one per step |
| CustomEnv.RunAppend | environment/custom_env.py:49-94 | running two action sequences one after the other ends in the same state as running their concatenation |
| CustomEnv.NonMovesKeepPosition | environment/custom_env.py:53-61 | a sequence of actions all outside 0..3 leaves the position unchanged and never increases the invalid-move counter |
| CustomEnv.RetryCounts | environment/custom_env.py:72-74 | after any run of steps without a reset, the retry counter is its starting value plus the number of steps that ended on a hazard cell |
| CustomEnv.InvalidCounts | environment/custom_env.py:88-90 | after any run of steps without a reset, the invalid-move counter is its starting value plus the number of steps that were refused while the agent stood on a code-0 cell |
| CustomEnv.EpisodeFlags | environment/custom_env.py:67-92 | for every action sequence since a reset and every next action: that step terminates iff it reaches the goal, or enters a hazard that is the episode's third or later hazard entry; it truncates iff the invalid-move branch fires and that firing is the episode's third or later |
| CustomEnv.BounceEntersHazard | environment/custom_env.py:72-76 | each re-entry of the hazard (1,1) from (1,0) and back adds one to the retry counter and changes nothing else: n bounces add exactly n |
| CustomEnv.ThirdHazardTerminates | environment/custom_env.py:72-76 | from a reset, Down then two bounces through (1,1) leave the retry counter at 2; the third entry of (1,1) gives -5, raises the counter to 3 and reports terminated, not truncated |
| CustomEnv.GoalIsNotAbsorbing | environment/custom_env.py:49-80 | stepping Up from the goal moves to (3,4) with reward 0 and neither flag set, whatever the counters are |
| CustomEnv.RefusedMoveOnGoal | environment/custom_env.py:58-80 | a refused move Down from the goal leaves the state unchanged, earns 10 and reports terminated, not truncated |
| CustomEnv.RefusedMoveOnEngaged | environment/custom_env.py:58-88 | a refused move Up from the engaged cell leaves the state unchanged (not counted) and earns 3 |
| CustomEnv.DentalScannerEnv.constructor | environment/custom_env.py:36-40 | a new environment is at (0,0) with both counters 0 |
| CustomEnv.DentalScannerEnv.Reset | environment/custom_env.py:42-47 | reset puts the agent at (0,0) with both counters 0 and returns the observation of (0,0) |
| CustomEnv.DentalScannerEnv.Step | environment/custom_env.py:49-94 | the new fields, the reward and both flags are those of the one-step transition from the old fields; the observation is that of the new position; the position stays on the grid |
| ScriptedEpisodes.GoalPath | test_custom_env.py:7-18 | Right x4 then Down x4 from a reset yields rewards 0,0,0,3,0,0,0,10, ends at (4,4), and sets terminated on the eighth step only, never truncated |
| ScriptedEpisodes.InvalidUps | test_custom_env.py:20-28 | three Up actions from a reset each yield -1 and keep the agent at (0,0); truncated is set on the third only and terminated never, with the invalid counter at 3 |
| ScriptedEpisodes.HazardWalk | test_custom_env.py:30-40 | Down, Right, Down, Left, Down, Right, Down from a reset enters only the hazard (1,1): rewards 0,-5,0,0,0,2,0, retry counter 1, neither terminated nor truncated on any step, ending at (4,1) |
| ScriptedEpisodes.ShortWalk | test_env.py:9-18 | Right, Down, Down, Down from a reset yields rewards 0,-5,0,2 with no episode end, retry counter 1 and no invalid moves |

## Left out

- Rendering: `render` (console printing) and all OpenGL, animation and GIF code in
  environment/rendering.py and main.py. These are output only and do not change
  the environment.
- Training and inference scripts (training/dqn_training.py, training/pg_training.py,
  the policy loop in main.py). They call a third-party RL library.
- Library plumbing: `super().reset(seed=seed)`, the action and observation space
  declarations, and the empty info dictionaries returned by `reset` and `step`.
  Actions are modelled as integers and observations as 5x5 sequences of integers.
- The fourth scripted test (test_custom_env.py:42-53) reads `max_steps` and
  `step_count`, which the environment does not define, so it has no behaviour
  to model.
- Integer width: the counters and rewards are unbounded integers. The source
  stores them as Python integers, and the grid and observation are NumPy integer
  arrays whose values here lie in -1..4, so no width limit is reached.
- The state grid is a module constant (`StateGrid`), so it cannot be modified by
  any operation; the model does not represent the NumPy copy that `_get_obs`
  makes before writing the marker.
