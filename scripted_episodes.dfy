/**
 Scripted episodes driven through the `DentalScannerEnv` object, each from a
 fresh reset, with the rewards and flags every step reports.
 */
module ScriptedEpisodes {
  import opened CustomEnv

  /** Right four times, then Down four times: the goal is reached on the eighth step. */
  method GoalPath() returns (rewards: seq<int>, terminations: seq<bool>, truncations: seq<bool>, row: int, col: int)
    ensures rewards == [0, 0, 0, 3, 0, 0, 0, 10]
    ensures terminations == [false, false, false, false, false, false, false, true]
    ensures truncations == [false, false, false, false, false, false, false, false]
    ensures row == 4 && col == 4
  {
    var env := new DentalScannerEnv();
    var obs := env.Reset();
    rewards, terminations, truncations := [], [], [];
    var actions := [Right, Right, Right, Right, Down, Down, Down, Down];
    var reward, terminated, truncated;
    obs, reward, terminated, truncated := env.Step(actions[0]);
    rewards, terminations, truncations := rewards + [reward], terminations + [terminated], truncations + [truncated];
    obs, reward, terminated, truncated := env.Step(actions[1]);
    rewards, terminations, truncations := rewards + [reward], terminations + [terminated], truncations + [truncated];
    obs, reward, terminated, truncated := env.Step(actions[2]);
    rewards, terminations, truncations := rewards + [reward], terminations + [terminated], truncations + [truncated];
    obs, reward, terminated, truncated := env.Step(actions[3]);
    rewards, terminations, truncations := rewards + [reward], terminations + [terminated], truncations + [truncated];
    obs, reward, terminated, truncated := env.Step(actions[4]);
    rewards, terminations, truncations := rewards + [reward], terminations + [terminated], truncations + [truncated];
    obs, reward, terminated, truncated := env.Step(actions[5]);
    rewards, terminations, truncations := rewards + [reward], terminations + [terminated], truncations + [truncated];
    obs, reward, terminated, truncated := env.Step(actions[6]);
    rewards, terminations, truncations := rewards + [reward], terminations + [terminated], truncations + [truncated];
    obs, reward, terminated, truncated := env.Step(actions[7]);
    rewards, terminations, truncations := rewards + [reward], terminations + [terminated], truncations + [truncated];
    row, col := env.row, env.col;
  }

  /** Up from the start is refused every time; the third refusal truncates the episode. */
  method InvalidUps() returns (rewards: seq<int>, terminations: seq<bool>, truncations: seq<bool>, row: int, col: int, invalids: nat)
    ensures rewards == [-1, -1, -1]
    ensures terminations == [false, false, false]
    ensures truncations == [false, false, true]
    ensures row == 0 && col == 0 && invalids == 3
  {
    var env := new DentalScannerEnv();
    var obs := env.Reset();
    rewards, terminations, truncations := [], [], [];
    var reward, terminated, truncated;
    obs, reward, terminated, truncated := env.Step(Up);
    rewards, terminations, truncations := rewards + [reward], terminations + [terminated], truncations + [truncated];
    obs, reward, terminated, truncated := env.Step(Up);
    rewards, terminations, truncations := rewards + [reward], terminations + [terminated], truncations + [truncated];
    obs, reward, terminated, truncated := env.Step(Up);
    rewards, terminations, truncations := rewards + [reward], terminations + [terminated], truncations + [truncated];
    row, col, invalids := env.row, env.col, env.invalidActions;
  }

  /** Down, Right, Down, Left, Down, Right, Down: only (1,1) of the hazards is entered, so nothing ends. */
  method HazardWalk() returns (rewards: seq<int>, terminations: seq<bool>, truncations: seq<bool>, retries: nat, row: int, col: int)
    ensures rewards == [0, -5, 0, 0, 0, 2, 0]
    ensures terminations == [false, false, false, false, false, false, false]
    ensures truncations == [false, false, false, false, false, false, false]
    ensures retries == 1 && row == 4 && col == 1
  {
    var env := new DentalScannerEnv();
    var obs := env.Reset();
    rewards, terminations, truncations := [], [], [];
    var actions := [Down, Right, Down, Left, Down, Right, Down];
    var reward, terminated, truncated;
    obs, reward, terminated, truncated := env.Step(actions[0]);
    rewards, terminations, truncations := rewards + [reward], terminations + [terminated], truncations + [truncated];
    obs, reward, terminated, truncated := env.Step(actions[1]);
    rewards, terminations, truncations := rewards + [reward], terminations + [terminated], truncations + [truncated];
    obs, reward, terminated, truncated := env.Step(actions[2]);
    rewards, terminations, truncations := rewards + [reward], terminations + [terminated], truncations + [truncated];
    obs, reward, terminated, truncated := env.Step(actions[3]);
    rewards, terminations, truncations := rewards + [reward], terminations + [terminated], truncations + [truncated];
    obs, reward, terminated, truncated := env.Step(actions[4]);
    rewards, terminations, truncations := rewards + [reward], terminations + [terminated], truncations + [truncated];
    obs, reward, terminated, truncated := env.Step(actions[5]);
    rewards, terminations, truncations := rewards + [reward], terminations + [terminated], truncations + [truncated];
    obs, reward, terminated, truncated := env.Step(actions[6]);
    rewards, terminations, truncations := rewards + [reward], terminations + [terminated], truncations + [truncated];
    retries, row, col := env.retryCount, env.row, env.col;
  }

  /** Right, Down, Down, Down: the hazard at (1,1) is entered once and the walk ends on the issue cell. */
  method ShortWalk() returns (rewards: seq<int>, ended: seq<bool>, retries: nat, invalids: nat)
    ensures rewards == [0, -5, 0, 2]
    ensures ended == [false, false, false, false]
    ensures retries == 1 && invalids == 0
  {
    var env := new DentalScannerEnv();
    var obs := env.Reset();
    rewards, ended := [], [];
    var reward, terminated, truncated;
    obs, reward, terminated, truncated := env.Step(Right);
    rewards, ended := rewards + [reward], ended + [terminated || truncated];
    obs, reward, terminated, truncated := env.Step(Down);
    rewards, ended := rewards + [reward], ended + [terminated || truncated];
    obs, reward, terminated, truncated := env.Step(Down);
    rewards, ended := rewards + [reward], ended + [terminated || truncated];
    obs, reward, terminated, truncated := env.Step(Down);
    rewards, ended := rewards + [reward], ended + [terminated || truncated];
    retries, invalids := env.retryCount, env.invalidActions;
  }
}
