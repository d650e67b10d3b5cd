/**
 A model of the DentalScannerEnv grid world: a fixed 5x5 grid of cell codes,
 an agent position, a hazard retry counter and an invalid-move counter.

 `StepSpec` is the transition function on values; its contract states the
 rules of one step.  The class `DentalScannerEnv` keeps the same state in
 fields that `Reset` and `Step` update in place, and each of its methods is
 proved to agree with `Initial` and `StepSpec`.
 */
module CustomEnv {

  /** The cell labels; `Value` is the integer code stored in the grid. */
  datatype State = FirstTime | SuccessScan | PoorQuality | IssueDetected | UserEngaged
  {
    function Value(): (v: int)
      ensures 0 <= v < 5
    {
      match this
      case FirstTime => 0
      case SuccessScan => 1
      case PoorQuality => 2
      case IssueDetected => 3
      case UserEngaged => 4
    }
  }

  const GridSize: int := 5
  const MaxRetries: int := 3
  const MaxInvalidActions: int := 3

  /** The value written into the agent's cell of an observation. */
  const AgentMarker: int := -1

  /** Action codes. Any other integer moves nowhere. */
  const Up: int := 0
  const Down: int := 1
  const Left: int := 2
  const Right: int := 3

  /** The layout, row by row; it is never modified. */
  const StateGrid: seq<seq<int>> := [
    [FirstTime.Value(), 0, 0, 0, UserEngaged.Value()],
    [0, PoorQuality.Value(), 0, PoorQuality.Value(), 0],
    [0, 0, PoorQuality.Value(), 0, 0],
    [0, IssueDetected.Value(), 0, 0, 0],
    [0, 0, 0, 0, SuccessScan.Value()]
  ]

  predicate InBounds(r: int, c: int) {
    0 <= r < GridSize && 0 <= c < GridSize
  }

  /** The code stored at (r, c), described by where each label lies. */
  function CellAt(r: int, c: int): (v: int)
    requires InBounds(r, c)
    ensures 0 <= v < 5
    ensures v == SuccessScan.Value() <==> r == 4 && c == 4
    ensures v == UserEngaged.Value() <==> r == 0 && c == 4
    ensures v == IssueDetected.Value() <==> r == 3 && c == 1
    ensures v == PoorQuality.Value() <==> (r == 1 && c == 1) || (r == 1 && c == 3) || (r == 2 && c == 2)
  {
    StateGrid[r][c]
  }

  /** The observation: the grid with the agent's cell replaced by the marker. */
  function GetObs(row: int, col: int): (obs: seq<seq<int>>)
    requires InBounds(row, col)
    ensures |obs| == GridSize
    ensures forall i :: 0 <= i < GridSize ==> |obs[i]| == GridSize
    ensures forall i, j :: InBounds(i, j) && (i != row || j != col) ==> obs[i][j] == CellAt(i, j)
    ensures forall i, j :: InBounds(i, j) ==> (obs[i][j] == AgentMarker <==> i == row && j == col)
  {
    StateGrid[row := StateGrid[row][col := AgentMarker]]
  }

  datatype EnvState = EnvState(row: int, col: int, retryCount: nat, invalidActions: nat)

  /** The state after construction and after every reset. */
  const Initial: EnvState := EnvState(0, 0, 0, 0)

  /** What one step produces: the next state, the reward and the two flags. */
  datatype StepResult = StepResult(next: EnvState, reward: int, terminated: bool, truncated: bool)

  /** The position an action aims at, before the bounds check. */
  function Target(s: EnvState, action: int): (t: (int, int))
    ensures (t.0 - s.row) * (t.0 - s.row) + (t.1 - s.col) * (t.1 - s.col) == if Up <= action <= Right then 1 else 0
  {
    if action == Up then (s.row - 1, s.col)
    else if action == Down then (s.row + 1, s.col)
    else if action == Left then (s.row, s.col - 1)
    else if action == Right then (s.row, s.col + 1)
    else (s.row, s.col)
  }

  /** The move is refused because it would leave the grid; from a cell on the
      grid that happens exactly when the agent is on the edge it moves towards. */
  function Rejected(s: EnvState, action: int): (b: bool)
    ensures InBounds(s.row, s.col) ==>
      (b <==> (action == Up && s.row == 0) || (action == Down && s.row == GridSize - 1) ||
              (action == Left && s.col == 0) || (action == Right && s.col == GridSize - 1))
  {
    var t := Target(s, action);
    !InBounds(t.0, t.1)
  }

  /** One step: move unless the target is off the grid, then score the cell now occupied. */
  function StepSpec(s: EnvState, action: int): (o: StepResult)
    requires InBounds(s.row, s.col)
    // the position stays on the grid; a refused move leaves it where it was
    ensures InBounds(o.next.row, o.next.col)
    ensures Rejected(s, action) ==> o.next.row == s.row && o.next.col == s.col
    ensures !Rejected(s, action) ==> (o.next.row, o.next.col) == Target(s, action)
    // an action outside 0..3 is an accepted move to the same cell
    ensures !(Up <= action <= Right) ==>
      !Rejected(s, action) && o.next.row == s.row && o.next.col == s.col && o.next.invalidActions == s.invalidActions
    // the reward is read from the cell occupied after the attempted move
    ensures CellAt(o.next.row, o.next.col) == PoorQuality.Value() ==> o.reward == -5
    ensures CellAt(o.next.row, o.next.col) == SuccessScan.Value() ==> o.reward == 10
    ensures CellAt(o.next.row, o.next.col) == IssueDetected.Value() ==> o.reward == 2
    ensures CellAt(o.next.row, o.next.col) == UserEngaged.Value() ==> o.reward == 3
    ensures CellAt(o.next.row, o.next.col) == FirstTime.Value() ==> o.reward == (if Rejected(s, action) then -1 else 0)
    // the counters
    ensures o.next.retryCount == s.retryCount + (if CellAt(o.next.row, o.next.col) == PoorQuality.Value() then 1 else 0)
    ensures o.next.invalidActions ==
      s.invalidActions + (if Rejected(s, action) && CellAt(o.next.row, o.next.col) == FirstTime.Value() then 1 else 0)
    // the flags
    ensures o.terminated <==>
      CellAt(o.next.row, o.next.col) == SuccessScan.Value() ||
      (CellAt(o.next.row, o.next.col) == PoorQuality.Value() && o.next.retryCount >= MaxRetries)
    ensures o.truncated <==>
      Rejected(s, action) && CellAt(o.next.row, o.next.col) == FirstTime.Value() && o.next.invalidActions >= MaxInvalidActions
    ensures !(o.terminated && o.truncated)
  {
    var invalidAction := Rejected(s, action);
    var pos := if invalidAction then (s.row, s.col) else Target(s, action);
    var currentState := CellAt(pos.0, pos.1);
    if currentState == PoorQuality.Value() then
      var retries := s.retryCount + 1;
      StepResult(EnvState(pos.0, pos.1, retries, s.invalidActions), -5, retries >= MaxRetries, false)
    else if currentState == SuccessScan.Value() then
      StepResult(EnvState(pos.0, pos.1, s.retryCount, s.invalidActions), 10, true, false)
    else if currentState == IssueDetected.Value() then
      StepResult(EnvState(pos.0, pos.1, s.retryCount, s.invalidActions), 2, false, false)
    else if currentState == UserEngaged.Value() then
      StepResult(EnvState(pos.0, pos.1, s.retryCount, s.invalidActions), 3, false, false)
    else if invalidAction then
      var invalids := s.invalidActions + 1;
      StepResult(EnvState(pos.0, pos.1, s.retryCount, invalids), -1, false, invalids >= MaxInvalidActions)
    else
      StepResult(EnvState(pos.0, pos.1, s.retryCount, s.invalidActions), 0, false, false)
  }

  /** The state after a sequence of steps with no reset in between. */
  function Run(s: EnvState, actions: seq<int>): (r: EnvState)
    requires InBounds(s.row, s.col)
    ensures InBounds(r.row, r.col)
    ensures s.retryCount <= r.retryCount <= s.retryCount + |actions|
    ensures s.invalidActions <= r.invalidActions <= s.invalidActions + |actions|
    decreases |actions|
  {
    if actions == [] then s else Run(StepSpec(s, actions[0]).next, actions[1..])
  }

  /** Running two sequences one after the other is running their concatenation. */
  lemma {:induction false} RunAppend(s: EnvState, a: seq<int>, b: seq<int>)
    requires InBounds(s.row, s.col)
    ensures Run(s, a + b) == Run(Run(s, a), b)
    decreases |a|
  {
    if a == [] {
      assert a + b == b;
    } else {
      assert (a + b)[0] == a[0];
      assert (a + b)[1..] == a[1..] + b;
      RunAppend(StepSpec(s, a[0]).next, a[1..], b);
    }
  }

  /** The five codes are distinct, so a cell's code names exactly one label. */
  lemma ValuesDistinct(a: State, b: State)
    ensures a.Value() == b.Value() <==> a == b
  {
  }

  /** `n` times Right then Left: from (1,0) each pair steps onto the hazard at (1,1) and back. */
  function Bounce(n: nat): seq<int> {
    if n == 0 then [] else [Right, Left] + Bounce(n - 1)
  }

  /** Re-entering a hazard counts every time: `n` bounces through (1,1) add `n` to the retry counter
      and leave everything else as it was. */
  lemma {:induction false} BounceEntersHazard(retries: nat, invalids: nat, n: nat)
    ensures Run(EnvState(1, 0, retries, invalids), Bounce(n)) == EnvState(1, 0, retries + n, invalids)
    decreases n
  {
    if n > 0 {
      var s := EnvState(1, 0, retries, invalids);
      RunAppend(s, [Right, Left], Bounce(n - 1));
      var onHazard := StepSpec(s, Right).next;
      assert onHazard == EnvState(1, 1, retries + 1, invalids);
      assert StepSpec(onHazard, Left).next == EnvState(1, 0, retries + 1, invalids);
      assert Run(s, [Right, Left]) == EnvState(1, 0, retries + 1, invalids) by {
        assert [Right, Left][1..] == [Left];
        assert Run(s, [Right, Left]) == Run(onHazard, [Left]);
        assert [Left][1..] == [];
        assert Run(onHazard, [Left]) == Run(StepSpec(onHazard, Left).next, []);
      }
      BounceEntersHazard(retries + 1, invalids, n - 1);
    }
  }

  /** The third hazard entry of an episode terminates it: Down, two bounces through (1,1), then Right
      onto (1,1) once more gives -5 and terminated. */
  lemma ThirdHazardTerminates()
    ensures var s := Run(Initial, [Down] + Bounce(2));
      s == EnvState(1, 0, 2, 0) &&
      var o := StepSpec(s, Right);
      o.next == EnvState(1, 1, 3, 0) && o.reward == -5 && o.terminated && !o.truncated
  {
    RunAppend(Initial, [Down], Bounce(2));
    assert Run(Initial, [Down]) == EnvState(1, 0, 0, 0) by {
      assert [Down][1..] == [];
    }
    BounceEntersHazard(0, 0, 2);
  }

  /** The number of steps of a run that end on a hazard cell. */
  function HazardHits(s: EnvState, actions: seq<int>): nat
    requires InBounds(s.row, s.col)
    decreases |actions|
  {
    if actions == [] then 0
    else
      var next := StepSpec(s, actions[0]).next;
      (if CellAt(next.row, next.col) == PoorQuality.Value() then 1 else 0) + HazardHits(next, actions[1..])
  }

  /** The number of steps of a run on which the invalid-move branch fires:
      a refused move while standing on a code-0 cell. */
  function InvalidHits(s: EnvState, actions: seq<int>): nat
    requires InBounds(s.row, s.col)
    decreases |actions|
  {
    if actions == [] then 0
    else
      var next := StepSpec(s, actions[0]).next;
      (if Rejected(s, actions[0]) && CellAt(next.row, next.col) == FirstTime.Value() then 1 else 0)
        + InvalidHits(next, actions[1..])
  }

  /** The retry counter counts hazard entries. */
  lemma {:induction false} RetryCounts(s: EnvState, actions: seq<int>)
    requires InBounds(s.row, s.col)
    ensures Run(s, actions).retryCount == s.retryCount + HazardHits(s, actions)
    decreases |actions|
  {
    if actions != [] {
      RetryCounts(StepSpec(s, actions[0]).next, actions[1..]);
    }
  }

  /** The invalid-move counter counts firings of the invalid-move branch. */
  lemma {:induction false} InvalidCounts(s: EnvState, actions: seq<int>)
    requires InBounds(s.row, s.col)
    ensures Run(s, actions).invalidActions == s.invalidActions + InvalidHits(s, actions)
    decreases |actions|
  {
    if actions != [] {
      InvalidCounts(StepSpec(s, actions[0]).next, actions[1..]);
    }
  }

  /** Within an episode: after any actions since a reset, the next step terminates exactly when it
      reaches the goal or enters a hazard that is the third or later hazard entry of the episode,
      and truncates exactly when the invalid-move branch fires for the third or later time. */
  lemma EpisodeFlags(actions: seq<int>, action: int)
    ensures var s := Run(Initial, actions);
      var o := StepSpec(s, action);
      var cell := CellAt(o.next.row, o.next.col);
      && o.next == Run(Initial, actions + [action])
      && (o.terminated <==>
            cell == SuccessScan.Value() ||
            (cell == PoorQuality.Value() && HazardHits(Initial, actions + [action]) >= MaxRetries))
      && (o.truncated <==>
            Rejected(s, action) && cell == FirstTime.Value() &&
            InvalidHits(Initial, actions + [action]) >= MaxInvalidActions)
  {
    var s := Run(Initial, actions);
    RunAppend(Initial, actions, [action]);
    assert Run(s, [action]) == Run(StepSpec(s, action).next, []) by {
      assert [action][1..] == [];
    }
    RetryCounts(Initial, actions + [action]);
    InvalidCounts(Initial, actions + [action]);
  }

  /** Actions outside 0..3 never move the agent and are never counted as invalid. */
  lemma {:induction false} NonMovesKeepPosition(s: EnvState, actions: seq<int>)
    requires InBounds(s.row, s.col)
    requires forall i :: 0 <= i < |actions| ==> !(Up <= actions[i] <= Right)
    ensures Run(s, actions).row == s.row && Run(s, actions).col == s.col
    ensures Run(s, actions).invalidActions == s.invalidActions
    decreases |actions|
  {
    if actions != [] {
      var next := StepSpec(s, actions[0]).next;
      assert forall i :: 0 <= i < |actions[1..]| ==> actions[1..][i] == actions[i + 1];
      NonMovesKeepPosition(next, actions[1..]);
    }
  }

  /** The episode flags are not absorbing: stepping Up from the goal leaves it and ends nothing. */
  lemma GoalIsNotAbsorbing(retries: nat, invalids: nat)
    ensures var o := StepSpec(EnvState(4, 4, retries, invalids), Up);
      o.next.row == 3 && o.next.col == 4 && o.reward == 0 && !o.terminated && !o.truncated
  {
  }

  /** A refused move from the goal re-scores the goal: reward 10, terminated again, not counted. */
  lemma RefusedMoveOnGoal(retries: nat, invalids: nat)
    ensures var o := StepSpec(EnvState(4, 4, retries, invalids), Down);
      o.next == EnvState(4, 4, retries, invalids) && o.reward == 10 && o.terminated && !o.truncated
  {
  }

  /** A refused move from the engaged cell re-scores it: reward 3, not counted. */
  lemma RefusedMoveOnEngaged(retries: nat, invalids: nat)
    ensures var o := StepSpec(EnvState(0, 4, retries, invalids), Up);
      o.next == EnvState(0, 4, retries, invalids) && o.reward == 3 && !o.terminated && !o.truncated
  {
  }

  /** The environment object; fields mirror agent_pos, retry_count and invalid_actions. */
  class DentalScannerEnv {
    var row: int
    var col: int
    var retryCount: nat
    var invalidActions: nat

    ghost predicate Valid()
      reads this
    {
      InBounds(row, col)
    }

    /** The current state as a value. */
    function Snapshot(): EnvState
      reads this
    {
      EnvState(row, col, retryCount, invalidActions)
    }

    constructor ()
      ensures Valid() && Snapshot() == Initial
    {
      row, col := 0, 0;
      retryCount := 0;
      invalidActions := 0;
    }

    method Reset() returns (obs: seq<seq<int>>)
      modifies this
      ensures Valid() && Snapshot() == Initial
      ensures obs == GetObs(0, 0)
    {
      row, col := 0, 0;
      retryCount := 0;
      invalidActions := 0;
      obs := GetObs(row, col);
    }

    method Step(action: int) returns (obs: seq<seq<int>>, reward: int, terminated: bool, truncated: bool)
      requires Valid()
      modifies this
      ensures Valid()
      ensures var o := StepSpec(old(Snapshot()), action);
        Snapshot() == o.next && reward == o.reward && terminated == o.terminated && truncated == o.truncated
      ensures obs == GetObs(row, col)
    {
      var newRow, newCol := row, col;
      if action == Up {
        newRow := newRow - 1;
      } else if action == Down {
        newRow := newRow + 1;
      } else if action == Left {
        newCol := newCol - 1;
      } else if action == Right {
        newCol := newCol + 1;
      }

      var invalidAction: bool;
      if 0 <= newRow < GridSize && 0 <= newCol < GridSize {
        row, col := newRow, newCol;
        invalidAction := false;
      } else {
        invalidAction := true;
      }

      var currentState := StateGrid[row][col];
      terminated := false;
      truncated := false;
      reward := 0;

      if currentState == PoorQuality.Value() {
        reward := -5;
        retryCount := retryCount + 1;
        if retryCount >= MaxRetries {
          terminated := true;
        }
      } else if currentState == SuccessScan.Value() {
        reward := 10;
        terminated := true;
      } else if currentState == IssueDetected.Value() {
        reward := 2;
      } else if currentState == UserEngaged.Value() {
        reward := 3;
      } else if invalidAction {
        reward := -1;
        invalidActions := invalidActions + 1;
        if invalidActions >= MaxInvalidActions {
          truncated := true;
        }
      }

      obs := GetObs(row, col);
    }
  }
}
