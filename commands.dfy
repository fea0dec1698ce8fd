/**
 * The command lines the commander hands to the lerobot tools: calibrate,
 * teleoperate and record, each guarded by the configured ports, and the
 * record step's dataset menu and defaults.
 */
module Commands {
  import opened Wrappers
  import opened Text
  import opened OrderedDict
  import opened Config

  /** "--name=value" */
  function Flag(name: string, value: string): string {
    "--" + name + "=" + value
  }

  /** `arg` sets the option `name`. */
  predicate IsFlagFor(arg: string, name: string) {
    |arg| >= |name| + 3 && arg[..|name| + 3] == "--" + name + "="
  }

  /** The value the first argument setting `name` gives it, as an option parser reads it. */
  function FlagValue(argv: seq<string>, name: string): Option<string> {
    if argv == [] then None
    else if IsFlagFor(argv[0], name) then Some(argv[0][|name| + 3..])
    else FlagValue(argv[1..], name)
  }

  lemma FlagRead(name: string, value: string, rest: seq<string>)
    ensures FlagValue([Flag(name, value)] + rest, name) == Some(value)
  {
    var arg := Flag(name, value);
    assert arg[..|name| + 3] == "--" + name + "=";
    assert arg[|name| + 3..] == value;
  }

  /** A flag for one option does not set another, as long as neither name holds '='. */
  lemma FlagsDistinct(n1: string, value: string, n2: string)
    requires n1 != n2 && '=' !in n1 && '=' !in n2
    ensures !IsFlagFor(Flag(n1, value), n2)
  {
    var arg := Flag(n1, value);
    var p := "--" + n2 + "=";
    if |arg| >= |p| {
      var j: nat;
      if |n1| == |n2| {
        j :| j < |n1| && n1[j] != n2[j];
        assert arg[j + 2] == n1[j] && p[j + 2] == n2[j];
        j := j + 2;
      } else if |n1| < |n2| {
        assert arg[|n1| + 2] == '=' && p[|n1| + 2] == n2[|n1|];
        j := |n1| + 2;
      } else {
        assert arg[|n2| + 2] == n1[|n2|] && p[|n2| + 2] == '=';
        j := |n2| + 2;
      }
      assert arg[..|p|][j] != p[j];
    }
  }

  lemma FlagSkip(arg: string, rest: seq<string>, name: string)
    requires !IsFlagFor(arg, name)
    ensures FlagValue([arg] + rest, name) == FlagValue(rest, name)
  {
    assert ([arg] + rest)[1..] == rest;
  }

  /** A program name, which does not start with '-', sets no option. */
  lemma ProgramSkip(program: string, rest: seq<string>, name: string)
    requires program != [] && program[0] != '-'
    ensures FlagValue([program] + rest, name) == FlagValue(rest, name)
  {
    FlagSkip(program, rest, name);
  }

  lemma SkipFlag(argv: seq<string>, i: nat, n1: string, v: string, name: string)
    requires i < |argv| && argv[i] == Flag(n1, v) && n1 != name && '=' !in n1 && '=' !in name
    ensures FlagValue(argv[i..], name) == FlagValue(argv[i + 1..], name)
  {
    FlagsDistinct(n1, v, name);
    assert argv[i..] == [argv[i]] + argv[i + 1..];
    FlagSkip(argv[i], argv[i + 1..], name);
  }

  lemma ReadFlag(argv: seq<string>, i: nat, name: string, v: string)
    requires i < |argv| && argv[i] == Flag(name, v)
    ensures FlagValue(argv[i..], name) == Some(v)
  {
    assert argv[i..] == [Flag(name, v)] + argv[i + 1..];
    FlagRead(name, v, argv[i + 1..]);
  }

  lemma SkipProgram(argv: seq<string>, name: string)
    requires argv != [] && argv[0] != [] && argv[0][0] != '-'
    ensures FlagValue(argv, name) == FlagValue(argv[1..], name)
  {
    assert argv == [argv[0]] + argv[1..];
    ProgramSkip(argv[0], argv[1..], name);
  }

  /** config.get(key) read for truthiness: a missing key and an empty string are both "not set". */
  function PortOf(c: Config, key: string): (r: Option<string>)
    ensures r.Some? <==> key in c.entries && c.entries[key] != ""
    ensures r.Some? ==> r.value == c.entries[key]
  {
    match Get(c, key)
    case Some(p) => if p != "" then Some(p) else None
    case None => None
  }

  /** Reading an option from two argument lists joined: the first one that sets it wins. */
  lemma FlagValueAppend(a: seq<string>, b: seq<string>, name: string)
    ensures FlagValue(a + b, name) == if FlagValue(a, name).Some? then FlagValue(a, name) else FlagValue(b, name)
  {
    if a != [] {
      assert (a + b)[0] == a[0] && (a + b)[1..] == a[1..] + b;
      if !IsFlagFor(a[0], name) {
        FlagValueAppend(a[1..], b, name);
      }
    } else {
      assert a + b == b;
    }
  }

  lemma ProgramNone(program: string, name: string)
    requires program != [] && program[0] != '-'
    ensures FlagValue([program], name) == None
  {
    ProgramSkip(program, [], name);
  }

  /** The follower arm's options, shared by teleoperation and recording. */
  function RobotArgs(follower: string, cameras: string): seq<string> {
    [Flag("robot.type", "so101_follower"), Flag("robot.port", follower), Flag("robot.id", "Follower"),
     Flag("robot.cameras", cameras)]
  }

  /** The leader arm's options, shared by leader calibration, teleoperation and recording. */
  function LeaderArgs(leader: string): seq<string> {
    [Flag("teleop.type", "so101_leader"), Flag("teleop.port", leader), Flag("teleop.id", "Leader")]
  }

  lemma RobotArgsHit(follower: string, cameras: string)
    ensures FlagValue(RobotArgs(follower, cameras), "robot.port") == Some(follower)
    ensures FlagValue(RobotArgs(follower, cameras), "robot.cameras") == Some(cameras)
  {
    var argv := RobotArgs(follower, cameras);
    assert argv[0..] == argv;
    SkipFlag(argv, 0, "robot.type", "so101_follower", "robot.port");
    ReadFlag(argv, 1, "robot.port", follower);
    SkipFlag(argv, 0, "robot.type", "so101_follower", "robot.cameras");
    SkipFlag(argv, 1, "robot.port", follower, "robot.cameras");
    SkipFlag(argv, 2, "robot.id", "Follower", "robot.cameras");
    ReadFlag(argv, 3, "robot.cameras", cameras);
  }

  lemma RobotArgsMiss(follower: string, cameras: string, name: string)
    requires name !in {"robot.type", "robot.port", "robot.id", "robot.cameras"} && '=' !in name
    ensures FlagValue(RobotArgs(follower, cameras), name) == None
  {
    var argv := RobotArgs(follower, cameras);
    assert argv[0..] == argv;
    SkipFlag(argv, 0, "robot.type", "so101_follower", name);
    SkipFlag(argv, 1, "robot.port", follower, name);
    SkipFlag(argv, 2, "robot.id", "Follower", name);
    SkipFlag(argv, 3, "robot.cameras", cameras, name);
    assert argv[4..] == [];
  }

  lemma LeaderArgsHit(leader: string)
    ensures FlagValue(LeaderArgs(leader), "teleop.port") == Some(leader)
    ensures FlagValue(LeaderArgs(leader), "teleop.type") == Some("so101_leader")
  {
    var argv := LeaderArgs(leader);
    assert argv[0..] == argv;
    ReadFlag(argv, 0, "teleop.type", "so101_leader");
    SkipFlag(argv, 0, "teleop.type", "so101_leader", "teleop.port");
    ReadFlag(argv, 1, "teleop.port", leader);
  }

  lemma LeaderArgsMiss(leader: string, name: string)
    requires name !in {"teleop.type", "teleop.port", "teleop.id"} && '=' !in name
    ensures FlagValue(LeaderArgs(leader), name) == None
  {
    var argv := LeaderArgs(leader);
    assert argv[0..] == argv;
    SkipFlag(argv, 0, "teleop.type", "so101_leader", name);
    SkipFlag(argv, 1, "teleop.port", leader, name);
    SkipFlag(argv, 2, "teleop.id", "Leader", name);
    assert argv[3..] == [];
  }

  lemma SingleFlagMiss(n1: string, value: string, name: string)
    requires n1 != name && '=' !in n1 && '=' !in name
    ensures FlagValue([Flag(n1, value)], name) == None
  {
    FlagsDistinct(n1, value, name);
    FlagSkip(Flag(n1, value), [], name);
  }

  /** What a menu step hands to the lerobot tools: a command line, or why there is none. */
  datatype Launch = Run(argv: seq<string>) | PortNotSet | Cancelled | InvalidChoice

  function CalibrateLeaderArgv(port: string): seq<string> {
    ["lerobot-calibrate"] + LeaderArgs(port)
  }

  function CalibrateFollowerArgv(port: string): seq<string> {
    ["lerobot-calibrate", Flag("robot.type", "so101_follower"), Flag("robot.port", port), Flag("robot.id", "Follower")]
  }

  /** run_calibration on the stripped choice: 1 leader, 2 follower, 3 cancel, each arm needing its port. */
  function CalibrationLaunch(c: Config, answer: string): (r: Launch)
    ensures r.Run? <==> (Strip(answer) == "1" && PortOf(c, LeaderKey).Some?) || (Strip(answer) == "2" && PortOf(c, FollowerKey).Some?)
    ensures r == PortNotSet <==> (Strip(answer) == "1" && PortOf(c, LeaderKey).None?) || (Strip(answer) == "2" && PortOf(c, FollowerKey).None?)
    ensures r == Cancelled <==> Strip(answer) == "3"
  {
    var choice := Strip(answer);
    if choice == "1" then
      match PortOf(c, LeaderKey)
      case None => PortNotSet
      case Some(port) => Run(CalibrateLeaderArgv(port))
    else if choice == "2" then
      match PortOf(c, FollowerKey)
      case None => PortNotSet
      case Some(port) => Run(CalibrateFollowerArgv(port))
    else if choice == "3" then Cancelled
    else InvalidChoice
  }

  /** Calibrating the leader passes its port as the teleoperator's and names no robot port. */
  lemma CalibrateLeaderFlags(port: string)
    ensures FlagValue(CalibrateLeaderArgv(port), "teleop.port") == Some(port)
    ensures FlagValue(CalibrateLeaderArgv(port), "teleop.type") == Some("so101_leader")
    ensures FlagValue(CalibrateLeaderArgv(port), "robot.port") == None
  {
    ProgramNone("lerobot-calibrate", "teleop.port");
    ProgramNone("lerobot-calibrate", "teleop.type");
    ProgramNone("lerobot-calibrate", "robot.port");
    FlagValueAppend(["lerobot-calibrate"], LeaderArgs(port), "teleop.port");
    FlagValueAppend(["lerobot-calibrate"], LeaderArgs(port), "teleop.type");
    FlagValueAppend(["lerobot-calibrate"], LeaderArgs(port), "robot.port");
    LeaderArgsHit(port);
    LeaderArgsMiss(port, "robot.port");
  }

  /** Calibrating the follower passes its port as the robot's and names no teleoperator port. */
  lemma CalibrateFollowerFlags(port: string)
    ensures FlagValue(CalibrateFollowerArgv(port), "robot.port") == Some(port)
    ensures FlagValue(CalibrateFollowerArgv(port), "robot.type") == Some("so101_follower")
    ensures FlagValue(CalibrateFollowerArgv(port), "teleop.port") == None
  {
    var argv := CalibrateFollowerArgv(port);
    SkipProgram(argv, "robot.port");
    SkipFlag(argv, 1, "robot.type", "so101_follower", "robot.port");
    ReadFlag(argv, 2, "robot.port", port);
    SkipProgram(argv, "robot.type");
    ReadFlag(argv, 1, "robot.type", "so101_follower");
    SkipProgram(argv, "teleop.port");
    SkipFlag(argv, 1, "robot.type", "so101_follower", "teleop.port");
    SkipFlag(argv, 2, "robot.port", port, "teleop.port");
    SkipFlag(argv, 3, "robot.id", "Follower", "teleop.port");
    assert argv[4..] == [];
  }

  /**
   * Answering "1" (or "2"), with any surrounding whitespace, while that
   * arm's port is set runs lerobot-calibrate on that arm: its port as
   * teleop.port (or robot.port), its type, and no port of the other arm.
   */
  lemma CalibrationFlags(c: Config, pre: string, d: char, post: string)
    requires AllSpace(pre) && AllSpace(post)
    requires (d == '1' && PortOf(c, LeaderKey).Some?) || (d == '2' && PortOf(c, FollowerKey).Some?)
    ensures CalibrationLaunch(c, pre + [d] + post).Run?
    ensures d == '1' ==>
              FlagValue(CalibrationLaunch(c, pre + [d] + post).argv, "teleop.port") == Some(c.entries[LeaderKey]) &&
              FlagValue(CalibrationLaunch(c, pre + [d] + post).argv, "teleop.type") == Some("so101_leader") &&
              FlagValue(CalibrationLaunch(c, pre + [d] + post).argv, "robot.port") == None
    ensures d == '2' ==>
              FlagValue(CalibrationLaunch(c, pre + [d] + post).argv, "robot.port") == Some(c.entries[FollowerKey]) &&
              FlagValue(CalibrationLaunch(c, pre + [d] + post).argv, "robot.type") == Some("so101_follower") &&
              FlagValue(CalibrationLaunch(c, pre + [d] + post).argv, "teleop.port") == None
  {
    StripPadding(pre, [d], post);
    if d == '1' {
      assert [d] == "1";
      CalibrateLeaderFlags(c.entries[LeaderKey]);
    } else {
      assert [d] != "1" && [d] == "2";
      CalibrateFollowerFlags(c.entries[FollowerKey]);
    }
  }

  /** The cameras setting when the config has none. */
  const NoCameras: string := "None"

  function Cameras(c: Config): string {
    GetOr(c, "robot_cameras", NoCameras)
  }

  function TeleopArgv(leader: string, follower: string, cameras: string): seq<string> {
    ["lerobot-teleoperate"] + RobotArgs(follower, cameras) + LeaderArgs(leader) + [Flag("display_data", "True")]
  }

  /** run_teleop: a command line only when both ports are set. */
  function TeleopLaunch(c: Config): (r: Launch)
    ensures r.Run? <==> PortOf(c, LeaderKey).Some? && PortOf(c, FollowerKey).Some?
    ensures !r.Run? ==> r == PortNotSet
  {
    match (PortOf(c, LeaderKey), PortOf(c, FollowerKey))
    case (Some(leader), Some(follower)) => Run(TeleopArgv(leader, follower, Cameras(c)))
    case _ => PortNotSet
  }

  /** Reading an option through the program name and the two arm blocks. */
  lemma ArmsPrefix(program: string, leader: string, follower: string, cameras: string, tail: seq<string>, name: string)
    requires program != [] && program[0] != '-'
    ensures FlagValue([program] + RobotArgs(follower, cameras) + LeaderArgs(leader) + tail, name) ==
            if FlagValue(RobotArgs(follower, cameras), name).Some? then FlagValue(RobotArgs(follower, cameras), name)
            else if FlagValue(LeaderArgs(leader), name).Some? then FlagValue(LeaderArgs(leader), name)
            else FlagValue(tail, name)
  {
    var robot := RobotArgs(follower, cameras);
    var arm := LeaderArgs(leader);
    ProgramNone(program, name);
    FlagValueAppend([program] + robot + arm, tail, name);
    FlagValueAppend([program] + robot, arm, name);
    FlagValueAppend([program], robot, name);
  }

  /**
   * The teleoperation command passes the follower port as the robot's, the
   * leader port as the teleoperator's, and the configured cameras, "None"
   * when the config has no camera setting.
   */
  lemma TeleopFlags(c: Config)
    requires PortOf(c, LeaderKey).Some? && PortOf(c, FollowerKey).Some?
    ensures TeleopLaunch(c).Run?
    ensures FlagValue(TeleopLaunch(c).argv, "robot.port") == Some(c.entries[FollowerKey])
    ensures FlagValue(TeleopLaunch(c).argv, "teleop.port") == Some(c.entries[LeaderKey])
    ensures FlagValue(TeleopLaunch(c).argv, "robot.cameras") == Some(Cameras(c))
    ensures "robot_cameras" !in c.entries ==> FlagValue(TeleopLaunch(c).argv, "robot.cameras") == Some("None")
  {
    var leader := c.entries[LeaderKey];
    var follower := c.entries[FollowerKey];
    var tail := [Flag("display_data", "True")];
    assert TeleopLaunch(c).argv == ["lerobot-teleoperate"] + RobotArgs(follower, Cameras(c)) + LeaderArgs(leader) + tail;
    RobotArgsHit(follower, Cameras(c));
    LeaderArgsHit(leader);
    RobotArgsMiss(follower, Cameras(c), "teleop.port");
    ArmsPrefix("lerobot-teleoperate", leader, follower, Cameras(c), tail, "robot.port");
    ArmsPrefix("lerobot-teleoperate", leader, follower, Cameras(c), tail, "robot.cameras");
    ArmsPrefix("lerobot-teleoperate", leader, follower, Cameras(c), tail, "teleop.port");
  }

  /** What one answer to the dataset menu means, with `count` datasets listed. */
  datatype MenuPick = Resume(index: nat) | NewDataset | CancelRecord | Reprompt

  /** int(answer.strip()) - 1 against the menu: 1..count resume, count + 1 new, count + 2 cancel. */
  function DecodeRecordChoice(answer: string, count: nat): (r: MenuPick)
    ensures r.Resume? ==> r.index < count
  {
    match PyInt(Strip(answer))
    case None => Reprompt
    case Some(n) =>
      var idx := n - 1;
      if 0 <= idx < count then Resume(idx)
      else if idx == count then NewDataset
      else if idx == count + 1 then CancelRecord
      else Reprompt
  }

  /** Typing the number k picks the k-th menu line; numbers off the menu reprompt. */
  lemma MenuNumbers(k: int, count: nat)
    ensures DecodeRecordChoice(DecimalString(k), count) ==
            if 1 <= k <= count then Resume(k - 1)
            else if k == count + 1 then NewDataset
            else if k == count + 2 then CancelRecord
            else Reprompt
  {
    DecimalRoundTrip(k);
    DecimalTrimmed(k);
    StripTrimmed(DecimalString(k));
  }

  /** A text answer is not a number: the menu asks again. */
  lemma MenuWord(count: nat)
    ensures DecodeRecordChoice("new", count) == Reprompt
  {
    StripTrimmed("new");
  }

  /** The dataset the record step settles on, and whether it resumes it. */
  datatype Selection = Selected(name: string, resume: string) | MenuCancelled

  /**
   * The dataset menu read from answer pos on: the selection and the position
   * after it, or None when the input ends first. A new dataset takes a
   * second answer, its name; an empty name goes back to the menu.
   */
  function RecordMenu(answers: seq<string>, existing: seq<string>, pos: nat): Option<(Selection, nat)>
    requires pos <= |answers|
    decreases |answers| - pos
  {
    if pos == |answers| then None
    else match DecodeRecordChoice(answers[pos], |existing|)
      case Resume(i) => Some((Selected(existing[i], "true"), pos + 1))
      case NewDataset =>
        if pos + 1 == |answers| then None
        else
          var name := Strip(answers[pos + 1]);
          var next: nat := pos + 2;
          if name == [] then RecordMenu(answers, existing, next)
          else Some((Selected(name, "false"), next))
      case CancelRecord => Some((MenuCancelled, pos + 1))
      case Reprompt => RecordMenu(answers, existing, pos + 1)
  }

  /** The menu loop of run_record. */
  method ReadRecordMenu(answers: seq<string>, existing: seq<string>) returns (r: Option<(Selection, nat)>)
    ensures r == RecordMenu(answers, existing, 0)
  {
    var pos := 0;
    while true
      invariant pos <= |answers|
      invariant RecordMenu(answers, existing, pos) == RecordMenu(answers, existing, 0)
      decreases |answers| - pos
    {
      if pos == |answers| {
        return None;
      }
      var choice := DecodeRecordChoice(answers[pos], |existing|);
      if choice.Resume? {
        return Some((Selected(existing[choice.index], "true"), pos + 1));
      } else if choice.NewDataset? {
        if pos + 1 == |answers| {
          return None;
        }
        var name := Strip(answers[pos + 1]);
        if name != [] {
          return Some((Selected(name, "false"), pos + 2));
        }
        pos := pos + 2;
      } else if choice.CancelRecord? {
        return Some((MenuCancelled, pos + 1));
      } else {
        pos := pos + 1;
      }
    }
  }

  /** A resumed dataset is one of those listed; a new one has a non-empty, stripped name. */
  lemma {:induction false} MenuSelection(answers: seq<string>, existing: seq<string>, pos: nat)
    requires pos <= |answers|
    requires RecordMenu(answers, existing, pos).Some? && RecordMenu(answers, existing, pos).value.0.Selected?
    ensures pos < RecordMenu(answers, existing, pos).value.1 <= |answers|
    ensures RecordMenu(answers, existing, pos).value.0.resume == "true" ==> RecordMenu(answers, existing, pos).value.0.name in existing
    ensures RecordMenu(answers, existing, pos).value.0.resume != "true" ==>
              RecordMenu(answers, existing, pos).value.0.resume == "false" &&
              RecordMenu(answers, existing, pos).value.0.name != [] && Trimmed(RecordMenu(answers, existing, pos).value.0.name)
    decreases |answers| - pos
  {
    match DecodeRecordChoice(answers[pos], |existing|)
    case Resume(i) =>
    case NewDataset =>
      if Strip(answers[pos + 1]) == [] {
        MenuSelection(answers, existing, pos + 2);
      }
    case CancelRecord =>
    case Reprompt =>
      MenuSelection(answers, existing, pos + 1);
  }

  /** Choosing listed dataset k resumes it. */
  lemma ResumeChoice(existing: seq<string>, k: nat, rest: seq<string>)
    requires 1 <= k <= |existing|
    ensures RecordMenu([DecimalString(k)] + rest, existing, 0) == Some((Selected(existing[k - 1], "true"), 1))
  {
    MenuNumbers(k, |existing|);
  }

  /** Choosing the line after the list, then a non-empty name, starts that dataset afresh. */
  lemma NewChoice(existing: seq<string>, name: string, rest: seq<string>)
    requires Strip(name) != []
    ensures RecordMenu([DecimalString(|existing| + 1), name] + rest, existing, 0) == Some((Selected(Strip(name), "false"), 2))
  {
    var answers := [DecimalString(|existing| + 1), name] + rest;
    MenuNumbers(|existing| + 1, |existing|);
    assert DecodeRecordChoice(answers[0], |existing|) == NewDataset;
    assert answers[1] == name;
  }

  /** An empty name sends the operator back to the menu, two answers on. */
  lemma EmptyNameReprompts(existing: seq<string>, name: string, rest: seq<string>)
    requires Strip(name) == []
    ensures RecordMenu([DecimalString(|existing| + 1), name] + rest, existing, 0)
            == RecordMenu([DecimalString(|existing| + 1), name] + rest, existing, 2)
  {
    MenuNumbers(|existing| + 1, |existing|);
  }

  /** The last line cancels. */
  lemma CancelChoice(existing: seq<string>, rest: seq<string>)
    ensures RecordMenu([DecimalString(|existing| + 2)] + rest, existing, 0) == Some((MenuCancelled, 1))
  {
    MenuNumbers(|existing| + 2, |existing|);
  }

  /** The fallbacks for a blank task description and a blank episode count. */
  const GenericTask: string := "generic task"
  const DefaultEpisodes: string := "5"

  /** The Hub namespace every recorded dataset lives in. */
  const DatasetOwner: string := "lehungry-robotum/"

  /** The stripped answer, or `fallback` when nothing is left of it. */
  function OrDefault(answer: string, fallback: string): (r: string)
    requires fallback != [] && Trimmed(fallback)
    ensures r != [] && Trimmed(r)
    ensures Strip(answer) != [] ==> r == Strip(answer)
    ensures Strip(answer) == [] ==> r == fallback
  {
    var s := Strip(answer);
    if s == [] then fallback else s
  }

  lemma DefaultsTrimmed()
    ensures GenericTask != [] && Trimmed(GenericTask)
    ensures DefaultEpisodes != [] && Trimmed(DefaultEpisodes)
  {
  }

  function RepoId(name: string): string {
    DatasetOwner + name
  }

  /** The dataset options of the record command. */
  function DatasetArgs(repo: string, episodes: string, task: string): seq<string> {
    [Flag("dataset.repo_id", repo), Flag("dataset.num_episodes", episodes), Flag("dataset.single_task", task)]
  }

  function RecordArgv(leader: string, follower: string, cameras: string, repo: string, episodes: string, task: string, resume: string): seq<string> {
    ["lerobot-record"] + RobotArgs(follower, cameras) + LeaderArgs(leader)
    + ([Flag("display_data", "true")] + DatasetArgs(repo, episodes, task) + [Flag("resume", resume)])
  }

  /**
   * How run_record ends: a port missing, the menu cancelled, the input
   * running out (EOFError), or the record command together with the Hub
   * tag (repository, tag name) requested after it, if any. A failing
   * request is only reported as a warning, so the tag may not exist.
   */
  datatype RecordOutcome =
    | RecordPortsMissing
    | RecordCancelled
    | RecordInputEnded
    | Recording(argv: seq<string>, tag: Option<(string, string)>)

  /**
   * run_record with the sorted dataset listing `existing` and the operator's
   * answers: the dataset menu, then the task description, the episode count
   * and the Enter that starts recording. `succeeded` is whether the record
   * command exited cleanly, `version` the installed lerobot version; a new
   * dataset's tag "v" + version is requested only after a clean recording.
   */
  function RunRecord(c: Config, existing: seq<string>, answers: seq<string>, succeeded: bool, version: string): (r: RecordOutcome)
    ensures r == RecordPortsMissing <==> PortOf(c, LeaderKey).None? || PortOf(c, FollowerKey).None?
  {
    match (PortOf(c, LeaderKey), PortOf(c, FollowerKey))
    case (Some(leader), Some(follower)) =>
      AfterMenu(leader, follower, Cameras(c), RecordMenu(answers, existing, 0), answers, succeeded, version)
    case _ => RecordPortsMissing
  }

  /** run_record once the menu has been read: cancelled, out of input, or on to the remaining prompts. */
  function AfterMenu(leader: string, follower: string, cameras: string, menu: Option<(Selection, nat)>,
                     answers: seq<string>, succeeded: bool, version: string): (r: RecordOutcome)
    ensures r != RecordPortsMissing
  {
    if menu.None? then RecordInputEnded
    else if menu.value.0.MenuCancelled? then RecordCancelled
    else if menu.value.1 + 3 > |answers| then RecordInputEnded
    else StartRecording(leader, follower, cameras, menu.value.0, answers[menu.value.1..], succeeded, version)
  }

  /** The task, episode and Enter prompts, then the record command and the tag request. */
  function StartRecording(leader: string, follower: string, cameras: string, sel: Selection,
                          rest: seq<string>, succeeded: bool, version: string): (r: RecordOutcome)
    requires sel.Selected? && |rest| >= 3
    ensures r.Recording?
  {
    var task := OrDefault(rest[0], GenericTask);
    var episodes := OrDefault(rest[1], DefaultEpisodes);
    var repo := RepoId(sel.name);
    var tag := if succeeded && sel.resume == "false" then Some((repo, "v" + version)) else None;
    Recording(RecordArgv(leader, follower, cameras, repo, episodes, task, sel.resume), tag)
  }

  /** Reading an option that only the tail after the two arm blocks can set. */
  lemma DatasetArgsRead(repo: string, episodes: string, task: string, resume: string)
    ensures FlagValue([Flag("display_data", "true")] + DatasetArgs(repo, episodes, task) + [Flag("resume", resume)], "dataset.repo_id") == Some(repo)
    ensures FlagValue([Flag("display_data", "true")] + DatasetArgs(repo, episodes, task) + [Flag("resume", resume)], "dataset.num_episodes") == Some(episodes)
    ensures FlagValue([Flag("display_data", "true")] + DatasetArgs(repo, episodes, task) + [Flag("resume", resume)], "dataset.single_task") == Some(task)
    ensures FlagValue([Flag("display_data", "true")] + DatasetArgs(repo, episodes, task) + [Flag("resume", resume)], "resume") == Some(resume)
  {
    var argv := [Flag("display_data", "true")] + DatasetArgs(repo, episodes, task) + [Flag("resume", resume)];
    assert argv[0..] == argv;
    SkipFlag(argv, 0, "display_data", "true", "dataset.repo_id");
    ReadFlag(argv, 1, "dataset.repo_id", repo);
    SkipFlag(argv, 0, "display_data", "true", "dataset.num_episodes");
    SkipFlag(argv, 1, "dataset.repo_id", repo, "dataset.num_episodes");
    ReadFlag(argv, 2, "dataset.num_episodes", episodes);
    SkipFlag(argv, 0, "display_data", "true", "dataset.single_task");
    SkipFlag(argv, 1, "dataset.repo_id", repo, "dataset.single_task");
    SkipFlag(argv, 2, "dataset.num_episodes", episodes, "dataset.single_task");
    ReadFlag(argv, 3, "dataset.single_task", task);
    SkipFlag(argv, 0, "display_data", "true", "resume");
    SkipFlag(argv, 1, "dataset.repo_id", repo, "resume");
    SkipFlag(argv, 2, "dataset.num_episodes", episodes, "resume");
    SkipFlag(argv, 3, "dataset.single_task", task, "resume");
    ReadFlag(argv, 4, "resume", resume);
  }

  /** The record command's ports, as the teleoperation command passes them. */
  lemma RecordArmFlags(leader: string, follower: string, cameras: string, repo: string, episodes: string, task: string, resume: string)
    ensures FlagValue(RecordArgv(leader, follower, cameras, repo, episodes, task, resume), "robot.port") == Some(follower)
    ensures FlagValue(RecordArgv(leader, follower, cameras, repo, episodes, task, resume), "teleop.port") == Some(leader)
    ensures FlagValue(RecordArgv(leader, follower, cameras, repo, episodes, task, resume), "robot.cameras") == Some(cameras)
  {
    var tail := [Flag("display_data", "true")] + DatasetArgs(repo, episodes, task) + [Flag("resume", resume)];
    RobotArgsHit(follower, cameras);
    LeaderArgsHit(leader);
    RobotArgsMiss(follower, cameras, "teleop.port");
    ArmsPrefix("lerobot-record", leader, follower, cameras, tail, "robot.port");
    ArmsPrefix("lerobot-record", leader, follower, cameras, tail, "robot.cameras");
    ArmsPrefix("lerobot-record", leader, follower, cameras, tail, "teleop.port");
  }

  /** The record command's dataset options. */
  lemma RecordDatasetFlags(leader: string, follower: string, cameras: string, repo: string, episodes: string, task: string, resume: string)
    ensures FlagValue(RecordArgv(leader, follower, cameras, repo, episodes, task, resume), "dataset.repo_id") == Some(repo)
    ensures FlagValue(RecordArgv(leader, follower, cameras, repo, episodes, task, resume), "dataset.num_episodes") == Some(episodes)
    ensures FlagValue(RecordArgv(leader, follower, cameras, repo, episodes, task, resume), "dataset.single_task") == Some(task)
    ensures FlagValue(RecordArgv(leader, follower, cameras, repo, episodes, task, resume), "resume") == Some(resume)
  {
    var tail := [Flag("display_data", "true")] + DatasetArgs(repo, episodes, task) + [Flag("resume", resume)];
    DatasetArgsRead(repo, episodes, task, resume);
    RobotArgsMiss(follower, cameras, "dataset.repo_id");
    RobotArgsMiss(follower, cameras, "dataset.num_episodes");
    RobotArgsMiss(follower, cameras, "dataset.single_task");
    RobotArgsMiss(follower, cameras, "resume");
    LeaderArgsMiss(leader, "dataset.repo_id");
    LeaderArgsMiss(leader, "dataset.num_episodes");
    LeaderArgsMiss(leader, "dataset.single_task");
    LeaderArgsMiss(leader, "resume");
    ArmsPrefix("lerobot-record", leader, follower, cameras, tail, "dataset.repo_id");
    ArmsPrefix("lerobot-record", leader, follower, cameras, tail, "dataset.num_episodes");
    ArmsPrefix("lerobot-record", leader, follower, cameras, tail, "dataset.single_task");
    ArmsPrefix("lerobot-record", leader, follower, cameras, tail, "resume");
  }

  /**
   * The record command built after the menu passes the given ports and
   * camera spec, the selected name under the owner's namespace, the
   * selection's resume flag, and the task and episode answers after their
   * defaults.
   */
  lemma StartFlags(leader: string, follower: string, cameras: string, sel: Selection,
                   rest: seq<string>, succeeded: bool, version: string)
    requires sel.Selected? && |rest| >= 3
    ensures FlagValue(StartRecording(leader, follower, cameras, sel, rest, succeeded, version).argv, "robot.port") == Some(follower)
    ensures FlagValue(StartRecording(leader, follower, cameras, sel, rest, succeeded, version).argv, "teleop.port") == Some(leader)
    ensures FlagValue(StartRecording(leader, follower, cameras, sel, rest, succeeded, version).argv, "robot.cameras") == Some(cameras)
    ensures FlagValue(StartRecording(leader, follower, cameras, sel, rest, succeeded, version).argv, "dataset.repo_id") == Some(RepoId(sel.name))
    ensures FlagValue(StartRecording(leader, follower, cameras, sel, rest, succeeded, version).argv, "resume") == Some(sel.resume)
    ensures FlagValue(StartRecording(leader, follower, cameras, sel, rest, succeeded, version).argv, "dataset.single_task") == Some(OrDefault(rest[0], GenericTask))
    ensures FlagValue(StartRecording(leader, follower, cameras, sel, rest, succeeded, version).argv, "dataset.num_episodes") == Some(OrDefault(rest[1], DefaultEpisodes))
  {
    var task := OrDefault(rest[0], GenericTask);
    var episodes := OrDefault(rest[1], DefaultEpisodes);
    RecordArmFlags(leader, follower, cameras, RepoId(sel.name), episodes, task, sel.resume);
    RecordDatasetFlags(leader, follower, cameras, RepoId(sel.name), episodes, task, sel.resume);
  }

  /**
   * When run_record gets as far as recording: the ports are the configured
   * ones, the repository is the selected dataset under the owner's
   * namespace, a resumed dataset is one listed, a new one has a non-empty
   * stripped name, and the task and episode count are the stripped answers
   * or their fallbacks, never blank.
   */
  lemma RecordFlags(c: Config, existing: seq<string>, answers: seq<string>, succeeded: bool, version: string)
    requires RunRecord(c, existing, answers, succeeded, version).Recording?
    ensures PortOf(c, LeaderKey).Some? && PortOf(c, FollowerKey).Some?
    ensures RecordMenu(answers, existing, 0).Some? && RecordMenu(answers, existing, 0).value.0.Selected?
    ensures FlagValue(RunRecord(c, existing, answers, succeeded, version).argv, "robot.port") == Some(c.entries[FollowerKey])
    ensures FlagValue(RunRecord(c, existing, answers, succeeded, version).argv, "teleop.port") == Some(c.entries[LeaderKey])
    ensures FlagValue(RunRecord(c, existing, answers, succeeded, version).argv, "robot.cameras") == Some(Cameras(c))
    ensures FlagValue(RunRecord(c, existing, answers, succeeded, version).argv, "dataset.repo_id")
            == Some(RepoId(RecordMenu(answers, existing, 0).value.0.name))
    ensures FlagValue(RunRecord(c, existing, answers, succeeded, version).argv, "resume")
            == Some(RecordMenu(answers, existing, 0).value.0.resume)
    ensures RecordMenu(answers, existing, 0).value.0.resume == "true" ==> RecordMenu(answers, existing, 0).value.0.name in existing
    ensures RecordMenu(answers, existing, 0).value.0.resume != "true" ==>
              RecordMenu(answers, existing, 0).value.0.resume == "false" && RecordMenu(answers, existing, 0).value.0.name != []
    ensures exists task :: FlagValue(RunRecord(c, existing, answers, succeeded, version).argv, "dataset.single_task") == Some(task) && task != [] && Trimmed(task)
    ensures exists n :: FlagValue(RunRecord(c, existing, answers, succeeded, version).argv, "dataset.num_episodes") == Some(n) && n != [] && Trimmed(n)
  {
    var menu := RecordMenu(answers, existing, 0);
    MenuSelection(answers, existing, 0);
    var rest := answers[menu.value.1..];
    var r := StartRecording(c.entries[LeaderKey], c.entries[FollowerKey], Cameras(c), menu.value.0, rest, succeeded, version);
    assert RunRecord(c, existing, answers, succeeded, version) == r;
    StartFlags(c.entries[LeaderKey], c.entries[FollowerKey], Cameras(c), menu.value.0, rest, succeeded, version);
    DefaultsTrimmed();
    var task := OrDefault(rest[0], GenericTask);
    var n := OrDefault(rest[1], DefaultEpisodes);
    assert FlagValue(r.argv, "dataset.single_task") == Some(task) && task != [] && Trimmed(task);
    assert FlagValue(r.argv, "dataset.num_episodes") == Some(n) && n != [] && Trimmed(n);
  }

  /** A tag is requested for a new dataset after a clean recording, never for a resumed one. */
  lemma RecordTagging(c: Config, existing: seq<string>, answers: seq<string>, succeeded: bool, version: string)
    requires RunRecord(c, existing, answers, succeeded, version).Recording?
    ensures RunRecord(c, existing, answers, succeeded, version).tag.Some? <==>
            succeeded && FlagValue(RunRecord(c, existing, answers, succeeded, version).argv, "resume") == Some("false")
    ensures RunRecord(c, existing, answers, succeeded, version).tag.Some? ==>
            FlagValue(RunRecord(c, existing, answers, succeeded, version).argv, "dataset.repo_id") ==
            Some(RunRecord(c, existing, answers, succeeded, version).tag.value.0)
    ensures RunRecord(c, existing, answers, succeeded, version).tag.Some? ==>
            RunRecord(c, existing, answers, succeeded, version).tag.value.1 == "v" + version
  {
    var menu := RecordMenu(answers, existing, 0);
    RecordFlags(c, existing, answers, succeeded, version);
    var rest := answers[menu.value.1..];
    assert RunRecord(c, existing, answers, succeeded, version) ==
           StartRecording(c.entries[LeaderKey], c.entries[FollowerKey], Cameras(c), menu.value.0, rest, succeeded, version);
  }

  /** The menu's cancel line ends run_record with no command. */
  lemma RecordCancel(c: Config, existing: seq<string>, rest: seq<string>, succeeded: bool, version: string)
    requires PortOf(c, LeaderKey).Some? && PortOf(c, FollowerKey).Some?
    ensures RunRecord(c, existing, [DecimalString(|existing| + 2)] + rest, succeeded, version) == RecordCancelled
  {
    CancelChoice(existing, rest);
  }

  /**
   * Resuming listed dataset k with blank task and episode answers records
   * k's repository with the fallbacks and resume=true, and requests no tag.
   */
  lemma RecordResumeDefaults(c: Config, existing: seq<string>, k: nat, succeeded: bool, version: string)
    requires PortOf(c, LeaderKey).Some? && PortOf(c, FollowerKey).Some?
    requires 1 <= k <= |existing|
    ensures RunRecord(c, existing, [DecimalString(k), "", " ", ""], succeeded, version) ==
            Recording(RecordArgv(c.entries[LeaderKey], c.entries[FollowerKey], Cameras(c), RepoId(existing[k - 1]), DefaultEpisodes, GenericTask, "true"), None)
  {
    var rest := ["", " ", ""];
    assert [DecimalString(k)] + rest == [DecimalString(k), "", " ", ""];
    ResumeMenu(c, existing, k, rest, succeeded, version);
    StartBlank(c.entries[LeaderKey], c.entries[FollowerKey], Cameras(c), existing[k - 1], succeeded, version);
  }

  /** Resuming listed dataset k goes straight on to the remaining prompts. */
  lemma ResumeMenu(c: Config, existing: seq<string>, k: nat, rest: seq<string>, succeeded: bool, version: string)
    requires PortOf(c, LeaderKey).Some? && PortOf(c, FollowerKey).Some?
    requires 1 <= k <= |existing| && |rest| >= 3
    ensures RunRecord(c, existing, [DecimalString(k)] + rest, succeeded, version) ==
            StartRecording(c.entries[LeaderKey], c.entries[FollowerKey], Cameras(c), Selected(existing[k - 1], "true"), rest, succeeded, version)
  {
    ResumeChoice(existing, k, rest);
    assert ([DecimalString(k)] + rest)[1..] == rest;
  }

  lemma StartBlank(leader: string, follower: string, cameras: string, name: string, succeeded: bool, version: string)
    ensures StartRecording(leader, follower, cameras, Selected(name, "true"), ["", " ", ""], succeeded, version) ==
            Recording(RecordArgv(leader, follower, cameras, RepoId(name), DefaultEpisodes, GenericTask, "true"), None)
  {
    BlankDefaults();
  }

  lemma BlankDefaults()
    ensures OrDefault("", GenericTask) == GenericTask
    ensures OrDefault(" ", DefaultEpisodes) == DefaultEpisodes
  {
    DefaultsTrimmed();
    assert Strip(" ") == [] by {
      assert IsSpace(" "[0]);
    }
  }
}
