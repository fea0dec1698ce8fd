/**
 * The commander's main menu and the state it keeps between choices: the
 * configuration, changed only by Find Port, and what save_config last
 * wrote to config.json and .env.
 */
module Commander {
  import opened Wrappers
  import opened Text
  import opened OrderedDict
  import opened Config
  import opened Ports
  import Commands

  /** What one save_config call writes: the object for config.json and the records of .env. */
  datatype Written = Written(json: Config, env: seq<string>)

  /** The main menu's options. */
  datatype MenuAction = FindPortAction | CalibrateAction | TeleopAction | RecordAction | Quit | InvalidOption

  /** The stripped, lower-cased answer: "1" to "4" or "q"; anything else is an invalid option. */
  function MainChoice(answer: string): (r: MenuAction)
    ensures r == Quit <==> Lower(Strip(answer)) == "q"
    ensures r == InvalidOption <==> Lower(Strip(answer)) !in {"1", "2", "3", "4", "q"}
  {
    var choice := Lower(Strip(answer));
    if choice == "1" then FindPortAction
    else if choice == "2" then CalibrateAction
    else if choice == "3" then TeleopAction
    else if choice == "4" then RecordAction
    else if choice == "q" then Quit
    else InvalidOption
  }

  /** Quitting is case-blind and ignores surrounding whitespace. */
  lemma QuitAnswer(pre: string, c: char, post: string)
    requires AllSpace(pre) && AllSpace(post) && (c == 'q' || c == 'Q')
    ensures MainChoice(pre + [c] + post) == Quit
  {
    LowerPadded(pre, c, post);
    assert [LowerChar(c)] == "q";
  }

  /** A number is compared as text: "04" is not option 4. */
  lemma NumberAnswers()
    ensures MainChoice("4") == RecordAction
    ensures MainChoice("04") == InvalidOption
  {
    StripTrimmed("4");
    StripTrimmed("04");
    assert Lower("4") == "4";
    assert Lower("04") == "04";
  }

  /** The records save_config writes for `c`, as a written pair. */
  function Saved(c: Config): Written
    requires OrderedDict.Valid(c)
  {
    Written(c, EnvLines(c))
  }

  class Commander {
    var config: Config
    /** What save_config last wrote; None until the first save. */
    var written: Option<Written>

    /** The config is a dict, and once saved the files mirror it. */
    ghost predicate Valid()
      reads this
    {
      OrderedDict.Valid(config) && (written.Some? ==> written.value == Saved(config))
    }

    /** main_menu's start: the config load_config finds, nothing written yet. */
    constructor(file: ConfigFile)
      requires file.Decoded? ==> OrderedDict.Valid(file.contents)
      ensures Valid()
      ensures config == LoadConfig(file) && written == None
    {
      config := LoadConfig(file);
      written := None;
    }

    /** save_config: both files rewritten from the config, which does not change. */
    method Save()
      requires OrderedDict.Valid(config)
      modifies this
      ensures Valid()
      ensures config == old(config)
      ensures written == Some(Saved(config))
    {
      var lines := RenderEnv(config);
      written := Some(Written(config, lines));
    }

    /**
     * Menu option 1: the port that vanished between the two listings, if
     * exactly one did and its name is not empty, is stored under the role
     * the operator assigns and saved; otherwise nothing changes.
     */
    method FindPort(before: set<Port>, after: set<Port>, roleAnswers: seq<string>) returns (role: RoleOutcome)
      requires Valid()
      modifies this
      ensures Valid()
      ensures RemovedPort(before, after).Some? && RemovedPort(before, after).value != [] ==> role == AssignedRole(roleAnswers)
      ensures RemovedPort(before, after).None? || RemovedPort(before, after).value == [] ==> role == NotAssigned
      ensures role.Assigned? ==>
                config == Set(old(config), role.key, RemovedPort(before, after).value) && written == Some(Saved(config))
      ensures !role.Assigned? ==> config == old(config) && written == old(written)
    {
      var port := RemovedPort(before, after);
      if port.None? || port.value == [] {
        return NotAssigned;
      }
      role := AssignRole(roleAnswers);
      if role.Assigned? {
        config := Set(config, role.key, port.value);
        Save();
      }
    }
  }

  /** The two .env names a port setting is written under. */
  function EnvNames(key: string): (string, string) {
    if key == LeaderKey then ("LEADER_PORT", "TELEOP_PORT") else ("FOLLOWER_PORT", "ROBOT_PORT")
  }

  /** After a port is stored under a role, the config reports that role's port as set to it. */
  lemma StoredPortSet(c: Config, key: string, port: Port)
    requires OrderedDict.Valid(c) && port != []
    ensures Commands.PortOf(Set(c, key, port), key) == Some(port)
  {
    assert Get(Set(c, key, port), key) == Some(port);
  }

  /**
   * After a port is stored under a role and saved, the .env file holds it
   * in two consecutive records, under LEADER_PORT and TELEOP_PORT for the
   * leader, FOLLOWER_PORT and ROBOT_PORT for the follower.
   */
  lemma StoredPortSaved(c: Config, key: string, port: Port)
    requires OrderedDict.Valid(c) && (key == LeaderKey || key == FollowerKey)
    ensures exists i :: 0 <= i && i + 1 < |EnvLines(Set(c, key, port))| &&
              ParseEnvLine(EnvLines(Set(c, key, port))[i]) == Some((EnvNames(key).0, port)) &&
              ParseEnvLine(EnvLines(Set(c, key, port))[i + 1]) == Some((EnvNames(key).1, port))
  {
    var d := Set(c, key, port);
    assert key in d.entries && d.entries[key] == port by {
      assert Get(d, key) == Some(port);
    }
    PortLines(d, key);
  }

  /** A stored port setting is written in two consecutive records of the .env file, under its two names. */
  lemma PortLines(d: Config, key: string)
    requires OrderedDict.Valid(d) && (key == LeaderKey || key == FollowerKey) && key in d.entries
    ensures exists i :: 0 <= i && i + 1 < |EnvLines(d)| &&
              ParseEnvLine(EnvLines(d)[i]) == Some((EnvNames(key).0, d.entries[key])) &&
              ParseEnvLine(EnvLines(d)[i + 1]) == Some((EnvNames(key).1, d.entries[key]))
  {
    var j :| 0 <= j < |d.keys| && d.keys[j] == key;
    EnvLinesAt(d, j);
    var i := |EnvLinesOf(d.keys[..j], d.entries)|;
    if key == LeaderKey {
      assert ParseEnvLine(EnvLines(d)[i]) == Some(("LEADER_PORT", d.entries[key]));
    } else {
      assert ParseEnvLine(EnvLines(d)[i]) == Some(("FOLLOWER_PORT", d.entries[key]));
    }
  }

  /** Storing a port under one role leaves the other role's port as it was. */
  lemma OtherPortKept(c: Config, key: string, port: Port)
    requires OrderedDict.Valid(c) && (key == LeaderKey || key == FollowerKey)
    ensures var other := if key == LeaderKey then FollowerKey else LeaderKey;
            Commands.PortOf(Set(c, key, port), other) == Commands.PortOf(c, other)
  {
    var other := if key == LeaderKey then FollowerKey else LeaderKey;
    assert Get(Set(c, key, port), other) == Get(c, other);
  }
}
