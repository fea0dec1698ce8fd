/**
 * The commander's configuration (config.json, a flat dict of strings) and
 * the .env file it is mirrored into: one NAME="value" record per setting,
 * each written with a newline after it, the two port settings each written
 * under two names. The model lists the records without their newlines.
 */
module Config {
  import opened Wrappers
  import opened Text
  import opened OrderedDict

  type Config = Dict<string, string>

  const LeaderKey: string := "leader_port"
  const FollowerKey: string := "follower_port"

  /** What load_config finds: no file, a file json cannot decode, or a decoded object. */
  datatype ConfigFile = Missing | Undecodable | Decoded(contents: Config)

  /** load_config: the decoded object, or an empty config when there is none. */
  function LoadConfig(file: ConfigFile): (c: Config)
    requires file.Decoded? ==> Valid(file.contents)
    ensures Valid(c)
    ensures file.Decoded? ==> c == file.contents
    ensures !file.Decoded? ==> c.keys == [] && c.entries == map[]
  {
    if file.Decoded? then file.contents else Empty()
  }

  /** One record save_config writes to .env, without the newline written after it. */
  function EnvLine(name: string, value: string): string {
    name + "=\"" + value + "\""
  }

  /** The records save_config writes for one setting. */
  function EnvLinesFor(key: string, value: string): seq<string> {
    if key == LeaderKey then [EnvLine("LEADER_PORT", value), EnvLine("TELEOP_PORT", value)]
    else if key == FollowerKey then [EnvLine("FOLLOWER_PORT", value), EnvLine("ROBOT_PORT", value)]
    else [EnvLine(Upper(key), value)]
  }

  predicate KeysIn(keys: seq<string>, entries: map<string, string>) {
    forall i :: 0 <= i < |keys| ==> keys[i] in entries
  }

  /** The records for the settings `keys`, in that order. */
  function EnvLinesOf(keys: seq<string>, entries: map<string, string>): seq<string>
    requires KeysIn(keys, entries)
  {
    if keys == [] then []
    else EnvLinesOf(keys[..|keys| - 1], entries) + EnvLinesFor(keys[|keys| - 1], entries[keys[|keys| - 1]])
  }

  /** The whole .env file, record by record. */
  function EnvLines(c: Config): seq<string>
    requires Valid(c)
  {
    EnvLinesOf(c.keys, c.entries)
  }

  /** The env-file loop of save_config. */
  method RenderEnv(c: Config) returns (lines: seq<string>)
    requires Valid(c)
    ensures lines == EnvLines(c)
  {
    lines := [];
    for i := 0 to |c.keys|
      invariant KeysIn(c.keys[..i], c.entries)
      invariant lines == EnvLinesOf(c.keys[..i], c.entries)
    {
      var key := c.keys[i];
      var value := c.entries[key];
      EnvLinesStep(c, i);
      var block: seq<string>;
      if key == LeaderKey {
        block := [EnvLine("LEADER_PORT", value), EnvLine("TELEOP_PORT", value)];
      } else if key == FollowerKey {
        block := [EnvLine("FOLLOWER_PORT", value), EnvLine("ROBOT_PORT", value)];
      } else {
        block := [EnvLine(Upper(key), value)];
      }
      lines := lines + block;
    }
    assert c.keys[..|c.keys|] == c.keys;
  }

  /** The records of one more setting follow those of the settings before it. */
  lemma EnvLinesStep(c: Config, i: nat)
    requires Valid(c) && i < |c.keys|
    ensures KeysIn(c.keys[..i], c.entries) && KeysIn(c.keys[..i + 1], c.entries)
    ensures EnvLinesOf(c.keys[..i + 1], c.entries) ==
            EnvLinesOf(c.keys[..i], c.entries) + EnvLinesFor(c.keys[i], c.entries[c.keys[i]])
  {
    assert c.keys[..i + 1][..i] == c.keys[..i];
  }

  /** The first position of `c` in `s`. */
  function IndexOf(s: string, c: char): (r: Option<nat>)
    ensures r.None? <==> c !in s
    ensures r.Some? ==> r.value < |s| && s[r.value] == c && c !in s[..r.value]
  {
    if s == [] then None
    else if s[0] == c then Some(0)
    else match IndexOf(s[1..], c)
      case None => None
      case Some(j) => assert s[..j + 1] == [s[0]] + s[1..][..j]; Some(j + 1)
  }

  /** Reading a record back: the name before the first '=', the value between the quotes after it. */
  function ParseEnvLine(line: string): Option<(string, string)> {
    match IndexOf(line, '=')
    case None => None
    case Some(j) =>
      var rest := line[j + 1..];
      if |rest| >= 2 && rest[0] == '"' && rest[|rest| - 1] == '"' then Some((line[..j], rest[1..|rest| - 1]))
      else None
  }

  /** A record whose name has no '=' reads back as that name and value, whatever the value holds. */
  lemma EnvLineRoundTrip(name: string, value: string)
    requires '=' !in name
    ensures ParseEnvLine(EnvLine(name, value)) == Some((name, value))
  {
    var line := EnvLine(name, value);
    assert line[..|name|] == name;
    assert line[|name|] == '=';
    assert IndexOf(line, '=') == Some(|name|);
    var rest := line[|name| + 1..];
    assert rest == "\"" + value + "\"";
    assert rest[1..|rest| - 1] == value;
  }

  /** The four names a port setting is written under read back as themselves. */
  lemma PortLinesRoundTrip(value: string)
    ensures ParseEnvLine(EnvLine("LEADER_PORT", value)) == Some(("LEADER_PORT", value))
    ensures ParseEnvLine(EnvLine("TELEOP_PORT", value)) == Some(("TELEOP_PORT", value))
    ensures ParseEnvLine(EnvLine("FOLLOWER_PORT", value)) == Some(("FOLLOWER_PORT", value))
    ensures ParseEnvLine(EnvLine("ROBOT_PORT", value)) == Some(("ROBOT_PORT", value))
  {
    EnvLineRoundTrip("LEADER_PORT", value);
    EnvLineRoundTrip("TELEOP_PORT", value);
    EnvLineRoundTrip("FOLLOWER_PORT", value);
    EnvLineRoundTrip("ROBOT_PORT", value);
  }

  /** How many of `keys` are port settings. */
  function PortCount(keys: seq<string>): nat {
    if keys == [] then 0
    else PortCount(keys[..|keys| - 1]) + (if keys[|keys| - 1] == LeaderKey || keys[|keys| - 1] == FollowerKey then 1 else 0)
  }

  lemma {:induction false} EnvLinesCount(keys: seq<string>, entries: map<string, string>)
    requires KeysIn(keys, entries)
    ensures |EnvLinesOf(keys, entries)| == |keys| + PortCount(keys)
  {
    if keys != [] {
      EnvLinesCount(keys[..|keys| - 1], entries);
    }
  }

  predicate Distinct(keys: seq<string>) {
    forall i, j :: 0 <= i < j < |keys| ==> keys[i] != keys[j]
  }

  lemma {:induction false} PortCountDistinct(keys: seq<string>)
    requires Distinct(keys)
    ensures PortCount(keys) == (if LeaderKey in keys then 1 else 0) + (if FollowerKey in keys then 1 else 0)
  {
    if keys != [] {
      var init := keys[..|keys| - 1];
      var last := keys[|keys| - 1];
      assert keys == init + [last];
      PortCountDistinct(init);
    }
  }

  /**
   * The .env file has one record per setting plus one more for each port
   * setting present.
   */
  lemma EnvLineCount(c: Config)
    requires Valid(c)
    ensures |EnvLines(c)| == |c.keys| + (if LeaderKey in c.entries then 1 else 0) + (if FollowerKey in c.entries then 1 else 0)
  {
    EnvLinesCount(c.keys, c.entries);
    PortCountDistinct(c.keys);
  }

  lemma {:induction false} EnvLinesAppend(a: seq<string>, b: seq<string>, entries: map<string, string>)
    requires KeysIn(a, entries) && KeysIn(b, entries)
    ensures KeysIn(a + b, entries)
    ensures EnvLinesOf(a + b, entries) == EnvLinesOf(a, entries) + EnvLinesOf(b, entries)
    decreases |b|
  {
    assert KeysIn(a + b, entries) by {
      forall i | 0 <= i < |a + b| ensures (a + b)[i] in entries {
        if i >= |a| { assert (a + b)[i] == b[i - |a|]; }
      }
    }
    if b == [] {
      assert a + b == a;
    } else {
      var init := b[..|b| - 1];
      assert (a + b)[..|a + b| - 1] == a + init;
      assert KeysIn(init, entries);
      EnvLinesAppend(a, init, entries);
    }
  }

  /**
   * Records follow the config's key order: the records of the i-th setting
   * sit between those of the settings before it and those after it.
   */
  lemma EnvKeyBlock(c: Config, i: nat)
    requires Valid(c) && i < |c.keys|
    ensures KeysIn(c.keys[..i], c.entries) && KeysIn(c.keys[i + 1..], c.entries)
    ensures EnvLines(c) == EnvLinesOf(c.keys[..i], c.entries)
                           + EnvLinesFor(c.keys[i], c.entries[c.keys[i]])
                           + EnvLinesOf(c.keys[i + 1..], c.entries)
  {
    var pre := c.keys[..i];
    var post := c.keys[i + 1..];
    var one := [c.keys[i]];
    assert KeysIn(pre, c.entries) && KeysIn(post, c.entries) && KeysIn(one, c.entries);
    assert c.keys == pre + one + post;
    assert one[..0] == [];
    assert EnvLinesOf(one, c.entries) == EnvLinesFor(c.keys[i], c.entries[c.keys[i]]);
    EnvLinesAppend(pre, one, c.entries);
    EnvLinesAppend(pre + one, post, c.entries);
  }

  /**
   * What the i-th setting's records read back as, at their place in the
   * file: a leader port as LEADER_PORT then TELEOP_PORT, a follower port as
   * FOLLOWER_PORT then ROBOT_PORT, anything else as its upper-cased key.
   */
  lemma EnvLinesAt(c: Config, i: nat)
    requires Valid(c) && i < |c.keys| && '=' !in c.keys[i]
    ensures KeysIn(c.keys[..i], c.entries)
    ensures |EnvLinesOf(c.keys[..i], c.entries)| < |EnvLines(c)|
    ensures c.keys[i] == LeaderKey ==>
              |EnvLinesOf(c.keys[..i], c.entries)| + 1 < |EnvLines(c)| &&
              ParseEnvLine(EnvLines(c)[|EnvLinesOf(c.keys[..i], c.entries)|]) == Some(("LEADER_PORT", c.entries[c.keys[i]])) &&
              ParseEnvLine(EnvLines(c)[|EnvLinesOf(c.keys[..i], c.entries)| + 1]) == Some(("TELEOP_PORT", c.entries[c.keys[i]]))
    ensures c.keys[i] == FollowerKey ==>
              |EnvLinesOf(c.keys[..i], c.entries)| + 1 < |EnvLines(c)| &&
              ParseEnvLine(EnvLines(c)[|EnvLinesOf(c.keys[..i], c.entries)|]) == Some(("FOLLOWER_PORT", c.entries[c.keys[i]])) &&
              ParseEnvLine(EnvLines(c)[|EnvLinesOf(c.keys[..i], c.entries)| + 1]) == Some(("ROBOT_PORT", c.entries[c.keys[i]]))
    ensures c.keys[i] != LeaderKey && c.keys[i] != FollowerKey ==>
              ParseEnvLine(EnvLines(c)[|EnvLinesOf(c.keys[..i], c.entries)|]) == Some((Upper(c.keys[i]), c.entries[c.keys[i]]))
  {
    var key := c.keys[i];
    var value := c.entries[key];
    EnvKeyBlock(c, i);
    var pre := EnvLinesOf(c.keys[..i], c.entries);
    var block := EnvLinesFor(key, value);
    assert EnvLines(c)[|pre|] == block[0];
    if key == LeaderKey {
      assert EnvLines(c)[|pre| + 1] == block[1];
      PortLinesRoundTrip(value);
    } else if key == FollowerKey {
      assert EnvLines(c)[|pre| + 1] == block[1];
      PortLinesRoundTrip(value);
    } else {
      EnvLineRoundTrip(Upper(key), value);
    }
  }
}
