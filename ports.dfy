/**
 * Finding a robot arm's serial port: the port that disappears between two
 * listings (before and after unplugging), and the role the operator then
 * assigns to it.
 */
module Ports {
  import opened Wrappers
  import opened Text
  import opened Config

  /** A device path such as /dev/ttyACM0. */
  type Port = string

  lemma SingletonUnique(s: set<Port>)
    requires |s| == 1
    ensures exists p :: s == {p}
    ensures forall p, q :: p in s && q in s ==> p == q
  {
    var x :| x in s;
    assert |s - {x}| == 0;
    assert s == {x};
  }

  /**
   * The port run_clean_find_port reports: the one port that vanished, or
   * None when none or several did.
   */
  function RemovedPort(before: set<Port>, after: set<Port>): (r: Option<Port>)
    ensures r.Some? <==> |before - after| == 1
    ensures r.Some? ==> before - after == {r.value}
  {
    var removed := before - after;
    if |removed| == 1 then
      SingletonUnique(removed);
      var p :| p in removed;
      Some(p)
    else None
  }

  /** Unplugging one of the listed ports, and nothing else changing, reports exactly that port. */
  lemma UnplugOne(before: set<Port>, p: Port)
    requires p in before
    ensures RemovedPort(before, before - {p}) == Some(p)
  {
    assert before - (before - {p}) == {p};
  }

  /** A listing that did not lose a port reports none, whatever was plugged in meanwhile. */
  lemma NothingRemoved(before: set<Port>, after: set<Port>)
    requires before <= after
    ensures RemovedPort(before, after) == None
  {
    assert before - after == {};
  }

  /** What one answer to the role prompt means. */
  datatype RoleChoice = Role(key: string) | CancelRole | InvalidRole

  /** The stripped answer is compared as text: "1" leader, "2" follower, "3" cancel. */
  function DecodeRole(answer: string): RoleChoice {
    var choice := Strip(answer);
    if choice == "1" then Role(LeaderKey)
    else if choice == "2" then Role(FollowerKey)
    else if choice == "3" then CancelRole
    else InvalidRole
  }

  /** How assign_role ends: a config key, None, or the input running out (EOFError). */
  datatype RoleOutcome = Assigned(key: string) | NotAssigned | OutOfInput

  /** assign_role on the answers it is given, reprompting past invalid ones. */
  function AssignedRole(answers: seq<string>): (r: RoleOutcome)
    ensures r.Assigned? ==> r.key == LeaderKey || r.key == FollowerKey
  {
    if answers == [] then OutOfInput
    else match DecodeRole(answers[0])
      case Role(key) => Assigned(key)
      case CancelRole => NotAssigned
      case InvalidRole => AssignedRole(answers[1..])
  }

  /** assign_role, reading one answer per pass of its loop. */
  method AssignRole(answers: seq<string>) returns (r: RoleOutcome)
    ensures r == AssignedRole(answers)
  {
    var i := 0;
    while i < |answers|
      invariant i <= |answers|
      invariant AssignedRole(answers[i..]) == AssignedRole(answers)
    {
      var choice := DecodeRole(answers[i]);
      if choice.Role? {
        return Assigned(choice.key);
      } else if choice.CancelRole? {
        return NotAssigned;
      }
      assert answers[i..][1..] == answers[i + 1..];
      i := i + 1;
    }
    return OutOfInput;
  }

  /** The outcome a decisive answer gives. */
  function Settled(choice: RoleChoice): RoleOutcome
    requires !choice.InvalidRole?
  {
    if choice.Role? then Assigned(choice.key) else NotAssigned
  }

  /** The first decisive answer decides; every answer before it is ignored. */
  lemma {:induction false} FirstDecisive(answers: seq<string>, k: nat)
    requires k < |answers| && !DecodeRole(answers[k]).InvalidRole?
    requires forall j :: 0 <= j < k ==> DecodeRole(answers[j]).InvalidRole?
    ensures AssignedRole(answers) == Settled(DecodeRole(answers[k]))
  {
    if k > 0 {
      assert DecodeRole(answers[0]).InvalidRole?;
      FirstDecisive(answers[1..], k - 1);
    }
  }

  /** With no decisive answer at all, assign_role reads past the end of the input. */
  lemma {:induction false} NoDecisive(answers: seq<string>)
    requires forall j :: 0 <= j < |answers| ==> DecodeRole(answers[j]).InvalidRole?
    ensures AssignedRole(answers) == OutOfInput
  {
    if answers != [] {
      assert DecodeRole(answers[0]).InvalidRole?;
      NoDecisive(answers[1..]);
    }
  }

  /**
   * Surrounding whitespace is ignored: "1" picks the leader, "2" the
   * follower, and "3" cancels, ending assign_role with no role.
   */
  lemma RoleAnswers(pre: string, c: char, post: string, rest: seq<string>)
    requires AllSpace(pre) && AllSpace(post) && (c == '1' || c == '2' || c == '3')
    ensures c != '3' ==> DecodeRole(pre + [c] + post) == Role(if c == '1' then LeaderKey else FollowerKey)
    ensures c == '3' ==> DecodeRole(pre + [c] + post) == CancelRole
    ensures AssignedRole([pre + [c] + post] + rest) ==
            if c == '1' then Assigned(LeaderKey) else if c == '2' then Assigned(FollowerKey) else NotAssigned
  {
    StripPadding(pre, [c], post);
    if c == '1' {
      assert [c] == "1";
    } else if c == '2' {
      assert [c] != "1" && [c] == "2";
    } else {
      assert [c] != "1" && [c] != "2" && [c] == "3";
    }
    assert ([pre + [c] + post] + rest)[0] == pre + [c] + post;
  }

  /** The comparison is textual: "01" is not "1", and the prompt is asked again. */
  lemma PaddedNumberInvalid(pre: string, post: string)
    requires AllSpace(pre) && AllSpace(post)
    ensures DecodeRole(pre + "01" + post) == InvalidRole
  {
    StripPadding(pre, "01", post);
  }
}
