/**
 * Reading the paraphrases out of a chat-completion reply
 * (generate_augmented_tasks): split the reply into lines, drop blank lines,
 * strip each remaining line and its bullet marker, keep the first
 * `numAugs` items.
 */
module Variations {
  import opened Text

  /** The default number of paraphrases asked for (num_augs=3). */
  const DefaultCount: int := 3

  /** The characters stripped from the front of a line as a bullet marker. */
  const BulletChars: set<char> := {'-', ' '}

  /** What the chat call yields: the reply text, or nothing (the call raised, or the reply had no content). */
  datatype Reply = Content(text: string) | NoReply

  predicate IsBlank(line: string) {
    Strip(line) == []
  }

  /** line.strip().lstrip('- ').strip() */
  function CleanLine(line: string): (item: string)
    ensures Trimmed(item)
  {
    Strip(LStripChars(Strip(line), BulletChars))
  }

  /** What one line contributes: nothing if it is blank, else its cleaned item. */
  function LineItem(line: string): seq<string> {
    if IsBlank(line) then [] else [CleanLine(line)]
  }

  /** The list comprehension: one item per non-blank line, in order. */
  function Items(lines: seq<string>): seq<string> {
    if lines == [] then [] else LineItem(lines[0]) + Items(lines[1..])
  }

  /** Python's slice xs[:n], including a negative n. */
  function Take<T>(xs: seq<T>, n: int): (r: seq<T>)
    ensures r <= xs
    ensures 0 <= n ==> |r| == if n < |xs| then n else |xs|
    ensures n < 0 ==> |r| == if -n < |xs| then |xs| + n else 0
  {
    if n >= |xs| then xs
    else if n >= 0 then xs[..n]
    else if -n >= |xs| then []
    else xs[..|xs| + n]
  }

  /** variations = [...][:num_augs] for the reply text `content`. */
  function ParseReply(content: string, numAugs: int): seq<string> {
    Take(Items(Split(content, '\n')), numAugs)
  }

  /** What generate_augmented_tasks returns for a given outcome of the chat call. */
  function Generate(reply: Reply, numAugs: int): seq<string> {
    match reply
    case Content(text) => ParseReply(text, numAugs)
    case NoReply => []
  }

  /** The number of non-blank lines. */
  function NonBlankCount(lines: seq<string>): nat {
    if lines == [] then 0 else (if IsBlank(lines[0]) then 0 else 1) + NonBlankCount(lines[1..])
  }

  /** Items are taken line by line: the items of a concatenation are the concatenated items. */
  lemma {:induction false} ItemsConcat(a: seq<string>, b: seq<string>)
    ensures Items(a + b) == Items(a) + Items(b)
  {
    if a != [] {
      assert (a + b)[0] == a[0];
      assert (a + b)[1..] == a[1..] + b;
      ItemsConcat(a[1..], b);
      assert Items(a + b) == LineItem(a[0]) + Items(a[1..] + b);
    } else {
      assert a + b == b;
    }
  }

  /** A blank line contributes no item, wherever it stands. */
  lemma BlankLineIgnored(a: seq<string>, blank: string, b: seq<string>)
    requires IsBlank(blank)
    ensures Items(a + [blank] + b) == Items(a + b)
  {
    ItemsConcat(a + [blank], b);
    ItemsConcat(a, [blank]);
    ItemsConcat(a, b);
  }

  /** One item for each non-blank line. */
  lemma {:induction false} ItemsCount(lines: seq<string>)
    ensures |Items(lines)| == NonBlankCount(lines)
  {
    if lines != [] {
      ItemsCount(lines[1..]);
      assert |LineItem(lines[0])| == if IsBlank(lines[0]) then 0 else 1;
    }
  }

  /** Every item is stripped at both ends. */
  lemma {:induction false} ItemsTrimmed(lines: seq<string>)
    ensures forall k :: 0 <= k < |Items(lines)| ==> Trimmed(Items(lines)[k])
  {
    if lines != [] {
      ItemsTrimmed(lines[1..]);
      assert forall k :: 0 <= k < |LineItem(lines[0])| ==> Trimmed(LineItem(lines[0])[k]);
    }
  }

  /**
   * The parsed reply: at most numAugs items (exactly numAugs when the reply
   * has that many non-blank lines), each stripped at both ends, in the order
   * of the reply's lines.
   */
  lemma ParseReplyShape(content: string, numAugs: int)
    requires 0 <= numAugs
    ensures var lines := Split(content, '\n');
            && |ParseReply(content, numAugs)| == (if numAugs < NonBlankCount(lines) then numAugs else NonBlankCount(lines))
            && ParseReply(content, numAugs) <= Items(lines)
            && forall k :: 0 <= k < |ParseReply(content, numAugs)| ==> Trimmed(ParseReply(content, numAugs)[k])
  {
    var lines := Split(content, '\n');
    ItemsCount(lines);
    ItemsTrimmed(lines);
    var r := ParseReply(content, numAugs);
    assert forall k :: 0 <= k < |r| ==> r[k] == Items(lines)[k];
  }

  /** generate_augmented_tasks never returns more than it was asked for. */
  lemma GenerateBound(reply: Reply, numAugs: int)
    requires 0 <= numAugs
    ensures |Generate(reply, numAugs)| <= numAugs
  {
    if reply.Content? {
      ParseReplyShape(reply.text, numAugs);
    }
  }

  /** A reply made only of blank lines yields nothing. */
  lemma BlankReply(content: string, numAugs: int)
    requires forall c :: c in content ==> IsSpace(c)
    ensures ParseReply(content, numAugs) == []
  {
    NoItems(content);
  }

  /** A reply made only of blank lines has no items. */
  lemma NoItems(content: string)
    requires forall c :: c in content ==> IsSpace(c)
    ensures Items(Split(content, '\n')) == []
  {
    var lines := Split(content, '\n');
    JoinSplit(content, '\n');
    AllBlank(lines, content);
    ItemsCount(lines);
  }

  lemma {:induction false} AllBlank(lines: seq<string>, content: string)
    requires |lines| >= 1 && Join(lines, '\n') == content
    requires forall c :: c in content ==> IsSpace(c)
    ensures NonBlankCount(lines) == 0
  {
    assert content == lines[0] + (if |lines| == 1 then [] else ['\n'] + Join(lines[1..], '\n'));
    assert forall c :: c in lines[0] ==> c in content;
    assert forall i :: 0 <= i < |lines[0]| ==> IsSpace(lines[0][i]) by {
      forall i | 0 <= i < |lines[0]| ensures IsSpace(lines[0][i]) {
        assert lines[0][i] in lines[0];
      }
    }
    if |lines| > 1 {
      var rest := Join(lines[1..], '\n');
      assert forall c :: c in rest ==> c in content;
      AllBlank(lines[1..], rest);
    }
  }

  /**
   * When a line holds no whitespace other than plain spaces, its item does
   * not start with the bullet marker '-'.
   */
  lemma NoDashUnlessOtherWhitespace(line: string)
    requires forall i :: 0 <= i < |line| && IsSpace(line[i]) ==> line[i] == ' '
    ensures CleanLine(line) == [] || CleanLine(line)[0] != '-'
  {
    var a := Strip(line);
    var b := LStripChars(a, BulletChars);
    LStripCharsSuffix(a, BulletChars);
    forall i | 0 <= i < |a| && IsSpace(a[i]) ensures a[i] == ' ' {
      StripInfix(line);
      assert a[i] in a;
      var j :| 0 <= j < |line| && line[j] == a[i];
    }
    if b != [] {
      assert b[0] == a[|a| - |b|];
      assert !IsSpace(b[0]);
      assert CleanLine(line) == RStrip(LStrip(b));
      assert LStrip(b) == b;
    }
  }

  /** Every character of s.strip() is a character of s. */
  lemma StripInfix(s: string)
    ensures forall c :: c in Strip(s) ==> c in s
  {
    var l := LStrip(s);
    var r := RStrip(l);
    LStripSuffix(s);
    forall c | c in r ensures c in s {
      var i :| 0 <= i < |r| && r[i] == c;
      assert l[i] == c;
      assert s[|s| - |l| + i] == c;
    }
  }

  /**
   * With a tab after the bullet, a second dash survives: "-\t-" followed by
   * a word gives "-" followed by the word.
   */
  lemma TabAfterBullet(word: string)
    requires word != [] && Trimmed(word)
    ensures CleanLine(['-', '\t', '-'] + word) == ['-'] + word
  {
    var line := ['-', '\t', '-'] + word;
    assert line[|line| - 1] == word[|word| - 1];
    StripTrimmed(line);
    DropBullet(word);
    DropTab(word);
    DashWordTrimmed(word);
  }

  lemma DropBullet(word: string)
    ensures LStripChars(['-', '\t', '-'] + word, BulletChars) == ['\t', '-'] + word
  {
    assert (['-', '\t', '-'] + word)[1..] == ['\t', '-'] + word;
  }

  lemma DropTab(word: string)
    requires word != [] && Trimmed(word)
    ensures Strip(['\t', '-'] + word) == Strip(['-'] + word)
  {
    assert (['\t', '-'] + word)[1..] == ['-'] + word;
  }

  lemma DashWordTrimmed(word: string)
    requires word != [] && Trimmed(word)
    ensures Strip(['-'] + word) == ['-'] + word
  {
    var d := ['-'] + word;
    assert d[|d| - 1] == word[|word| - 1];
    StripTrimmed(d);
  }

  /** A bare bullet gives an empty item: "-" parses to [""]. */
  lemma BareBullet()
    ensures ParseReply("-", DefaultCount) == [""]
  {
    var s := "-";
    assert s[1..] == [];
    var rest := Split(s[1..], '\n');
    assert rest == [[]];
    assert s[0] != '\n';
    assert Split(s, '\n') == [[s[0]] + rest[0]] + rest[1..];
    assert rest[1..] == [];
    assert [s[0]] + rest[0] == "-";
    assert Split(s, '\n') == ["-"];
    StripTrimmed(s);
    assert !IsBlank(s);
    assert s[0] in BulletChars;
    assert LStripChars(s, BulletChars) == LStripChars([], BulletChars) == "";
    assert Items(["-"]) == LineItem("-") + Items([]);
  }
}
