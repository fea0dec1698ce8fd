/**
 * Building the augmentation cache: for every task of the task mapping, the
 * list of task strings that augment_batch later emits for it, the original
 * first. Two builders exist: the unattended one asks the model once per
 * task and keeps whatever it returns; the interactive one shows each
 * proposal and lets the operator accept it (the default), reject it (keep
 * the original only) or retry (ask the model again).
 */
module TaskCache {
  import opened Wrappers
  import opened Text
  import opened OrderedDict
  import opened Variations
  import opened Augment

  /** The task mapping: task index -> task description, in file order. */
  type TaskMapping = Dict<Value, string>

  /** The cache as a dict: task index -> original followed by its variations. */
  type CacheDict = Dict<Value, seq<string>>

  /** What the cache holds for a task once the model's variations are kept. */
  function Accepted(original: string, reply: Reply): seq<string> {
    [original] + Generate(reply, DefaultCount)
  }

  /** The first m tasks of the mapping are cached, in order, each with the reply of the same position. */
  ghost predicate PrecomputedUpTo(mapping: TaskMapping, replies: seq<Reply>, cache: CacheDict, m: nat)
    requires m <= |mapping.keys| && m <= |replies|
  {
    && Valid(cache)
    && cache.keys == mapping.keys[..m]
    && forall k :: 0 <= k < m ==>
         mapping.keys[k] in cache.entries && mapping.keys[k] in mapping.entries &&
         cache.entries[mapping.keys[k]] == Accepted(mapping.entries[mapping.keys[k]], replies[k])
  }

  /** A cache holding the first m keys of the mapping does not hold the next one. */
  lemma NextKeyFresh<V>(mapping: TaskMapping, cache: Dict<Value, V>, m: nat)
    requires Valid(mapping) && Valid(cache) && m < |mapping.keys| && cache.keys == mapping.keys[..m]
    ensures mapping.keys[m] in mapping.entries && mapping.keys[m] !in cache.entries
  {
  }

  /** Caching task m keeps the first m entries and extends the order by one key. */
  lemma PrecomputedStep(mapping: TaskMapping, replies: seq<Reply>, cache: CacheDict, m: nat)
    requires Valid(mapping) && m < |mapping.keys| && m < |replies|
    requires PrecomputedUpTo(mapping, replies, cache, m)
    ensures mapping.keys[m] in mapping.entries && mapping.keys[m] !in cache.entries
    ensures PrecomputedUpTo(mapping, replies,
              Set(cache, mapping.keys[m], Accepted(mapping.entries[mapping.keys[m]], replies[m])), m + 1)
  {
    var id := mapping.keys[m];
    NextKeyFresh(mapping, cache, m);
    var entry := Accepted(mapping.entries[id], replies[m]);
    StepKeys(mapping.keys, cache, m, entry);
    StepEntries(mapping, replies, cache, m);
  }

  /** Setting the next key extends the cache's order by that key. */
  lemma StepKeys<V>(keys: seq<Value>, cache: Dict<Value, V>, m: nat, entry: V)
    requires Valid(cache) && m < |keys| && cache.keys == keys[..m] && keys[m] !in cache.entries
    ensures Set(cache, keys[m], entry).keys == keys[..m + 1]
  {
    assert keys[..m + 1] == keys[..m] + [keys[m]];
  }

  /** Setting the next key keeps the cached entries of the keys before it. */
  lemma StepEntries(mapping: TaskMapping, replies: seq<Reply>, cache: CacheDict, m: nat)
    requires m < |mapping.keys| && m < |replies| && mapping.keys[m] in mapping.entries
    requires Valid(cache) && mapping.keys[m] !in cache.entries
    requires forall k :: 0 <= k < m ==>
               mapping.keys[k] in cache.entries && mapping.keys[k] in mapping.entries &&
               cache.entries[mapping.keys[k]] == Accepted(mapping.entries[mapping.keys[k]], replies[k])
    ensures var next := Set(cache, mapping.keys[m], Accepted(mapping.entries[mapping.keys[m]], replies[m]));
            forall k :: 0 <= k < m + 1 ==>
              mapping.keys[k] in next.entries && mapping.keys[k] in mapping.entries &&
              next.entries[mapping.keys[k]] == Accepted(mapping.entries[mapping.keys[k]], replies[k])
  {
    var entry := Accepted(mapping.entries[mapping.keys[m]], replies[m]);
    var expected := seq(m + 1, k requires 0 <= k < m + 1 && mapping.keys[k] in mapping.entries =>
                              Accepted(mapping.entries[mapping.keys[k]], replies[k]));
    SetKeeps(mapping.keys, expected, cache, m, entry);
  }

  /**
   * Setting the next key to its expected value keeps the keys before it at
   * theirs.
   */
  lemma SetKeeps<V>(keys: seq<Value>, expected: seq<V>, cache: Dict<Value, V>, m: nat, v: V)
    requires Valid(cache) && m < |keys| && m < |expected| && keys[m] !in cache.entries && expected[m] == v
    requires forall k :: 0 <= k < m ==> keys[k] in cache.entries && cache.entries[keys[k]] == expected[k]
    ensures forall k :: 0 <= k < m + 1 ==>
              keys[k] in Set(cache, keys[m], v).entries && Set(cache, keys[m], v).entries[keys[k]] == expected[k]
  {
    var next := Set(cache, keys[m], v);
    forall k | 0 <= k < m + 1
      ensures keys[k] in next.entries && next.entries[keys[k]] == expected[k]
    {
      if k < m {
        OtherKeyKept(cache, keys[m], v, keys[k]);
      } else {
        assert Get(next, keys[m]) == Some(v);
      }
    }
  }

  /** Setting one key leaves a stored key and its value in place. */
  lemma OtherKeyKept<V>(d: Dict<Value, V>, k: Value, v: V, other: Value)
    requires Valid(d) && other != k && other in d.entries
    ensures other in Set(d, k, v).entries && Set(d, k, v).entries[other] == d.entries[other]
  {
    assert Get(Set(d, k, v), other) == Get(d, other);
  }

  /**
   * precompute_augmentations: one model reply per task, in mapping order;
   * replies[k] is the reply for the k-th task.
   */
  method PrecomputeAugmentations(mapping: TaskMapping, replies: seq<Reply>) returns (cache: CacheDict)
    requires Valid(mapping)
    requires |mapping.keys| <= |replies|
    ensures PrecomputedUpTo(mapping, replies, cache, |mapping.keys|)
  {
    cache := Empty();
    var i := 0;
    while i < |mapping.keys|
      invariant i <= |mapping.keys|
      invariant PrecomputedUpTo(mapping, replies, cache, i)
    {
      cache := CacheTask(mapping, replies, cache, i);
      i := i + 1;
    }
    assert mapping.keys[..i] == mapping.keys;
  }

  /** One pass of precompute_augmentations' loop: the m-th task is cached with the variations of the m-th reply. */
  method CacheTask(mapping: TaskMapping, replies: seq<Reply>, cache: CacheDict, m: nat) returns (next: CacheDict)
    requires Valid(mapping) && m < |mapping.keys| && m < |replies|
    requires PrecomputedUpTo(mapping, replies, cache, m)
    ensures PrecomputedUpTo(mapping, replies, next, m + 1)
  {
    PrecomputedStep(mapping, replies, cache, m);
    var id := mapping.keys[m];
    var variations := Generate(replies[m], DefaultCount);
    next := Set(cache, id, [mapping.entries[id]] + variations);
  }

  /** Every cached list starts with the task's own description and holds at most DefaultCount variations. */
  lemma PrecomputedEntries(mapping: TaskMapping, replies: seq<Reply>, cache: CacheDict)
    requires Valid(mapping) && |mapping.keys| <= |replies|
    requires PrecomputedUpTo(mapping, replies, cache, |mapping.keys|)
    ensures Valid(cache) && cache.entries.Keys == mapping.entries.Keys
    ensures forall v :: v in cache.entries ==>
              |cache.entries[v]| >= 1 && cache.entries[v][0] == mapping.entries[v] &&
              |cache.entries[v]| <= 1 + DefaultCount
  {
    assert cache.keys == mapping.keys by {
      assert mapping.keys[..|mapping.keys|] == mapping.keys;
    }
    forall v | v in cache.entries
      ensures v in mapping.entries && |cache.entries[v]| >= 1 && cache.entries[v][0] == mapping.entries[v]
      ensures |cache.entries[v]| <= 1 + DefaultCount
    {
      var k :| 0 <= k < |cache.keys| && cache.keys[k] == v;
      CachedAt(mapping, replies, cache, k);
    }
    SameKeys(cache, mapping);
  }

  /** The k-th cached entry starts with the k-th task's description and holds at most DefaultCount variations. */
  lemma CachedAt(mapping: TaskMapping, replies: seq<Reply>, cache: CacheDict, k: nat)
    requires |mapping.keys| <= |replies| && k < |mapping.keys|
    requires PrecomputedUpTo(mapping, replies, cache, |mapping.keys|)
    ensures mapping.keys[k] in mapping.entries && mapping.keys[k] in cache.entries
    ensures var e := cache.entries[mapping.keys[k]];
            |e| >= 1 && e[0] == mapping.entries[mapping.keys[k]] && |e| <= 1 + DefaultCount
  {
    GenerateBound(replies[k], DefaultCount);
  }

  /** One pass of the review loop: the model's reply, then the operator's answer. */
  datatype Round = Round(reply: Reply, answer: string)

  /** What the operator's answer does to the task under review. */
  datatype Verdict = Retry | Keep(entry: seq<string>)

  /** The answer is read stripped and lower-cased; anything but r or n accepts. */
  function Decide(answer: string, original: string, variations: seq<string>): Verdict {
    var choice := Lower(Strip(answer));
    if choice == "r" then Retry
    else if choice == "n" then Keep([original])
    else Keep([original] + variations)
  }

  /** An answer that asks the model again. */
  predicate AsksAgain(answer: string) {
    Lower(Strip(answer)) == "r"
  }

  /** An answer that keeps the proposed variations. */
  predicate Accepts(answer: string) {
    Lower(Strip(answer)) != "r" && Lower(Strip(answer)) != "n"
  }

  /**
   * The round that settles a task whose review starts at round pos: the
   * first one from pos on whose answer is not r, or None when every
   * remaining answer is r.
   */
  function SettlingRound(rounds: seq<Round>, pos: nat): (r: Option<nat>)
    requires pos <= |rounds|
    ensures r.Some? ==> pos <= r.value < |rounds| && !AsksAgain(rounds[r.value].answer)
    ensures r.Some? ==> forall p :: pos <= p < r.value ==> AsksAgain(rounds[p].answer)
    ensures r.None? ==> forall p :: pos <= p < |rounds| ==> AsksAgain(rounds[p].answer)
    decreases |rounds| - pos
  {
    if pos == |rounds| then None
    else if !AsksAgain(rounds[pos].answer) then Some(pos)
    else SettlingRound(rounds, pos + 1)
  }

  /** What the operator keeps at a round that settles the task. */
  function Kept(original: string, round: Round): seq<string>
    requires !AsksAgain(round.answer)
  {
    Decide(round.answer, original, Generate(round.reply, DefaultCount)).entry
  }

  /**
   * The review of one task, starting at round pos: the list kept for it
   * and the round after the one that settled it, or None when the input
   * ends first.
   */
  function ReviewTask(original: string, rounds: seq<Round>, pos: nat): (r: Option<(seq<string>, nat)>)
    requires pos <= |rounds|
    ensures r.Some? ==> pos < r.value.1 <= |rounds|
    ensures r.None? <==> SettlingRound(rounds, pos).None?
  {
    match SettlingRound(rounds, pos)
    case None => None
    case Some(k) => Some((Kept(original, rounds[k]), k + 1))
  }

  /** A task settled at round `settled.1 - 1` kept its original alone or that round's proposal. */
  predicate KeptOne(original: string, rounds: seq<Round>, settled: (seq<string>, nat)) {
    0 < settled.1 <= |rounds| && (settled.0 == [original] || settled.0 == Accepted(original, rounds[settled.1 - 1].reply))
  }

  /** A settled task keeps either its original alone or the proposal of the round that settled it. */
  lemma ReviewTaskKept(original: string, rounds: seq<Round>, pos: nat)
    requires pos <= |rounds| && ReviewTask(original, rounds, pos).Some?
    ensures KeptOne(original, rounds, ReviewTask(original, rounds, pos).value)
  {
    var k := SettlingRound(rounds, pos).value;
    ReviewTaskAt(original, rounds, pos, k);
    KeptEither(original, rounds, k);
  }

  /** A review settled at round k keeps what that round keeps and resumes after it. */
  lemma ReviewTaskAt(original: string, rounds: seq<Round>, pos: nat, k: nat)
    requires pos <= |rounds| && SettlingRound(rounds, pos) == Some(k)
    ensures k < |rounds| && !AsksAgain(rounds[k].answer)
    ensures ReviewTask(original, rounds, pos) == Some((Kept(original, rounds[k]), k + 1))
  {
  }

  /** A round whose answer is not r keeps the original alone or the original and that round's variations. */
  lemma KeptEither(original: string, rounds: seq<Round>, k: nat)
    requires k < |rounds| && !AsksAgain(rounds[k].answer)
    ensures KeptOne(original, rounds, (Kept(original, rounds[k]), k + 1))
  {
    DecideKeeps(rounds[k].answer, original, Generate(rounds[k].reply, DefaultCount));
  }

  /** An answer other than r keeps the original alone or the original and the variations. */
  lemma DecideKeeps(answer: string, original: string, variations: seq<string>)
    requires !AsksAgain(answer)
    ensures Decide(answer, original, variations).Keep?
    ensures Decide(answer, original, variations).entry == [original] ||
            Decide(answer, original, variations).entry == [original] + variations
  {
  }

  /** What a settled task keeps is headed by the task's own description and holds at most DefaultCount variations. */
  lemma KeptShape(original: string, rounds: seq<Round>, settled: (seq<string>, nat))
    requires KeptOne(original, rounds, settled)
    ensures |settled.0| >= 1 && settled.0[0] == original && |settled.0| <= 1 + DefaultCount
  {
    GenerateBound(rounds[settled.1 - 1].reply, DefaultCount);
  }

  /** The review of the tasks from the i-th on, the rounds from pos on, onto the cache built so far. */
  function ReviewFrom(mapping: TaskMapping, rounds: seq<Round>, i: nat, pos: nat, cache: CacheDict): Option<CacheDict>
    requires Valid(mapping) && Valid(cache) && i <= |mapping.keys| && pos <= |rounds|
    decreases |mapping.keys| - i
  {
    if i == |mapping.keys| then Some(cache)
    else match ReviewTask(mapping.entries[mapping.keys[i]], rounds, pos)
      case None => None
      case Some((entry, next)) => ReviewFrom(mapping, rounds, i + 1, next, Set(cache, mapping.keys[i], entry))
  }

  /** The cache review_augmentations returns, or None when the input ends (EOFError). */
  function Review(mapping: TaskMapping, rounds: seq<Round>): Option<CacheDict>
    requires Valid(mapping)
  {
    ReviewFrom(mapping, rounds, 0, 0, Empty())
  }

  /** Settling task i moves the review on to task i + 1. */
  lemma ReviewFromStep(mapping: TaskMapping, rounds: seq<Round>, i: nat, pos: nat, cache: CacheDict)
    requires Valid(mapping) && Valid(cache) && i < |mapping.keys| && pos <= |rounds|
    requires ReviewTask(mapping.entries[mapping.keys[i]], rounds, pos).Some?
    ensures ReviewFrom(mapping, rounds, i, pos, cache) ==
            ReviewFrom(mapping, rounds, i + 1, ReviewTask(mapping.entries[mapping.keys[i]], rounds, pos).value.1,
                       Set(cache, mapping.keys[i], ReviewTask(mapping.entries[mapping.keys[i]], rounds, pos).value.0))
  {
  }

  /**
   * The retry loop for one task: propose, read the answer, and go round
   * again on r. None when the input ends before the task is settled.
   */
  method ReviewOne(task: string, rounds: seq<Round>, start: nat) returns (r: Option<(seq<string>, nat)>)
    requires start <= |rounds|
    ensures r == ReviewTask(task, rounds, start)
  {
    var pos := start;
    while true
      invariant start <= pos <= |rounds|
      invariant SettlingRound(rounds, pos) == SettlingRound(rounds, start)
      decreases |rounds| - pos
    {
      if pos == |rounds| {
        return None;
      }
      var variations := Generate(rounds[pos].reply, DefaultCount);
      var verdict := Decide(rounds[pos].answer, task, variations);
      pos := pos + 1;
      if verdict.Keep? {
        return Some((verdict.entry, pos));
      }
    }
  }

  /** review_augmentations, reading its rounds in order. */
  method ReviewAugmentations(mapping: TaskMapping, rounds: seq<Round>) returns (r: Option<CacheDict>)
    requires Valid(mapping)
    ensures r == Review(mapping, rounds)
  {
    var cache: CacheDict := Empty();
    var pos: nat := 0;
    for i := 0 to |mapping.keys|
      invariant pos <= |rounds| && Valid(cache)
      invariant ReviewFrom(mapping, rounds, i, pos, cache) == Review(mapping, rounds)
    {
      var id := mapping.keys[i];
      var settled := ReviewOne(mapping.entries[id], rounds, pos);
      if settled.None? {
        return None;
      }
      ReviewFromStep(mapping, rounds, i, pos, cache);
      cache := Set(cache, id, settled.value.0);
      pos := settled.value.1;
    }
    return Some(cache);
  }

  /** The first i tasks are reviewed: cached in order, each list headed by its task and no longer than an accepted one. */
  ghost predicate ReviewedUpTo(mapping: TaskMapping, cache: CacheDict, i: nat)
    requires i <= |mapping.keys|
  {
    && Valid(cache)
    && cache.keys == mapping.keys[..i]
    && forall k :: 0 <= k < i ==>
         mapping.keys[k] in cache.entries && mapping.keys[k] in mapping.entries &&
         |cache.entries[mapping.keys[k]]| >= 1 &&
         cache.entries[mapping.keys[k]][0] == mapping.entries[mapping.keys[k]] &&
         |cache.entries[mapping.keys[k]]| <= 1 + DefaultCount
  }

  lemma ReviewedStep(mapping: TaskMapping, cache: CacheDict, i: nat, entry: seq<string>)
    requires Valid(mapping) && i < |mapping.keys| && ReviewedUpTo(mapping, cache, i)
    requires |entry| >= 1 && entry[0] == mapping.entries[mapping.keys[i]] && |entry| <= 1 + DefaultCount
    ensures ReviewedUpTo(mapping, Set(cache, mapping.keys[i], entry), i + 1)
  {
    var id := mapping.keys[i];
    NextKeyFresh(mapping, cache, i);
    StepKeys(mapping.keys, cache, i, entry);
    var next := Set(cache, id, entry);
    forall k | 0 <= k < i + 1
      ensures mapping.keys[k] in next.entries && mapping.keys[k] in mapping.entries
      ensures |next.entries[mapping.keys[k]]| >= 1 && |next.entries[mapping.keys[k]]| <= 1 + DefaultCount
      ensures next.entries[mapping.keys[k]][0] == mapping.entries[mapping.keys[k]]
    {
      if k < i {
        OtherKeyKept(cache, id, entry, mapping.keys[k]);
      } else {
        assert Get(next, id) == Some(entry);
      }
    }
  }

  lemma {:induction false} ReviewFromShape(mapping: TaskMapping, rounds: seq<Round>, i: nat, pos: nat, cache: CacheDict)
    requires Valid(mapping) && Valid(cache) && i <= |mapping.keys| && pos <= |rounds|
    requires ReviewedUpTo(mapping, cache, i)
    requires ReviewFrom(mapping, rounds, i, pos, cache).Some?
    ensures ReviewedUpTo(mapping, ReviewFrom(mapping, rounds, i, pos, cache).value, |mapping.keys|)
    decreases |mapping.keys| - i
  {
    if i < |mapping.keys| {
      var original := mapping.entries[mapping.keys[i]];
      var r := ReviewTask(original, rounds, pos);
      var entry := r.value.0;
      ReviewTaskKept(original, rounds, pos);
      KeptShape(original, rounds, r.value);
      ReviewedStep(mapping, cache, i, entry);
      ReviewFromShape(mapping, rounds, i + 1, r.value.1, Set(cache, mapping.keys[i], entry));
    }
  }

  /**
   * A completed review caches every task of the mapping, in mapping order,
   * each list headed by the task's own description and holding at most
   * DefaultCount variations.
   */
  lemma ReviewShape(mapping: TaskMapping, rounds: seq<Round>)
    requires Valid(mapping) && Review(mapping, rounds).Some?
    ensures Valid(Review(mapping, rounds).value) && Review(mapping, rounds).value.keys == mapping.keys
    ensures forall v :: v in Review(mapping, rounds).value.entries ==>
              v in mapping.entries &&
              |Review(mapping, rounds).value.entries[v]| >= 1 &&
              Review(mapping, rounds).value.entries[v][0] == mapping.entries[v] &&
              |Review(mapping, rounds).value.entries[v]| <= 1 + DefaultCount
  {
    ReviewFromShape(mapping, rounds, 0, 0, Empty());
    ReviewedAll(mapping, Review(mapping, rounds).value);
  }

  /** A cache reviewed up to the last task holds every task, each with a list of the right shape. */
  lemma ReviewedAll(mapping: TaskMapping, c: CacheDict)
    requires Valid(mapping) && ReviewedUpTo(mapping, c, |mapping.keys|)
    ensures Valid(c) && c.keys == mapping.keys
    ensures forall v :: v in c.entries ==>
              v in mapping.entries && |c.entries[v]| >= 1 && c.entries[v][0] == mapping.entries[v] &&
              |c.entries[v]| <= 1 + DefaultCount
  {
    assert c.keys == mapping.keys by {
      assert mapping.keys[..|mapping.keys|] == mapping.keys;
    }
    SameKeys(c, mapping);
    forall v | v in c.entries
      ensures v in mapping.entries && |c.entries[v]| >= 1 && c.entries[v][0] == mapping.entries[v]
      ensures |c.entries[v]| <= 1 + DefaultCount
    {
      var k :| 0 <= k < |c.keys| && c.keys[k] == v;
      ReviewedAt(mapping, c, k);
    }
  }

  /** The k-th task of a completed review is cached with a list of the right shape. */
  lemma ReviewedAt(mapping: TaskMapping, cache: CacheDict, k: nat)
    requires k < |mapping.keys| && ReviewedUpTo(mapping, cache, |mapping.keys|)
    ensures mapping.keys[k] in mapping.entries && mapping.keys[k] in cache.entries
    ensures var e := cache.entries[mapping.keys[k]];
            |e| >= 1 && e[0] == mapping.entries[mapping.keys[k]] && |e| <= 1 + DefaultCount
  {
  }

  lemma {:induction false} ReviewFromNeedsRounds(mapping: TaskMapping, rounds: seq<Round>, i: nat, pos: nat, cache: CacheDict)
    requires Valid(mapping) && Valid(cache) && i <= |mapping.keys| && pos <= |rounds|
    requires |rounds| - pos < |mapping.keys| - i
    ensures ReviewFrom(mapping, rounds, i, pos, cache) == None
    decreases |mapping.keys| - i
  {
    var r := ReviewTask(mapping.entries[mapping.keys[i]], rounds, pos);
    if r.Some? {
      ReviewFromNeedsRounds(mapping, rounds, i + 1, r.value.1, Set(cache, mapping.keys[i], r.value.0));
    }
  }

  /** Every task takes at least one answer: with fewer answers than tasks the input ends before the review does. */
  lemma EndOfInput(mapping: TaskMapping, rounds: seq<Round>)
    requires Valid(mapping) && |rounds| < |mapping.keys|
    ensures Review(mapping, rounds) == None
  {
    ReviewFromNeedsRounds(mapping, rounds, 0, 0, Empty());
  }

  /** The replies of the rounds, in order. */
  function RepliesOf(rounds: seq<Round>): (replies: seq<Reply>)
    ensures |replies| == |rounds|
    ensures forall k :: 0 <= k < |rounds| ==> replies[k] == rounds[k].reply
  {
    if rounds == [] then [] else [rounds[0].reply] + RepliesOf(rounds[1..])
  }

  /** An accepting answer settles the task in one round, keeping the proposal. */
  lemma AcceptedRound(original: string, rounds: seq<Round>, pos: nat)
    requires pos < |rounds| && Accepts(rounds[pos].answer)
    ensures ReviewTask(original, rounds, pos) == Some((Accepted(original, rounds[pos].reply), pos + 1))
  {
  }

  lemma {:induction false} AcceptFrom(mapping: TaskMapping, rounds: seq<Round>, i: nat, cache: CacheDict)
    requires Valid(mapping) && |mapping.keys| <= |rounds| && i <= |mapping.keys|
    requires forall p :: 0 <= p < |rounds| ==> Accepts(rounds[p].answer)
    requires PrecomputedUpTo(mapping, RepliesOf(rounds), cache, i)
    ensures ReviewFrom(mapping, rounds, i, i, cache).Some?
    ensures PrecomputedUpTo(mapping, RepliesOf(rounds), ReviewFrom(mapping, rounds, i, i, cache).value, |mapping.keys|)
    decreases |mapping.keys| - i
  {
    if i < |mapping.keys| {
      var replies := RepliesOf(rounds);
      var original := mapping.entries[mapping.keys[i]];
      var entry := Accepted(original, rounds[i].reply);
      AcceptedRound(original, rounds, i);
      PrecomputedStep(mapping, replies, cache, i);
      assert replies[i] == rounds[i].reply;
      var next := Set(cache, mapping.keys[i], entry);
      assert ReviewFrom(mapping, rounds, i, i, cache) == ReviewFrom(mapping, rounds, i + 1, i + 1, next);
      AcceptFrom(mapping, rounds, i + 1, next);
    }
  }

  /**
   * When the operator accepts every proposal, the review builds exactly
   * the cache the unattended builder builds from the same replies.
   */
  lemma AcceptAllIsPrecompute(mapping: TaskMapping, rounds: seq<Round>)
    requires Valid(mapping) && |mapping.keys| <= |rounds|
    requires forall p :: 0 <= p < |rounds| ==> Accepts(rounds[p].answer)
    ensures Review(mapping, rounds).Some?
    ensures PrecomputedUpTo(mapping, RepliesOf(rounds), Review(mapping, rounds).value, |mapping.keys|)
  {
    AcceptFrom(mapping, rounds, 0, Empty());
  }

  /** Pressing Enter, with or without whitespace, keeps the proposal. */
  lemma DecideBlank(original: string, variations: seq<string>, blank: string)
    requires AllSpace(blank)
    ensures Decide(blank, original, variations) == Keep([original] + variations)
  {
    StripPadding(blank, "", "");
    assert blank + "" + "" == blank;
  }

  /** Any other word, "yes" among them, keeps the proposal too. */
  lemma DecideYes(original: string, variations: seq<string>, pre: string, post: string)
    requires AllSpace(pre) && AllSpace(post)
    ensures Decide(pre + "yes" + post, original, variations) == Keep([original] + variations)
  {
    StripPadding(pre, "yes", post);
    assert |Lower("yes")| == 3;
  }

  /** "r" asks again, whatever its case and surrounding whitespace. */
  lemma DecideRetries(original: string, variations: seq<string>, pre: string, c: char, post: string)
    requires AllSpace(pre) && AllSpace(post) && (c == 'r' || c == 'R')
    ensures Decide(pre + [c] + post, original, variations) == Retry
  {
    LowerPadded(pre, c, post);
  }

  /** "n" keeps the original only, whatever its case and surrounding whitespace. */
  lemma DecideRejects(original: string, variations: seq<string>, pre: string, c: char, post: string)
    requires AllSpace(pre) && AllSpace(post) && (c == 'n' || c == 'N')
    ensures Decide(pre + [c] + post, original, variations) == Keep([original])
  {
    LowerPadded(pre, c, post);
  }

  /**
   * With a reviewed cache and a new task column, the first output row of an
   * input row whose task index is in the mapping carries the task's own
   * description.
   */
  lemma OriginalFirst(mapping: TaskMapping, rounds: seq<Round>, b: Batch, i: nat)
    requires Valid(mapping) && Review(mapping, rounds).Some?
    requires Valid(b) && IndexColumn in b.entries && TaskColumn !in b.entries
    requires Covered(b, Review(mapping, rounds).value.entries)
    requires i < |b.entries[IndexColumn]| && b.entries[IndexColumn][i] in mapping.entries
    ensures RowCount(RowTasks(b, Review(mapping, rounds).value.entries), i)
              < |Augmented(b, Review(mapping, rounds).value.entries).entries[TaskColumn]|
    ensures Augmented(b, Review(mapping, rounds).value.entries).entries[TaskColumn][RowCount(RowTasks(b, Review(mapping, rounds).value.entries), i)]
              == Str(mapping.entries[b.entries[IndexColumn][i]])
  {
    var cache := Review(mapping, rounds).value.entries;
    var v := b.entries[IndexColumn][i];
    ReviewShape(mapping, rounds);
    assert v in cache by {
      var k :| 0 <= k < |mapping.keys| && mapping.keys[k] == v;
    }
    TaskStringPlaced(b, cache, i, 0);
  }
}
