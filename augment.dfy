/**
 * Batch expansion (augment_batch): every input row of a columnar batch is
 * repeated once per task string cached for its task index, with every input
 * column copied and the task string appended to the task column.
 */
module Augment {
  import opened Wrappers
  import opened Text
  import opened OrderedDict

  /** TASK_COLUMN, the column that receives the task strings. */
  const TaskColumn: string := "single_task"

  /** The column holding each row's task index. */
  const IndexColumn: string := "task_index"

  /**
   * A cell of the batch. Num and Str are Python ints and strings; Other is
   * any other feature (a float, a tensor, an image), carried together with
   * what Python's str() prints for it.
   */
  datatype Value = Num(n: int) | Str(s: string) | Other(shown: string)

  /** Python's str(v). */
  function Show(v: Value): string {
    match v
    case Num(n) => DecimalString(n)
    case Str(s) => s
    case Other(shown) => shown
  }

  /** A batch: column name to the list of that column's values. */
  type Batch = Dict<string, seq<Value>>

  /** The augmentation cache: task index to the task strings of that task. */
  type Cache = map<Value, seq<string>>

  /** The exceptions augment_batch can raise. */
  datatype AugmentError = KeyError(key: string) | IndexError

  /** The placeholder used for a task index with no cache entry. */
  function Fallback(v: Value): string {
    "Task " + Show(v)
  }

  /** cache.get(idx, ["Task <idx>"]) */
  function TaskStrings(cache: Cache, v: Value): seq<string> {
    if v in cache then cache[v] else [Fallback(v)]
  }

  /** The task strings of each of the task indices, in order. */
  function TasksOf(cache: Cache, indices: seq<Value>): (tasks: seq<seq<string>>)
    ensures |tasks| == |indices|
  {
    if indices == [] then [] else TasksOf(cache, indices[..|indices| - 1]) + [TaskStrings(cache, indices[|indices| - 1])]
  }

  lemma {:induction false} TasksOfAt(cache: Cache, indices: seq<Value>, i: nat)
    requires i < |indices|
    ensures TasksOf(cache, indices)[i] == TaskStrings(cache, indices[i])
  {
    if i < |indices| - 1 {
      TasksOfAt(cache, indices[..|indices| - 1], i);
    }
  }

  /** The task strings of every input row, in row order. */
  function RowTasks(b: Batch, cache: Cache): seq<seq<string>>
    requires IndexColumn in b.entries
  {
    TasksOf(cache, b.entries[IndexColumn])
  }

  /** The output columns: the input columns in order, then the task column if it was not one of them. */
  function OutputColumns(b: Batch): seq<string> {
    if TaskColumn in b.entries then b.keys else b.keys + [TaskColumn]
  }

  /** Every input column has a value in row i. */
  predicate CellsAt(b: Batch, i: nat) {
    forall c :: c in b.entries ==> i < |b.entries[c]|
  }

  /** Row i can be copied: it emits no row, or every column reaches it. */
  predicate RowCovered(b: Batch, tasks: seq<seq<string>>, i: nat)
    requires i < |tasks|
  {
    tasks[i] == [] || CellsAt(b, i)
  }

  /** Each of the first m rows can be copied. */
  predicate CoveredUpTo(b: Batch, tasks: seq<seq<string>>, m: nat)
    requires m <= |tasks|
  {
    forall i :: 0 <= i < m ==> RowCovered(b, tasks, i)
  }

  /** augment_batch reads no cell past the end of its column. */
  predicate Covered(b: Batch, cache: Cache)
    requires IndexColumn in b.entries
  {
    CoveredUpTo(b, RowTasks(b, cache), |b.entries[IndexColumn]|)
  }

  /** The values one output row (input row i, task string t) appends to output column c. */
  function Emit(b: Batch, c: string, i: nat, t: string): seq<Value>
    requires CellsAt(b, i)
  {
    if c == TaskColumn then
      (if c in b.entries then [b.entries[c][i], Str(t)] else [Str(t)])
    else if c in b.entries then [b.entries[c][i]]
    else []
  }

  /** What input row i, expanded over the task strings ts, appends to output column c. */
  function RowOutput(b: Batch, c: string, i: nat, ts: seq<string>): seq<Value>
    requires ts != [] ==> CellsAt(b, i)
  {
    if ts == [] then [] else RowOutput(b, c, i, ts[..|ts| - 1]) + Emit(b, c, i, ts[|ts| - 1])
  }

  /** Output column c after the first m input rows, the rows expanding over tasks. */
  function Expanded(b: Batch, tasks: seq<seq<string>>, c: string, m: nat): seq<Value>
    requires m <= |tasks| && CoveredUpTo(b, tasks, m)
  {
    if m == 0 then []
    else
      assert RowCovered(b, tasks, m - 1);
      Expanded(b, tasks, c, m - 1) + RowOutput(b, c, m - 1, tasks[m - 1])
  }

  /** The batch augment_batch returns. */
  function Augmented(b: Batch, cache: Cache): Batch
    requires IndexColumn in b.entries && Covered(b, cache)
  {
    var tasks := RowTasks(b, cache);
    Dict(OutputColumns(b), map c | c in OutputColumns(b) :: Expanded(b, tasks, c, |tasks|))
  }

  /** Expanding over one more task string appends that string's output row. */
  lemma RowOutputStep(b: Batch, c: string, i: nat, ts: seq<string>, j: nat)
    requires j < |ts| && CellsAt(b, i)
    ensures RowOutput(b, c, i, ts[..j + 1]) == RowOutput(b, c, i, ts[..j]) + Emit(b, c, i, ts[j])
  {
    assert ts[..j + 1][..j] == ts[..j];
  }

  /** Every column of `out` is that column of `data` followed by row i expanded over ts. */
  predicate Extended(data: map<string, seq<Value>>, out: map<string, seq<Value>>, b: Batch, i: nat, ts: seq<string>)
    requires ts != [] ==> CellsAt(b, i)
  {
    out.Keys == data.Keys && forall c :: c in data ==> out[c] == data[c] + RowOutput(b, c, i, ts)
  }

  /**
   * After copying row i and appending tasks[j] to the task column, each
   * column holds one more output row.
   */
  lemma TaskRowAppended(data: map<string, seq<Value>>, out: map<string, seq<Value>>, copied: map<string, seq<Value>>,
                        b: Batch, i: nat, tasks: seq<string>, j: nat)
    requires j < |tasks| && CellsAt(b, i) && TaskColumn in data
    requires Extended(data, out, b, i, tasks[..j])
    requires copied.Keys == data.Keys
    requires forall c :: c in data ==> copied[c] == out[c] + (if c in b.entries then [b.entries[c][i]] else [])
    ensures TaskColumn in copied
    ensures Extended(data, copied[TaskColumn := copied[TaskColumn] + [Str(tasks[j])]], b, i, tasks[..j + 1])
  {
    var next := copied[TaskColumn := copied[TaskColumn] + [Str(tasks[j])]];
    forall c | c in data
      ensures next[c] == data[c] + RowOutput(b, c, i, tasks[..j + 1])
    {
      assert next[c] == out[c] + Emit(b, c, i, tasks[j]);
      ColumnAppended(data[c], out[c], next[c], b, c, i, tasks, j);
    }
  }

  lemma ColumnAppended(before: seq<Value>, out: seq<Value>, next: seq<Value>, b: Batch, c: string, i: nat, tasks: seq<string>, j: nat)
    requires j < |tasks| && CellsAt(b, i)
    requires out == before + RowOutput(b, c, i, tasks[..j])
    requires next == out + Emit(b, c, i, tasks[j])
    ensures next == before + RowOutput(b, c, i, tasks[..j + 1])
  {
    RowOutputStep(b, c, i, tasks, j);
  }

  /** After expanding row i into every column, each column holds the first i + 1 rows. */
  lemma RowsAppended(b: Batch, tasks: seq<seq<string>>, i: nat, data: map<string, seq<Value>>, expanded: map<string, seq<Value>>)
    requires i < |tasks| && CoveredUpTo(b, tasks, i) && RowCovered(b, tasks, i)
    requires forall c :: c in data ==> data[c] == Expanded(b, tasks, c, i)
    requires Extended(data, expanded, b, i, tasks[i])
    ensures CoveredUpTo(b, tasks, i + 1)
    ensures forall c :: c in expanded ==> expanded[c] == Expanded(b, tasks, c, i + 1)
  {
  }

  lemma AllColumns(b: Batch, cache: Cache, columns: seq<string>, data: map<string, seq<Value>>)
    requires IndexColumn in b.entries && Covered(b, cache)
    requires columns == OutputColumns(b)
    requires forall c :: c in data <==> c in columns
    requires forall c :: c in data ==> data[c] == Expanded(b, RowTasks(b, cache), c, |b.entries[IndexColumn]|)
    ensures Dict(columns, data) == Augmented(b, cache)
  {
  }

  /** The innermost loop: append row i of every input column, or fail with the IndexError. */
  method CopyRow(data: map<string, seq<Value>>, b: Batch, i: nat) returns (r: Option<map<string, seq<Value>>>)
    requires Valid(b)
    requires forall c :: c in b.entries ==> c in data
    ensures r.Some? <==> CellsAt(b, i)
    ensures r.Some? ==> r.value.Keys == data.Keys
    ensures r.Some? ==> forall c :: c in data ==> r.value[c] == data[c] + (if c in b.entries then [b.entries[c][i]] else [])
  {
    var out := data;
    var k := 0;
    while k < |b.keys|
      invariant k <= |b.keys|
      invariant forall c :: c in b.keys[..k] ==> i < |b.entries[c]|
      invariant out.Keys == data.Keys
      invariant forall c :: c in data ==> out[c] == data[c] + (if c in b.keys[..k] then [b.entries[c][i]] else [])
    {
      var col := b.keys[k];
      if i >= |b.entries[col]| {
        return None;
      }
      assert col !in b.keys[..k];
      assert b.keys[..k + 1] == b.keys[..k] + [col];
      out := out[col := out[col] + [b.entries[col][i]]];
      k := k + 1;
    }
    assert b.keys[..k] == b.keys;
    return Some(out);
  }

  /**
   * The loop over one row's task strings: append one output row per string,
   * or fail with the IndexError if the row cannot be copied.
   */
  method ExpandRow(data: map<string, seq<Value>>, b: Batch, i: nat, tasks: seq<string>)
    returns (r: Option<map<string, seq<Value>>>)
    requires Valid(b)
    requires forall c :: c in b.entries ==> c in data
    requires TaskColumn in data
    ensures r.Some? <==> (tasks == [] || CellsAt(b, i))
    ensures r.Some? ==> Extended(data, r.value, b, i, tasks)
  {
    var out := data;
    var j := 0;
    while j < |tasks|
      invariant j <= |tasks|
      invariant j > 0 ==> CellsAt(b, i)
      invariant Extended(data, out, b, i, tasks[..j])
    {
      var copied := CopyRow(out, b, i);
      if copied.None? {
        return None;
      }
      TaskRowAppended(data, out, copied.value, b, i, tasks, j);
      out := copied.value[TaskColumn := copied.value[TaskColumn] + [Str(tasks[j])]];
      j := j + 1;
    }
    assert tasks[..j] == tasks;
    return Some(out);
  }

  /**
   * The outer loop of augment_batch over the rows: expand every row into
   * the columns of `init` (all empty), or fail at the first row that
   * cannot be copied.
   */
  method ExpandRows(b: Batch, cache: Cache, init: map<string, seq<Value>>) returns (r: Option<map<string, seq<Value>>>)
    requires Valid(b) && IndexColumn in b.entries
    requires forall c :: c in b.entries ==> c in init
    requires TaskColumn in init
    requires forall c :: c in init ==> init[c] == []
    ensures r.Some? <==> Covered(b, cache)
    ensures r.Some? ==> r.value.Keys == init.Keys
    ensures r.Some? ==> forall c :: c in init ==> r.value[c] == Expanded(b, RowTasks(b, cache), c, |b.entries[IndexColumn]|)
  {
    ghost var tasks := RowTasks(b, cache);
    var indices := b.entries[IndexColumn];
    var data := init;
    var i := 0;
    while i < |indices|
      invariant i <= |indices|
      invariant CoveredUpTo(b, tasks, i)
      invariant data.Keys == init.Keys
      invariant forall c :: c in data ==> data[c] == Expanded(b, tasks, c, i)
    {
      TasksOfAt(cache, indices, i);
      var expanded := ExpandRow(data, b, i, TaskStrings(cache, indices[i]));
      if expanded.None? {
        assert !RowCovered(b, tasks, i);
        return None;
      }
      RowsAppended(b, tasks, i, data, expanded.value);
      data := expanded.value;
      i := i + 1;
    }
    return Some(data);
  }

  /**
   * augment_batch(batch), with AUGMENTATION_CACHE passed in as `cache`.
   * It fails exactly when the source raises, and otherwise returns the
   * expansion described by Augmented.
   */
  method AugmentBatch(batch: Batch, cache: Cache) returns (r: Result<Batch, AugmentError>)
    requires Valid(batch)
    ensures IndexColumn !in batch.entries ==> r == Failure(KeyError(IndexColumn))
    ensures IndexColumn in batch.entries ==> (r.Success? <==> Covered(batch, cache))
    ensures IndexColumn in batch.entries && !Covered(batch, cache) ==> r == Failure(IndexError)
    ensures r.Success? ==> IndexColumn in batch.entries && Covered(batch, cache) && r.value == Augmented(batch, cache)
  {
    var newColumns := batch.keys;
    if TaskColumn !in newColumns {
      newColumns := newColumns + [TaskColumn];
    }
    assert newColumns == OutputColumns(batch);
    var newData: map<string, seq<Value>> := map c | c in newColumns :: [];
    if IndexColumn !in batch.entries {
      return Failure(KeyError(IndexColumn));
    }
    var expanded := ExpandRows(batch, cache, newData);
    if expanded.None? {
      return Failure(IndexError);
    }
    AllColumns(batch, cache, newColumns, expanded.value);
    return Success(Dict(newColumns, expanded.value));
  }

  /** The number of output rows the first m input rows produce. */
  function RowCount(tasks: seq<seq<string>>, m: nat): nat
    requires m <= |tasks|
  {
    if m == 0 then 0 else RowCount(tasks, m - 1) + |tasks[m - 1]|
  }

  /** How many values one output row appends to column c. */
  function Width(b: Batch, c: string): nat {
    if c == TaskColumn then (if c in b.entries then 2 else 1)
    else if c in b.entries then 1
    else 0
  }

  lemma EmitWidth(b: Batch, c: string, i: nat, t: string)
    requires CellsAt(b, i)
    ensures |Emit(b, c, i, t)| == Width(b, c)
  {
  }

  /** k * w, by repeated addition, so that the layout lemmas stay linear. */
  function Times(k: nat, w: nat): nat {
    if k == 0 then 0 else Times(k - 1, w) + w
  }

  lemma {:induction false} Distribute(a: nat, d: nat, w: nat)
    ensures Times(a + d, w) == Times(a, w) + Times(d, w)
  {
    if d > 0 {
      Distribute(a, d - 1, w);
    }
  }

  lemma {:induction false} TimesOneTwo(k: nat)
    ensures Times(k, 1) == k && Times(k, 2) == 2 * k
  {
    if k > 0 {
      TimesOneTwo(k - 1);
    }
  }

  /** Row i expanded over ts is |ts| output rows of Width(b, c) values each. */
  lemma {:induction false} RowOutputLength(b: Batch, c: string, i: nat, ts: seq<string>)
    requires ts != [] ==> CellsAt(b, i)
    ensures |RowOutput(b, c, i, ts)| == Times(|ts|, Width(b, c))
  {
    if ts != [] {
      RowOutputLength(b, c, i, ts[..|ts| - 1]);
      EmitWidth(b, c, i, ts[|ts| - 1]);
    }
  }

  /** Every output column holds RowCount rows of Width(b, c) values each. */
  lemma {:induction false} ExpandedLength(b: Batch, tasks: seq<seq<string>>, c: string, m: nat)
    requires m <= |tasks| && CoveredUpTo(b, tasks, m)
    ensures |Expanded(b, tasks, c, m)| == Times(RowCount(tasks, m), Width(b, c))
  {
    if m > 0 {
      assert RowCovered(b, tasks, m - 1);
      ExpandedLength(b, tasks, c, m - 1);
      RowOutputLength(b, c, m - 1, tasks[m - 1]);
      Distribute(RowCount(tasks, m - 1), |tasks[m - 1]|, Width(b, c));
    }
  }

  /** Value k of the j-th output row of row i's expansion. */
  lemma {:induction false} RowOutputIndex(b: Batch, c: string, i: nat, ts: seq<string>, j: nat, k: nat)
    requires j < |ts| && CellsAt(b, i) && k < Width(b, c)
    ensures Times(j, Width(b, c)) + k < |RowOutput(b, c, i, ts)|
    ensures RowOutput(b, c, i, ts)[Times(j, Width(b, c)) + k] == Emit(b, c, i, ts[j])[k]
  {
    var init := ts[..|ts| - 1];
    RowOutputLength(b, c, i, init);
    EmitWidth(b, c, i, ts[|ts| - 1]);
    if j < |init| {
      RowOutputIndex(b, c, i, init, j, k);
      assert init[j] == ts[j];
    }
  }

  /**
   * Value k of output row RowCount(tasks, i) + j is value k of what input
   * row i emits for its j-th task string: the output is grouped by input
   * row, in input order, and within a row follows the order of its task
   * strings.
   */
  lemma {:induction false} ExpandedIndex(b: Batch, tasks: seq<seq<string>>, c: string, m: nat, i: nat, j: nat, k: nat, x: nat)
    requires m <= |tasks| && CoveredUpTo(b, tasks, m)
    requires i < m && j < |tasks[i]| && k < Width(b, c)
    requires x == Times(RowCount(tasks, i) + j, Width(b, c)) + k
    ensures CellsAt(b, i)
    ensures x < |Expanded(b, tasks, c, m)| && Expanded(b, tasks, c, m)[x] == Emit(b, c, i, tasks[i][j])[k]
  {
    if i == m - 1 {
      ExpandedStep(b, tasks, c, i);
      EmitWidth(b, c, i, tasks[i][j]);
      ExpandedIndexLast(b, tasks, c, i, j, k, x, Expanded(b, tasks, c, i), RowOutput(b, c, i, tasks[i]));
    } else {
      ExpandedStep(b, tasks, c, m - 1);
      ExpandedIndex(b, tasks, c, m - 1, i, j, k, x);
      IndexBefore(Expanded(b, tasks, c, m - 1), RowOutput(b, c, m - 1, tasks[m - 1]), x);
    }
  }

  /** ExpandedIndex for the last row expanded, `pre` being the rows before it and `row` its output. */
  lemma ExpandedIndexLast(b: Batch, tasks: seq<seq<string>>, c: string, i: nat, j: nat, k: nat, x: nat,
                          pre: seq<Value>, row: seq<Value>)
    requires i < |tasks| && CoveredUpTo(b, tasks, i) && CellsAt(b, i)
    requires j < |tasks[i]| && k < Width(b, c)
    requires x == Times(RowCount(tasks, i) + j, Width(b, c)) + k
    requires pre == Expanded(b, tasks, c, i) && row == RowOutput(b, c, i, tasks[i])
    ensures x < |pre + row| && (pre + row)[x] == Emit(b, c, i, tasks[i][j])[k]
  {
    EmitWidth(b, c, i, tasks[i][j]);
    ExpandedLength(b, tasks, c, i);
    RowOutputIndex(b, c, i, tasks[i], j, k);
    Placed(pre + row, pre, row, RowCount(tasks, i), j, Width(b, c), k, x, Emit(b, c, i, tasks[i][j])[k]);
  }

  /** Slot j of a row of width w, placed after n full rows, is slot n + j of the whole. */
  lemma Placed(whole: seq<Value>, pre: seq<Value>, row: seq<Value>, n: nat, j: nat, w: nat, k: nat, x: nat, v: Value)
    requires whole == pre + row && |pre| == Times(n, w) && x == Times(n + j, w) + k
    requires Times(j, w) + k < |row| && row[Times(j, w) + k] == v
    ensures x < |whole| && whole[x] == v
  {
    Distribute(n, j, w);
  }

  /** Expanding one more row appends that row's output. */
  lemma ExpandedStep(b: Batch, tasks: seq<seq<string>>, c: string, i: nat)
    requires i < |tasks| && CoveredUpTo(b, tasks, i + 1)
    ensures CoveredUpTo(b, tasks, i) && (tasks[i] != [] ==> CellsAt(b, i))
    ensures Expanded(b, tasks, c, i + 1) == Expanded(b, tasks, c, i) + RowOutput(b, c, i, tasks[i])
  {
    assert RowCovered(b, tasks, i);
  }

  lemma IndexBefore<T>(pre: seq<T>, row: seq<T>, x: nat)
    requires x < |pre|
    ensures x < |pre + row| && (pre + row)[x] == pre[x]
  {
  }

  /** ExpandedIndex for a column that takes one value per output row. */
  lemma ExpandedIndexOne(b: Batch, tasks: seq<seq<string>>, c: string, m: nat, i: nat, j: nat)
    requires m <= |tasks| && CoveredUpTo(b, tasks, m)
    requires i < m && j < |tasks[i]| && Width(b, c) == 1
    ensures CellsAt(b, i)
    ensures RowCount(tasks, i) + j < |Expanded(b, tasks, c, m)|
    ensures Expanded(b, tasks, c, m)[RowCount(tasks, i) + j] == Emit(b, c, i, tasks[i][j])[0]
  {
    TimesOneTwo(RowCount(tasks, i) + j);
    ExpandedIndex(b, tasks, c, m, i, j, 0, RowCount(tasks, i) + j);
  }

  /** Column c of the result is Expanded over all rows, for an input column or the task column. */
  lemma AugmentedColumn(b: Batch, cache: Cache, c: string)
    requires Valid(b) && IndexColumn in b.entries && Covered(b, cache)
    requires c in b.entries || c == TaskColumn
    ensures c in Augmented(b, cache).entries
    ensures Augmented(b, cache).entries[c] == Expanded(b, RowTasks(b, cache), c, |b.entries[IndexColumn]|)
  {
    assert c in OutputColumns(b);
  }

  /**
   * The output has the columns OutputColumns(b), each holding one value per
   * output row, except a task column that was already an input column,
   * which holds two values per output row.
   */
  lemma AugmentedShape(b: Batch, cache: Cache)
    requires Valid(b) && IndexColumn in b.entries && Covered(b, cache)
    ensures Valid(Augmented(b, cache)) && Augmented(b, cache).keys == OutputColumns(b)
    ensures forall c :: c in Augmented(b, cache).entries ==>
              |Augmented(b, cache).entries[c]|
              == if c == TaskColumn && TaskColumn in b.entries
                 then 2 * RowCount(RowTasks(b, cache), |b.entries[IndexColumn]|)
                 else RowCount(RowTasks(b, cache), |b.entries[IndexColumn]|)
  {
    var tasks := RowTasks(b, cache);
    var n := |b.entries[IndexColumn]|;
    var r := Augmented(b, cache);
    if TaskColumn !in b.entries {
      assert TaskColumn !in b.keys;
      assert forall k :: 0 <= k < |b.keys| ==> OutputColumns(b)[k] == b.keys[k];
    }
    forall c | c in r.entries
      ensures |r.entries[c]| == if c == TaskColumn && TaskColumn in b.entries then 2 * RowCount(tasks, n) else RowCount(tasks, n)
    {
      ExpandedLength(b, tasks, c, n);
      TimesOneTwo(RowCount(tasks, n));
      assert c in b.entries || c == TaskColumn;
    }
  }

  /** When the task column is new, every output column has one value per output row. */
  lemma EqualLengths(b: Batch, cache: Cache, c: string, d: string)
    requires Valid(b) && IndexColumn in b.entries && Covered(b, cache) && TaskColumn !in b.entries
    requires c in Augmented(b, cache).entries && d in Augmented(b, cache).entries
    ensures |Augmented(b, cache).entries[c]| == |Augmented(b, cache).entries[d]|
  {
    AugmentedShape(b, cache);
  }

  /** Every output row derived from input row i carries row i's value in each input column other than the task column. */
  lemma ColumnPreserved(b: Batch, cache: Cache, c: string, i: nat, j: nat)
    requires Valid(b) && IndexColumn in b.entries && Covered(b, cache)
    requires c in b.entries && c != TaskColumn
    requires i < |b.entries[IndexColumn]| && j < |TaskStrings(cache, b.entries[IndexColumn][i])|
    ensures RowCount(RowTasks(b, cache), i) + j < |Augmented(b, cache).entries[c]|
    ensures i < |b.entries[c]| && Augmented(b, cache).entries[c][RowCount(RowTasks(b, cache), i) + j] == b.entries[c][i]
  {
    var tasks := RowTasks(b, cache);
    var n := |b.entries[IndexColumn]|;
    TasksOfAt(cache, b.entries[IndexColumn], i);
    ExpandedIndexOne(b, tasks, c, n, i, j);
    assert Emit(b, c, i, tasks[i][j]) == [b.entries[c][i]];
    AugmentedColumn(b, cache, c);
  }

  /** Every output row comes from some input row i and its j-th task string: its index is RowCount(i) + j. */
  lemma {:induction false} RowOrigin(tasks: seq<seq<string>>, m: nat, x: nat) returns (i: nat, j: nat)
    requires m <= |tasks| && x < RowCount(tasks, m)
    ensures i < m && j < |tasks[i]| && x == RowCount(tasks, i) + j
  {
    if x < RowCount(tasks, m - 1) {
      i, j := RowOrigin(tasks, m - 1, x);
    } else {
      i, j := m - 1, x - RowCount(tasks, m - 1);
    }
  }

  /**
   * Every output row, whatever its index, carries in each input column
   * other than the task column the value of the input row it came from.
   */
  lemma EveryRowPreserved(b: Batch, cache: Cache, c: string, x: nat) returns (i: nat, j: nat)
    requires Valid(b) && IndexColumn in b.entries && Covered(b, cache)
    requires c in b.entries && c != TaskColumn
    requires x < RowCount(RowTasks(b, cache), |b.entries[IndexColumn]|)
    ensures i < |b.entries[IndexColumn]| && j < |TaskStrings(cache, b.entries[IndexColumn][i])|
    ensures x == RowCount(RowTasks(b, cache), i) + j
    ensures x < |Augmented(b, cache).entries[c]| && i < |b.entries[c]| && Augmented(b, cache).entries[c][x] == b.entries[c][i]
  {
    i, j := RowOrigin(RowTasks(b, cache), |b.entries[IndexColumn]|, x);
    TasksOfAt(cache, b.entries[IndexColumn], i);
    ColumnPreserved(b, cache, c, i, j);
  }

  /** With a new task column, output row RowCount(i) + j holds the j-th task string of row i. */
  lemma TaskStringPlaced(b: Batch, cache: Cache, i: nat, j: nat)
    requires Valid(b) && IndexColumn in b.entries && Covered(b, cache) && TaskColumn !in b.entries
    requires i < |b.entries[IndexColumn]| && j < |TaskStrings(cache, b.entries[IndexColumn][i])|
    ensures RowCount(RowTasks(b, cache), i) + j < |Augmented(b, cache).entries[TaskColumn]|
    ensures Augmented(b, cache).entries[TaskColumn][RowCount(RowTasks(b, cache), i) + j]
            == Str(TaskStrings(cache, b.entries[IndexColumn][i])[j])
  {
    var tasks := RowTasks(b, cache);
    var n := |b.entries[IndexColumn]|;
    TasksOfAt(cache, b.entries[IndexColumn], i);
    ExpandedIndexOne(b, tasks, TaskColumn, n, i, j);
    assert Emit(b, TaskColumn, i, tasks[i][j]) == [Str(tasks[i][j])];
    AugmentedColumn(b, cache, TaskColumn);
  }

  /**
   * With the task column already an input column, each output row appends
   * two values to it: the input row's own value, then the task string.
   */
  lemma TaskColumnDoubled(b: Batch, cache: Cache, i: nat, j: nat)
    requires Valid(b) && IndexColumn in b.entries && Covered(b, cache) && TaskColumn in b.entries
    requires i < |b.entries[IndexColumn]| && j < |TaskStrings(cache, b.entries[IndexColumn][i])|
    ensures 2 * (RowCount(RowTasks(b, cache), i) + j) + 1 < |Augmented(b, cache).entries[TaskColumn]|
    ensures i < |b.entries[TaskColumn]|
    ensures Augmented(b, cache).entries[TaskColumn][2 * (RowCount(RowTasks(b, cache), i) + j)] == b.entries[TaskColumn][i]
    ensures Augmented(b, cache).entries[TaskColumn][2 * (RowCount(RowTasks(b, cache), i) + j) + 1]
            == Str(TaskStrings(cache, b.entries[IndexColumn][i])[j])
  {
    var tasks := RowTasks(b, cache);
    var n := |b.entries[IndexColumn]|;
    TasksOfAt(cache, b.entries[IndexColumn], i);
    DoubledColumn(b, tasks, n, i, j, TaskStrings(cache, b.entries[IndexColumn][i]));
    AugmentedColumn(b, cache, TaskColumn);
  }

  /** DoubledRow, with the row's task strings named. */
  lemma DoubledColumn(b: Batch, tasks: seq<seq<string>>, m: nat, i: nat, j: nat, ts: seq<string>)
    requires m <= |tasks| && CoveredUpTo(b, tasks, m) && TaskColumn in b.entries
    requires i < m && tasks[i] == ts && j < |ts|
    ensures 2 * (RowCount(tasks, i) + j) + 1 < |Expanded(b, tasks, TaskColumn, m)|
    ensures i < |b.entries[TaskColumn]|
    ensures Expanded(b, tasks, TaskColumn, m)[2 * (RowCount(tasks, i) + j)] == b.entries[TaskColumn][i]
    ensures Expanded(b, tasks, TaskColumn, m)[2 * (RowCount(tasks, i) + j) + 1] == Str(ts[j])
  {
    DoubledRow(b, tasks, m, i, j);
  }

  lemma DoubledRow(b: Batch, tasks: seq<seq<string>>, m: nat, i: nat, j: nat)
    requires m <= |tasks| && CoveredUpTo(b, tasks, m) && TaskColumn in b.entries
    requires i < m && j < |tasks[i]|
    ensures 2 * (RowCount(tasks, i) + j) + 1 < |Expanded(b, tasks, TaskColumn, m)|
    ensures i < |b.entries[TaskColumn]|
    ensures Expanded(b, tasks, TaskColumn, m)[2 * (RowCount(tasks, i) + j)] == b.entries[TaskColumn][i]
    ensures Expanded(b, tasks, TaskColumn, m)[2 * (RowCount(tasks, i) + j) + 1] == Str(tasks[i][j])
  {
    TimesOneTwo(RowCount(tasks, i) + j);
    ExpandedIndex(b, tasks, TaskColumn, m, i, j, 0, 2 * (RowCount(tasks, i) + j));
    ExpandedIndex(b, tasks, TaskColumn, m, i, j, 1, 2 * (RowCount(tasks, i) + j) + 1);
  }

  /** A task index with no cache entry yields one output row, whose task string is "Task <idx>". */
  lemma FallbackRow(b: Batch, cache: Cache, i: nat)
    requires Valid(b) && IndexColumn in b.entries && Covered(b, cache) && TaskColumn !in b.entries
    requires i < |b.entries[IndexColumn]| && b.entries[IndexColumn][i] !in cache
    ensures RowCount(RowTasks(b, cache), i + 1) == RowCount(RowTasks(b, cache), i) + 1
    ensures RowCount(RowTasks(b, cache), i) < |Augmented(b, cache).entries[TaskColumn]|
    ensures Augmented(b, cache).entries[TaskColumn][RowCount(RowTasks(b, cache), i)]
            == Str("Task " + Show(b.entries[IndexColumn][i]))
  {
    TasksOfAt(cache, b.entries[IndexColumn], i);
    TaskStringPlaced(b, cache, i, 0);
  }

  /** One row's output in column c, for a row with two task strings p and q. */
  lemma TwoStringRow(b: Batch, c: string, i: nat, p: string, q: string)
    requires CellsAt(b, i)
    ensures RowOutput(b, c, i, [p, q]) == Emit(b, c, i, p) + Emit(b, c, i, q)
  {
    assert [p, q][..1] == [p];
    assert [p][..0] == [];
    assert RowOutput(b, c, i, [p]) == RowOutput(b, c, i, []) + Emit(b, c, i, p);
  }

  /**
   * Two rows with the same task index v, whose cache entry is [p, q], give
   * four output rows: the index repeated, and the task strings p, q, p, q.
   */
  lemma SameTaskTwice(b: Batch, cache: Cache, v: Value, p: string, q: string)
    requires b == Dict([IndexColumn], map[IndexColumn := [v, v]])
    requires cache == map[v := [p, q]]
    ensures Valid(b) && Covered(b, cache)
    ensures Augmented(b, cache) == Dict([IndexColumn, TaskColumn], map[IndexColumn := [v, v, v, v], TaskColumn := [Str(p), Str(q), Str(p), Str(q)]])
  {
    var tasks := RowTasks(b, cache);
    SameTaskRows(b, cache, v, p, q);
    SameTaskColumns(b, tasks, v, p, q);
    assert OutputColumns(b) == [IndexColumn, TaskColumn];
  }

  lemma SameTaskRows(b: Batch, cache: Cache, v: Value, p: string, q: string)
    requires b == Dict([IndexColumn], map[IndexColumn := [v, v]])
    requires cache == map[v := [p, q]]
    ensures Valid(b) && RowTasks(b, cache) == [[p, q], [p, q]]
  {
    TasksOfAt(cache, b.entries[IndexColumn], 0);
    TasksOfAt(cache, b.entries[IndexColumn], 1);
  }

  lemma SameTaskColumns(b: Batch, tasks: seq<seq<string>>, v: Value, p: string, q: string)
    requires b == Dict([IndexColumn], map[IndexColumn := [v, v]])
    requires tasks == [[p, q], [p, q]]
    ensures CoveredUpTo(b, tasks, 2)
    ensures Expanded(b, tasks, IndexColumn, 2) == [v, v, v, v]
    ensures Expanded(b, tasks, TaskColumn, 2) == [Str(p), Str(q), Str(p), Str(q)]
  {
    assert CellsAt(b, 0) && CellsAt(b, 1);
    assert RowCovered(b, tasks, 0) && RowCovered(b, tasks, 1);
    TwoStringRow(b, IndexColumn, 0, p, q);
    TwoStringRow(b, IndexColumn, 1, p, q);
    TwoStringRow(b, TaskColumn, 0, p, q);
    TwoStringRow(b, TaskColumn, 1, p, q);
    assert Emit(b, IndexColumn, 0, p) == [v] && Emit(b, IndexColumn, 0, q) == [v];
    assert Emit(b, IndexColumn, 1, p) == [v] && Emit(b, IndexColumn, 1, q) == [v];
    assert Emit(b, TaskColumn, 0, p) == [Str(p)] && Emit(b, TaskColumn, 0, q) == [Str(q)];
    assert Emit(b, TaskColumn, 1, p) == [Str(p)] && Emit(b, TaskColumn, 1, q) == [Str(q)];
    assert Expanded(b, tasks, IndexColumn, 1) == [v, v];
    assert Expanded(b, tasks, TaskColumn, 1) == [Str(p), Str(q)];
  }
}
