/**
  The task record (`TodoModel`), the process-wide id counter that its
  constructor draws from, and the caller-owned list of records.
 */
module TodoModel {
  import opened Wrappers

  const MinInt32: int := -0x8000_0000
  const MaxInt32: int := 0x7FFF_FFFF
  const Int32Span: int := 0x1_0000_0000

  /** C#'s `int`. */
  newtype int32 = x: int | -0x8000_0000 <= x <= 0x7FFF_FFFF

  /** Two's-complement reduction of an unbounded integer into the `int` range. */
  function Wrap(v: int): (r: int32)
    ensures (r as int - v) % Int32Span == 0
  {
    ((v - MinInt32) % Int32Span + MinInt32) as int32
  }

  /** `x++` on a C# `int` in the default unchecked context: MaxValue steps to MinValue. */
  function Increment(x: int32): int32 {
    if x as int == MaxInt32 then MinInt32 as int32 else x + 1
  }

  /** `x++` is addition of one modulo 2^32. */
  lemma IncrementWraps(x: int32)
    ensures Increment(x) == Wrap(x as int + 1)
  {
    if x as int == MaxInt32 {
      WrapShift(MinInt32, 1);
    }
  }

  /** The counter after `n` constructions starting from `x`. */
  function Advance(x: int32, n: nat): int32
    decreases n
  {
    if n == 0 then x else Advance(Increment(x), n - 1)
  }

  /** `DateTime`, reduced to its tick count. */
  datatype DateTime = DateTime(ticks: int)

  /** `default(DateTime)`, i.e. `DateTime.MinValue`. */
  const MinValue: DateTime := DateTime(0)

  /** The field values of one record at one moment; `None` is a null `TaskDescription`. */
  datatype Todo = Todo(id: int32, taskDescription: Option<string>, dateTimeCreated: DateTime, isComplete: bool)

  /** The static `_nextId` field of `TodoModel`. */
  class IdCounter {
    var nextId: int32

    /** The static initialiser. */
    constructor ()
      ensures nextId == 1
    {
      nextId := 1;
    }
  }

  /**
    The C# class `TodoModel` (TodoModel.cs), named `TodoItem` here because
    `TodoModel` names this module: its properties are updated in place by the
    service and the loader.
   */
  class TodoItem {
    var id: int32
    var taskDescription: Option<string>
    var dateTimeCreated: DateTime
    var isComplete: bool

    /** `new TodoModel()`: takes the counter's value as id and post-increments the counter. */
    constructor (counter: IdCounter)
      modifies counter
      ensures id == old(counter.nextId) && counter.nextId == Increment(old(counter.nextId))
      ensures taskDescription == None && dateTimeCreated == MinValue && !isComplete
    {
      id := counter.nextId;
      taskDescription := None;
      dateTimeCreated := MinValue;
      isComplete := false;
      counter.nextId := Increment(counter.nextId);
    }

    function Value(): Todo
      reads this
    {
      Todo(id, taskDescription, dateTimeCreated, isComplete)
    }
  }

  /** The caller-owned `List<TodoModel>`, which the service mutates in place. */
  class TodoList {
    var items: seq<TodoItem>

    constructor (items: seq<TodoItem>)
      ensures this.items == items
    {
      this.items := items;
    }
  }

  /** The current field values of the records a list refers to, in list order. */
  function Values(items: seq<TodoItem>): (r: seq<Todo>)
    reads items
    ensures |r| == |items|
    ensures forall i :: 0 <= i < |items| ==> r[i] == items[i].Value()
  {
    seq(|items|, i reads items requires 0 <= i < |items| => items[i].Value())
  }

  lemma ValuesAppend(items: seq<TodoItem>, x: TodoItem)
    ensures Values(items + [x]) == Values(items) + [x.Value()]
  {
  }

  /** No record object occurs twice in the list. */
  ghost predicate Distinct(items: seq<TodoItem>) {
    forall i, j :: 0 <= i < j < |items| ==> items[i] != items[j]
  }

  lemma WrapShift(v: int, k: int)
    ensures Wrap(v + k * Int32Span) == Wrap(v)
  {
    var a := v - MinInt32;
    assert (a + k * Int32Span) % Int32Span == a % Int32Span;
  }

  /** n constructions move the counter by n, modulo 2^32. */
  lemma {:induction false} AdvanceWraps(x: int32, n: nat)
    ensures Advance(x, n) == Wrap(x as int + n)
    decreases n
  {
    if n == 0 {
      var q := (x as int - MinInt32) / Int32Span;
      assert q == 0;
    } else {
      AdvanceWraps(Increment(x), n - 1);
      IncrementWraps(x);
      var i := Increment(x) as int;
      assert (i - (x as int + 1)) % Int32Span == 0;
      var k := (i - (x as int + 1)) / Int32Span;
      assert i == x as int + 1 + k * Int32Span;
      WrapShift(x as int + n, k);
    }
  }

  /** Without reaching MaxValue the counter just counts. */
  lemma AdvanceNoOverflow(x: int32, n: nat)
    requires x as int + n <= MaxInt32
    ensures Advance(x, n) as int == x as int + n
  {
    AdvanceWraps(x, n);
  }

  lemma {:induction false} AdvanceStep(x: int32, n: nat)
    ensures Advance(x, n + 1) == Increment(Advance(x, n))
    decreases n
  {
    if n > 0 {
      AdvanceStep(Increment(x), n - 1);
    }
  }

  /**
    The i-th and j-th of a run of constructions from counter value x get
    increasing ids as long as the counter stays below MaxValue.
   */
  lemma SuccessiveIdsIncrease(x: int32, i: nat, j: nat)
    requires i < j && x as int + j <= MaxInt32
    ensures Advance(x, i) < Advance(x, j)
  {
    AdvanceNoOverflow(x, i);
    AdvanceNoOverflow(x, j);
  }

  /** Fewer than 2^32 successive constructions get pairwise distinct ids, wrap-around or not. */
  lemma SuccessiveIdsDistinct(x: int32, i: nat, j: nat)
    requires i < j < Int32Span
    ensures Advance(x, i) != Advance(x, j)
  {
    AdvanceWraps(x, i);
    AdvanceWraps(x, j);
  }

  /** Once the counter is at MaxValue, the next record gets MinValue. */
  lemma CounterWrapsAtMaxValue()
    ensures Advance(MaxInt32 as int32, 1) as int == MinInt32
  {
  }
}
