/**
  `TodoDataAccess`: the flat-file store. Save writes one
  `Id|TaskDescription|DateTimeCreated|IsComplete` line per record; load reads
  the lines back, skipping empty lines and lines that do not split into
  exactly four fields, and lets a field that does not parse abort the whole
  load.

  The file is `Option<string>`: `None` when it does not exist, otherwise its
  text.
 */
module TodoDataAccess {
  import opened Wrappers
  import opened TodoModel
  import opened TextCodec

  // ---------------------------------------------------------------------------
  // The line format

  /** `{item.TaskDescription}` in an interpolated string: null prints as nothing. */
  function DescriptionText(d: Option<string>): string {
    match d
    case None => ""
    case Some(s) => s
  }

  /** The line saved for one record. */
  function FormatLine(t: Todo, codec: DateCodec): string {
    FormatInt32(t.id) + "|" + DescriptionText(t.taskDescription) + "|" + codec.format(t.dateTimeCreated) + "|" + FormatBool(t.isComplete)
  }

  function FormatLines(rs: seq<Todo>, codec: DateCodec): (lines: seq<string>)
    ensures |lines| == |rs| && forall i :: 0 <= i < |rs| ==> lines[i] == FormatLine(rs[i], codec)
  {
    seq(|rs|, i requires 0 <= i < |rs| => FormatLine(rs[i], codec))
  }

  /** The file's whole content after a save of `rs`. */
  function FormatFile(rs: seq<Todo>, codec: DateCodec): string {
    WriteLines(FormatLines(rs, codec))
  }

  /** What loading does with one line. */
  datatype LineOutcome = Skipped | Loaded(todo: Todo) | Threw(error: Exception)

  /**
    One line of the file: empty lines and lines without exactly four fields
    are skipped; the fields are taken by position and parsed in the order id,
    date, flag, the first parse failure being thrown.
   */
  function ParseLine(line: string, codec: DateCodec): LineOutcome {
    if line == "" then Skipped
    else
      var parts := Split(line, '|');
      if |parts| != 4 then Skipped
      else
        match ParseInt32(parts[0])
        case Failure(e) => Threw(e)
        case Success(id) =>
          match codec.parse(parts[2])
          case None => Threw(FormatException)
          case Some(created) =>
            match ParseBool(parts[3])
            case None => Threw(FormatException)
            case Some(complete) => Loaded(Todo(id, Some(parts[1]), created, complete))
  }

  /** `Success(p + rs)` for a successful `r`, a failure unchanged. */
  function Prepend(p: seq<Todo>, r: Result<seq<Todo>, Exception>): Result<seq<Todo>, Exception> {
    match r
    case Failure(e) => r
    case Success(rs) => Success(p + rs)
  }

  /** `f` applied to each line, in order. */
  function MapLines(f: string -> LineOutcome, lines: seq<string>): (os: seq<LineOutcome>)
    ensures |os| == |lines| && forall i :: 0 <= i < |lines| ==> os[i] == f(lines[i])
  {
    seq(|lines|, i requires 0 <= i < |lines| => f(lines[i]))
  }

  function LineParser(codec: DateCodec): string -> LineOutcome {
    line => ParseLine(line, codec)
  }

  /** What loading does with each line, in order. */
  function Outcomes(lines: seq<string>, codec: DateCodec): (os: seq<LineOutcome>)
    ensures |os| == |lines| && forall i :: 0 <= i < |lines| ==> os[i] == ParseLine(lines[i], codec)
  {
    MapLines(LineParser(codec), lines)
  }

  /** The loaded records in line order, or the exception of the first line that throws. */
  function Collect(os: seq<LineOutcome>): Result<seq<Todo>, Exception> {
    if os == [] then Success([])
    else
      match os[0]
      case Skipped => Collect(os[1..])
      case Threw(e) => Failure(e)
      case Loaded(t) => Prepend([t], Collect(os[1..]))
  }

  /**
    How many records loading constructs: one per four-field line, up to and
    including the first one that throws.
   */
  function Constructed(os: seq<LineOutcome>): nat {
    if os == [] then 0
    else
      match os[0]
      case Skipped => Constructed(os[1..])
      case Threw(_) => 1
      case Loaded(_) => 1 + Constructed(os[1..])
  }

  function ParseLines(lines: seq<string>, codec: DateCodec): Result<seq<Todo>, Exception> {
    Collect(Outcomes(lines, codec))
  }

  function Constructions(lines: seq<string>, codec: DateCodec): nat {
    Constructed(Outcomes(lines, codec))
  }

  /** What a load of `file` returns; an absent file reads as no records. */
  function ParseFile(file: Option<string>, codec: DateCodec): Result<seq<Todo>, Exception> {
    match file
    case None => Success([])
    case Some(text) => ParseLines(ReadAllLines(text), codec)
  }

  function FileConstructions(file: Option<string>, codec: DateCodec): nat {
    match file
    case None => 0
    case Some(text) => Constructions(ReadAllLines(text), codec)
  }

  /**
    A record that survives a save and a load: a non-null description with no
    separator or line break, and a date that survives its codec.
   */
  predicate Saveable(t: Todo, codec: DateCodec) {
    t.taskDescription.Some? && NoFieldBreak(t.taskDescription.value) && DateSurvives(codec, t.dateTimeCreated)
  }

  // ---------------------------------------------------------------------------
  // Properties of the format

  /**
    A line of four separator-free fields is read by position: part 0 is the
    id, part 1 the description, part 2 the date and part 3 the flag. It is
    loaded when all three parsed fields parse, and otherwise throws the
    exception of the first field that fails; it is never skipped.
   */
  lemma ParseLineByPosition(a: string, b: string, c: string, d: string, codec: DateCodec)
    requires '|' !in a && '|' !in b && '|' !in c && '|' !in d
    ensures var o := ParseLine(a + "|" + b + "|" + c + "|" + d, codec);
      && (o.Loaded? <==> ParseInt32(a).Success? && codec.parse(c).Some? && ParseBool(d).Some?)
      && (o.Loaded? ==> o.todo == Todo(ParseInt32(a).value, Some(b), codec.parse(c).value, ParseBool(d).value))
      && (ParseInt32(a).Failure? ==> o == Threw(ParseInt32(a).error))
      && (ParseInt32(a).Success? && codec.parse(c).None? ==> o == Threw(FormatException))
      && (ParseInt32(a).Success? && codec.parse(c).Some? && ParseBool(d).None? ==> o == Threw(FormatException))
      && o != Skipped
  {
    var line := a + "|" + b + "|" + c + "|" + d;
    assert line == Join([a, b, c, d], '|') by {
      var ps := [a, b, c, d];
      assert ps[1..][1..][1..] == [d];
      assert ps[1..][1..] == [c, d];
      assert ps[1..] == [b, c, d];
      assert Join([c, d], '|') == c + "|" + d;
      assert Join([b, c, d], '|') == b + "|" + (c + "|" + d);
      assert Join(ps, '|') == a + "|" + (b + "|" + (c + "|" + d));
    }
    SplitJoin([a, b, c, d], '|');
  }

  /** A line is skipped exactly when it is empty or does not hold exactly three separators. */
  lemma ParseLineSkips(line: string, codec: DateCodec)
    ensures ParseLine(line, codec) == Skipped <==> line == "" || Count(line, '|') != 3
  {
  }

  /** One saved record reads back as itself. */
  lemma LineRoundTrip(t: Todo, codec: DateCodec)
    requires Saveable(t, codec)
    ensures ParseLine(FormatLine(t, codec), codec) == Loaded(t)
  {
    FormatInt32Plain(t.id);
    FormatBoolPlain(t.isComplete);
    Int32RoundTrip(t.id);
    BoolRoundTrip(t.isComplete);
    assert codec.parse(codec.format(t.dateTimeCreated)) == Some(t.dateTimeCreated);
    ParseLineByPosition(FormatInt32(t.id), t.taskDescription.value, codec.format(t.dateTimeCreated), FormatBool(t.isComplete), codec);
  }

  /** A null description is saved as an empty field and reads back as the empty string, not null. */
  lemma NullDescriptionReloadsEmpty(t: Todo, codec: DateCodec)
    requires t.taskDescription == None && DateSurvives(codec, t.dateTimeCreated)
    ensures ParseLine(FormatLine(t, codec), codec) == Loaded(t.(taskDescription := Some("")))
  {
    LineRoundTrip(t.(taskDescription := Some("")), codec);
  }

  /** A description holding the separator gives a line with more than four fields: it is lost on reload. */
  lemma PipeInDescriptionIsDropped(t: Todo, codec: DateCodec)
    requires t.taskDescription.Some? && '|' in t.taskDescription.value
    ensures ParseLine(FormatLine(t, codec), codec) == Skipped
  {
    var d := t.taskDescription.value;
    var a, c, b := FormatInt32(t.id), codec.format(t.dateTimeCreated), FormatBool(t.isComplete);
    CountAbsent(d, '|');
    CountAppend(a + "|" + d + "|" + c + "|", b, '|');
    CountAppend(a + "|" + d + "|" + c, "|", '|');
    CountAppend(a + "|" + d + "|", c, '|');
    CountAppend(a + "|" + d, "|", '|');
    CountAppend(a + "|", d, '|');
    CountAppend(a, "|", '|');
  }

  /**
    Round trip: when every saved date survives its codec and every
    description is non-null and free of separators and line breaks, loading what was saved
    gives back the records field for field, in order.
   */
  lemma {:induction false} RoundTrip(rs: seq<Todo>, codec: DateCodec)
    requires forall i :: 0 <= i < |rs| ==> Saveable(rs[i], codec)
    ensures ParseFile(Some(FormatFile(rs, codec)), codec) == Success(rs)
  {
    var lines := FormatLines(rs, codec);
    forall i | 0 <= i < |lines|
      ensures '\n' !in lines[i] && '\r' !in lines[i]
    {
      NoLineBreakInLine(rs[i], codec);
    }
    ReadWriteLines(lines);
    LinesRoundTrip(rs, codec);
  }

  lemma NoLineBreakInLine(t: Todo, codec: DateCodec)
    requires Saveable(t, codec)
    ensures '\n' !in FormatLine(t, codec) && '\r' !in FormatLine(t, codec)
  {
    FormatInt32Plain(t.id);
    FormatBoolPlain(t.isComplete);
    assert NoFieldBreak(codec.format(t.dateTimeCreated));
  }

  /** Every line loads its record. */
  function AllLoaded(rs: seq<Todo>): (os: seq<LineOutcome>)
    ensures |os| == |rs| && forall i :: 0 <= i < |rs| ==> os[i] == Loaded(rs[i])
  {
    seq(|rs|, i requires 0 <= i < |rs| => Loaded(rs[i]))
  }

  lemma {:induction false} CollectAllLoaded(rs: seq<Todo>)
    ensures Collect(AllLoaded(rs)) == Success(rs)
  {
    if rs != [] {
      assert AllLoaded(rs)[1..] == AllLoaded(rs[1..]);
      CollectAllLoaded(rs[1..]);
      assert [rs[0]] + rs[1..] == rs;
    }
  }

  lemma FormattedOutcomes(rs: seq<Todo>, codec: DateCodec)
    requires forall i :: 0 <= i < |rs| ==> Saveable(rs[i], codec)
    ensures Outcomes(FormatLines(rs, codec), codec) == AllLoaded(rs)
  {
    var lines := FormatLines(rs, codec);
    forall i | 0 <= i < |rs|
      ensures Outcomes(lines, codec)[i] == AllLoaded(rs)[i]
    {
      LineRoundTrip(rs[i], codec);
    }
  }

  lemma LinesRoundTrip(rs: seq<Todo>, codec: DateCodec)
    requires forall i :: 0 <= i < |rs| ==> Saveable(rs[i], codec)
    ensures ParseLines(FormatLines(rs, codec), codec) == Success(rs)
  {
    FormattedOutcomes(rs, codec);
    CollectAllLoaded(rs);
  }

  lemma {:induction false} CollectSkip(before: seq<LineOutcome>, after: seq<LineOutcome>)
    ensures Collect(before + [Skipped] + after) == Collect(before + after)
    ensures Constructed(before + [Skipped] + after) == Constructed(before + after)
  {
    if before == [] {
      assert before + [Skipped] + after == [Skipped] + after;
      assert ([Skipped] + after)[1..] == after;
      assert before + after == after;
    } else {
      CollectSkip(before[1..], after);
      assert (before + [Skipped] + after)[1..] == before[1..] + [Skipped] + after;
      assert (before + after)[1..] == before[1..] + after;
    }
  }

  lemma MapLinesAppend(f: string -> LineOutcome, a: seq<string>, b: seq<string>)
    ensures MapLines(f, a + b) == MapLines(f, a) + MapLines(f, b)
  {
    var l, o := a + b, MapLines(f, a) + MapLines(f, b);
    forall i | 0 <= i < |l|
      ensures MapLines(f, l)[i] == o[i]
    {
      if i < |a| { assert l[i] == a[i]; } else { assert l[i] == b[i - |a|]; }
    }
  }

  lemma MapLinesSlice(f: string -> LineOutcome, lines: seq<string>, i: nat, j: nat)
    requires i <= j <= |lines|
    ensures MapLines(f, lines[i..j]) == MapLines(f, lines)[i..j]
  {
  }

  /** The outcomes of a file split in two are those of its parts. */
  lemma OutcomesAppend(a: seq<string>, b: seq<string>, codec: DateCodec)
    ensures Outcomes(a + b, codec) == Outcomes(a, codec) + Outcomes(b, codec)
  {
    MapLinesAppend(LineParser(codec), a, b);
  }

  /** Skipped lines can be taken out of the file without changing what is loaded or constructed. */
  lemma SkippedLineIsIgnored(before: seq<string>, line: string, after: seq<string>, codec: DateCodec)
    requires ParseLine(line, codec) == Skipped
    ensures ParseLines(before + [line] + after, codec) == ParseLines(before + after, codec)
    ensures Constructions(before + [line] + after, codec) == Constructions(before + after, codec)
  {
    OutcomesAppend(before + [line], after, codec);
    OutcomesAppend(before, [line], codec);
    OutcomesAppend(before, after, codec);
    assert Outcomes([line], codec) == [Skipped];
    CollectSkip(Outcomes(before, codec), Outcomes(after, codec));
  }

  lemma {:induction false} CollectThrow(os: seq<LineOutcome>, i: nat)
    requires i < |os| && os[i].Threw?
    requires forall j :: 0 <= j < i ==> !os[j].Threw?
    ensures Collect(os) == Failure(os[i].error) && Constructed(os) == Constructed(os[..i]) + 1
  {
    if i > 0 {
      CollectThrow(os[1..], i - 1);
      assert os[1..][..i - 1] == os[..i][1..];
    }
  }

  /**
    A line whose fields do not parse makes the whole load fail with its
    exception, after constructing one record for it and for every four-field
    line before it.
   */
  lemma ThrowingLineFailsLoad(lines: seq<string>, i: nat, codec: DateCodec)
    requires i < |lines| && ParseLine(lines[i], codec).Threw?
    requires forall j :: 0 <= j < i ==> !ParseLine(lines[j], codec).Threw?
    ensures ParseLines(lines, codec) == Failure(ParseLine(lines[i], codec).error)
    ensures Constructions(lines, codec) == Constructions(lines[..i], codec) + 1
  {
    var os := Outcomes(lines, codec);
    CollectThrow(os, i);
    MapLinesSlice(LineParser(codec), lines, 0, i);
    assert lines[0..i] == lines[..i];
  }

  lemma {:induction false} ConstructedOfSuccess(os: seq<LineOutcome>)
    requires Collect(os).Success?
    ensures Constructed(os) == |Collect(os).value|
  {
    if os != [] {
      ConstructedOfSuccess(os[1..]);
    }
  }

  /** A load that succeeds constructed exactly one record per record it returns. */
  lemma ConstructionsOfSuccess(lines: seq<string>, codec: DateCodec)
    requires ParseLines(lines, codec).Success?
    ensures Constructions(lines, codec) == |ParseLines(lines, codec).value|
  {
    ConstructedOfSuccess(Outcomes(lines, codec));
  }

  /** An absent file loads as no records and constructs none. */
  lemma AbsentFileLoadsEmpty(codec: DateCodec)
    ensures ParseFile(None, codec) == Success([]) && FileConstructions(None, codec) == 0
  {
  }

  // ---------------------------------------------------------------------------
  // The store's operations

  /**
    `SaveTodoItems`: the file's new content, which replaces whatever it held
    before, is one formatted line per record in list order.
   */
  method SaveTodoItems(list: TodoList, codec: DateCodec) returns (content: string)
    ensures content == FormatFile(Values(list.items), codec)
  {
    ghost var rs := Values(list.items);
    content := "";
    for i := 0 to |list.items|
      invariant content == WriteLines(FormatLines(rs[..i], codec))
    {
      var item := list.items[i];
      content := content + FormatLine(item.Value(), codec) + NewLine;
      assert FormatLines(rs[..i + 1], codec) == FormatLines(rs[..i], codec) + [FormatLine(rs[i], codec)];
      WriteLinesSnoc(FormatLines(rs[..i], codec), FormatLine(rs[i], codec));
    }
    assert rs[..|list.items|] == rs;
  }

  lemma PrependAppend(p: seq<Todo>, t: Todo, r: Result<seq<Todo>, Exception>)
    ensures Prepend(p, Prepend([t], r)) == Prepend(p + [t], r)
  {
    if r.Success? {
      assert p + ([t] + r.value) == (p + [t]) + r.value;
    }
  }

  /** Loading takes the lines one at a time: one step of `Collect` and `Constructed`. */
  lemma CollectStep(os: seq<LineOutcome>, i: nat)
    requires i < |os|
    ensures os[i..][1..] == os[i + 1..]
    ensures match os[i]
      case Skipped => Collect(os[i..]) == Collect(os[i + 1..]) && Constructed(os[i..]) == Constructed(os[i + 1..])
      case Threw(e) => Collect(os[i..]) == Failure(e) && Constructed(os[i..]) == 1
      case Loaded(t) => Collect(os[i..]) == Prepend([t], Collect(os[i + 1..])) && Constructed(os[i..]) == 1 + Constructed(os[i + 1..])
  {
    assert os[i..][0] == os[i];
  }

  /** `f` gives, for every line, what loading does with it. */
  ghost predicate ParsesLines(f: string -> LineOutcome, codec: DateCodec) {
    forall line {:trigger ParseLine(line, codec)} :: f(line) == ParseLine(line, codec)
  }

  /**
    The body of the load loop for one line. A four-field line constructs a
    record, advancing the counter, and then overwrites its fields with the
    parsed ones; the first field that fails to parse throws. The outcome is
    stated through `f`, which stands for `ParseLine`.
   */
  method ReadLine(line: string, codec: DateCodec, counter: IdCounter, ghost f: string -> LineOutcome)
    returns (item: TodoItem?, thrown: Option<Exception>)
    requires ParsesLines(f, codec)
    modifies counter
    ensures match f(line)
      case Skipped => item == null && thrown == None && counter.nextId == old(counter.nextId)
      case Threw(e) => item == null && thrown == Some(e) && counter.nextId == Increment(old(counter.nextId))
      case Loaded(t) =>
        && item != null && fresh(item) && item.Value() == t && thrown == None
        && counter.nextId == Increment(old(counter.nextId))
  {
    assert f(line) == ParseLine(line, codec);
    item, thrown := null, None;
    if line != "" {
      var parts := Split(line, '|');
      if |parts| == 4 {
        var todoListItem := new TodoItem(counter);
        var id := ParseInt32(parts[0]);
        if id.Failure? {
          thrown := Some(id.error);
          return;
        }
        todoListItem.id := id.value;
        todoListItem.taskDescription := Some(parts[1]);
        var created := codec.parse(parts[2]);
        if created.None? {
          thrown := Some(FormatException);
          return;
        }
        todoListItem.dateTimeCreated := created.value;
        var complete := ParseBool(parts[3]);
        if complete.None? {
          thrown := Some(FormatException);
          return;
        }
        todoListItem.isComplete := complete.value;
        item := todoListItem;
      }
    }
  }

  /**
    The loop over the lines of an existing file: fresh records in line order,
    or the exception of the first line that throws. Each line that reaches
    the record constructor advances the counter.
   */
  method LoadLines(lines: seq<string>, codec: DateCodec, counter: IdCounter, ghost f: string -> LineOutcome)
    returns (r: Result<seq<TodoItem>, Exception>)
    requires ParsesLines(f, codec)
    modifies counter
    ensures counter.nextId == Advance(old(counter.nextId), Constructed(MapLines(f, lines)))
    ensures match Collect(MapLines(f, lines))
      case Failure(e) => r == Failure(e)
      case Success(rs) =>
        && r.Success? && Values(r.value) == rs
        && Distinct(r.value) && forall i :: 0 <= i < |r.value| ==> fresh(r.value[i])
  {
    var loaded: seq<TodoItem> := [];
    ghost var os := MapLines(f, lines);
    assert os[0..] == os;
    assert Collect(os).Success? ==> [] + Collect(os).value == Collect(os).value;
    for i := 0 to |lines|
      invariant Distinct(loaded) && forall j :: 0 <= j < |loaded| ==> fresh(loaded[j])
      invariant Advance(counter.nextId, Constructed(os[i..])) == Advance(old(counter.nextId), Constructed(os))
      invariant Collect(os) == Prepend(Values(loaded), Collect(os[i..]))
    {
      var item, thrown := ReadLine(lines[i], codec, counter, f);
      CollectStep(os, i);
      if thrown.Some? {
        return Failure(thrown.value);
      }
      if item != null {
        PrependAppend(Values(loaded), item.Value(), Collect(os[i + 1..]));
        ValuesAppend(loaded, item);
        loaded := loaded + [item];
      }
    }
    assert os[|lines|..] == [];
    r := Success(loaded);
  }

  /**
    `LoadTodoItems`: a fresh list of fresh records holding what the file
    holds, or the exception of the first bad field. Every four-field line
    read constructs a record and so advances the id counter, even though the
    loaded id then overwrites the one the counter gave.
   */
  method LoadTodoItems(file: Option<string>, codec: DateCodec, counter: IdCounter) returns (r: Result<TodoList, Exception>)
    modifies counter
    ensures counter.nextId == Advance(old(counter.nextId), FileConstructions(file, codec))
    ensures match ParseFile(file, codec)
      case Failure(e) => r == Failure(e)
      case Success(rs) =>
        && r.Success? && fresh(r.value) && Values(r.value.items) == rs
        && Distinct(r.value.items) && forall i :: 0 <= i < |r.value.items| ==> fresh(r.value.items[i])
  {
    var loaded: seq<TodoItem> := [];
    if file.Some? {
      var lines := ReadAllLines(file.value);
      var read := LoadLines(lines, codec, counter, LineParser(codec));
      if read.Failure? {
        return Failure(read.error);
      }
      loaded := read.value;
    }
    var list := new TodoList(loaded);
    r := Success(list);
  }

  /** `CreateTodoItem` of the flat-file store is not implemented: every call throws. */
  method CreateTodoItem(taskDescription: Option<string>) returns (r: Result<TodoItem, Exception>)
    ensures r == Failure(NotImplementedException)
  {
    r := Failure(NotImplementedException);
  }
}
