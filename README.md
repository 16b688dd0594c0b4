# Todo list core in Dafny

A model of the class library at the heart of the todo application
(`ToDoApp.ClassLibrary`):

- **`TodoModel`**: a mutable record with an `Id`, a nullable
  `TaskDescription`, a `DateTimeCreated` and an `IsComplete` flag. Its
  constructor takes the id from a process-wide static counter and
  post-increments the counter.
- **`TodoService`**: five operations on the caller's `List<TodoModel>`,
  which they change in place.
  - Create, update, delete and list-all return the list they were given;
    mark-complete returns nothing.
  - Update, delete and mark-complete are keyed by id. Each acts only on the
    *first* record with that id, and silently does nothing when no record
    has it.
  - Create appends a new record without looking at the ids already present.
- **`TodoDataAccess`**: the flat-file store.
  - Save writes one `Id|TaskDescription|DateTimeCreated|IsComplete` line per
    record.
  - Load reads the lines back. It skips empty lines and lines that do not
    split into exactly four fields.
  - A field that does not parse makes the whole load throw.
  - Its `CreateTodoItem` always throws `NotImplementedException`.

## Layout

- `wrappers.dfy` (`Wrappers`): `Option`, `Result`, and the exceptions that
  escape from the core.
- `todo_model.dfy` (`TodoModel`):
  - the C# `int` as `int32`, and the constructor's unchecked `_nextId++`,
    which wraps from `int.MaxValue` to `int.MinValue`, as `Increment`;
  - `IdCounter`, the static counter as an object;
  - `TodoItem`, the record as a class whose fields the service updates in
    place;
  - `TodoList`, the caller's list as a class holding a `seq<TodoItem>`;
  - `Values`, which reads the current field values of a list of records as
    a `seq<Todo>`.
- `todo_service.dfy` (`TodoService`): pure functions on `seq<Todo>` state
  what each operation does, and lemmas prove the listed properties about
  them. The methods perform the operations on the objects and are proved
  against those functions.
- `text_codec.dfy` (`TextCodec`): the .NET text handling the file format
  relies on, fixed to the invariant culture:
  - `string.Split(char)` with its inverse `Join`;
  - `int.ToString()` and `int.Parse`: `NumberStyles.Integer` white space, a
    sign, digits, checked against the 32-bit range;
  - `bool.ToString()` and `bool.Parse`: trims white space and NUL, then
    compares case-insensitively;
  - `WriteLine` with a `"\n"` newline, and `File.ReadAllLines`, which cuts
    at `"\r\n"`, `"\n"` and `"\r"`;
  - `DateTime.ToString()` and `DateTime.Parse` as an abstract `DateCodec`.
    `DateSurvives(codec, d)` says that parsing the formatted `d` gives it
    back and that its text holds no `|` or line break.
- `todo_data_access.dfy` (`TodoDataAccess`):
  - the line format (`FormatLine`, `ParseLine`) and the whole-file meaning of
    a save and a load (`FormatFile`, `ParseFile`), with their properties;
  - the save loop and the load loop as methods proved equal to those
    functions.

The file is `Option<string>`: `None` when it does not exist, otherwise its
text. A save returns the file's new content. A load takes the content and
the counter, since every record it constructs advances the counter.

`DateTime.Now` is the `now` parameter of the service methods.

Facts about the code that shape the model:

- The relational store's save (`TodoDatabaseDataAccess.cs:20-28`) deletes
  every row and re-inserts the whole list. The relational store is not part
  of this model.
- Dates are written with `DateTime.ToString()` and read with
  `DateTime.Parse`, both in the current culture. They are modelled as the
  abstract `DateCodec`.
- The flag is read with `bool.Parse`. It accepts "True" or "False" in any
  letter case, with white space or NUL around the word (`ParseBoolLenient`),
  and nothing else (`ParseBoolExactly`).
- The id counter's `_nextId++` is unchecked and wraps at `int.MaxValue`
  (`CounterWrapsAtMaxValue`). Ids increase only below that point
  (`SuccessiveIdsIncrease`). They stay pairwise distinct for fewer than 2^32
  constructions (`SuccessiveIdsDistinct`).

## Model

All source paths are under `ToDoApplication/ToDoApp.ClassLibrary/`.

| member | source | states |
|---|---|---|
| TodoModel.IdCounter.constructor | ToDoApplication/ToDoApp.ClassLibrary/TodoModel.cs:5 | the static counter starts at 1 |
| TodoModel.TodoItem.constructor | ToDoApplication/ToDoApp.ClassLibrary/TodoModel.cs:5-17 | the new record's id is the counter's old value, and the counter moves one step (`Increment`); the description is null, the date is `DateTime.MinValue` and the flag is false; nothing else changes |
| TodoModel.Wrap | ToDoApplication/ToDoApp.ClassLibrary/TodoModel.cs:16 | the `int` the result lands on differs from the unbounded value by a multiple of 2^32 |
| TodoModel.Increment | ToDoApplication/ToDoApp.ClassLibrary/TodoModel.cs:16 | one unchecked `_nextId++` step: the next `int`, with `int.MaxValue` followed by `int.MinValue`; `IncrementWraps` states it as adding one modulo 2^32 |
| TodoModel.IncrementWraps | ToDoApplication/ToDoApp.ClassLibrary/TodoModel.cs:16 | `_nextId++` adds one modulo 2^32 |
| TodoModel.AdvanceWraps | ToDoApplication/ToDoApp.ClassLibrary/TodoModel.cs:16 | n constructions move the counter by n modulo 2^32 |
| TodoModel.AdvanceNoOverflow | ToDoApplication/ToDoApp.ClassLibrary/TodoModel.cs:16 | below `int.MaxValue`, n constructions add exactly n |
| TodoModel.AdvanceStep | ToDoApplication/ToDoApp.ClassLibrary/TodoModel.cs:16 | one more construction is one more `Increment` |
| TodoModel.SuccessiveIdsIncrease | ToDoApplication/ToDoApp.ClassLibrary/TodoModel.cs:14-17 | a later construction gets a strictly larger id, as long as the counter does not pass `int.MaxValue` |
| TodoModel.SuccessiveIdsDistinct | ToDoApplication/ToDoApp.ClassLibrary/TodoModel.cs:14-17 | any two of fewer than 2^32 successive constructions get different ids, wrap-around included |
| TodoModel.CounterWrapsAtMaxValue | ToDoApplication/ToDoApp.ClassLibrary/TodoModel.cs:16 | after `int.MaxValue` the next id is `int.MinValue` |
| TodoService.FirstIndex | ToDoApplication/ToDoApp.ClassLibrary/TodoService.cs:12 | `FirstOrDefault` by id: the index of a record with the id and no earlier one; none exactly when no record has the id |
| TodoService.FirstIndexIsFirst | ToDoApplication/ToDoApp.ClassLibrary/TodoService.cs:12 | the first record with the id is the one found |
| TodoService.UpdatePresent | ToDoApplication/ToDoApp.ClassLibrary/TodoService.cs:10-20 | for a present id, only the first record with it changes: new description and `now`, same id and flag; length and all other records stay |
| TodoService.UpdateAbsent | ToDoApplication/ToDoApp.ClassLibrary/TodoService.cs:12-19 | for an absent id the list is exactly as before |
| TodoService.DeletePresent | ToDoApplication/ToDoApp.ClassLibrary/TodoService.cs:22-33 | for a present id, exactly the first record with it is removed: the length drops by one, the rest keep their order, and the multiset loses just that record |
| TodoService.DeleteAbsent | ToDoApplication/ToDoApp.ClassLibrary/TodoService.cs:25-31 | for an absent id the list is exactly as before |
| TodoService.DeleteKeepsLaterDuplicates | ToDoApplication/ToDoApp.ClassLibrary/TodoService.cs:28 | records after the removed one, holding the same id or not, move down by one position unchanged |
| TodoService.MarkCompletePresent | ToDoApplication/ToDoApp.ClassLibrary/TodoService.cs:49-56 | for a present id, only the first record with it gets the flag; nothing else changes |
| TodoService.MarkCompleteAbsent | ToDoApplication/ToDoApp.ClassLibrary/TodoService.cs:51-55 | for an absent id, marking is a no-op, not a failure |
| TodoService.CreateAppends | ToDoApplication/ToDoApp.ClassLibrary/TodoService.cs:35-47 | one record is appended at the end with the given id, the given (possibly null) description, `now` and the flag cleared; earlier records stay |
| TodoService.UpdateKeepsIds | ToDoApplication/ToDoApp.ClassLibrary/TodoService.cs:10-20 | updating keeps every record's id in place |
| TodoService.MarkCompleteKeepsIds | ToDoApplication/ToDoApp.ClassLibrary/TodoService.cs:49-56 | marking keeps every record's id in place |
| TodoService.DeleteKeepsIds | ToDoApplication/ToDoApp.ClassLibrary/TodoService.cs:22-33 | deleting drops the removed record's id and keeps the other ids in order |
| TodoService.CreateMayDuplicateId | ToDoApplication/ToDoApp.ClassLibrary/TodoService.cs:35-47 | creation does not check the ids already in the list: a list can end up with two records of the same id |
| TodoService.ListAllTodoItems | ToDoApplication/ToDoApp.ClassLibrary/TodoService.cs:5-8 | returns the very list it is given |
| TodoService.UpdateTodoItem | ToDoApplication/ToDoApp.ClassLibrary/TodoService.cs:10-20 | the first record with the id, if any, gets the new description and `now`; its id and flag, the list and every other record object are unchanged; the list's values are `Update` of the old ones |
| TodoService.RemoveFirstAt | ToDoApplication/ToDoApp.ClassLibrary/TodoService.cs:28 | `List.Remove` of the record found first removes exactly that position |
| TodoService.DeleteTodoItem | ToDoApplication/ToDoApp.ClassLibrary/TodoService.cs:22-33 | the list loses the record at the first position with the id, if any, and keeps the other objects in order; its values are `Delete` of the old ones |
| TodoService.CreateTodoItem | ToDoApplication/ToDoApp.ClassLibrary/TodoService.cs:35-47 | one fresh record is appended; the earlier objects stay; the values are `Create` with the counter's old value as id; the counter advances by one |
| TodoService.MarkTodoComplete | ToDoApplication/ToDoApp.ClassLibrary/TodoService.cs:49-56 | the first record with the id, if any, gets the flag and keeps its other fields; every other object is unchanged; the values are `MarkComplete` of the old ones |
| TextCodec.Split | ToDoApplication/ToDoApp.ClassLibrary/TodoDataAccess.cs:39 | splitting on the separator gives one more part than there are separators, and no part holds a separator |
| TextCodec.CountAbsent | ToDoApplication/ToDoApp.ClassLibrary/TodoDataAccess.cs:39-40 | a string has no separator exactly when it counts zero of them |
| TextCodec.JoinSplit | ToDoApplication/ToDoApp.ClassLibrary/TodoDataAccess.cs:39 | joining the parts of a split gives back the line |
| TextCodec.SplitJoin | ToDoApplication/ToDoApp.ClassLibrary/TodoDataAccess.cs:39 | splitting a join of separator-free fields gives back the fields |
| TextCodec.TrimStartSuffix | ToDoApplication/ToDoApp.ClassLibrary/TodoDataAccess.cs:43 | trimming the start drops a run of white characters and stops at the first other one |
| TextCodec.TrimEndPrefix | ToDoApplication/ToDoApp.ClassLibrary/TodoDataAccess.cs:43 | trimming the end drops a run of white characters and stops at the last other one |
| TextCodec.DigitsRoundTrip | ToDoApplication/ToDoApp.ClassLibrary/TodoDataAccess.cs:43 | the decimal digits of n read back as n |
| TextCodec.FormatInt32Plain | ToDoApplication/ToDoApp.ClassLibrary/TodoDataAccess.cs:15 | a formatted id is a sign and digits, so it holds no separator and no line break |
| TextCodec.FormatInt32 | ToDoApplication/ToDoApp.ClassLibrary/TodoDataAccess.cs:15 | the id as `{item.Id}` writes it: a `-` for negatives, then the decimal digits without leading zeros; `FormatInt32Plain` and `Int32RoundTrip` state its properties |
| TextCodec.ParseInt32 | ToDoApplication/ToDoApp.ClassLibrary/TodoDataAccess.cs:43 | `int.Parse` with `NumberStyles.Integer`: white space trimmed at both ends, an optional sign, one or more ASCII digits, a FormatException for anything else and an OverflowException outside the 32-bit range; `Int32RoundTrip` states that it inverts `FormatInt32` |
| TextCodec.Int32RoundTrip | ToDoApplication/ToDoApp.ClassLibrary/TodoDataAccess.cs:43 | `int.Parse(x.ToString()) == x` for every `int` |
| TextCodec.FormatBoolPlain | ToDoApplication/ToDoApp.ClassLibrary/TodoDataAccess.cs:15 | a formatted flag holds no separator and no line break |
| TextCodec.ParseTrue | ToDoApplication/ToDoApp.ClassLibrary/TodoDataAccess.cs:46 | `bool.Parse("True")` is true |
| TextCodec.ParseFalse | ToDoApplication/ToDoApp.ClassLibrary/TodoDataAccess.cs:46 | `bool.Parse("False")` is false |
| TextCodec.BoolRoundTrip | ToDoApplication/ToDoApp.ClassLibrary/TodoDataAccess.cs:46 | `bool.Parse(b.ToString()) == b` |
| TextCodec.FormatBool | ToDoApplication/ToDoApp.ClassLibrary/TodoDataAccess.cs:15 | the flag as `{item.IsComplete}` writes it, "True" or "False"; `FormatBoolPlain` and `BoolRoundTrip` state its properties |
| TextCodec.ParseBool | ToDoApplication/ToDoApp.ClassLibrary/TodoDataAccess.cs:46 | `bool.Parse`: trims white space and NUL characters, then accepts "True" or "False" ignoring case, and gives `None` (the FormatException) otherwise; `ParseBoolLenient` and `ParseBoolExactly` state it for every input |
| TextCodec.TrimStartWhitePrefix | ToDoApplication/ToDoApp.ClassLibrary/TodoDataAccess.cs:46 | trimming the start of a white prefix followed by a non-white character leaves exactly what follows the prefix |
| TextCodec.TrimEndWhiteSuffix | ToDoApplication/ToDoApp.ClassLibrary/TodoDataAccess.cs:46 | trimming the end of a white suffix preceded by a non-white character leaves exactly what precedes the suffix |
| TextCodec.TrimPadding | ToDoApplication/ToDoApp.ClassLibrary/TodoDataAccess.cs:46 | trimming a word that starts and ends with non-white characters, with any white padding around it, gives the word |
| TextCodec.ParseBoolLenient | ToDoApplication/ToDoApp.ClassLibrary/TodoDataAccess.cs:46 | `bool.Parse` gives `b` for `b.ToString()` in any ASCII letter case, with any white space or NUL characters before and after it |
| TextCodec.EqualsIgnoreCaseLower | ToDoApplication/ToDoApp.ClassLibrary/TodoDataAccess.cs:46 | the case-insensitive comparison holds exactly when the ASCII lower-cased strings are equal |
| TextCodec.ParseBoolExactly | ToDoApplication/ToDoApp.ClassLibrary/TodoDataAccess.cs:46 | `bool.Parse(s)` gives `b` if and only if the trimmed `s` lower-cases to the lower-cased `b.ToString()`; every other text is a FormatException |
| TextCodec.ParseBoolPaddedExample | ToDoApplication/ToDoApp.ClassLibrary/TodoDataAccess.cs:46 | example: `" true\t"` parses to true |
| TextCodec.ParseBoolRejectsExample | ToDoApplication/ToDoApp.ClassLibrary/TodoDataAccess.cs:46 | example: `"yes"` is a FormatException |
| TextCodec.WriteLinesSnoc | ToDoApplication/ToDoApp.ClassLibrary/TodoDataAccess.cs:15 | one more `WriteLine` appends the line and a newline to the file |
| TextCodec.WriteLines | ToDoApplication/ToDoApp.ClassLibrary/TodoDataAccess.cs:12-16 | the file text the `WriteLine` calls produce: each line followed by a newline, in order; `WriteLinesSnoc` and `ReadWriteLines` state its properties |
| TextCodec.ReadAllLines | ToDoApplication/ToDoApp.ClassLibrary/TodoDataAccess.cs:34 | `File.ReadAllLines`: the text cut at every `"\r\n"`, `"\n"` and `"\r"`, with no empty last line after a final break; `ReadWriteLines` states that it inverts `WriteLines` |
| TextCodec.LineEnd | ToDoApplication/ToDoApp.ClassLibrary/TodoDataAccess.cs:34 | the first line break, or the end of the text when it has none |
| TextCodec.ReadWriteLines | ToDoApplication/ToDoApp.ClassLibrary/TodoDataAccess.cs:34 | `ReadAllLines` gives back, in order, the lines written one `WriteLine` each, when no line holds a line break |
| TextCodec.LineEndAt | ToDoApplication/ToDoApp.ClassLibrary/TodoDataAccess.cs:34 | the line ends at the first line break |
| TodoDataAccess.FormatLines | ToDoApplication/ToDoApp.ClassLibrary/TodoDataAccess.cs:12-16 | exactly one formatted line per record, in list order |
| TodoDataAccess.FormatLine | ToDoApplication/ToDoApp.ClassLibrary/TodoDataAccess.cs:15 | one record as its id, description, date and flag joined by the pipe separator, with a null description written as an empty field; `LineRoundTrip`, `NullDescriptionReloadsEmpty` and `PipeInDescriptionIsDropped` state its properties |
| TodoDataAccess.ParseLine | ToDoApplication/ToDoApp.ClassLibrary/TodoDataAccess.cs:37-47 | what one line does in the load loop: skipped when empty or not four fields, otherwise the parsed record or the first parser exception; `ParseLineSkips` and `ParseLineByPosition` state it for every line |
| TodoDataAccess.ParseLineByPosition | ToDoApplication/ToDoApp.ClassLibrary/TodoDataAccess.cs:39-47 | a four-field line is read by position (id, description, date, flag) and never skipped: it loads exactly when all three parses succeed, with the parsed values; a bad id throws the id parser's exception, a bad date and a bad flag throw FormatException |
| TodoDataAccess.ParseLineSkips | ToDoApplication/ToDoApp.ClassLibrary/TodoDataAccess.cs:37-40 | a line is skipped exactly when it is empty or does not hold exactly three separators |
| TodoDataAccess.LineRoundTrip | ToDoApplication/ToDoApp.ClassLibrary/TodoDataAccess.cs:39-47 | a saved record with a non-null, separator-free description and a date that survives its codec reads back as itself |
| TodoDataAccess.NullDescriptionReloadsEmpty | ToDoApplication/ToDoApp.ClassLibrary/TodoDataAccess.cs:15 | a null description is written as an empty field and reads back as `""`, not null (when the date survives its codec) |
| TodoDataAccess.PipeInDescriptionIsDropped | ToDoApplication/ToDoApp.ClassLibrary/TodoDataAccess.cs:39-40 | a description holding the separator gives a line with too many fields, which the load skips |
| TodoDataAccess.NoLineBreakInLine | ToDoApplication/ToDoApp.ClassLibrary/TodoDataAccess.cs:15 | a saveable record's line holds no line break |
| TodoDataAccess.CollectAllLoaded | ToDoApplication/ToDoApp.ClassLibrary/TodoDataAccess.cs:35-50 | lines that all load give their records, in line order |
| TodoDataAccess.FormattedOutcomes | ToDoApplication/ToDoApp.ClassLibrary/TodoDataAccess.cs:39-47 | every line saved for a saveable record loads that record |
| TodoDataAccess.LinesRoundTrip | ToDoApplication/ToDoApp.ClassLibrary/TodoDataAccess.cs:35-50 | reading the saved lines gives back the records in order |
| TodoDataAccess.RoundTrip | ToDoApplication/ToDoApp.ClassLibrary/TodoDataAccess.cs:5-59 | load after save gives back the list field for field, in order, when every saved date survives its codec and every description is non-null and free of the separator and of line breaks |
| TodoDataAccess.CollectSkip | ToDoApplication/ToDoApp.ClassLibrary/TodoDataAccess.cs:37-40 | a skipped line changes neither the records loaded nor the number constructed |
| TodoDataAccess.OutcomesAppend | ToDoApplication/ToDoApp.ClassLibrary/TodoDataAccess.cs:35-36 | lines are taken one at a time, independently of each other |
| TodoDataAccess.SkippedLineIsIgnored | ToDoApplication/ToDoApp.ClassLibrary/TodoDataAccess.cs:37-40 | removing a skipped line from a file changes neither what loads nor how many records are constructed |
| TodoDataAccess.CollectThrow | ToDoApplication/ToDoApp.ClassLibrary/TodoDataAccess.cs:43-56 | the first throwing line decides the failure |
| TodoDataAccess.ThrowingLineFailsLoad | ToDoApplication/ToDoApp.ClassLibrary/TodoDataAccess.cs:43-56 | a four-field line with a bad id, date or flag makes the whole load fail with its exception, after one construction for it and each four-field line before it |
| TodoDataAccess.ConstructedOfSuccess | ToDoApplication/ToDoApp.ClassLibrary/TodoDataAccess.cs:42-47 | a successful load constructs one record per record returned |
| TodoDataAccess.ConstructionsOfSuccess | ToDoApplication/ToDoApp.ClassLibrary/TodoDataAccess.cs:42-47 | a successful load constructs exactly one record per record it returns, so the counter advances by their number |
| TodoDataAccess.AbsentFileLoadsEmpty | ToDoApplication/ToDoApp.ClassLibrary/TodoDataAccess.cs:32 | an absent file loads as the empty list and constructs nothing |
| TodoDataAccess.SaveTodoItems | ToDoApplication/ToDoApp.ClassLibrary/TodoDataAccess.cs:5-23 | the file's new content depends only on the list: one formatted line per record, in list order, replacing what was there |
| TodoDataAccess.ReadLine | ToDoApplication/ToDoApp.ClassLibrary/TodoDataAccess.cs:37-48 | one line: skipped without touching the counter, or a constructed record (counter one step on) whose fields are the parsed ones, or the first parse failure after that construction |
| TodoDataAccess.LoadLines | ToDoApplication/ToDoApp.ClassLibrary/TodoDataAccess.cs:34-50 | the loop yields pairwise distinct fresh records whose values are what the lines load, or the first exception; the counter advances once per construction |
| TodoDataAccess.LoadTodoItems | ToDoApplication/ToDoApp.ClassLibrary/TodoDataAccess.cs:25-59 | a fresh list of distinct fresh records equal to `ParseFile`, or its exception; the counter advances once for every four-field line read up to the first failure |
| TodoDataAccess.CreateTodoItem | ToDoApplication/ToDoApp.ClassLibrary/TodoDataAccess.cs:61-64 | always fails with `NotImplementedException` |

## Left out

- The relational store (`TodoDatabaseDataAccess`) is not part of this model. It is SQL sent through Dapper and Npgsql. Its ids come from a database identity column that cannot be seen from the code. Its save deletes every row and re-inserts, so the ids are regenerated on each save.
- The HTTP API (controllers, routing, dependency injection), the two console clients and the HTTP/JSON client are not part of this model: they are plumbing around the core.
- File system effects are not modelled: encodings, partial writes, `StreamWriter` failures, races on `File.Exists`, and the re-throwing `catch` blocks, which change nothing.
- Concurrent callers are not modelled; the code takes no locks.
- The `DateTime` text conversion is abstract. With the current culture it can lose precision or use a `|`. The round trip asks only that each saved date survives its codec (`DateSurvives`); this suffices, and it says nothing about dates that were never saved.
- `DateTime.Now` is a parameter, not a clock.
- TextCodec.NewLine: the model writes `"\n"`, as on Unix. On Windows `WriteLine` writes `"\r\n"`, which `ReadAllLines` also cuts at, so loads are the same.
- TextCodec.ParseInt32: models `NumberStyles.Integer` in the invariant culture. It does not accept trailing NUL characters, or culture-specific signs.
- TextCodec.FormatInt32: writes a negative id with the invariant culture's `-`. `{item.Id}` uses the current culture's negative sign, which some cultures write differently.
- TextCodec.ParseBoolWord: case folding covers ASCII letters only, which is all that "True" and "False" need.
- TodoService.UpdateTodoItem: the list-level equation with `Update` is stated only for lists that hold no record object twice (`Distinct`). With the same object at two positions, the change shows at both positions. The object-level ensures hold in every case.
- TodoService.MarkTodoComplete: the equation with `MarkComplete` holds only under `Distinct`, for the same reason.
- TodoModel.TodoItem.constructor: C#'s static counter is a single global. The model passes it as an `IdCounter` object instead, and each caller states which counter it uses.
