/**
 * The Todo record of models/Todo.js: its fields, the per-field rules of the
 * schema, the defaults it fills in, the `trim` setter, timestamps and the
 * derived `fullDateTime`.
 */
module TodoSchema {
  import opened Options
  import opened JsText
  import opened Calendar

  /** A record identifier in the ObjectId string form. */
  type Id = string

  /**
   * An id the store can cast: 24 hexadecimal digits, letters in either case.
   * Anything else is a cast error.
   */
  predicate WellFormedId(id: string) {
    |id| == 24 && forall i :: 0 <= i < |id| ==> IsHexDigit(id[i])
  }

  /** The value of one hexadecimal digit, whatever the case of a letter. */
  function HexValue(c: char): (v: nat)
    requires IsHexDigit(c)
    ensures v < 16
  {
    if IsDigit(c) then DigitValue(c)
    else if 'a' <= c <= 'f' then c as int - 'a' as int + 10
    else c as int - 'A' as int + 10
  }

  /** A hexadecimal letter in lower case; any other character as it is. */
  function LowerHex(c: char): char {
    if 'A' <= c <= 'F' then (c as int + 32) as char else c
  }

  /** An id as an ObjectId prints itself: 24 hexadecimal digits, letters in lower case. */
  predicate IsPrintedId(id: string) {
    WellFormedId(id) && forall i :: 0 <= i < |id| ==> !('A' <= id[i] <= 'F')
  }

  /**
   * The ObjectId a well-formed id casts to, in its printed form: the same
   * digit values, letters in lower case. A printed id casts to itself.
   */
  function CastId(id: string): (r: Id)
    requires WellFormedId(id)
    ensures IsPrintedId(r)
    ensures forall i :: 0 <= i < 24 ==> HexValue(r[i]) == HexValue(id[i])
    ensures IsPrintedId(id) ==> r == id
  {
    seq(24, i requires 0 <= i < 24 => LowerHex(id[i]))
  }

  /**
   * Two well-formed ids cast to the same ObjectId exactly when they have the
   * same digit values, so ids that differ only in the case of letters name
   * the same record.
   */
  lemma {:induction false} SameObjectId(a: string, b: string)
    requires WellFormedId(a) && WellFormedId(b)
    ensures CastId(a) == CastId(b) <==> forall i :: 0 <= i < 24 ==> HexValue(a[i]) == HexValue(b[i])
  {
    if forall i :: 0 <= i < 24 ==> HexValue(a[i]) == HexValue(b[i]) {
      forall i | 0 <= i < 24
        ensures CastId(a)[i] == CastId(b)[i]
      {
        PrintedDigitOfValue(CastId(a)[i], CastId(b)[i]);
      }
    }
  }

  /** A lower-case hexadecimal digit is determined by its value. */
  lemma PrintedDigitOfValue(c: char, d: char)
    requires IsHexDigit(c) && IsHexDigit(d) && !('A' <= c <= 'F') && !('A' <= d <= 'F')
    requires HexValue(c) == HexValue(d)
    ensures c == d
  {
  }

  datatype Priority = Low | Medium | High

  function PriorityName(p: Priority): string {
    match p
    case Low => "low"
    case Medium => "medium"
    case High => "high"
  }

  /** The `enum` rule: a priority string is accepted exactly when it names a level. */
  function ParsePriority(s: string): (r: Option<Priority>)
    ensures r.Some? ==> PriorityName(r.value) == s
    ensures r.None? ==> forall p: Priority :: PriorityName(p) != s
  {
    if s == "low" then Some(Low)
    else if s == "medium" then Some(Medium)
    else if s == "high" then Some(High)
    else None
  }

  function TwoDigitValue(a: char, b: char): nat
    requires IsDigit(a) && IsDigit(b)
  {
    10 * DigitValue(a) + DigitValue(b)
  }

  /** A 24-hour clock reading `HH:MM` with hour 00-23 and minute 00-59. */
  predicate IsClockTime(t: string) {
    && |t| == 5 && t[2] == ':'
    && IsDigit(t[0]) && IsDigit(t[1]) && IsDigit(t[3]) && IsDigit(t[4])
    && TwoDigitValue(t[0], t[1]) <= 23 && TwoDigitValue(t[3], t[4]) <= 59
  }

  function Hour(t: string): (h: nat)
    requires IsClockTime(t)
    ensures h <= 23
  {
    TwoDigitValue(t[0], t[1])
  }

  function Minute(t: string): (m: nat)
    requires IsClockTime(t)
    ensures m <= 59
  {
    TwoDigitValue(t[3], t[4])
  }

  /**
   * The time regular expression `^([01]\d|2[0-3]):([0-5]\d)$`, read character by
   * character. It accepts exactly the clock readings.
   */
  predicate MatchesTimePattern(t: string)
    ensures MatchesTimePattern(t) <==> IsClockTime(t)
  {
    && |t| == 5
    && (('0' <= t[0] <= '1' && IsDigit(t[1])) || (t[0] == '2' && '0' <= t[1] <= '3'))
    && t[2] == ':' && '0' <= t[3] <= '5' && IsDigit(t[4])
  }

  /** Boundary readings on both sides of the pattern. */
  lemma TimePatternExamples()
    ensures MatchesTimePattern("00:00") && MatchesTimePattern("23:59") && MatchesTimePattern("14:30")
    ensures !MatchesTimePattern("24:00") && !MatchesTimePattern("25:00") && !MatchesTimePattern("12:60")
    ensures !MatchesTimePattern("9:30") && !MatchesTimePattern("abc") && !MatchesTimePattern("")
  {
  }

  /** The task rules once the `trim` setter has run: non-empty and at most 500 UTF-16 units. */
  predicate ValidTask(task: string) {
    IsTrimmed(task) && 1 <= Utf16Length(task) <= 500
  }

  datatype Todo = Todo(
    id: Id,
    task: string,
    date: Date,
    time: string,
    completed: bool,
    priority: Priority,
    createdAt: nat,
    updatedAt: nat)

  /** A record every rule of the schema accepts. */
  predicate ValidTodo(t: Todo) {
    && ValidTask(t.task)
    && ValidDate(t.date)
    && IsClockTime(t.time)
    && t.createdAt <= t.updatedAt
  }

  /** The value a `date` field holds before validation. */
  datatype DateField =
    | NoDate         // not supplied
    | BadDate        // `new Date(...)` of an unparseable string: an invalid date
    | OnDay(day: Date)

  /** The fields handed to the schema, each possibly absent. */
  datatype Fields = Fields(
    task: Option<string>,
    date: DateField,
    time: Option<string>,
    completed: Option<bool>,
    priority: Option<string>)

  /** One validation failure; the schema reports at most one per field. */
  datatype FieldError =
    | TaskRequired
    | TaskTooLong
    | DateCast
    | TimeRequired
    | TimeFormat
    | PriorityNotInEnum(value: string)

  /** The message each failure carries in the `errors` list of a 400 response. */
  function Message(e: FieldError): (m: string)
    ensures m != [] && (e.PriorityNotInEnum? <==> m[0] == '`')
    ensures e.PriorityNotInEnum? ==> |m| == |e.value| + 49 && m[1..|m| - 48] == e.value
  {
    match e
    case TaskRequired => "할일을 입력해주세요."
    case TaskTooLong => "할일은 최대 500글자까지 입력 가능합니다."
    case DateCast => "Cast to date failed"
    case TimeRequired => "시간을 입력해주세요."
    case TimeFormat => "올바른 시간 형식이 아닙니다. (예: 14:30)"
    case PriorityNotInEnum(v) => "`" + v + "` is not a valid enum value for path `priority`."
  }
  /** Distinct failures carry distinct messages. */
  lemma {:induction false} MessagesTellFailuresApart(a: FieldError, b: FieldError)
    requires Message(a) == Message(b)
    ensures a == b
  {
    var m := Message(a);
    if !a.PriorityNotInEnum? && !b.PriorityNotInEnum? {
      assert Message(TaskRequired)[2] != Message(TaskTooLong)[2];
      assert Message(TaskRequired)[0] != Message(TimeRequired)[0];
    }
  }


  /** `task`: trimmed, then `required` (an empty string fails it), then `maxlength` 500. */
  function TaskError(task: Option<string>): (e: Option<FieldError>)
    ensures e.None? <==> task.Some? && Trim(task.value) != "" && Utf16Length(Trim(task.value)) <= 500
    ensures e == Some(TaskRequired) <==> task.None? || Trim(task.value) == ""
    ensures e == Some(TaskTooLong) <==> task.Some? && Utf16Length(Trim(task.value)) > 500
  {
    if task.None? then Some(TaskRequired)
    else
      var t := Trim(task.value);
      if t == "" then Some(TaskRequired)
      else if Utf16Length(t) > 500 then Some(TaskTooLong)
      else None
  }

  /** `date`: a value that is not a calendar day fails the cast to Date. */
  function DateError(date: DateField): (e: Option<FieldError>)
    ensures e.None? <==> date.NoDate? || (date.OnDay? && ValidDate(date.day))
  {
    if date.BadDate? || (date.OnDay? && !ValidDate(date.day)) then Some(DateCast) else None
  }

  /** `time`: `required` (an empty string fails it), then the `match` pattern. */
  function TimeError(time: Option<string>): (e: Option<FieldError>)
    ensures e.None? <==> time.Some? && IsClockTime(time.value)
    ensures e == Some(TimeRequired) <==> time.None? || time.value == ""
    ensures e == Some(TimeFormat) <==> time.Some? && time.value != "" && !IsClockTime(time.value)
  {
    if time.None? || time.value == "" then Some(TimeRequired)
    else if !MatchesTimePattern(time.value) then Some(TimeFormat)
    else None
  }

  /** `priority`: an absent value passes; a present one must be in the enum. */
  function PriorityError(priority: Option<string>): (e: Option<FieldError>)
    ensures e.None? <==> priority.None? || ParsePriority(priority.value).Some?
    ensures e.Some? ==> e == Some(PriorityNotInEnum(priority.value))
  {
    if priority.Some? && ParsePriority(priority.value).None? then Some(PriorityNotInEnum(priority.value))
    else None
  }

  function Listed(e: Option<FieldError>): seq<FieldError> {
    if e.Some? then [e.value] else []
  }

  /** How many of the field results are failures. */
  function Failing(rs: seq<Option<FieldError>>): nat {
    if rs == [] then 0 else (if rs[0].Some? then 1 else 0) + Failing(rs[1..])
  }

  /** Four field results list their failures one after another. */
  lemma {:induction false} FailuresOfFour(a: Option<FieldError>, b: Option<FieldError>, c: Option<FieldError>, d: Option<FieldError>)
    ensures Failures([a, b, c, d]) == Listed(a) + (Listed(b) + (Listed(c) + Listed(d)))
    ensures Failures([b, c, d]) == Listed(b) + (Listed(c) + Listed(d))
  {
    assert [a, b, c, d][1..] == [b, c, d];
    assert [b, c, d][1..] == [c, d];
    assert [c, d][1..] == [d];
    assert [d][1..] == [];
    assert Failures([d]) == Listed(d) + [];
    assert Listed(d) + [] == Listed(d);
    assert Failures([c, d]) == Listed(c) + Listed(d);
    assert Failures([b, c, d]) == Listed(b) + (Listed(c) + Listed(d));
  }

  /** The result of each field's rule on a new record. */
  function FieldResults(f: Fields): seq<Option<FieldError>> {
    [DateError(f.date), TaskError(f.task), TimeError(f.time), PriorityError(f.priority)]
  }

  /** The failures among some field results, in their order, one per failing field. */
  function Failures(rs: seq<Option<FieldError>>): (es: seq<FieldError>)
    ensures |es| == Failing(rs) <= |rs|
  {
    if rs == [] then [] else Listed(rs[0]) + Failures(rs[1..])
  }

  /** A failure is listed exactly when some field result is that failure. */
  lemma {:induction false} FailuresMembers(rs: seq<Option<FieldError>>)
    ensures forall e :: e in Failures(rs) <==> Some(e) in rs
    ensures Failures(rs) == [] <==> forall i :: 0 <= i < |rs| ==> rs[i].None?
  {
    if rs != [] {
      FailuresMembers(rs[1..]);
      assert rs == [rs[0]] + rs[1..];
    }
  }

  /**
   * Every failing field, one failure each. The date is cast while the record
   * is built, so its cast error is recorded first; the validators then report
   * task, time and priority, in schema order.
   */
  function Errors(f: Fields): (es: seq<FieldError>)
    ensures |es| <= 4
    ensures es == [] <==>
      && TaskError(f.task).None? && DateError(f.date).None?
      && TimeError(f.time).None? && PriorityError(f.priority).None?
    ensures forall e :: e in es <==> Some(e) in FieldResults(f)
    ensures |es| == Failing(FieldResults(f))
    ensures DateError(f.date).Some? ==> es[0] == DateCast
  {
    FailuresMembers(FieldResults(f));
    Failures(FieldResults(f))
  }

  /**
   * The schema defaults: `date` is the current day, `completed` is false and
   * `priority` is "medium" when not supplied; supplied values are kept.
   */
  function WithDefaults(f: Fields, today: Date): (g: Fields)
    ensures g.task == f.task && g.time == f.time
    ensures f.date.NoDate? ==> g.date == OnDay(today)
    ensures !f.date.NoDate? ==> g.date == f.date
    ensures f.completed.None? ==> g.completed == Some(false)
    ensures f.completed.Some? ==> g.completed == f.completed
    ensures f.priority.None? ==> g.priority == Some("medium")
    ensures f.priority.Some? ==> g.priority == f.priority
  {
    Fields(
      f.task,
      if f.date.NoDate? then OnDay(today) else f.date,
      f.time,
      Some(if f.completed.Some? then f.completed.value else false),
      Some(if f.priority.Some? then f.priority.value else "medium"))
  }

  datatype Validated = Accepted(todo: Todo) | Rejected(errors: seq<FieldError>)

  /**
   * `new Todo(fields)` followed by validation on save: defaults are filled in, the
   * task is trimmed, and the record is either accepted (stamped with `now` as both
   * `createdAt` and `updatedAt`) or rejected with every failing field.
   */
  function Construct(f: Fields, today: Date, id: Id, now: nat): (r: Validated)
    requires ValidDate(today)
    ensures r.Rejected? <==> Errors(WithDefaults(f, today)) != []
    ensures r.Rejected? ==> r.errors == Errors(WithDefaults(f, today))
    ensures r.Accepted? ==>
      && ValidTodo(r.todo)
      && r.todo.id == id
      && f.task.Some? && r.todo.task == Trim(f.task.value)
      && f.time == Some(r.todo.time)
      && r.todo.date == (if f.date.OnDay? then f.date.day else today)
      && r.todo.completed == (f.completed == Some(true))
      && PriorityName(r.todo.priority) == (if f.priority.Some? then f.priority.value else "medium")
      && r.todo.createdAt == now && r.todo.updatedAt == now
  {
    var g := WithDefaults(f, today);
    var es := Errors(g);
    if es != [] then Rejected(es)
    else
      assert ValidTask(Trim(g.task.value)) && IsClockTime(g.time.value);
      assert ValidDate(g.date.day);
      var p := ParsePriority(g.priority.value).value;
      assert PriorityName(p) == g.priority.value;
      Accepted(Todo(id, Trim(g.task.value), g.date.day, g.time.value, g.completed.value, p, now, now))
  }

  /**
   * A record is accepted exactly when its trimmed task has 1 to 500 units, its
   * date (if given) is a day, its time is a clock reading and its priority (if
   * given) is one of low, medium and high.
   */
  lemma {:induction false} AcceptedIff(f: Fields, today: Date, id: Id, now: nat)
    requires ValidDate(today)
    ensures Construct(f, today, id, now).Accepted? <==>
      && f.task.Some? && 1 <= Utf16Length(Trim(f.task.value)) <= 500
      && !f.date.BadDate? && (f.date.OnDay? ==> ValidDate(f.date.day))
      && f.time.Some? && IsClockTime(f.time.value)
      && (f.priority.None? || f.priority.value in {"low", "medium", "high"})
  {
  }

  /**
   * A task made only of whitespace trims to nothing and is rejected as missing;
   * that failure comes first unless the date fails its cast.
   */
  lemma {:induction false} WhitespaceTaskRejected(f: Fields, today: Date, id: Id, now: nat)
    requires ValidDate(today)
    requires f.task.Some? && forall i :: 0 <= i < |f.task.value| ==> IsJsWhitespace(f.task.value[i])
    ensures Construct(f, today, id, now).Rejected?
    ensures TaskRequired in Construct(f, today, id, now).errors
    ensures DateError(f.date).None? ==> Construct(f, today, id, now).errors[0] == TaskRequired
  {
    TrimEmptyIffAllWhitespace(f.task.value);
    var g := WithDefaults(f, today);
    assert TaskError(g.task) == Some(TaskRequired);
    FailuresOfFour(DateError(g.date), TaskError(g.task), TimeError(g.time), PriorityError(g.priority));
  }

  /** An empty task is rejected with exactly the task failure. */
  lemma EmptyTaskRejected(today: Date, id: Id, now: nat)
    requires ValidDate(today)
    ensures Construct(Fields(Some(""), OnDay(today), Some("14:30"), None, None), today, id, now)
      == Rejected([TaskRequired])
  {
    var g := WithDefaults(Fields(Some(""), OnDay(today), Some("14:30"), None, None), today);
    TrimOfTrimmed("");
    assert TaskError(g.task) == Some(TaskRequired);
    assert MatchesTimePattern("14:30");
    assert TimeError(g.time).None?;
    assert PriorityError(g.priority).None?;
    FailuresOfFour(DateError(g.date), TaskError(g.task), TimeError(g.time), PriorityError(g.priority));
    assert Errors(g) == [TaskRequired];
  }

  /** The hour 25 is rejected with exactly the time-format failure. */
  lemma HourOutOfRangeRejected(today: Date, id: Id, now: nat)
    requires ValidDate(today)
    ensures Construct(Fields(Some("테스트"), OnDay(today), Some("25:00"), None, None), today, id, now)
      == Rejected([TimeFormat])
  {
    var g := WithDefaults(Fields(Some("테스트"), OnDay(today), Some("25:00"), None, None), today);
    TrimOfTrimmed("테스트");
    assert TaskError(g.task).None?;
    assert !MatchesTimePattern("25:00");
    assert TimeError(g.time) == Some(TimeFormat);
    assert PriorityError(g.priority).None?;
    FailuresOfFour(DateError(g.date), TaskError(g.task), TimeError(g.time), PriorityError(g.priority));
    assert Errors(g) == [TimeFormat];
  }

  /**
   * Update validators (`runValidators: true`): only the paths present in the
   * update are checked, each by its own rule. The date is cast, not validated.
   */
  function PathErrors(f: Fields): (es: seq<FieldError>)
    ensures es == [] <==>
      && (f.task.Some? ==> TaskError(f.task).None?)
      && (f.time.Some? ==> TimeError(f.time).None?)
      && PriorityError(f.priority).None?
    ensures forall e :: e in es <==> Some(e) in PathResults(f)
    ensures |es| == Failing(PathResults(f))
  {
    FailuresMembers(PathResults(f));
    Failures(PathResults(f))
  }

  /** The result of each rule on the paths an update supplies; absent paths are not checked. */
  function PathResults(f: Fields): seq<Option<FieldError>> {
    [if f.task.Some? then TaskError(f.task) else None, if f.time.Some? then TimeError(f.time) else None, PriorityError(f.priority)]
  }

  /**
   * `$set` of the supplied fields on a stored record, the task going through the
   * `trim` setter and `updatedAt` taking the time of the write. Every field not
   * supplied keeps its value, and a valid record stays valid.
   */
  function ApplyUpdate(t: Todo, f: Fields, now: nat): (r: Todo)
    requires PathErrors(f) == [] && DateError(f.date).None?
    ensures r.id == t.id && r.createdAt == t.createdAt && r.updatedAt == now
    ensures f.task.None? ==> r.task == t.task
    ensures f.task.Some? ==> r.task == Trim(f.task.value)
    ensures f.date.NoDate? ==> r.date == t.date
    ensures f.date.OnDay? ==> r.date == f.date.day
    ensures f.time.None? ==> r.time == t.time
    ensures f.time.Some? ==> r.time == f.time.value
    ensures f.completed.None? ==> r.completed == t.completed
    ensures f.completed.Some? ==> r.completed == f.completed.value
    ensures f.priority.None? ==> r.priority == t.priority
    ensures f.priority.Some? ==> PriorityName(r.priority) == f.priority.value
    ensures ValidTodo(t) && t.updatedAt <= now ==> ValidTodo(r)
  {
    Todo(
      t.id,
      if f.task.Some? then Trim(f.task.value) else t.task,
      if f.date.OnDay? then f.date.day else t.date,
      if f.time.Some? then f.time.value else t.time,
      if f.completed.Some? then f.completed.value else t.completed,
      if f.priority.Some? then ParsePriority(f.priority.value).value else t.priority,
      t.createdAt,
      now)
  }

  /**
   * `fullDateTime`: the `YYYY-MM-DD` day, a space, then the time. Splitting at the
   * space gives back the day and the time; for a valid record it is 16 long.
   */
  function FullDateTime(t: Todo): (s: string)
    requires ValidDate(t.date)
    ensures |s| == 11 + |t.time|
    ensures IsClockTime(t.time) ==> |s| == 16
    ensures s[10] == ' ' && ParseIsoDate(s[..10]) == Some(t.date) && s[11..] == t.time
  {
    ParseFormatRoundTrip(t.date);
    var s := FormatIsoDate(t.date) + " " + t.time;
    assert s[..10] == FormatIsoDate(t.date);
    s
  }
}
