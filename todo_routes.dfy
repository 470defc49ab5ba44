/**
 * The REST handlers of routes/todos.js over an in-memory collection: create,
 * list, get-one, partial update, toggle, delete-one and delete-all. Each handler
 * is a method of `Store`; the database calls it makes (save, find, findById,
 * findByIdAndUpdate, findByIdAndDelete, deleteMany) are the updates of the
 * `todos` sequence.
 */
module TodoRoutes {
  import opened Options
  import opened JsText
  import opened Calendar
  import opened TodoSchema
  import opened DateTimeOrder

  const MsgTaskMissing := "할일을 입력해주세요."
  const MsgDateMissing := "날짜를 입력해주세요."
  const MsgTimeMissing := "시간을 입력해주세요."
  const MsgTimeFormat := "올바른 시간 형식이 아닙니다. (예: 14:30)"
  const MsgCreated := "할일이 성공적으로 생성되었습니다."
  const MsgValidation := "유효성 검사 실패"
  const MsgServerError := "서버 에러가 발생했습니다."
  const MsgNotFound := "할일을 찾을 수 없습니다."
  const MsgBadId := "잘못된 ID 형식입니다."
  const MsgUpdated := "할일이 성공적으로 수정되었습니다."
  const MsgDeleted := "할일이 성공적으로 삭제되었습니다."

  /** The message of a toggle, naming the state the record is now in. */
  function ToggleMessage(completed: bool): (m: string)
    ensures |m| > 4 && (m[4] == '완' <==> completed)
  {
    "할일이 " + (if completed then "완료" else "미완료") + " 처리되었습니다."
  }

  /** The message of delete-all, naming how many records went. */
  function DeleteAllMessage(n: nat): (m: string)
    ensures |m| > 15 && m[|m| - 15..] == "개의 할일이 삭제되었습니다."
    ensures AllDigits(m[..|m| - 15]) && DigitsValue(m[..|m| - 15]) == n
  {
    DecimalString(n) + "개의 할일이 삭제되었습니다."
  }

  /**
   * The JSON body of a reply: `success: true` with an optional message and the
   * data, or `success: false` with a message and, for validation failures, the
   * message of every failing field.
   */
  datatype Response<T> =
    | Ok(status: nat, message: Option<string>, data: T)
    | Fail(status: nat, reason: string, errors: seq<string>)

  /** The data of a list reply: `count` and the records. */
  datatype ListPage = ListPage(count: nat, items: seq<Todo>)

  /** The JSON fields POST `/` reads; a string field may be absent. */
  datatype CreateBody = CreateBody(task: Option<string>, date: Option<string>, time: Option<string>, priority: Option<string>)

  /** The JSON fields PUT `/:id` reads. */
  datatype UpdateBody = UpdateBody(
    task: Option<string>,
    date: Option<string>,
    time: Option<string>,
    priority: Option<string>,
    completed: Option<bool>)

  /** The query string of GET `/`. */
  datatype ListQuery = ListQuery(completed: Option<string>, priority: Option<string>, date: Option<string>)

  /** JavaScript truthiness of a string that may be absent: present and not empty. */
  predicate Truthy(s: Option<string>) {
    s.Some? && s.value != ""
  }

  /** `new Date(s)`: a `YYYY-MM-DD` day, or an invalid date for anything else. */
  function DateOf(s: string): (d: DateField)
    ensures d.OnDay? <==> ParseIsoDate(s).Some?
    ensures d.OnDay? ==> ValidDate(d.day) && FormatIsoDate(d.day) == s
  {
    match ParseIsoDate(s)
    case Some(day) => OnDay(day)
    case None => BadDate
  }

  /** The handler's own checks of a create body all pass. */
  predicate CreateChecksPass(b: CreateBody) {
    Truthy(b.task) && Truthy(b.date) && Truthy(b.time) && IsClockTime(b.time.value)
  }

  /** The fields given to `new Todo(...)`: an empty or absent priority becomes "medium". */
  function CreateFields(b: CreateBody): (f: Fields)
    requires b.date.Some?
    ensures f.task == b.task && f.time == b.time && f.completed.None?
    ensures f.date == DateOf(b.date.value)
    ensures Truthy(b.priority) ==> f.priority == b.priority
    ensures !Truthy(b.priority) ==> f.priority == Some("medium")
  {
    Fields(b.task, DateOf(b.date.value), b.time, None, Some(if Truthy(b.priority) then b.priority.value else "medium"))
  }

  /** The `errors` list of a validation failure: one message per failing field. */
  function Messages(es: seq<FieldError>): (ms: seq<string>)
    ensures |ms| == |es|
    ensures forall i :: 0 <= i < |es| ==> ms[i] == Message(es[i])
  {
    if es == [] then [] else [Message(es[0])] + Messages(es[1..])
  }

  /** The `$set` document of an update: every supplied field, the date cast by `new Date`. */
  function UpdateFields(b: UpdateBody): (f: Fields)
    ensures f.task == b.task && f.time == b.time && f.completed == b.completed && f.priority == b.priority
    ensures b.date.None? ==> f.date.NoDate?
    ensures b.date.Some? ==> f.date == DateOf(b.date.value)
  {
    Fields(b.task, if b.date.Some? then DateOf(b.date.value) else NoDate, b.time, b.completed, b.priority)
  }

  /**
   * The update handler's assembly of `updateData`: each supplied field is
   * copied in, the date through `new Date`, and a supplied time that fails the
   * pattern stops the assembly.
   */
  method BuildUpdateData(b: UpdateBody) returns (timeOk: bool, data: Fields)
    ensures timeOk <==> b.time.None? || IsClockTime(b.time.value)
    ensures timeOk ==> data == UpdateFields(b)
  {
    data := Fields(None, NoDate, None, None, None);
    if b.task.Some? {
      data := data.(task := b.task);
    }
    if b.date.Some? {
      data := data.(date := DateOf(b.date.value));
    }
    if b.time.Some? {
      if !MatchesTimePattern(b.time.value) {
        return false, data;
      }
      data := data.(time := b.time);
    }
    if b.priority.Some? {
      data := data.(priority := b.priority);
    }
    if b.completed.Some? {
      data := data.(completed := b.completed);
    }
    timeOk := true;
  }

  /** The supplied time fails the time pattern, which the update handler checks first. */
  predicate BadTime(b: UpdateBody) {
    b.time.Some? && !MatchesTimePattern(b.time.value)
  }

  /** A cast error: the id is not an ObjectId, or the supplied date is not a day. */
  predicate CastFails(id: Id, b: UpdateBody) {
    !WellFormedId(id) || UpdateFields(b).date.BadDate?
  }

  /** Every check an update goes through before the record is looked up passes. */
  predicate UpdateChecksPass(id: Id, b: UpdateBody) {
    !BadTime(b) && !CastFails(id, b) && PathErrors(UpdateFields(b)) == []
  }

  /**
   * The filter GET `/` builds, or None when the `date` parameter cannot be cast
   * to a day (the query then fails). `completed` is compared with the string
   * "true"; `priority` and `date` apply only when non-empty.
   */
  function QueryFilter(q: ListQuery): (f: Option<Filter>)
    ensures f.None? <==> Truthy(q.date) && ParseIsoDate(q.date.value).None?
    ensures f.Some? ==> f.value.day.Some? ==> ValidDate(f.value.day.value)
  {
    if Truthy(q.date) && ParseIsoDate(q.date.value).None? then None
    else
      Some(Filter(
        if q.completed.Some? then Some(q.completed.value == "true") else None,
        if Truthy(q.priority) then q.priority else None,
        if Truthy(q.date) then ParseIsoDate(q.date.value) else None))
  }

  /** What a listed record must satisfy, read directly off the query string. */
  predicate SatisfiesQuery(t: Todo, q: ListQuery)
    requires ValidDate(t.date)
  {
    && (q.completed.Some? ==> t.completed == (q.completed.value == "true"))
    && (Truthy(q.priority) ==> PriorityName(t.priority) == q.priority.value)
    && (Truthy(q.date) ==> FormatIsoDate(t.date) == q.date.value)
  }

  /**
   * The filter built from a query selects exactly the records satisfying it:
   * "completed" must equal (parameter == "true"), the priority must be the one
   * named, and the record's day, written `YYYY-MM-DD`, must be the one asked for.
   */
  lemma {:induction false} FilterMeansQuery(t: Todo, q: ListQuery)
    requires ValidDate(t.date) && QueryFilter(q).Some?
    ensures MatchesFilter(t, QueryFilter(q).value) <==> SatisfiesQuery(t, q)
  {
    if Truthy(q.date) {
      var d := ParseIsoDate(q.date.value).value;
      assert QueryFilter(q).value.day == Some(d);
      ParseFormatRoundTrip(t.date);
      assert InDayWindow(t.date, d) <==> t.date == d;
      assert t.date == d <==> FormatIsoDate(t.date) == q.date.value;
    }
  }

  /** `findById`: the position of the record with the given id, if any. */
  function IndexOf(s: seq<Todo>, id: Id): (r: Option<nat>)
    ensures r.Some? ==> r.value < |s| && s[r.value].id == id
    ensures r.None? <==> forall t :: t in s ==> t.id != id
  {
    if s == [] then None
    else if s[0].id == id then Some(0)
    else
      match IndexOf(s[1..], id)
      case None => None
      case Some(k) => Some(k + 1)
  }

  /** The toggle message tells the two states apart. */
  lemma ToggleMessageNamesState()
    ensures ToggleMessage(true) != ToggleMessage(false)
  {
    assert ToggleMessage(true)[4] != ToggleMessage(false)[4];
  }

  /** `todo.completed = !todo.completed` followed by a save at `now`. */
  function Flip(t: Todo, now: nat): (r: Todo)
    ensures r.completed == !t.completed && r.updatedAt == now
    ensures r.(completed := t.completed, updatedAt := t.updatedAt) == t
  {
    t.(completed := !t.completed, updatedAt := now)
  }

  /**
   * Toggling a record twice gives back the record as it was, except for the
   * time of the last write.
   */
  lemma ToggleTwiceRestores(t: Todo, first: nat, second: nat)
    ensures Flip(Flip(t, first), second) == t.(updatedAt := second)
  {
  }

  /** A stored record: valid, with a printed id the store issued, written before `clock`. */
  predicate Stored(t: Todo, issued: set<Id>, clock: nat) {
    ValidTodo(t) && IsPrintedId(t.id) && t.id in issued && t.updatedAt < clock
  }

  /** Ids are unique in the collection. */
  predicate UniqueIds(s: seq<Todo>) {
    forall i, j :: 0 <= i < j < |s| ==> s[i].id != s[j].id
  }

  /**
   * The records a list reply holds, in whatever order, are exactly those
   * satisfying the query.
   */
  lemma {:induction false} ListedExactly(s: seq<Todo>, q: ListQuery, items: seq<Todo>)
    requires forall t :: t in s ==> ValidDate(t.date)
    requires QueryFilter(q).Some? && multiset(items) == multiset(Select(s, QueryFilter(q).value))
    ensures forall t :: t in items <==> t in s && SatisfiesQuery(t, q)
  {
    forall t | t in s
      ensures MatchesFilter(t, QueryFilter(q).value) <==> SatisfiesQuery(t, q)
    {
      FilterMeansQuery(t, q);
    }
    forall t
      ensures t in items <==> t in Select(s, QueryFilter(q).value)
    {
      assert t in items <==> t in multiset(items);
    }
  }

  /** With unique ids, the record found by id is the only one carrying it. */
  lemma {:induction false} IndexOfUnique(s: seq<Todo>, id: Id, i: nat)
    requires UniqueIds(s) && i < |s| && s[i].id == id
    ensures IndexOf(s, id) == Some(i)
  {
    var k := IndexOf(s, id).value;
    assert s[k].id == s[i].id;
  }

  /** Every record is stored properly and no two share an id. */
  predicate Consistent(s: seq<Todo>, issued: set<Id>, clock: nat) {
    (forall t :: t in s ==> Stored(t, issued, clock)) && UniqueIds(s)
  }

  /** Appending a valid record under a never-issued id keeps the collection consistent. */
  lemma {:induction false} AppendKeepsConsistent(s: seq<Todo>, x: Todo, issued: set<Id>, clock: nat)
    requires Consistent(s, issued, clock)
    requires ValidTodo(x) && IsPrintedId(x.id) && x.id !in issued && x.updatedAt <= clock
    ensures Consistent(s + [x], issued + {x.id}, clock + 1)
  {
    var s' := s + [x];
    forall t | t in s'
      ensures Stored(t, issued + {x.id}, clock + 1)
    {
      if t != x {
        assert t in s;
      }
    }
    forall i, j | 0 <= i < j < |s'|
      ensures s'[i].id != s'[j].id
    {
      if j == |s| {
        assert s'[i] in s;
      } else {
        assert s'[i] == s[i] && s'[j] == s[j];
      }
    }
  }

  /**
   * Putting a valid record, written at `clock`, in place of the one with the
   * same id keeps the collection consistent once the clock has advanced.
   */
  lemma {:induction false} ReplaceKeepsConsistent(s: seq<Todo>, k: nat, x: Todo, issued: set<Id>, clock: nat)
    requires Consistent(s, issued, clock) && k < |s|
    requires x.id == s[k].id && ValidTodo(x) && x.updatedAt <= clock
    ensures Consistent(s[k := x], issued, clock + 1)
  {
    var s' := s[k := x];
    forall t | t in s'
      ensures Stored(t, issued, clock + 1)
    {
      if t != x {
        var i :| 0 <= i < |s'| && s'[i] == t;
        assert s[i] == t && s[i] in s;
      } else {
        assert s[k] in s;
        assert Stored(s[k], issued, clock);
      }
    }
    forall i, j | 0 <= i < j < |s'|
      ensures s'[i].id != s'[j].id
    {
      assert s'[i].id == s[i].id && s'[j].id == s[j].id;
    }
  }

  /**
   * Removing the record at `k` keeps the collection consistent, and since ids
   * are unique no remaining record carries its id.
   */
  lemma {:induction false} RemoveKeepsConsistent(s: seq<Todo>, k: nat, issued: set<Id>, clock: nat)
    requires Consistent(s, issued, clock) && k < |s|
    ensures Consistent(s[..k] + s[k + 1..], issued, clock)
    ensures forall t :: t in s[..k] + s[k + 1..] ==> t.id != s[k].id
  {
    var s' := s[..k] + s[k + 1..];
    RemovedAt(s, k, s');
    forall t | t in s'
      ensures Stored(t, issued, clock) && t.id != s[k].id
    {
      var i :| 0 <= i < |s'| && s'[i] == t;
      var i' := if i < k then i else i + 1;
      assert s[i'] == t && s[i'] in s;
    }
    forall i, j | 0 <= i < j < |s'|
      ensures s'[i].id != s'[j].id
    {
      var i', j' := if i < k then i else i + 1, if j < k then j else j + 1;
      assert s'[i] == s[i'] && s'[j] == s[j'];
    }
  }

  /** Where the records sit once the one at `k` is cut out. */
  lemma RemovedAt(s: seq<Todo>, k: nat, r: seq<Todo>)
    requires k < |s| && r == s[..k] + s[k + 1..]
    ensures |r| == |s| - 1
    ensures forall i :: 0 <= i < k ==> r[i] == s[i]
    ensures forall i :: k <= i < |r| ==> r[i] == s[i + 1]
  {
  }

  /**
   * The todo collection. `clock` stands for the time of day: every successful
   * create, update or toggle reads it for its timestamps and then advances it;
   * deletions leave it as it is. `issued` records
   * every id the store has handed out, so none is reused.
   */
  class Store {
    var todos: seq<Todo>
    var clock: nat
    ghost var issued: set<Id>

    ghost predicate Valid()
      reads this
    {
      Consistent(todos, issued, clock)
    }

    constructor ()
      ensures Valid() && todos == [] && issued == {}
    {
      todos := [];
      clock := 0;
      issued := {};
    }

    /**
     * POST `/`. The handler's checks run in order — task, date, time, time
     * format — and the first failure answers 400 with its message. The schema
     * then validates the record with its defaults; a failure answers 400 with
     * every failing field. Otherwise the record is appended and returned with
     * 201. Nothing is stored on a failure.
     */
    method Create(body: CreateBody, newId: Id, today: Date) returns (r: Response<Todo>)
      requires Valid() && ValidDate(today)
      requires IsPrintedId(newId) && newId !in issued
      modifies this
      ensures Valid()
      ensures r.Fail? ==> unchanged(this)
      ensures !Truthy(body.task) ==> r == Fail(400, MsgTaskMissing, [])
      ensures Truthy(body.task) && !Truthy(body.date) ==> r == Fail(400, MsgDateMissing, [])
      ensures Truthy(body.task) && Truthy(body.date) && !Truthy(body.time) ==> r == Fail(400, MsgTimeMissing, [])
      ensures Truthy(body.task) && Truthy(body.date) && Truthy(body.time) && !IsClockTime(body.time.value) ==>
        r == Fail(400, MsgTimeFormat, [])
      ensures CreateChecksPass(body) && Errors(WithDefaults(CreateFields(body), today)) != [] ==>
        r == Fail(400, MsgValidation, Messages(Errors(WithDefaults(CreateFields(body), today))))
      ensures r.Ok? <==> CreateChecksPass(body) && Errors(WithDefaults(CreateFields(body), today)) == []
      ensures r.Ok? ==>
        && r.status == 201 && r.message == Some(MsgCreated)
        && todos == old(todos) + [r.data]
        && issued == old(issued) + {newId} && clock == old(clock) + 1
        && r.data.id == newId
        && r.data.task == Trim(body.task.value)
        && ParseIsoDate(body.date.value) == Some(r.data.date)
        && r.data.time == body.time.value
        && !r.data.completed
        && PriorityName(r.data.priority) == (if Truthy(body.priority) then body.priority.value else "medium")
        && r.data.createdAt == old(clock) && r.data.updatedAt == old(clock)
    {
      if !Truthy(body.task) {
        return Fail(400, MsgTaskMissing, []);
      }
      if !Truthy(body.date) {
        return Fail(400, MsgDateMissing, []);
      }
      if !Truthy(body.time) {
        return Fail(400, MsgTimeMissing, []);
      }
      if !MatchesTimePattern(body.time.value) {
        return Fail(400, MsgTimeFormat, []);
      }
      var fields := CreateFields(body);
      var outcome := Construct(fields, today, newId, clock);
      match outcome
      case Rejected(es) =>
        r := Fail(400, MsgValidation, Messages(es));
      case Accepted(t) =>
        AppendKeepsConsistent(todos, t, issued, clock);
        todos := todos + [t];
        issued := issued + {newId};
        clock := clock + 1;
        r := Ok(201, Some(MsgCreated), t);
    }

    /**
     * GET `/`. A date parameter that is not a day makes the query fail with
     * 500. Otherwise the reply holds exactly the records satisfying every
     * supplied condition, ordered by date and then time, and `count` is their
     * number. The collection is not changed.
     */
    method List(q: ListQuery) returns (r: Response<ListPage>)
      requires Valid()
      ensures r.Fail? <==> Truthy(q.date) && ParseIsoDate(q.date.value).None?
      ensures r.Fail? ==> r == Fail(500, MsgServerError, [])
      ensures r.Ok? ==>
        && r.status == 200 && r.message == None
        && r.data.count == |r.data.items|
        && SortedByDateTime(r.data.items)
        && multiset(r.data.items) <= multiset(todos)
        && forall t :: t in r.data.items <==> t in todos && SatisfiesQuery(t, q)
    {
      var completed: Option<bool> := None;
      var priority: Option<string> := None;
      var day: Option<Date> := None;
      if q.completed.Some? {
        completed := Some(q.completed.value == "true");
      }
      if Truthy(q.priority) {
        priority := q.priority;
      }
      if Truthy(q.date) {
        var start := ParseIsoDate(q.date.value);
        if start.None? {
          return Fail(500, MsgServerError, []);
        }
        day := start;
      }
      var filter := Filter(completed, priority, day);
      assert QueryFilter(q) == Some(filter);
      var found := Select(todos, filter);
      var items := SortByDateTime(found);
      ListedExactly(todos, q, items);
      SelectIsSubMultiset(todos, filter);
      r := Ok(200, None, ListPage(|items|, items));
    }

    /**
     * GET `/:id`: 400 for an id that cannot be cast, 404 when no record has
     * the id it casts to, else that record.
     */
    method Get(id: Id) returns (r: Response<Todo>)
      ensures !WellFormedId(id) ==> r == Fail(400, MsgBadId, [])
      ensures WellFormedId(id) && (forall t :: t in todos ==> t.id != CastId(id)) ==> r == Fail(404, MsgNotFound, [])
      ensures r.Ok? <==> WellFormedId(id) && exists t :: t in todos && t.id == CastId(id)
      ensures r.Ok? ==> r.status == 200 && r.message == None && r.data in todos && r.data.id == CastId(id)
    {
      if !WellFormedId(id) {
        return Fail(400, MsgBadId, []);
      }
      var found := IndexOf(todos, CastId(id));
      if found.None? {
        return Fail(404, MsgNotFound, []);
      }
      r := Ok(200, None, todos[found.value]);
    }

    /**
     * PUT `/:id`. Checks in order: a supplied time must match the pattern;
     * the id and a supplied date must cast; the supplied fields must pass their
     * rules; the record must exist. Then exactly the supplied fields change on
     * that one record, `updatedAt` takes the time of the write, and every other
     * record is left as it was.
     */
    method Update(id: Id, body: UpdateBody) returns (r: Response<Todo>)
      requires Valid()
      modifies this
      ensures Valid()
      ensures r.Fail? ==> unchanged(this)
      ensures BadTime(body) ==> r == Fail(400, MsgTimeFormat, [])
      ensures !BadTime(body) && CastFails(id, body) ==> r == Fail(400, MsgBadId, [])
      ensures !BadTime(body) && !CastFails(id, body) && PathErrors(UpdateFields(body)) != [] ==>
        r == Fail(400, MsgValidation, Messages(PathErrors(UpdateFields(body))))
      ensures UpdateChecksPass(id, body) && (forall t :: t in old(todos) ==> t.id != CastId(id)) ==>
        r == Fail(404, MsgNotFound, [])
      ensures r.Ok? <==> UpdateChecksPass(id, body) && exists t :: t in old(todos) && t.id == CastId(id)
      ensures r.Ok? ==>
        var k := IndexOf(old(todos), CastId(id)).value;
        && todos == old(todos)[k := r.data]
        && r.data == ApplyUpdate(old(todos)[k], UpdateFields(body), old(clock))
        && r.status == 200 && r.message == Some(MsgUpdated)
        && clock == old(clock) + 1 && issued == old(issued)
    {
      var timeOk, data := BuildUpdateData(body);
      if !timeOk {
        return Fail(400, MsgTimeFormat, []);
      }
      if !WellFormedId(id) || data.date.BadDate? {
        return Fail(400, MsgBadId, []);
      }
      var es := PathErrors(data);
      if es != [] {
        return Fail(400, MsgValidation, Messages(es));
      }
      var found := IndexOf(todos, CastId(id));
      if found.None? {
        return Fail(404, MsgNotFound, []);
      }
      var k := found.value;
      var updated := ApplyUpdate(todos[k], data, clock);
      assert todos[k] in todos;
      ReplaceKeepsConsistent(todos, k, updated, issued, clock);
      todos := todos[k := updated];
      clock := clock + 1;
      r := Ok(200, Some(MsgUpdated), updated);
    }

    /**
     * PATCH `/:id/toggle`: 400 for an id that cannot be cast, 404 when absent;
     * otherwise `completed` flips on that one record, `updatedAt` takes the time
     * of the save, and the message names the new state.
     */
    method Toggle(id: Id) returns (r: Response<Todo>)
      requires Valid()
      modifies this
      ensures Valid()
      ensures r.Fail? ==> unchanged(this)
      ensures !WellFormedId(id) ==> r == Fail(400, MsgBadId, [])
      ensures WellFormedId(id) && (forall t :: t in old(todos) ==> t.id != CastId(id)) ==> r == Fail(404, MsgNotFound, [])
      ensures r.Ok? <==> WellFormedId(id) && exists t :: t in old(todos) && t.id == CastId(id)
      ensures r.Ok? ==>
        var k := IndexOf(old(todos), CastId(id)).value;
        && todos == old(todos)[k := r.data]
        && r.data == Flip(old(todos)[k], old(clock))
        && r.status == 200 && r.message == Some(ToggleMessage(r.data.completed))
        && clock == old(clock) + 1 && issued == old(issued)
    {
      if !WellFormedId(id) {
        return Fail(400, MsgBadId, []);
      }
      var found := IndexOf(todos, CastId(id));
      if found.None? {
        return Fail(404, MsgNotFound, []);
      }
      var k := found.value;
      var todo := todos[k];
      todo := todo.(completed := !todo.completed);
      todo := todo.(updatedAt := clock);
      assert todos[k] in todos;
      ReplaceKeepsConsistent(todos, k, todo, issued, clock);
      todos := todos[k := todo];
      clock := clock + 1;
      r := Ok(200, Some(ToggleMessage(todo.completed)), todo);
    }

    /**
     * DELETE `/:id`: 400 for an id that cannot be cast, 404 when absent;
     * otherwise that record, and only it, is removed and returned.
     */
    method Delete(id: Id) returns (r: Response<Todo>)
      requires Valid()
      modifies this
      ensures Valid()
      ensures r.Fail? ==> unchanged(this)
      ensures !WellFormedId(id) ==> r == Fail(400, MsgBadId, [])
      ensures WellFormedId(id) && (forall t :: t in old(todos) ==> t.id != CastId(id)) ==> r == Fail(404, MsgNotFound, [])
      ensures r.Ok? <==> WellFormedId(id) && exists t :: t in old(todos) && t.id == CastId(id)
      ensures r.Ok? ==>
        var k := IndexOf(old(todos), CastId(id)).value;
        && r == Ok(200, Some(MsgDeleted), old(todos)[k])
        && todos == old(todos)[..k] + old(todos)[k + 1..]
        && clock == old(clock) && issued == old(issued)
      ensures WellFormedId(id) ==> forall t :: t in todos ==> t.id != CastId(id)
    {
      if !WellFormedId(id) {
        return Fail(400, MsgBadId, []);
      }
      var found := IndexOf(todos, CastId(id));
      if found.None? {
        return Fail(404, MsgNotFound, []);
      }
      var k := found.value;
      var gone := todos[k];
      RemoveKeepsConsistent(todos, k, issued, clock);
      todos := todos[..k] + todos[k + 1..];
      r := Ok(200, Some(MsgDeleted), gone);
    }

    /** DELETE `/`: every record goes, and the reply counts them. */
    method DeleteAll() returns (r: Response<nat>)
      requires Valid()
      modifies this
      ensures Valid()
      ensures todos == [] && clock == old(clock) && issued == old(issued)
      ensures r == Ok(200, Some(DeleteAllMessage(|old(todos)|)), |old(todos)|)
    {
      var deleted := |todos|;
      todos := [];
      r := Ok(200, Some(DeleteAllMessage(deleted)), deleted);
    }
  }
}
