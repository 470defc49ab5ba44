/**
 * The browser side of the app (script.js): the Korean AM/PM time display, the
 * requests the add and edit forms build, and the page state — the loaded
 * records, the record being edited, and what the list shows.
 */
module TodoClient {
  import opened Options
  import opened JsText
  import opened TodoSchema
  import opened DateTimeOrder
  import opened TodoRoutes

  /** The 12-hour clock reading of an hour: 0 shows as 12, 13-23 as 1-11. */
  function DisplayHour(h: nat): (d: nat)
    requires h <= 23
    ensures 1 <= d <= 12
    ensures d % 12 == h % 12
  {
    if h > 12 then h - 12 else if h == 0 then 12 else h
  }

  /**
   * `formatTime`: "오전" or "오후", a space, the 12-hour hour without a leading
   * zero, a colon, the minutes.
   */
  function FormatTime(t: string): (s: string)
    requires IsClockTime(t)
    ensures 7 <= |s| <= 8
    ensures s[..2] == "오후" <==> Hour(t) >= 12
    ensures s[..2] == "오전" <==> Hour(t) < 12
    ensures s[2] == ' ' && s[|s| - 3..] == ":" + t[3..]
    ensures AllDigits(s[3..|s| - 3]) && DigitsValue(s[3..|s| - 3]) == DisplayHour(Hour(t))
    ensures s[3] != '0' && (|s| == 7 <==> DisplayHour(Hour(t)) < 10)
  {
    var half := if Hour(t) >= 12 then "오후" else "오전";
    var hour := DecimalString(DisplayHour(Hour(t)));
    assert |hour| <= 2;
    JoinedPieces(half, hour, t[3..]);
    half + " " + hour + ":" + t[3..]
  }

  /** Where the pieces of `a b:c` sit in the joined string. */
  lemma JoinedPieces(a: string, b: string, c: string)
    ensures var s := a + " " + b + ":" + c;
      && |s| == |a| + |b| + |c| + 2
      && s[..|a|] == a && s[|a|] == ' '
      && s[|a| + 1..|a| + 1 + |b|] == b && s[|a| + 1 + |b|..] == ":" + c
  {
    var s := a + " " + b + ":" + c;
    assert s == a + (" " + (b + (":" + c)));
  }

  /** Two digits denoting the same number are the same two digits. */
  lemma {:induction false} TwoDigitsDetermined(a: char, b: char, c: char, d: char)
    requires IsDigit(a) && IsDigit(b) && IsDigit(c) && IsDigit(d)
    requires TwoDigitValue(a, b) == TwoDigitValue(c, d)
    ensures a == c && b == d
  {
    assert DigitValue(b) == TwoDigitValue(a, b) % 10;
    assert DigitValue(d) == TwoDigitValue(c, d) % 10;
  }

  /**
   * The display loses nothing: the label fixes the half of the day, the
   * 12-hour hour fixes the hour within it, and the minutes are copied, so two
   * times that display alike are the same time.
   */
  lemma {:induction false} FormatTimeInjective(a: string, b: string)
    requires IsClockTime(a) && IsClockTime(b)
    requires FormatTime(a) == FormatTime(b)
    ensures a == b
  {
    var s := FormatTime(a);
    assert (Hour(a) >= 12) == (Hour(b) >= 12);
    assert DisplayHour(Hour(a)) == DisplayHour(Hour(b));
    assert Hour(a) % 12 == Hour(b) % 12;
    assert Hour(a) == Hour(b);
    TwoDigitsDetermined(a[0], a[1], b[0], b[1]);
    assert a[3..] == s[|s| - 2..] == b[3..];
    assert a == a[..3] + a[3..];
    assert b == b[..3] + b[3..];
  }

  /** Midnight shows as 12 in the morning. */
  lemma MidnightDisplay()
    ensures FormatTime("00:00") == "오전 12:00"
  {
    assert Hour("00:00") == 0;
    assert DecimalString(12) == "12";
  }

  /** A morning hour loses its leading zero. */
  lemma MorningDisplay()
    ensures FormatTime("09:05") == "오전 9:05"
  {
    assert Hour("09:05") == 9;
    assert DecimalString(9) == "9";
  }

  /** Noon is 12 in the afternoon. */
  lemma NoonDisplay()
    ensures FormatTime("12:30") == "오후 12:30"
  {
    assert Hour("12:30") == 12;
    assert DecimalString(12) == "12";
  }

  /** An evening hour is counted from noon. */
  lemma EveningDisplay()
    ensures FormatTime("23:59") == "오후 11:59"
  {
    assert Hour("23:59") == 23;
    assert DecimalString(11) == "11";
  }

  /**
   * `handleAddTodo`: the typed task is trimmed; with any of task, date and time
   * empty no request is made; otherwise the request carries the trimmed task,
   * the date, the time and priority "medium".
   */
  function AddRequest(input: string, date: string, time: string): (r: Option<CreateBody>)
    ensures r.None? <==> Trim(input) == "" || date == "" || time == ""
    ensures r.Some? ==> r.value.task == Some(Trim(input)) && r.value.priority == Some("medium")
    ensures r.Some? ==> r.value.date == Some(date) && r.value.time == Some(time)
  {
    var text := Trim(input);
    if text == "" || date == "" || time == "" then None
    else Some(CreateBody(Some(text), Some(date), Some(time), Some("medium")))
  }

  /**
   * A request the add form sends passes the handler's presence checks, and the
   * server's own trim leaves its task as the user saw it.
   */
  lemma {:induction false} AddRequestPassesPresence(input: string, date: string, time: string)
    requires AddRequest(input, date, time).Some?
    ensures var b := AddRequest(input, date, time).value;
      Truthy(b.task) && Truthy(b.date) && Truthy(b.time)
      && Trim(b.task.value) == b.task.value
      && CreateFields(b).priority == Some("medium")
  {
    TrimOfTrimmed(Trim(input));
  }

  /**
   * `saveEdit`: the same emptiness checks; the request carries only task, date
   * and time, never `completed` or `priority`.
   */
  function EditRequest(input: string, date: string, time: string): (r: Option<UpdateBody>)
    ensures r.None? <==> Trim(input) == "" || date == "" || time == ""
    ensures r.Some? ==> r.value.task == Some(Trim(input)) && r.value.date == Some(date) && r.value.time == Some(time)
    ensures r.Some? ==> r.value.priority.None? && r.value.completed.None?
  {
    var text := Trim(input);
    if text == "" || date == "" || time == "" then None
    else Some(UpdateBody(Some(text), Some(date), Some(time), None, None))
  }

  /** An edit the server accepts never touches a record's priority or completion. */
  lemma {:induction false} EditKeepsPriorityAndCompletion(t: Todo, input: string, date: string, time: string, now: nat)
    requires EditRequest(input, date, time).Some?
    requires var f := UpdateFields(EditRequest(input, date, time).value);
      PathErrors(f) == [] && DateError(f.date).None?
    ensures var r := ApplyUpdate(t, UpdateFields(EditRequest(input, date, time).value), now);
      r.priority == t.priority && r.completed == t.completed
  {
  }

  /** One list entry: the record and whether it shows the edit form. */
  datatype Item = Item(todo: Todo, editing: bool)

  /** What `renderTodos` puts on the page. */
  datatype View = View(countLabel: string, empty: bool, items: seq<Item>)

  function Records(items: seq<Item>): (s: seq<Todo>)
    ensures |s| == |items| && forall i :: 0 <= i < |items| ==> s[i] == items[i].todo
  {
    if items == [] then [] else [items[0].todo] + Records(items[1..])
  }

  /** `createTodoElement` over the sorted records: the editing flag is `editingId === _id`. */
  function Items(s: seq<Todo>, editingId: Option<Id>): (items: seq<Item>)
    ensures Records(items) == s
    ensures forall i :: 0 <= i < |items| ==> (items[i].editing <==> editingId == Some(s[i].id))
  {
    if s == [] then [] else [Item(s[0], editingId == Some(s[0].id))] + Items(s[1..], editingId)
  }

  /** With unique ids a record occurs at most once. */
  lemma {:induction false} UniqueOccursOnce(s: seq<Todo>, x: Todo)
    requires UniqueIds(s)
    ensures multiset(s)[x] <= 1
  {
    if s != [] {
      assert s == [s[0]] + s[1..];
      assert UniqueIds(s[1..]) by {
        forall i, j | 0 <= i < j < |s| - 1
          ensures s[1..][i].id != s[1..][j].id
        {
          assert s[1..][i] == s[i + 1] && s[1..][j] == s[j + 1];
        }
      }
      UniqueOccursOnce(s[1..], x);
      if s[0] == x {
        forall i | 0 <= i < |s[1..]|
          ensures s[1..][i] != x
        {
          assert s[1..][i] == s[i + 1];
        }
        assert x !in s[1..];
      }
    }
  }

  /** A reordering of records with unique ids still has unique ids. */
  lemma {:induction false} PermutationKeepsUniqueIds(s: seq<Todo>, r: seq<Todo>)
    requires UniqueIds(s) && multiset(r) == multiset(s)
    ensures UniqueIds(r)
  {
    forall i, j | 0 <= i < j < |r|
      ensures r[i].id != r[j].id
    {
      if r[i].id == r[j].id {
        assert r[i] in multiset(s) && r[j] in multiset(s);
        var a :| 0 <= a < |s| && s[a] == r[i];
        var b :| 0 <= b < |s| && s[b] == r[j];
        assert a == b;
        assert r[i] == r[j];
        var x := r[i];
        assert r == r[..j] + [x] + r[j + 1..];
        assert r[..j] == r[..i] + [x] + r[i + 1..j];
        assert multiset(r)[x] >= 2;
        UniqueOccursOnce(s, x);
        assert false;
      }
    }
  }

  /**
   * The page: the records last loaded from the server, and the id of the one
   * whose edit form is open (`null` when none).
   */
  class Page {
    var todos: seq<Todo>
    var editingId: Option<Id>

    constructor ()
      ensures todos == [] && editingId == None
    {
      todos := [];
      editingId := None;
    }

    /** `startEdit`: open the edit form of one record. */
    method StartEdit(id: Id)
      modifies this
      ensures editingId == Some(id) && todos == old(todos)
    {
      editingId := Some(id);
    }

    /** `cancelEdit` (also the Escape key): close the edit form. */
    method CancelEdit()
      modifies this
      ensures editingId == None && todos == old(todos)
    {
      editingId := None;
    }

    /**
     * `saveEdit`: builds the update request, or none when a field is empty.
     * `accepted` is the server's answer to the request; when it is accepted the
     * edit form closes. Reloading the list afterwards is `Load`.
     */
    method SaveEdit(input: string, date: string, time: string, accepted: bool) returns (request: Option<UpdateBody>)
      modifies this
      ensures request == EditRequest(input, date, time)
      ensures todos == old(todos)
      ensures editingId == (if request.Some? && accepted then None else old(editingId))
    {
      request := EditRequest(input, date, time);
      if request.Some? && accepted {
        editingId := None;
      }
    }

    /** `loadTodosFromBackend`: a successful list reply replaces the records. */
    method Load(reply: Response<ListPage>)
      modifies this
      ensures reply.Ok? ==> todos == reply.data.items
      ensures reply.Fail? ==> todos == old(todos)
      ensures editingId == old(editingId)
    {
      if reply.Ok? {
        todos := reply.data.items;
      }
    }

    /**
     * `renderTodos`: the empty state and "0개" for no records; otherwise the
     * count of records followed by 개, and every record, ordered by date and
     * then time, with the edit form open exactly on the one being edited.
     */
    function Render(): (v: View)
      reads this
      ensures v.empty <==> todos == []
      ensures v.countLabel == DecimalString(|todos|) + "개"
      ensures multiset(Records(v.items)) == multiset(todos) && SortedByDateTime(Records(v.items))
      ensures forall i :: 0 <= i < |v.items| ==> (v.items[i].editing <==> editingId == Some(v.items[i].todo.id))
    {
      if |todos| == 0 then View("0개", true, [])
      else View(DecimalString(|todos|) + "개", false, Items(SortByDateTime(todos), editingId))
    }

    /** With unique ids, at most one entry shows its edit form. */
    lemma {:induction false} AtMostOneEditing()
      requires UniqueIds(todos)
      ensures forall i, j :: 0 <= i < j < |Render().items| ==> !(Render().items[i].editing && Render().items[j].editing)
    {
      var items := Render().items;
      var s := Records(items);
      PermutationKeepsUniqueIds(todos, s);
      forall i, j | 0 <= i < j < |items|
        ensures !(items[i].editing && items[j].editing)
      {
        assert s[i] == items[i].todo && s[j] == items[j].todo;
      }
    }
  }
}
