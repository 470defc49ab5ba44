/**
 * The order of list results, `sort({ date: 1, time: 1 })`: ascending by day,
 * then by the time string as the database compares strings (code point by code
 * point), and the query filter the list handler builds.
 */
module DateTimeOrder {
  import opened Options
  import opened JsText
  import opened Calendar
  import opened TodoSchema

  /** Lexicographic order of strings, a proper prefix first. */
  predicate StrLe(a: string, b: string) {
    if a == [] then true
    else if b == [] then false
    else if a[0] != b[0] then a[0] < b[0]
    else StrLe(a[1..], b[1..])
  }

  lemma {:induction false} StrLeTotal(a: string, b: string)
    ensures StrLe(a, b) || StrLe(b, a)
  {
    if a != [] && b != [] && a[0] == b[0] {
      StrLeTotal(a[1..], b[1..]);
    }
  }

  lemma {:induction false} StrLeTransitive(a: string, b: string, c: string)
    requires StrLe(a, b) && StrLe(b, c)
    ensures StrLe(a, c)
  {
    if a != [] && b != [] && c != [] && a[0] == b[0] && b[0] == c[0] {
      StrLeTransitive(a[1..], b[1..], c[1..]);
    }
  }

  lemma {:induction false} StrLeAntisymmetric(a: string, b: string)
    requires StrLe(a, b) && StrLe(b, a)
    ensures a == b
  {
    if a != [] && b != [] {
      StrLeAntisymmetric(a[1..], b[1..]);
      assert a == [a[0]] + a[1..] && b == [b[0]] + b[1..];
    }
  }

  /** On clock readings, string order is the order of the minute of the day. */
  lemma ClockOrderIsChronological(a: string, b: string)
    requires IsClockTime(a) && IsClockTime(b)
    ensures StrLe(a, b) <==> 60 * Hour(a) + Minute(a) <= 60 * Hour(b) + Minute(b)
  {
    var a1, a2, a3, a4 := a[1..], a[2..], a[3..], a[4..];
    var b1, b2, b3, b4 := b[1..], b[2..], b[3..], b[4..];
    assert a1[1..] == a2 && a2[1..] == a3 && a3[1..] == a4 && a4[1..] == [];
    assert b1[1..] == b2 && b2[1..] == b3 && b3[1..] == b4 && b4[1..] == [];
    assert StrLe(a4, b4) <==> a[4] <= b[4];
    assert StrLe(a3, b3) <==> (if a[3] != b[3] then a[3] < b[3] else a[4] <= b[4]);
    assert StrLe(a2, b2) <==> StrLe(a3, b3);
    assert StrLe(a, b) <==>
      if a[0] != b[0] then a[0] < b[0]
      else if a[1] != b[1] then a[1] < b[1]
      else StrLe(a3, b3);
  }

  /** `a` may precede `b` in a list result. */
  predicate KeyLe(a: Todo, b: Todo) {
    Before(a.date, b.date) || (a.date == b.date && StrLe(a.time, b.time))
  }

  lemma KeyLeTotal(a: Todo, b: Todo)
    ensures KeyLe(a, b) || KeyLe(b, a)
  {
    StrLeTotal(a.time, b.time);
  }

  lemma KeyLeTransitive(a: Todo, b: Todo, c: Todo)
    requires KeyLe(a, b) && KeyLe(b, c)
    ensures KeyLe(a, c)
  {
    if a.date == b.date && b.date == c.date {
      StrLeTransitive(a.time, b.time, c.time);
    }
  }

  /** Non-decreasing by (date, time); records with equal keys may come in any order. */
  predicate SortedByDateTime(s: seq<Todo>) {
    forall i, j :: 0 <= i < j < |s| ==> KeyLe(s[i], s[j])
  }

  /** Every record of `s` may follow `y`. */
  predicate AllAfter(y: Todo, s: seq<Todo>) {
    forall t :: t in s ==> KeyLe(y, t)
  }

  lemma PrependSorted(y: Todo, s: seq<Todo>)
    requires SortedByDateTime(s) && AllAfter(y, s)
    ensures SortedByDateTime([y] + s)
  {
    forall i, j | 0 <= i < j < |s| + 1 ensures KeyLe(([y] + s)[i], ([y] + s)[j]) {
      if i > 0 {
        assert ([y] + s)[i] == s[i - 1];
      }
      assert ([y] + s)[j] == s[j - 1];
    }
  }

  lemma SortedHeadFirst(s: seq<Todo>)
    requires SortedByDateTime(s) && s != []
    ensures AllAfter(s[0], s[1..])
  {
    forall t | t in s[1..] ensures KeyLe(s[0], t) {
      var k :| 0 <= k < |s[1..]| && s[1..][k] == t;
      assert s[k + 1] == t;
    }
  }

  /**
   * Places `x` in a sorted sequence after every record that must precede it
   * and after every record with the same key, so equal keys keep their order.
   */
  function InsertByDateTime(s: seq<Todo>, x: Todo): (r: seq<Todo>)
    ensures multiset(r) == multiset(s) + multiset{x}
    ensures SortedByDateTime(s) ==> SortedByDateTime(r)
  {
    if s == [] then [x]
    else if KeyLe(x, s[0]) && !KeyLe(s[0], x) then
      assert s == [s[0]] + s[1..];
      assert SortedByDateTime(s) ==> SortedByDateTime([x] + s) by {
        if SortedByDateTime(s) {
          SortedHeadFirst(s);
          forall t | t in s ensures KeyLe(x, t) {
            if t != s[0] { KeyLeTransitive(x, s[0], t); }
          }
          PrependSorted(x, s);
        }
      }
      [x] + s
    else
      var rest := InsertByDateTime(s[1..], x);
      assert s == [s[0]] + s[1..];
      assert SortedByDateTime(s) ==> SortedByDateTime([s[0]] + rest) by {
        if SortedByDateTime(s) {
          SortedHeadFirst(s);
          KeyLeTotal(x, s[0]);
          forall t | t in rest ensures KeyLe(s[0], t) {
            assert t in multiset(rest);
          }
          assert SortedByDateTime(s[1..]);
          PrependSorted(s[0], rest);
        }
      }
      [s[0]] + rest
  }

  /** The records of `s` rearranged into (date, time) order. */
  function SortByDateTime(s: seq<Todo>): (r: seq<Todo>)
    ensures multiset(r) == multiset(s)
    ensures SortedByDateTime(r)
  {
    if s == [] then []
    else
      assert s == s[..|s| - 1] + [s[|s| - 1]];
      InsertByDateTime(SortByDateTime(s[..|s| - 1]), s[|s| - 1])
  }

  /** A record that no record of `s` must follow is placed last. */
  lemma {:induction false} InsertAfterAll(s: seq<Todo>, x: Todo)
    requires forall t :: t in s ==> KeyLe(t, x)
    ensures InsertByDateTime(s, x) == s + [x]
  {
    if s != [] {
      var rest := s[1..];
      assert s[0] in s && KeyLe(s[0], x);
      forall t | t in rest ensures KeyLe(t, x) {
        assert t in s;
      }
      InsertAfterAll(rest, x);
      assert InsertByDateTime(s, x) == [s[0]] + InsertByDateTime(rest, x);
      assert s + [x] == [s[0]] + (rest + [x]);
    }
  }

  /**
   * The sort is stable: a sequence already in (date, time) order, ties
   * included, comes out as it went in.
   */
  lemma {:induction false} SortKeepsSortedOrder(s: seq<Todo>)
    requires SortedByDateTime(s)
    ensures SortByDateTime(s) == s
  {
    if s != [] {
      var init, last := s[..|s| - 1], s[|s| - 1];
      assert s == init + [last];
      assert SortedByDateTime(init) by {
        forall i, j | 0 <= i < j < |init| ensures KeyLe(init[i], init[j]) {
          assert init[i] == s[i] && init[j] == s[j];
        }
      }
      forall t | t in init ensures KeyLe(t, last) {
        var k :| 0 <= k < |init| && init[k] == t;
        assert init[k] == s[k];
      }
      SortKeepsSortedOrder(init);
      InsertAfterAll(init, last);
      assert SortByDateTime(s) == InsertByDateTime(SortByDateTime(init), last);
    }
  }

  /** The list filter; each part is present only when the query supplied it. */
  datatype Filter = Filter(completed: Option<bool>, priority: Option<string>, day: Option<Date>)

  predicate MatchesFilter(t: Todo, f: Filter)
    requires f.day.Some? ==> ValidDate(f.day.value)
  {
    && (f.completed.Some? ==> t.completed == f.completed.value)
    && (f.priority.Some? ==> PriorityName(t.priority) == f.priority.value)
    && (f.day.Some? ==> InDayWindow(t.date, f.day.value))
  }

  /** `find(filter)`: the records matching every supplied condition, in store order. */
  function Select(s: seq<Todo>, f: Filter): (r: seq<Todo>)
    requires f.day.Some? ==> ValidDate(f.day.value)
    ensures |r| <= |s|
    ensures forall t :: t in r <==> t in s && MatchesFilter(t, f)
  {
    if s == [] then []
    else
      assert s == [s[0]] + s[1..];
      (if MatchesFilter(s[0], f) then [s[0]] else []) + Select(s[1..], f)
  }

  /** The filter a `?priority=` query builds. */
  function ByPriority(p: Priority): (f: Filter)
    ensures f.completed.None? && f.day.None? && f.priority == Some(PriorityName(p))
  {
    Filter(None, Some(PriorityName(p)), None)
  }

  /** `find(filter)` keeps every copy of a matching record and drops every copy of the others. */
  lemma {:induction false} SelectCount(s: seq<Todo>, f: Filter, x: Todo)
    requires f.day.Some? ==> ValidDate(f.day.value)
    ensures multiset(Select(s, f))[x] == if MatchesFilter(x, f) then multiset(s)[x] else 0
  {
    if s != [] {
      SelectCount(s[1..], f, x);
      assert s == [s[0]] + s[1..];
      if MatchesFilter(s[0], f) {
        assert Select(s, f) == [s[0]] + Select(s[1..], f);
      } else {
        assert Select(s, f) == Select(s[1..], f);
      }
    }
  }

  /** So the records found occur no more often than in the collection. */
  lemma SelectIsSubMultiset(s: seq<Todo>, f: Filter)
    requires f.day.Some? ==> ValidDate(f.day.value)
    ensures multiset(Select(s, f)) <= multiset(s)
  {
    forall x: Todo
      ensures multiset(Select(s, f))[x] <= multiset(s)[x]
    {
      SelectCount(s, f, x);
    }
  }

  /**
   * Filtering by each of the three priorities splits the store: every record
   * lands in exactly one of the three results.
   */
  lemma PriorityFiltersPartition(s: seq<Todo>)
    ensures multiset(Select(s, ByPriority(Low)))
          + multiset(Select(s, ByPriority(Medium)))
          + multiset(Select(s, ByPriority(High))) == multiset(s)
  {
    var l, m, h := multiset(Select(s, ByPriority(Low))), multiset(Select(s, ByPriority(Medium))), multiset(Select(s, ByPriority(High)));
    forall x: Todo
      ensures (l + m + h)[x] == multiset(s)[x]
    {
      SelectCount(s, ByPriority(Low), x);
      SelectCount(s, ByPriority(Medium), x);
      SelectCount(s, ByPriority(High), x);
      match x.priority {
        case Low =>
        case Medium =>
        case High =>
      }
    }
  }
}
