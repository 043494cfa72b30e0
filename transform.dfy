/** The weekly window aggregation of the output builder: a snapshot of the
    prints of the latest week, and for each of its rows the number of
    prints, taps and pays and the paid total of the same user and value
    proposition over the trailing weeks before it, left-joined onto the
    snapshot and zero-filled. Dates are day numbers. */
module Transform {
  import opened Text
  import opened Rows

  // ---------------------------------------------------------------------
  // Week buckets

  /** `dt.truncate("1w")`: the Monday starting the week of day `d`. Day
      numbers count from 1970-01-01, a Thursday, so day 4 is a Monday. */
  function WeekStart(d: int): (w: int)
    ensures w <= d < w + 7
    ensures (w - 4) % 7 == 0
  {
    d - (d - 4) % 7
  }

  /** The week start is the only Monday at most six days before `d`. */
  lemma WeekStartUnique(d: int, m: int)
    requires (m - 4) % 7 == 0 && m <= d < m + 7
    ensures WeekStart(d) == m
  {
    var w := WeekStart(d);
    var q1 := (w - 4) / 7;
    var q2 := (m - 4) / 7;
    assert w - 4 == 7 * q1;
    assert m - 4 == 7 * q2;
    assert -7 < 7 * (q1 - q2) < 7;
  }

  /** The week buckets of the rows. */
  function Buckets<T>(rows: seq<T>, day: T -> int): set<int> {
    set i | 0 <= i < |rows| :: WeekStart(day(rows[i]))
  }

  /** The largest element of a non-empty set. */
  function MaxOf(s: set<int>): (m: int)
    requires s != {}
    ensures m in s && forall x :: x in s ==> x <= m
  {
    var r := SortedInts(s);
    SortedIntsSorted(s);
    var m := r[|r| - 1];
    assert forall x :: x in s ==> x <= m by {
      forall x | x in s ensures x <= m {
        var j :| 0 <= j < |r| && r[j] == x;
        assert j == |r| - 1 || r[j] < r[|r| - 1];
      }
    }
    m
  }

  function InWeek<T>(day: T -> int, m: int): T -> bool {
    r => WeekStart(day(r)) == m
  }

  function InWeeks<T>(day: T -> int, w: seq<int>): T -> bool {
    r => WeekStart(day(r)) in w
  }

  /** `get_last_week`: the rows of the latest week bucket; an empty table
      stays empty. */
  function LastWeek<T(!new)>(rows: seq<T>, day: T -> int): seq<T> {
    if rows == [] then []
    else
      assert WeekStart(day(rows[0])) in Buckets(rows, day);
      Filter(rows, InWeek(day, MaxOf(Buckets(rows, day))))
  }

  function Tail(s: seq<int>, n: nat): (r: seq<int>)
    ensures |r| == if |s| <= n then |s| else n
  {
    if |s| <= n then s else s[|s| - n..]
  }

  function Head(s: seq<int>, n: nat): (r: seq<int>)
    ensures |r| == if |s| <= n then |s| else n
  {
    if |s| <= n then s else s[..n]
  }

  /** `unique().sort().tail(4).head(3)` of the week buckets. */
  function Window(buckets: set<int>): seq<int> {
    Head(Tail(SortedInts(buckets), 4), 3)
  }

  /** `get_last_weeks`: the rows whose bucket is in the window. */
  function LastWeeks<T(!new)>(rows: seq<T>, day: T -> int): seq<T> {
    Filter(rows, InWeeks(day, Window(Buckets(rows, day))))
  }

  // ---------------------------------------------------------------------
  // Properties of the selectors

  /** The snapshot is a filter, and keeps exactly the rows that no other
      row is in a later week than. */
  lemma LastWeekKeepsLatest<T(!new)>(rows: seq<T>, day: T -> int)
    ensures Subsequence(LastWeek(rows, day), rows)
    ensures forall r :: r in LastWeek(rows, day) <==>
              r in rows && forall i :: 0 <= i < |rows| ==> WeekStart(day(rows[i])) <= WeekStart(day(r))
  {
    if rows != [] {
      assert WeekStart(day(rows[0])) in Buckets(rows, day);
      var m := MaxOf(Buckets(rows, day));
      FilterIsSubsequence(rows, InWeek(day, m));
      forall r | r in rows && forall i :: 0 <= i < |rows| ==> WeekStart(day(rows[i])) <= WeekStart(day(r))
        ensures r in LastWeek(rows, day)
      {
        var j :| 0 <= j < |rows| && WeekStart(day(rows[j])) == m;
        var k :| 0 <= k < |rows| && rows[k] == r;
        assert WeekStart(day(r)) in Buckets(rows, day);
      }
      forall r | r in LastWeek(rows, day)
        ensures forall i :: 0 <= i < |rows| ==> WeekStart(day(rows[i])) <= WeekStart(day(r))
      {
        forall i | 0 <= i < |rows| ensures WeekStart(day(rows[i])) <= WeekStart(day(r)) {
          assert WeekStart(day(rows[i])) in Buckets(rows, day);
        }
      }
    }
  }

  /** The trailing selector is a filter. */
  lemma LastWeeksIsFilter<T(!new)>(rows: seq<T>, day: T -> int)
    ensures Subsequence(LastWeeks(rows, day), rows)
    ensures forall r :: r in LastWeeks(rows, day) ==> r in rows
  {
    FilterIsSubsequence(rows, InWeeks(day, Window(Buckets(rows, day))));
  }

  /** With at most three distinct weeks nothing is dropped, the newest
      week included. */
  lemma LastWeeksFewWeeks<T(!new)>(rows: seq<T>, day: T -> int)
    requires |Buckets(rows, day)| <= 3
    ensures LastWeeks(rows, day) == rows
  {
    var b := Buckets(rows, day);
    forall r | r in rows ensures InWeeks(day, Window(b))(r) {
      var k :| 0 <= k < |rows| && rows[k] == r;
      assert WeekStart(day(r)) in b;
    }
    FilterAll(rows, InWeeks(day, Window(b)));
  }

  /** The weeks after bucket `b`. */
  function Later(buckets: set<int>, b: int): set<int> {
    set x | x in buckets && x > b
  }

  /** With four or more distinct weeks, a row is kept exactly when one to
      three weeks come after its own: the three weeks before the newest. */
  lemma LastWeeksManyWeeks<T(!new)>(rows: seq<T>, day: T -> int)
    requires |Buckets(rows, day)| >= 4
    ensures forall r :: r in LastWeeks(rows, day) <==>
              r in rows && 1 <= |Later(Buckets(rows, day), WeekStart(day(r)))| <= 3
  {
    var b := Buckets(rows, day);
    var s := SortedInts(b);
    SortedIntsSorted(b);
    var n := |s|;
    assert Window(b) == s[n - 4..n - 1];
    forall r | r in rows
      ensures WeekStart(day(r)) in Window(b) <==> 1 <= |Later(b, WeekStart(day(r)))| <= 3
    {
      var k :| 0 <= k < |rows| && rows[k] == r;
      assert WeekStart(day(r)) in b;
      var j :| 0 <= j < n && s[j] == WeekStart(day(r));
      LaterCount(s, j);
      assert Later(b, s[j]) == set x | x in s && x > s[j];
      if s[j] in s[n - 4..n - 1] {
        var j' :| n - 4 <= j' < n - 1 && s[j'] == s[j];
        assert j' == j;
      }
      if n - 4 <= j < n - 1 {
        assert s[j] == s[n - 4..n - 1][j - (n - 4)];
      }
    }
  }

  /** In a strictly increasing list, `|s| - 1 - j` elements exceed `s[j]`. */
  lemma LaterCount(s: seq<int>, j: nat)
    requires StrictlyIncreasing(s) && j < |s|
    ensures |set x | x in s && x > s[j]| == |s| - 1 - j
  {
    var later := s[j + 1..];
    assert (set x | x in s && x > s[j]) == (set x | x in later) by {
      forall x | x in s && x > s[j] ensures x in later {
        var i :| 0 <= i < |s| && s[i] == x;
        assert i > j;
        assert later[i - j - 1] == x;
      }
    }
    assert StrictlyIncreasing(later) by {
      forall a, b | 0 <= a < b < |later| ensures later[a] < later[b] {
        assert later[a] == s[j + 1 + a] && later[b] == s[j + 1 + b];
      }
    }
    IncreasingCard(later);
  }

  /** A strictly increasing list has as many distinct elements as entries. */
  lemma {:induction false} IncreasingCard(s: seq<int>)
    requires StrictlyIncreasing(s)
    ensures |set x | x in s| == |s|
  {
    if s != [] {
      var init := s[..|s| - 1];
      assert StrictlyIncreasing(init);
      IncreasingCard(init);
      var last := s[|s| - 1];
      assert (set x | x in s) == (set x | x in init) + {last};
    }
  }

  // ---------------------------------------------------------------------
  // Group-by and left join

  /** The group-by key `(user_id, value_prop)`. */
  datatype Key = Key(userId: int, valueProp: string)

  /** A print or a tap with its unnested columns. */
  datatype Event = Event(day: int, position: int, valueProp: string, userId: int)

  /** A pay; the amount is an integer (see the README). */
  datatype Pay = Pay(payDate: int, total: int, userId: int, valueProp: string)

  function EventDay(e: Event): int { e.day }
  function EventKey(e: Event): Key { Key(e.userId, e.valueProp) }
  function PayDate(p: Pay): int { p.payDate }
  function PayKey(p: Pay): Key { Key(p.userId, p.valueProp) }
  function PayTotal(p: Pay): int { p.total }
  function One<T>(r: T): int { 1 }

  function KeyIs<T>(keyOf: T -> Key, k: Key): T -> bool {
    r => keyOf(r) == k
  }

  /** The sum of `val` over the rows with key `k`. */
  function SumWhere<T>(rows: seq<T>, keyOf: T -> Key, val: T -> int, k: Key): int {
    if rows == [] then 0
    else
      SumWhere(rows[..|rows| - 1], keyOf, val, k)
      + (if keyOf(rows[|rows| - 1]) == k then val(rows[|rows| - 1]) else 0)
  }

  /** An aggregated table: one `(key, value)` row per group. */
  type Groups = seq<(Key, int)>

  function KeysOf(g: Groups): set<Key> {
    if g == [] then {} else KeysOf(g[..|g| - 1]) + {g[|g| - 1].0}
  }

  /** No key has two groups. */
  predicate UniqueKeys(g: Groups) {
    g == [] || (UniqueKeys(g[..|g| - 1]) && g[|g| - 1].0 !in KeysOf(g[..|g| - 1]))
  }

  /** The value of group `k`, or 0 when there is none: a left join's value
      after `fill_null(0)`. */
  function Lookup(g: Groups, k: Key): int {
    if g == [] then 0
    else if g[|g| - 1].0 == k then g[|g| - 1].1
    else Lookup(g[..|g| - 1], k)
  }

  /** Adds `v` to the group of `k`, opening it when absent. */
  function AddTo(g: Groups, k: Key, v: int): (r: Groups)
    ensures KeysOf(r) == KeysOf(g) + {k}
    ensures UniqueKeys(g) ==> UniqueKeys(r)
    ensures forall k' :: Lookup(r, k') == Lookup(g, k') + (if k' == k then v else 0)
  {
    if g == [] then
      var r := [(k, v)];
      assert r[..0] == [];
      r
    else
      var init := g[..|g| - 1];
      var last := g[|g| - 1];
      if last.0 == k then
        var r := init + [(k, last.1 + v)];
        assert r[..|r| - 1] == init;
        r
      else
        var r0 := AddTo(init, k, v);
        var r := r0 + [last];
        assert r[..|r| - 1] == r0;
        r
  }

  /** The keys that occur in the rows. */
  function RowKeys<T>(rows: seq<T>, keyOf: T -> Key): set<Key> {
    if rows == [] then {} else RowKeys(rows[..|rows| - 1], keyOf) + {keyOf(rows[|rows| - 1])}
  }

  /** `group_by([user_id, value_prop]).agg(...)` with a sum of `val`
      (`pl.len()` is the sum of `One`): one group per key that occurs,
      holding the sum over that key's rows. */
  function Group<T>(rows: seq<T>, keyOf: T -> Key, val: T -> int): (g: Groups)
    ensures UniqueKeys(g)
    ensures KeysOf(g) == RowKeys(rows, keyOf)
    ensures forall k :: Lookup(g, k) == SumWhere(rows, keyOf, val, k)
  {
    if rows == [] then []
    else AddTo(Group(rows[..|rows| - 1], keyOf, val), keyOf(rows[|rows| - 1]), val(rows[|rows| - 1]))
  }

  /** A key occurs in the rows exactly when some row has it. */
  lemma {:induction false} RowKeysOccur<T>(rows: seq<T>, keyOf: T -> Key, k: Key)
    ensures k in RowKeys(rows, keyOf) <==> exists i :: 0 <= i < |rows| && keyOf(rows[i]) == k
  {
    if rows != [] {
      var init := rows[..|rows| - 1];
      RowKeysOccur(init, keyOf, k);
      if exists i :: 0 <= i < |rows| && keyOf(rows[i]) == k {
        var i :| 0 <= i < |rows| && keyOf(rows[i]) == k;
        if i < |init| {
          assert init[i] == rows[i];
        }
      }
      if exists i :: 0 <= i < |init| && keyOf(init[i]) == k {
        var i :| 0 <= i < |init| && keyOf(init[i]) == k;
        assert rows[i] == init[i];
      }
    }
  }

  /** Distinct keys, stated by position. */
  lemma {:induction false} UniqueKeysByPosition(g: Groups)
    requires UniqueKeys(g)
    ensures forall i, j :: 0 <= i < j < |g| ==> g[i].0 != g[j].0
  {
    if g != [] {
      var init := g[..|g| - 1];
      UniqueKeysByPosition(init);
      forall i | 0 <= i < |init| ensures init[i].0 in KeysOf(init) {
        KeysOfPosition(init, i);
      }
    }
  }

  lemma {:induction false} KeysOfPosition(g: Groups, i: nat)
    requires i < |g|
    ensures g[i].0 in KeysOf(g)
  {
    if i < |g| - 1 {
      KeysOfPosition(g[..|g| - 1], i);
    }
  }

  /** A snapshot row with the aggregate columns joined onto it so far. */
  datatype Staged = Staged(event: Event, added: seq<int>)

  function KeyMatch(k: Key): ((Key, int)) -> bool {
    (p: (Key, int)) => p.0 == k
  }

  /** The rows a left join makes of one left row: one per matching group,
      or one with a null (filled with 0) when none matches. */
  function JoinRow(l: Staged, right: Groups): seq<Staged> {
    var ms := Filter(right, KeyMatch(EventKey(l.event)));
    if ms == [] then [Staged(l.event, l.added + [0])]
    else seq(|ms|, j requires 0 <= j < |ms| => Staged(l.event, l.added + [ms[j].1]))
  }

  /** `join(right, on=[user_id, value_prop], how="left")` followed by
      `fill_null(0)` on the joined column. */
  function LeftJoinFill(left: seq<Staged>, right: Groups): seq<Staged> {
    if left == [] then []
    else LeftJoinFill(left[..|left| - 1], right) + JoinRow(left[|left| - 1], right)
  }

  /** Against groups with unique keys at most one group matches. */
  lemma {:induction false} UniqueMatch(right: Groups, k: Key)
    requires UniqueKeys(right)
    ensures Filter(right, KeyMatch(k)) == if k in KeysOf(right) then [(k, Lookup(right, k))] else []
  {
    if right != [] {
      UniqueMatch(right[..|right| - 1], k);
    }
  }

  /** Against unique keys a left row joins to exactly one row, carrying its
      group's value, or 0 when it has no group. */
  lemma JoinRowUnique(l: Staged, right: Groups)
    requires UniqueKeys(right)
    ensures JoinRow(l, right) == [Staged(l.event, l.added + [Lookup(right, EventKey(l.event))])]
  {
    var k := EventKey(l.event);
    UniqueMatch(right, k);
    if k !in KeysOf(right) {
      LookupAbsent(right, k);
    }
  }

  /** A left join against unique keys keeps the left rows, in order, and
      appends each one's group value, 0 when it has no group. */
  lemma {:induction false} LeftJoinUnique(left: seq<Staged>, right: Groups)
    requires UniqueKeys(right)
    ensures |LeftJoinFill(left, right)| == |left|
    ensures forall i :: 0 <= i < |left| ==>
              LeftJoinFill(left, right)[i]
              == Staged(left[i].event, left[i].added + [Lookup(right, EventKey(left[i].event))])
  {
    if left != [] {
      var init := left[..|left| - 1];
      LeftJoinUnique(init, right);
      JoinRowUnique(left[|left| - 1], right);
      var r := LeftJoinFill(left, right);
      assert r == LeftJoinFill(init, right) + JoinRow(left[|left| - 1], right);
      forall i | 0 <= i < |left|
        ensures r[i] == Staged(left[i].event, left[i].added + [Lookup(right, EventKey(left[i].event))])
      {
        if i < |init| {
          assert left[i] == init[i];
        }
      }
    }
  }

  /** A key without a group looks up as 0. */
  lemma {:induction false} LookupAbsent(g: Groups, k: Key)
    requires k !in KeysOf(g)
    ensures Lookup(g, k) == 0
  {
    if g != [] {
      var init := g[..|g| - 1];
      LookupAbsent(init, k);
    }
  }

  /** A join against groups with a repeated key duplicates the left rows
      that match it: the reason the group-by runs before each join. */
  lemma JoinDuplicatesOnRepeatedKeys(l: Staged)
    ensures |LeftJoinFill([l], [(EventKey(l.event), 1), (EventKey(l.event), 2)])| == 2
  {
    var k := EventKey(l.event);
    var right := [(k, 1), (k, 2)];
    assert right[..1] == [(k, 1)];
    assert Filter(right, KeyMatch(k)) == [(k, 1), (k, 2)];
    assert [l][..0] == [];
  }

  // ---------------------------------------------------------------------
  // The output table

  /** One row of the final table. */
  datatype OutRow = OutRow(
    day: int, position: int, valueProp: string, userId: int,
    vistas: int, taps: int, click: bool, pagos: int, totalPagos: int)

  /** The `j`-th joined column; 0 where there is none. */
  function At(xs: seq<int>, j: nat): int {
    if j < |xs| then xs[j] else 0
  }

  /** The final columns; the click flag is derived from the tap count. */
  function Finish(s: Staged): OutRow {
    OutRow(s.event.day, s.event.position, s.event.valueProp, s.event.userId,
           At(s.added, 0), At(s.added, 1), At(s.added, 1) > 0, At(s.added, 2), At(s.added, 3))
  }

  function Snapshot(prints: seq<Event>): (s: seq<Staged>)
    ensures |s| == |LastWeek(prints, EventDay)|
    ensures forall i :: 0 <= i < |s| ==> s[i] == Staged(LastWeek(prints, EventDay)[i], [])
  {
    var snap := LastWeek(prints, EventDay);
    seq(|snap|, i requires 0 <= i < |snap| => Staged(snap[i], []))
  }

  /** The four aggregated tables, in join order: print counts, tap
      counts, pay counts and pay totals over the trailing weeks. */
  function Aggregates(prints: seq<Event>, taps: seq<Event>, pays: seq<Pay>): (gs: seq<Groups>)
    ensures |gs| == 4 && forall j :: 0 <= j < 4 ==> UniqueKeys(gs[j])
  {
    [ Group(LastWeeks(prints, EventDay), EventKey, One),
      Group(LastWeeks(taps, EventDay), EventKey, One),
      Group(LastWeeks(pays, PayDate), PayKey, One),
      Group(LastWeeks(pays, PayDate), PayKey, PayTotal) ]
  }

  /** The left joins in turn, `out` rebound after each. */
  function JoinAll(s: seq<Staged>, gs: seq<Groups>): seq<Staged> {
    if gs == [] then s else LeftJoinFill(JoinAll(s, gs[..|gs| - 1]), gs[|gs| - 1])
  }

  /** The aggregation of `build_output_and_export`: the last-week prints,
      joined in turn with the trailing-window print counts, tap counts, pay
      counts and pay totals. */
  function BuildOutput(prints: seq<Event>, taps: seq<Event>, pays: seq<Pay>): seq<OutRow> {
    var s := JoinAll(Snapshot(prints), Aggregates(prints, taps, pays));
    seq(|s|, i requires 0 <= i < |s| => Finish(s[i]))
  }

  /** Counting rows is summing ones. */
  lemma {:induction false} SumOneIsCount<T>(rows: seq<T>, keyOf: T -> Key, k: Key)
    ensures SumWhere(rows, keyOf, One, k) == Count(rows, KeyIs(keyOf, k))
  {
    if rows != [] {
      SumOneIsCount(rows[..|rows| - 1], keyOf, k);
    }
  }

  /** One join against unique keys keeps the row count. */
  lemma JoinedLength(s: seq<Staged>, g: Groups)
    requires UniqueKeys(g)
    ensures |LeftJoinFill(s, g)| == |s|
  {
    LeftJoinUnique(s, g);
  }

  /** One join against unique keys, at row `i`. */
  lemma JoinedAt(s: seq<Staged>, g: Groups, i: nat)
    requires UniqueKeys(g) && i < |s|
    ensures |LeftJoinFill(s, g)| == |s|
    ensures LeftJoinFill(s, g)[i] == Staged(s[i].event, s[i].added + [Lookup(g, EventKey(s[i].event))])
  {
    LeftJoinUnique(s, g);
  }

  /** The lookups of key `k` in each aggregated table, in join order. */
  function LookupAll(gs: seq<Groups>, k: Key): (r: seq<int>)
    ensures |r| == |gs| && forall j :: 0 <= j < |gs| ==> r[j] == Lookup(gs[j], k)
  {
    seq(|gs|, j requires 0 <= j < |gs| => Lookup(gs[j], k))
  }

  lemma LookupAllSnoc(gs: seq<Groups>, k: Key, pre: seq<int>)
    requires gs != []
    ensures pre + LookupAll(gs, k) == pre + LookupAll(gs[..|gs| - 1], k) + [Lookup(gs[|gs| - 1], k)]
  {
    assert LookupAll(gs, k) == LookupAll(gs[..|gs| - 1], k) + [Lookup(gs[|gs| - 1], k)];
  }

  lemma JoinStepAt(before: seq<Staged>, g: Groups, i: nat, e: Event, added: seq<int>)
    requires UniqueKeys(g) && i < |before| && before[i] == Staged(e, added)
    ensures |LeftJoinFill(before, g)| == |before|
    ensures LeftJoinFill(before, g)[i] == Staged(e, added + [Lookup(g, EventKey(e))])
  {
    JoinedAt(before, g, i);
  }

  /** Joins keep the rows, in order, and each appends one column. */
  lemma {:induction false} JoinAllRows(s: seq<Staged>, gs: seq<Groups>)
    requires forall j :: 0 <= j < |gs| ==> UniqueKeys(gs[j])
    ensures |JoinAll(s, gs)| == |s|
    ensures forall i :: 0 <= i < |s| ==>
              JoinAll(s, gs)[i] == Staged(s[i].event, s[i].added + LookupAll(gs, EventKey(s[i].event)))
  {
    if gs != [] {
      var init := gs[..|gs| - 1];
      var g := gs[|gs| - 1];
      JoinAllRows(s, init);
      var before := JoinAll(s, init);
      JoinedLength(before, g);
      forall i | 0 <= i < |s|
        ensures JoinAll(s, gs)[i] == Staged(s[i].event, s[i].added + LookupAll(gs, EventKey(s[i].event)))
      {
        JoinStepAt(before, g, i, s[i].event, s[i].added + LookupAll(init, EventKey(s[i].event)));
        LookupAllSnoc(gs, EventKey(s[i].event), s[i].added);
      }
    }
  }

  /** The output has one row per last-week print, in order, with its own
      columns; the counts are the trailing-window rows with the same user
      and value proposition (0 when none), the click flag says a tap was
      counted, and the paid total is the sum over that user's pays for the
      value proposition. */
  lemma BuildOutputRows(prints: seq<Event>, taps: seq<Event>, pays: seq<Pay>)
    ensures var out := BuildOutput(prints, taps, pays);
      var snap := LastWeek(prints, EventDay);
      |out| == |snap|
      && forall i :: 0 <= i < |out| ==>
           var k := EventKey(snap[i]);
           && out[i].day == snap[i].day && out[i].position == snap[i].position
           && out[i].valueProp == snap[i].valueProp && out[i].userId == snap[i].userId
           && out[i].vistas == Count(LastWeeks(prints, EventDay), KeyIs(EventKey, k))
           && out[i].taps == Count(LastWeeks(taps, EventDay), KeyIs(EventKey, k))
           && (out[i].click <==> out[i].taps > 0)
           && out[i].pagos == Count(LastWeeks(pays, PayDate), KeyIs(PayKey, k))
           && out[i].totalPagos == SumWhere(LastWeeks(pays, PayDate), PayKey, PayTotal, k)
  {
    var out := BuildOutput(prints, taps, pays);
    JoinAllRows(Snapshot(prints), Aggregates(prints, taps, pays));
    forall i | 0 <= i < |out|
      ensures out[i] == RowSpec(prints, taps, pays, LastWeek(prints, EventDay)[i])
    {
      OutRowAt(prints, taps, pays, i);
    }
  }

  /** The row the output holds for snapshot print `e`. */
  function RowSpec(prints: seq<Event>, taps: seq<Event>, pays: seq<Pay>, e: Event): OutRow {
    var k := EventKey(e);
    var n := Count(LastWeeks(taps, EventDay), KeyIs(EventKey, k));
    OutRow(e.day, e.position, e.valueProp, e.userId,
           Count(LastWeeks(prints, EventDay), KeyIs(EventKey, k)), n, n > 0,
           Count(LastWeeks(pays, PayDate), KeyIs(PayKey, k)),
           SumWhere(LastWeeks(pays, PayDate), PayKey, PayTotal, k))
  }

  lemma OutRowAt(prints: seq<Event>, taps: seq<Event>, pays: seq<Pay>, i: nat)
    requires i < |LastWeek(prints, EventDay)|
    ensures |BuildOutput(prints, taps, pays)| == |LastWeek(prints, EventDay)|
    ensures BuildOutput(prints, taps, pays)[i] == RowSpec(prints, taps, pays, LastWeek(prints, EventDay)[i])
  {
    var gs := Aggregates(prints, taps, pays);
    var e := LastWeek(prints, EventDay)[i];
    var k := EventKey(e);
    SnapshotJoinedAt(prints, gs, i);
    SumOneIsCount(LastWeeks(prints, EventDay), EventKey, k);
    SumOneIsCount(LastWeeks(taps, EventDay), EventKey, k);
    SumOneIsCount(LastWeeks(pays, PayDate), PayKey, k);
  }

  lemma SnapshotJoinedAt(prints: seq<Event>, gs: seq<Groups>, i: nat)
    requires forall j :: 0 <= j < |gs| ==> UniqueKeys(gs[j])
    requires i < |LastWeek(prints, EventDay)|
    ensures |JoinAll(Snapshot(prints), gs)| == |LastWeek(prints, EventDay)|
    ensures JoinAll(Snapshot(prints), gs)[i]
            == Staged(LastWeek(prints, EventDay)[i], LookupAll(gs, EventKey(LastWeek(prints, EventDay)[i])))
  {
    var s0 := Snapshot(prints);
    JoinAllRows(s0, gs);
    var k := EventKey(s0[i].event);
    assert [] + LookupAll(gs, k) == LookupAll(gs, k);
  }

  /** A count is 0 exactly when no trailing-window row has the key. */
  lemma {:induction false} CountZeroIffAbsent<T>(rows: seq<T>, keyOf: T -> Key, k: Key)
    ensures Count(rows, KeyIs(keyOf, k)) == 0 <==> forall i :: 0 <= i < |rows| ==> keyOf(rows[i]) != k
  {
    if rows != [] {
      var init := rows[..|rows| - 1];
      CountZeroIffAbsent(init, keyOf, k);
      assert forall i :: 0 <= i < |init| ==> init[i] == rows[i];
    }
  }

  /** A pair with no trailing-window pays has a paid total of 0. */
  lemma {:induction false} SumWhereAbsent<T>(rows: seq<T>, keyOf: T -> Key, val: T -> int, k: Key)
    requires forall i :: 0 <= i < |rows| ==> keyOf(rows[i]) != k
    ensures SumWhere(rows, keyOf, val, k) == 0
  {
    if rows != [] {
      var init := rows[..|rows| - 1];
      assert forall i :: 0 <= i < |init| ==> init[i] == rows[i];
      SumWhereAbsent(init, keyOf, val, k);
    }
  }
}
