/** Keyset pagination of task and project lists, and what a client sees that follows next_cursor to the end. */
module Pagination {
  import opened Wrappers

  datatype List<+T> = Nil | Cons(head: T, tail: List<T>)

  /** The compound sort key. */
  datatype Key = Key(createdAt: int, id: int)
  datatype Row<+T> = Row(key: Key, data: T)

  /** (created_at, id) < (cursor_created_at, cursor_id), as the WHERE clause spells it out. */
  predicate Below(a: Key, b: Key) {
    a.createdAt < b.createdAt || (a.createdAt == b.createdAt && a.id < b.id)
  }

  function Length<T>(l: List<T>): nat {
    if l.Nil? then 0 else 1 + Length(l.tail)
  }

  function Append<T>(a: List<T>, b: List<T>): List<T> {
    if a.Nil? then b else Cons(a.head, Append(a.tail, b))
  }

  /** items[:n]. */
  function Take<T>(l: List<T>, n: nat): List<T> {
    if l.Nil? || n == 0 then Nil else Cons(l.head, Take(l.tail, n - 1))
  }

  function Drop<T>(l: List<T>, n: nat): List<T> {
    if l.Nil? || n == 0 then l else Drop(l.tail, n - 1)
  }

  /** items[n]. */
  function Nth<T>(l: List<T>, n: nat): T
    requires n < Length(l)
  {
    if n == 0 then l.head else Nth(l.tail, n - 1)
  }

  function Keys<T>(l: List<Row<T>>): set<Key> {
    if l.Nil? then {} else {l.head.key} + Keys(l.tail)
  }

  /** id is the primary key, so no two rows share a sort key. */
  predicate DistinctKeys<T>(l: List<Row<T>>) {
    l.Cons? ==> l.head.key !in Keys(l.tail) && DistinctKeys(l.tail)
  }

  /** Every key is strictly below the bound, if there is one. */
  predicate AllBelow<T>(l: List<Row<T>>, bound: Option<Key>) {
    l.Cons? && bound.Some? ==> Below(l.head.key, bound.value) && AllBelow(l.tail, bound)
  }

  /** Strictly descending, hence without repetition. */
  predicate Descending<T>(l: List<Row<T>>) {
    l.Cons? ==> AllBelow(l.tail, Some(l.head.key)) && Descending(l.tail)
  }

  // The query.

  function Insert<T>(row: Row<T>, l: List<Row<T>>): List<Row<T>> {
    if l.Nil? || Below(l.head.key, row.key) then Cons(row, l) else Cons(l.head, Insert(row, l.tail))
  }

  /** ORDER BY created_at DESC, id DESC. */
  function Ordered<T>(table: List<Row<T>>): List<Row<T>> {
    if table.Nil? then Nil else Insert(table.head, Ordered(table.tail))
  }

  /** WHERE visible AND below the cursor. */
  function Where<T>(rows: List<Row<T>>, visible: T -> bool, cursor: Option<Key>): List<Row<T>> {
    if rows.Nil? then Nil
    else if visible(rows.head.data) && (cursor.None? || Below(rows.head.key, cursor.value))
    then Cons(rows.head, Where(rows.tail, visible, cursor))
    else Where(rows.tail, visible, cursor)
  }

  function Matching<T>(table: List<Row<T>>, visible: T -> bool, cursor: Option<Key>): List<Row<T>> {
    Where(Ordered(table), visible, cursor)
  }

  datatype Page<+T> = Page(items: List<Row<T>>, next: Option<Key>)

  /** The (limit+1)th row becomes the cursor; the first `limit` rows are returned. */
  function MakeCursorPage<T>(items: List<Row<T>>, limit: nat): Page<T> {
    if Length(items) > limit then Page(Take(items, limit), Some(Nth(items, limit).key)) else Page(items, None)
  }

  /** One request: filter, order, fetch limit + 1 rows, split. */
  function FetchPage<T>(table: List<Row<T>>, visible: T -> bool, cursor: Option<Key>, limit: nat): Page<T> {
    MakeCursorPage(Take(Matching(table, visible, cursor), limit + 1), limit)
  }

  /** The same with the cursor the module text describes: the last row returned. */
  function FetchPageDocumented<T>(table: List<Row<T>>, visible: T -> bool, cursor: Option<Key>, limit: nat): Page<T>
    requires limit >= 1
  {
    var items := Take(Matching(table, visible, cursor), limit + 1);
    if Length(items) > limit then Page(Take(items, limit), Some(Nth(items, limit - 1).key)) else Page(items, None)
  }

  // Facts about ordered results.

  lemma {:induction false} InsertDescends<T>(row: Row<T>, l: List<Row<T>>)
    requires Descending(l) && row.key !in Keys(l)
    ensures Descending(Insert(row, l)) && Keys(Insert(row, l)) == Keys(l) + {row.key}
    ensures forall b :: AllBelow(l, Some(b)) && Below(row.key, b) ==> AllBelow(Insert(row, l), Some(b))
  {
    if l.Cons? {
      if Below(l.head.key, row.key) {
        BelowTransitive(l.tail, l.head.key, row.key);
      } else {
        InsertDescends(row, l.tail);
      }
    }
  }

  lemma {:induction false} BelowTransitive<T>(l: List<Row<T>>, low: Key, high: Key)
    requires AllBelow(l, Some(low)) && Below(low, high)
    ensures AllBelow(l, Some(high))
  {
    if l.Cons? {
      BelowTransitive(l.tail, low, high);
    }
  }

  lemma {:induction false} OrderedDescends<T>(table: List<Row<T>>)
    requires DistinctKeys(table)
    ensures Descending(Ordered(table)) && Keys(Ordered(table)) == Keys(table)
  {
    if table.Cons? {
      OrderedDescends(table.tail);
      InsertDescends(table.head, Ordered(table.tail));
    }
  }

  lemma {:induction false} WhereDescends<T>(rows: List<Row<T>>, visible: T -> bool, cursor: Option<Key>)
    requires Descending(rows)
    ensures Descending(Where(rows, visible, cursor)) && AllBelow(Where(rows, visible, cursor), cursor)
    ensures forall b :: AllBelow(rows, Some(b)) ==> AllBelow(Where(rows, visible, cursor), Some(b))
  {
    if rows.Cons? {
      WhereDescends(rows.tail, visible, cursor);
    }
  }

  lemma MatchingDescends<T>(table: List<Row<T>>, visible: T -> bool, cursor: Option<Key>)
    requires DistinctKeys(table)
    ensures Descending(Matching(table, visible, cursor)) && AllBelow(Matching(table, visible, cursor), cursor)
  {
    OrderedDescends(table);
    WhereDescends(Ordered(table), visible, cursor);
  }

  /** Nothing above the cut is affected by a lower cursor, and what is below every earlier cursor stays. */
  lemma {:induction false} WhereBelowAll<T>(rows: List<Row<T>>, visible: T -> bool, cursor: Option<Key>, cut: Key)
    requires AllBelow(rows, Some(cut)) && (cursor.None? || Below(cut, cursor.value) || cut == cursor.value)
    ensures Where(rows, visible, Some(cut)) == Where(rows, visible, cursor)
  {
    if rows.Cons? {
      WhereBelowAll(rows.tail, visible, cursor, cut);
    }
  }

  /** Moving the cursor to the nth matching row leaves exactly the rows behind it. */
  lemma {:induction false} CutAtNth<T>(rows: List<Row<T>>, visible: T -> bool, cursor: Option<Key>, n: nat)
    requires Descending(rows) && n < Length(Where(rows, visible, cursor))
    ensures var matching := Where(rows, visible, cursor);
            Where(rows, visible, Some(Nth(matching, n).key)) == Drop(matching, n + 1)
  {
    var matching := Where(rows, visible, cursor);
    var cut := Nth(matching, n).key;
    WhereDescends(rows, visible, cursor);
    WhereDescends(rows.tail, visible, cursor);
    NthBelow(matching, n);
    if visible(rows.head.data) && (cursor.None? || Below(rows.head.key, cursor.value)) {
      if n == 0 {
        WhereBelowAll(rows.tail, visible, cursor, cut);
      } else {
        CutAtNth(rows.tail, visible, cursor, n - 1);
      }
    } else {
      CutAtNth(rows.tail, visible, cursor, n);
    }
  }

  lemma {:induction false} NthBelow<T>(l: List<Row<T>>, n: nat)
    requires Descending(l) && n < Length(l)
    ensures Nth(l, n).key == l.head.key || Below(Nth(l, n).key, l.head.key)
    ensures forall b :: AllBelow(l, Some(b)) ==> Below(Nth(l, n).key, b)
  {
    if n > 0 {
      NthBelow(l.tail, n - 1);
    }
  }

  lemma {:induction false} TakeFacts<T>(l: List<T>, n: nat)
    ensures Length(Take(l, n)) == if Length(l) < n then Length(l) else n
    ensures Length(Drop(l, n)) == if Length(l) < n then 0 else Length(l) - n
    ensures Length(l) <= n ==> Take(l, n) == l
    ensures Append(Take(l, n), Drop(l, n)) == l
  {
    if l.Cons? && n > 0 {
      TakeFacts(l.tail, n - 1);
    }
  }

  lemma {:induction false} TakeTake<T>(l: List<T>, n: nat)
    ensures Take(Take(l, n + 1), n) == Take(l, n)
    ensures forall i: nat :: i < n + 1 && i < Length(l) ==>
              i < Length(Take(l, n + 1)) && Nth(Take(l, n + 1), i) == Nth(l, i)
  {
    if l.Cons? && n > 0 {
      TakeTake(l.tail, n - 1);
    }
    if l.Cons? {
      TakeFacts(l, n + 1);
    }
  }

  /** A page in terms of everything that matches: its items, its cursor, and what the next request will match. */
  lemma PageOf<T>(table: List<Row<T>>, visible: T -> bool, cursor: Option<Key>, limit: nat)
    requires DistinctKeys(table)
    ensures var all, page := Matching(table, visible, cursor), FetchPage(table, visible, cursor, limit);
            if Length(all) <= limit then page == Page(all, None)
            else
              && page == Page(Take(all, limit), Some(Nth(all, limit).key))
              && Matching(table, visible, page.next) == Drop(all, limit + 1)
  {
    var all := Matching(table, visible, cursor);
    TakeFacts(all, limit + 1);
    TakeTake(all, limit);
    OrderedDescends(table);
    if Length(all) > limit {
      CutAtNth(Ordered(table), visible, cursor, limit);
    }
  }

  lemma PageOfDocumented<T>(table: List<Row<T>>, visible: T -> bool, cursor: Option<Key>, limit: nat)
    requires DistinctKeys(table) && limit >= 1
    ensures var all, page := Matching(table, visible, cursor), FetchPageDocumented(table, visible, cursor, limit);
            if Length(all) <= limit then page == Page(all, None)
            else
              && page == Page(Take(all, limit), Some(Nth(all, limit - 1).key))
              && Matching(table, visible, page.next) == Drop(all, limit)
  {
    var all := Matching(table, visible, cursor);
    TakeFacts(all, limit + 1);
    TakeTake(all, limit);
    OrderedDescends(table);
    if Length(all) > limit {
      CutAtNth(Ordered(table), visible, cursor, limit - 1);
    }
  }

  /** Every row is visible and belongs to the table. */
  ghost predicate AllVisible<T>(l: List<Row<T>>, visible: T -> bool, table: set<Row<T>>) {
    l.Cons? ==> visible(l.head.data) && l.head in table && AllVisible(l.tail, visible, table)
  }

  ghost function Rows<T>(l: List<Row<T>>): set<Row<T>> {
    if l.Nil? then {} else {l.head} + Rows(l.tail)
  }

  lemma {:induction false} InsertRows<T>(row: Row<T>, l: List<Row<T>>)
    ensures Rows(Insert(row, l)) == Rows(l) + {row}
  {
    if l.Cons? {
      InsertRows(row, l.tail);
    }
  }

  lemma {:induction false} OrderedRows<T>(table: List<Row<T>>)
    ensures Rows(Ordered(table)) == Rows(table)
  {
    if table.Cons? {
      OrderedRows(table.tail);
      InsertRows(table.head, Ordered(table.tail));
    }
  }

  lemma {:induction false} WhereVisible<T>(
    rows: List<Row<T>>, visible: T -> bool, cursor: Option<Key>, table: set<Row<T>>)
    requires Rows(rows) <= table
    ensures AllVisible(Where(rows, visible, cursor), visible, table)
  {
    if rows.Cons? {
      WhereVisible(rows.tail, visible, cursor, table);
    }
  }

  lemma {:induction false} TakeVisible<T>(l: List<Row<T>>, visible: T -> bool, table: set<Row<T>>, n: nat)
    requires AllVisible(l, visible, table)
    ensures AllVisible(Take(l, n), visible, table)
  {
    if l.Cons? && n > 0 {
      TakeVisible(l.tail, visible, table, n - 1);
    }
  }

  lemma {:induction false} NthDescends<T>(l: List<Row<T>>, i: nat, j: nat)
    requires Descending(l) && i < j < Length(l)
    ensures Below(Nth(l, j).key, Nth(l, i).key)
  {
    if i > 0 {
      NthDescends(l.tail, i - 1, j - 1);
    } else {
      NthBelow(l.tail, j - 1);
    }
  }

  /** The ordered rows come newest first, and among rows of one instant the larger id first. */
  lemma NewestFirst<T>(table: List<Row<T>>, i: nat, j: nat)
    requires DistinctKeys(table) && i < j < Length(Ordered(table))
    ensures var a, b := Nth(Ordered(table), i).key, Nth(Ordered(table), j).key;
            a.createdAt > b.createdAt || (a.createdAt == b.createdAt && a.id > b.id)
  {
    OrderedDescends(table);
    NthDescends(Ordered(table), i, j);
  }

  lemma {:induction false} WhereExact<T>(rows: List<Row<T>>, visible: T -> bool, cursor: Option<Key>, row: Row<T>)
    ensures row in Rows(Where(rows, visible, cursor))
       <==> && row in Rows(rows) && visible(row.data)
            && (cursor.Some? ==>
                  var c := cursor.value;
                  row.key.createdAt < c.createdAt || (row.key.createdAt == c.createdAt && row.key.id < c.id))
  {
    if rows.Cons? {
      WhereExact(rows.tail, visible, cursor, row);
    }
  }

  /** What matches is exactly what the caller may see of the table and stands strictly behind the cursor. */
  lemma MatchingExact<T>(table: List<Row<T>>, visible: T -> bool, cursor: Option<Key>, row: Row<T>)
    ensures row in Rows(Matching(table, visible, cursor))
       <==> && row in Rows(table) && visible(row.data)
            && (cursor.Some? ==>
                  var c := cursor.value;
                  row.key.createdAt < c.createdAt || (row.key.createdAt == c.createdAt && row.key.id < c.id))
  {
    OrderedRows(table);
    WhereExact(Ordered(table), visible, cursor, row);
  }

  /** Whatever cursor a client presents, a page holds only rows of the table that the caller may see. */
  lemma PageOnlyVisible<T>(table: List<Row<T>>, visible: T -> bool, cursor: Option<Key>, limit: nat)
    ensures AllVisible(FetchPage(table, visible, cursor, limit).items, visible, Rows(table))
  {
    OrderedRows(table);
    WhereVisible(Ordered(table), visible, cursor, Rows(table));
    TakeVisible(Matching(table, visible, cursor), visible, Rows(table), limit + 1);
    TakeVisible(Take(Matching(table, visible, cursor), limit + 1), visible, Rows(table), limit);
  }

  // Following next_cursor to the end over a table that does not change.

  function Walk<T>(table: List<Row<T>>, visible: T -> bool, cursor: Option<Key>, limit: nat): List<Row<T>>
    requires DistinctKeys(table)
    decreases Length(Matching(table, visible, cursor))
  {
    var page := FetchPage(table, visible, cursor, limit);
    PageOf(table, visible, cursor, limit);
    TakeFacts(Matching(table, visible, cursor), limit + 1);
    if page.next.None? then page.items else Append(page.items, Walk(table, visible, page.next, limit))
  }

  function WalkDocumented<T>(table: List<Row<T>>, visible: T -> bool, cursor: Option<Key>, limit: nat): List<Row<T>>
    requires DistinctKeys(table) && limit >= 1
    decreases Length(Matching(table, visible, cursor))
  {
    var page := FetchPageDocumented(table, visible, cursor, limit);
    PageOfDocumented(table, visible, cursor, limit);
    TakeFacts(Matching(table, visible, cursor), limit);
    if page.next.None? then page.items else Append(page.items, WalkDocumented(table, visible, page.next, limit))
  }

  /** The list without the elements whose index (counted from `first`) is `limit` modulo limit + 1. */
  function WithoutLookahead<T>(l: List<T>, first: nat, limit: nat): List<T> {
    if l.Nil? then Nil
    else if first % (limit + 1) == limit then WithoutLookahead(l.tail, first + 1, limit)
    else Cons(l.head, WithoutLookahead(l.tail, first + 1, limit))
  }

  lemma NextPhase(first: nat, limit: nat)
    ensures (first + 1) % (limit + 1) == if first % (limit + 1) == limit then 0 else first % (limit + 1) + 1
  {
    var m := limit + 1;
    var q, r := first / m, first % m;
    assert first == q * m + r;
    if r == limit {
      assert first + 1 == (q + 1) * m;
      ModIs(first + 1, q + 1, 0, m);
    } else {
      ModIs(first + 1, q, r + 1, m);
    }
  }

  lemma ModIs(x: nat, q: nat, r: nat, m: nat)
    requires r < m && x == q * m + r
    ensures x % m == r
  {
    var q', r' := x / m, x % m;
    assert x == q' * m + r';
    assert (q - q') * m == r' - r;
    assert q - q' >= 1 ==> (q - q') * m >= m;
    assert q' - q >= 1 ==> (q' - q) * m >= m;
  }

  /** Until the next skipped index, a stretch is kept whole; behind it the pattern starts anew. */
  lemma {:induction false} LookaheadCycle<T>(l: List<T>, first: nat, limit: nat)
    ensures var left := limit - first % (limit + 1);
            if Length(l) <= left then WithoutLookahead(l, first, limit) == l
            else
              WithoutLookahead(l, first, limit)
              == Append(Take(l, left), WithoutLookahead(Drop(l, left + 1), 0, limit))
    decreases l
  {
    if l.Cons? {
      NextPhase(first, limit);
      if first % (limit + 1) == limit {
        PhaseOnly(l.tail, first + 1, 0, limit);
      } else {
        LookaheadCycle(l.tail, first + 1, limit);
      }
    }
  }

  lemma {:induction false} PhaseOnly<T>(l: List<T>, a: nat, b: nat, limit: nat)
    requires a % (limit + 1) == b % (limit + 1)
    ensures WithoutLookahead(l, a, limit) == WithoutLookahead(l, b, limit)
  {
    if l.Cons? {
      NextPhase(a, limit);
      NextPhase(b, limit);
      PhaseOnly(l.tail, a + 1, b + 1, limit);
    }
  }

  lemma {:induction false} WalkFrom<T>(table: List<Row<T>>, visible: T -> bool, cursor: Option<Key>, limit: nat)
    requires DistinctKeys(table)
    ensures Walk(table, visible, cursor, limit) == WithoutLookahead(Matching(table, visible, cursor), 0, limit)
    decreases Length(Matching(table, visible, cursor))
  {
    var all := Matching(table, visible, cursor);
    PageOf(table, visible, cursor, limit);
    TakeFacts(all, limit + 1);
    LookaheadCycle(all, 0, limit);
    if Length(all) > limit {
      WalkFrom(table, visible, FetchPage(table, visible, cursor, limit).next, limit);
    }
  }

  lemma {:induction false} LookaheadLoses<T>(l: List<T>, first: nat, limit: nat)
    ensures Length(WithoutLookahead(l, first, limit)) <= Length(l)
    ensures Length(l) > limit - first % (limit + 1) ==> Length(WithoutLookahead(l, first, limit)) < Length(l)
  {
    if l.Cons? {
      NextPhase(first, limit);
      LookaheadLoses(l.tail, first + 1, limit);
    }
  }

  /**
   The complete walk over a fixed table ends and returns the visible rows, newest first, without those at
   index limit modulo limit + 1. It returns all of them if and only if they fit on one page.
   */
  lemma FullWalk<T>(table: List<Row<T>>, visible: T -> bool, limit: nat)
    requires DistinctKeys(table)
    ensures Walk(table, visible, None, limit) == WithoutLookahead(Matching(table, visible, None), 0, limit)
    ensures Walk(table, visible, None, limit) == Matching(table, visible, None)
       <==> Length(Matching(table, visible, None)) <= limit
  {
    WalkFrom(table, visible, None, limit);
    LookaheadCycle(Matching(table, visible, None), 0, limit);
    LookaheadLoses(Matching(table, visible, None), 0, limit);
  }

  /** With the documented cursor the walk returns every visible row exactly once, in order. */
  lemma {:induction false} FullWalkDocumented<T>(
    table: List<Row<T>>, visible: T -> bool, cursor: Option<Key>, limit: nat)
    requires DistinctKeys(table) && limit >= 1
    ensures WalkDocumented(table, visible, cursor, limit) == Matching(table, visible, cursor)
    decreases Length(Matching(table, visible, cursor))
  {
    var all := Matching(table, visible, cursor);
    PageOfDocumented(table, visible, cursor, limit);
    TakeFacts(all, limit);
    if Length(all) > limit {
      FullWalkDocumented(table, visible, FetchPageDocumented(table, visible, cursor, limit).next, limit);
    }
  }

  // Following next_cursor while rows come, go and change, and the filter and page size vary.

  /** What one request of the walk finds and asks for. */
  datatype Fetch<!T> = Fetch(table: List<Row<T>>, visible: T -> bool, limit: nat)

  predicate Valid<T>(fetches: List<Fetch<T>>) {
    fetches.Cons? ==> DistinctKeys(fetches.head.table) && Valid(fetches.tail)
  }

  function PageAt<T>(f: Fetch<T>, cursor: Option<Key>): Page<T> {
    FetchPage(f.table, f.visible, cursor, f.limit)
  }

  /** Everything returned by the requests actually made, starting at the cursor. */
  function Collected<T>(fetches: List<Fetch<T>>, cursor: Option<Key>): List<Row<T>> {
    if fetches.Nil? then Nil
    else
      var page := PageAt(fetches.head, cursor);
      if page.next.None? then page.items else Append(page.items, Collected(fetches.tail, page.next))
  }

  /** The rows that served as cursor of some page. */
  function Lookaheads<T>(fetches: List<Fetch<T>>, cursor: Option<Key>): set<Key> {
    if fetches.Nil? then {}
    else
      var page := PageAt(fetches.head, cursor);
      if page.next.None? then {} else {page.next.value} + Lookaheads(fetches.tail, page.next)
  }

  /** The walk got to a page without next_cursor. */
  predicate Completed<T>(fetches: List<Fetch<T>>, cursor: Option<Key>) {
    fetches.Cons? && var page := PageAt(fetches.head, cursor);
    page.next.None? || Completed(fetches.tail, page.next)
  }

  /** At every request a row with this key was there and visible. */
  predicate MatchesThroughout<T>(fetches: List<Fetch<T>>, key: Key) {
    fetches.Cons? ==>
      key in Keys(Matching(fetches.head.table, fetches.head.visible, None)) && MatchesThroughout(fetches.tail, key)
  }

  lemma {:induction false} AppendDescends<T>(a: List<Row<T>>, b: List<Row<T>>, cut: Key, bound: Option<Key>)
    requires Descending(a) && Descending(b) && AllBelow(b, Some(cut)) && AllAbove(a, cut)
    requires AllBelow(a, bound) && (bound.None? || Below(cut, bound.value))
    ensures Descending(Append(a, b)) && AllBelow(Append(a, b), bound)
    ensures Keys(Append(a, b)) == Keys(a) + Keys(b)
  {
    if a.Cons? {
      AppendDescends(a.tail, b, cut, Some(a.head.key));
      if bound.Some? {
        AppendDescends(a.tail, b, cut, bound);
      } else {
        AppendDescends(a.tail, b, cut, None);
      }
    } else if bound.Some? {
      BelowTransitive(b, cut, bound.value);
    } else {
      Unbounded(b);
    }
  }

  lemma Unbounded<T>(l: List<Row<T>>)
    ensures AllBelow(l, None)
  {
  }

  predicate AllAbove<T>(l: List<Row<T>>, cut: Key) {
    l.Cons? ==> Below(cut, l.head.key) && AllAbove(l.tail, cut)
  }

  /** Cutting a descending list at index n: before it above, behind it below, the three parts make the whole. */
  lemma {:induction false} CutList<T>(l: List<Row<T>>, n: nat, bound: Option<Key>)
    requires Descending(l) && n < Length(l) && AllBelow(l, bound)
    ensures var cut := Nth(l, n).key;
            && Descending(Take(l, n)) && AllBelow(Take(l, n), bound) && AllAbove(Take(l, n), cut)
            && AllBelow(Drop(l, n + 1), Some(cut)) && (bound.Some? ==> Below(cut, bound.value))
            && Keys(l) == Keys(Take(l, n)) + {cut} + Keys(Drop(l, n + 1))
            && cut !in Keys(Take(l, n)) && cut !in Keys(Drop(l, n + 1))
  {
    if n > 0 {
      CutList(l.tail, n - 1, Some(l.head.key));
      if bound.Some? {
        CutList(l.tail, n - 1, bound);
      }
    } else {
      KeysBelow(l.tail, l.head.key);
    }
  }

  lemma {:induction false} KeysBelow<T>(l: List<Row<T>>, bound: Key)
    requires AllBelow(l, Some(bound))
    ensures forall k :: k in Keys(l) ==> Below(k, bound)
  {
    if l.Cons? {
      KeysBelow(l.tail, bound);
    }
  }

  lemma {:induction false} WhereKeys<T>(rows: List<Row<T>>, visible: T -> bool, cursor: Option<Key>)
    ensures forall k :: k in Keys(Where(rows, visible, cursor))
              <==> k in Keys(Where(rows, visible, None)) && (cursor.Some? ==> Below(k, cursor.value))
  {
    if rows.Cons? {
      WhereKeys(rows.tail, visible, cursor);
    }
  }

  /** Whatever changes between the pages, the keys returned are strictly descending: no row is ever returned twice. */
  lemma {:induction false} NeverTwice<T>(fetches: List<Fetch<T>>, cursor: Option<Key>)
    requires Valid(fetches)
    ensures Descending(Collected(fetches, cursor)) && AllBelow(Collected(fetches, cursor), cursor)
    decreases fetches
  {
    if fetches.Cons? {
      var f := fetches.head;
      var all := Matching(f.table, f.visible, cursor);
      MatchingDescends(f.table, f.visible, cursor);
      PageOf(f.table, f.visible, cursor, f.limit);
      if Length(all) > f.limit {
        var next := PageAt(f, cursor).next;
        CutList(all, f.limit, cursor);
        NeverTwice(fetches.tail, next);
        AppendDescends(Take(all, f.limit), Collected(fetches.tail, next), next.value, cursor);
      }
    }
  }

  /**
   A row that matched throughout a completed walk is returned if and only if it was not the lookahead row of
   some page; by NeverTwice, then exactly once.
   */
  lemma {:induction false} ReturnedUnlessLookahead<T>(fetches: List<Fetch<T>>, cursor: Option<Key>, key: Key)
    requires Valid(fetches) && Completed(fetches, cursor) && MatchesThroughout(fetches, key)
    requires cursor.Some? ==> Below(key, cursor.value)
    ensures key in Keys(Collected(fetches, cursor)) <==> key !in Lookaheads(fetches, cursor)
    decreases fetches
  {
    var f := fetches.head;
    var all := Matching(f.table, f.visible, cursor);
    MatchingDescends(f.table, f.visible, cursor);
    PageOf(f.table, f.visible, cursor, f.limit);
    WhereKeys(Ordered(f.table), f.visible, cursor);
    if Length(all) > f.limit {
      var next := PageAt(f, cursor).next;
      var rest := Collected(fetches.tail, next);
      CutList(all, f.limit, cursor);
      NeverTwice(fetches.tail, next);
      AppendDescends(Take(all, f.limit), rest, next.value, cursor);
      KeysBelow(rest, next.value);
      LookaheadsBelow(fetches.tail, next);
      AboveKeys(Take(all, f.limit), next.value);
      if key in Keys(Drop(all, f.limit + 1)) {
        KeysBelow(Drop(all, f.limit + 1), next.value);
        ReturnedUnlessLookahead(fetches.tail, next, key);
      }
    }
  }

  lemma {:induction false} AboveKeys<T>(l: List<Row<T>>, cut: Key)
    requires AllAbove(l, cut)
    ensures forall k :: k in Keys(l) ==> Below(cut, k)
  {
    if l.Cons? {
      AboveKeys(l.tail, cut);
    }
  }

  lemma {:induction false} LookaheadsBelow<T>(fetches: List<Fetch<T>>, cursor: Option<Key>)
    requires Valid(fetches) && cursor.Some?
    ensures forall k :: k in Lookaheads(fetches, cursor) ==> Below(k, cursor.value)
    decreases fetches
  {
    if fetches.Cons? {
      var f := fetches.head;
      var all := Matching(f.table, f.visible, cursor);
      MatchingDescends(f.table, f.visible, cursor);
      PageOf(f.table, f.visible, cursor, f.limit);
      if Length(all) > f.limit {
        CutList(all, f.limit, cursor);
        LookaheadsBelow(fetches.tail, PageAt(f, cursor).next);
      }
    }
  }

  // The two endpoints, with cursors as text.

  datatype Task = Task(creator: int, assignee: Option<int>, project: int, status: int)
  datatype Project = Project(owner: int, active: bool)

  /** list_tasks: tasks the caller created or is assigned to, narrowed by the optional filters. */
  function TaskVisible(caller: int, project: Option<int>, status: Option<int>): Task -> bool {
    (t: Task) =>
      && (t.creator == caller || t.assignee == Some(caller))
      && (project.None? || t.project == project.value)
      && (status.None? || t.status == status.value)
  }

  /** list_projects: the caller's projects that are not soft-deleted. */
  function ProjectVisible(caller: int): Project -> bool {
    (p: Project) => p.owner == caller && p.active
  }

  /** encode_cursor and decode_cursor; None stands for the ValueError on malformed text. */
  datatype Codec = Codec(encode: Key -> string, decode: string -> Option<Key>)

  ghost predicate RoundTrips(codec: Codec) {
    forall key :: codec.encode(key) != "" && codec.decode(codec.encode(key)) == Some(key)
  }

  datatype Reply<+T> = BadRequest | Reply(items: List<Row<T>>, nextCursor: Option<string>, count: nat)

  function Endpoint<T>(codec: Codec, table: List<Row<T>>, visible: T -> bool, limit: nat, cursor: Option<string>)
    : Reply<T>
  {
    var start := if cursor.Some? && cursor.value != "" then codec.decode(cursor.value) else None;
    if cursor.Some? && cursor.value != "" && start.None? then BadRequest
    else
      var page := FetchPage(table, visible, start, limit);
      Reply(page.items, if page.next.Some? then Some(codec.encode(page.next.value)) else None, Length(page.items))
  }

  function CursorText(codec: Codec, key: Option<Key>): Option<string> {
    if key.Some? then Some(codec.encode(key.value)) else None
  }

  /** A cursor handed out is never rejected later: the whole reply is the page behind the row it was made from. */
  lemma CursorResumes<T>(codec: Codec, handed: Option<Key>, table: List<Row<T>>, visible: T -> bool, limit: nat)
    requires RoundTrips(codec)
    ensures var page := FetchPage(table, visible, handed, limit);
            Endpoint(codec, table, visible, limit, CursorText(codec, handed))
              == Reply(page.items, CursorText(codec, page.next), Length(page.items))
  {
    if handed.Some? {
      assert codec.encode(handed.value) != "" && codec.decode(codec.encode(handed.value)) == handed;
    }
  }

  /** A request without a cursor, or with an empty one, starts at the top; 400 exactly for text that does not decode. */
  lemma CursorChecked<T>(
    codec: Codec, table: List<Row<T>>, visible: T -> bool, limit: nat, cursor: Option<string>)
    ensures var reply := Endpoint(codec, table, visible, limit, cursor);
            && (reply.BadRequest? <==> cursor.Some? && cursor.value != "" && codec.decode(cursor.value).None?)
            && (cursor.None? || cursor.value == "" ==>
                  reply.Reply? && reply.items == FetchPage(table, visible, None, limit).items)
  {
  }

  /** All rows of the replies a client gets that follows nextCursor, text for text, until there is none. */
  function Answers<T>(codec: Codec, fetches: List<Fetch<T>>, cursor: Option<string>): List<Row<T>> {
    if fetches.Nil? then Nil
    else
      var f := fetches.head;
      match Endpoint(codec, f.table, f.visible, f.limit, cursor)
      case BadRequest => Nil
      case Reply(items, next, _) =>
        if next.None? then items else Append(items, Answers(codec, fetches.tail, next))
  }

  /** So everything proved of the walk by keys holds of what the client receives. */
  lemma {:induction false} AnswersCollected<T>(codec: Codec, fetches: List<Fetch<T>>, handed: Option<Key>)
    requires RoundTrips(codec)
    ensures Answers(codec, fetches, CursorText(codec, handed)) == Collected(fetches, handed)
    decreases fetches
  {
    if fetches.Cons? {
      var f := fetches.head;
      CursorResumes(codec, handed, f.table, f.visible, f.limit);
      AnswersCollected(codec, fetches.tail, PageAt(f, handed).next);
    }
  }

  predicate Only<T>(l: List<Row<T>>, ok: T -> bool) {
    l.Cons? ==> ok(l.head.data) && Only(l.tail, ok)
  }

  /** No request of the walk may see anything else. */
  ghost predicate Narrowed<T(!new)>(fetches: List<Fetch<T>>, ok: T -> bool) {
    fetches.Cons? ==> (forall t :: fetches.head.visible(t) ==> ok(t)) && Narrowed(fetches.tail, ok)
  }

  lemma {:induction false} VisibleOnly<T(!new)>(
    l: List<Row<T>>, visible: T -> bool, table: set<Row<T>>, ok: T -> bool, rest: List<Row<T>>)
    requires AllVisible(l, visible, table) && (forall t :: visible(t) ==> ok(t)) && Only(rest, ok)
    ensures Only(l, ok) && Only(Append(l, rest), ok)
  {
    if l.Cons? {
      VisibleOnly(l.tail, visible, table, ok, rest);
    }
  }

  lemma {:induction false} CollectedOnly<T(!new)>(fetches: List<Fetch<T>>, cursor: Option<Key>, ok: T -> bool)
    requires Narrowed(fetches, ok)
    ensures Only(Collected(fetches, cursor), ok)
    decreases fetches
  {
    if fetches.Cons? {
      var f := fetches.head;
      var page := PageAt(f, cursor);
      PageOnlyVisible(f.table, f.visible, cursor, f.limit);
      var rest := if page.next.None? then Nil else Collected(fetches.tail, page.next);
      if page.next.Some? {
        CollectedOnly(fetches.tail, page.next, ok);
      }
      VisibleOnly(page.items, f.visible, Rows(f.table), ok, rest);
    }
  }

  /** One call of list_tasks: the table it finds, the filters and the page size it is given. */
  datatype TaskRequest = TaskRequest(table: List<Row<Task>>, project: Option<int>, status: Option<int>, limit: nat)

  function TaskFetches(caller: int, requests: List<TaskRequest>): List<Fetch<Task>> {
    if requests.Nil? then Nil
    else
      var r := requests.head;
      Cons(Fetch(r.table, TaskVisible(caller, r.project, r.status), r.limit), TaskFetches(caller, requests.tail))
  }

  /** Following the cursors of list_tasks, with any filters, shows only tasks the caller created or is assigned to. */
  lemma OnlyOwnTasks(codec: Codec, caller: int, requests: List<TaskRequest>)
    requires RoundTrips(codec)
    ensures Only(Answers(codec, TaskFetches(caller, requests), None),
                 (t: Task) => t.creator == caller || t.assignee == Some(caller))
  {
    var own := (t: Task) => t.creator == caller || t.assignee == Some(caller);
    TasksNarrowed(caller, requests, own);
    CollectedOnly(TaskFetches(caller, requests), None, own);
    AnswersCollected(codec, TaskFetches(caller, requests), None);
  }

  /** list_tasks misses nothing of what it filters for: exactly the caller's tasks of the given project and status. */
  lemma TasksListed(table: List<Row<Task>>, caller: int, project: Option<int>, status: Option<int>, row: Row<Task>)
    ensures row in Rows(Matching(table, TaskVisible(caller, project, status), None))
       <==> && row in Rows(table)
            && (row.data.creator == caller || row.data.assignee == Some(caller))
            && (project.Some? ==> row.data.project == project.value)
            && (status.Some? ==> row.data.status == status.value)
  {
    MatchingExact(table, TaskVisible(caller, project, status), None, row);
  }

  lemma {:induction false} TasksNarrowed(caller: int, requests: List<TaskRequest>, own: Task -> bool)
    requires forall t: Task :: t.creator == caller || t.assignee == Some(caller) ==> own(t)
    ensures Narrowed(TaskFetches(caller, requests), own)
  {
    if requests.Cons? {
      TasksNarrowed(caller, requests.tail, own);
    }
  }

  /** One call of list_projects. */
  datatype ProjectRequest = ProjectRequest(table: List<Row<Project>>, limit: nat)

  function ProjectFetches(caller: int, requests: List<ProjectRequest>): List<Fetch<Project>> {
    if requests.Nil? then Nil
    else
      var r := requests.head;
      Cons(Fetch(r.table, ProjectVisible(caller), r.limit), ProjectFetches(caller, requests.tail))
  }

  /** Following the cursors of list_projects shows only the caller's own projects, none of them soft-deleted. */
  lemma OnlyOwnProjects(codec: Codec, caller: int, requests: List<ProjectRequest>)
    requires RoundTrips(codec)
    ensures Only(Answers(codec, ProjectFetches(caller, requests), None), (p: Project) => p.owner == caller && p.active)
  {
    var own := (p: Project) => p.owner == caller && p.active;
    ProjectsNarrowed(caller, requests, own);
    CollectedOnly(ProjectFetches(caller, requests), None, own);
    AnswersCollected(codec, ProjectFetches(caller, requests), None);
  }

  /** list_projects misses nothing either: exactly the caller's active projects. */
  lemma ProjectsListed(table: List<Row<Project>>, caller: int, row: Row<Project>)
    ensures row in Rows(Matching(table, ProjectVisible(caller), None))
       <==> row in Rows(table) && row.data.owner == caller && row.data.active
  {
    MatchingExact(table, ProjectVisible(caller), None, row);
  }

  lemma {:induction false} ProjectsNarrowed(caller: int, requests: List<ProjectRequest>, own: Project -> bool)
    requires forall p: Project :: p.owner == caller && p.active ==> own(p)
    ensures Narrowed(ProjectFetches(caller, requests), own)
  {
    if requests.Cons? {
      ProjectsNarrowed(caller, requests.tail, own);
    }
  }
}
