/** The audit trail: three log tables, a bounded fetch from each, and one merged page. */
module AuditTrail {
  import opened Base

  datatype Source = Role | Payroll | System

  /** A row of any of the three logs. The role log has no entity type of its own. */
  datatype Row = Row(id: Id, action: string, entityType: string, entityId: Option<Id>, actorId: Option<Id>,
                     createdAt: int)

  datatype Entry = Entry(
    source: Source, id: Id, action: string, entityType: string, entityId: Option<Id>, actorId: Option<Id>,
    createdAt: int)

  datatype Tables = Tables(role: seq<Row>, payroll: seq<Row>, system: seq<Row>)

  datatype Filters = Filters(
    source: Option<Source>, entityType: Option<string>, actorId: Option<Id>, from: Option<int>, upTo: Option<int>,
    page: Option<int>, limit: Option<int>)
  {
    function Page(): int { if page.Some? then page.value else 1 }

    function Limit(): int { if limit.Some? then limit.value else 50 }

    /** An empty entity type counts as none. */
    function ByType(): bool { entityType.Some? && entityType.value != "" }

    /** The request validator admits only positive pages and limits. */
    predicate Valid() { Page() >= 1 && Limit() >= 1 }

    /** Where the page starts: `Limit` before where it ends. */
    function Start(): (start: int)
      requires Valid()
      ensures 0 <= start && start + Limit() == End()
    {
      Distribute(Page(), Limit());
      (Page() - 1) * Limit()
    }

    function End(): int { Page() * Limit() }
  }

  lemma Distribute(page: int, limit: int)
    requires page >= 1 && limit >= 1
    ensures 0 <= (page - 1) * limit && (page - 1) * limit + limit == page * limit
  {
  }

  const MAX_FETCH_PER_SOURCE: int := 1000

  // ---- Newest first ----

  function Insert(x: Entry, s: seq<Entry>): seq<Entry> {
    if s == [] || s[0].createdAt <= x.createdAt then [x] + s else [s[0]] + Insert(x, s[1..])
  }

  /** The stable sort: newest first, entries of the same instant in the order given. */
  function NewestFirst(s: seq<Entry>): seq<Entry> {
    if s == [] then [] else Insert(s[0], NewestFirst(s[1..]))
  }

  function Take(s: seq<Entry>, n: int): seq<Entry> {
    if n <= 0 then [] else if n <= |s| then s[..n] else s
  }

  /** JavaScript's slice(start, start + count): whatever of that window exists. */
  function Window(s: seq<Entry>, start: int, count: int): seq<Entry>
    requires 0 <= start && 0 <= count
  {
    if |s| <= start then [] else Take(s[start..], count)
  }

  // ---- The query ----

  predicate Matches(f: Filters, source: Source, r: Row) {
    && (f.from.Some? ==> f.from.value <= r.createdAt)
    && (f.upTo.Some? ==> r.createdAt <= f.upTo.value)
    && (f.actorId.Some? ==> r.actorId == f.actorId)
    && (source != Role && f.ByType() ==> r.entityType == f.entityType.value)
  }

  /** A source is queried if it is asked for; the role log never when a type is. */
  predicate Wanted(f: Filters, source: Source) {
    (f.source.None? || f.source.value == source) && (source == Role ==> !f.ByType())
  }

  function Normalize(source: Source, r: Row): Entry {
    var entityType := if source == Role then "AdminRole" else r.entityType;
    Entry(source, r.id, r.action, entityType, r.entityId, r.actorId, r.createdAt)
  }

  /** Every row of one log that the filters admit. */
  function Matching(f: Filters, source: Source, rows: seq<Row>): (m: seq<Entry>)
    ensures |m| <= |rows|
  {
    if rows == [] || !Wanted(f, source) then []
    else (if Matches(f, source, rows[0]) then [Normalize(source, rows[0])] else []) + Matching(f, source, rows[1..])
  }

  /** The whole trail: all admitted rows of all logs, newest first. */
  function Trail(t: Tables, f: Filters): seq<Entry> {
    NewestFirst(Matching(f, Role, t.role) + Matching(f, Payroll, t.payroll) + Matching(f, System, t.system))
  }

  /** One table's query: its newest n rows. */
  function Fetch(f: Filters, source: Source, rows: seq<Row>, n: int): seq<Entry> {
    Take(NewestFirst(Matching(f, source, rows)), n)
  }

  function FetchCount(f: Filters): int {
    if f.End() <= MAX_FETCH_PER_SOURCE then f.End() else MAX_FETCH_PER_SOURCE
  }

  function Merged(t: Tables, f: Filters): seq<Entry> {
    var n := FetchCount(f);
    NewestFirst(Fetch(f, Role, t.role, n) + Fetch(f, Payroll, t.payroll, n) + Fetch(f, System, t.system, n))
  }

  function FindAllPage(t: Tables, f: Filters): seq<Entry>
    requires f.Valid()
  {
    Window(Merged(t, f), f.Start(), f.Limit())
  }

  /** The true page: the same window of the whole trail. */
  function TruePage(t: Tables, f: Filters): seq<Entry>
    requires f.Valid()
  {
    Window(Trail(t, f), f.Start(), f.Limit())
  }

  method FindAll(t: Tables, f: Filters) returns (data: seq<Entry>, total: nat, totalPages: int)
    requires f.Valid()
    ensures data == FindAllPage(t, f)
    ensures forall e | e in data :: Admits(f, e) && Occurrences(Log(t, e.source), e) > 0
    ensures f.End() <= MAX_FETCH_PER_SOURCE ==> data == TruePage(t, f)
    ensures total == |Trail(t, f)|
    ensures (totalPages - 1) * f.Limit() < total <= totalPages * f.Limit()
  {
    var fetchCount := FetchCount(f);
    var normalized := Fetch(f, Role, t.role, fetchCount);
    normalized := normalized + Fetch(f, Payroll, t.payroll, fetchCount);
    normalized := normalized + Fetch(f, System, t.system, fetchCount);
    normalized := NewestFirst(normalized);
    total := |Matching(f, Role, t.role)| + |Matching(f, Payroll, t.payroll)| + |Matching(f, System, t.system)|;
    data := Window(normalized, f.Start(), f.Limit());
    totalPages := (total + f.Limit() - 1) / f.Limit();
    Ceiling(total, f.Limit());
    PageFacts(t, f);
    forall e | e in data ensures Admits(f, e) && Occurrences(Log(t, e.source), e) > 0 {
      PageShowsOnlyAdmitted(t, f, e);
    }
  }

  lemma PageFacts(t: Tables, f: Filters)
    requires f.Valid()
    ensures f.End() <= MAX_FETCH_PER_SOURCE ==> FindAllPage(t, f) == TruePage(t, f)
    ensures |Trail(t, f)| == |Matching(f, Role, t.role)| + |Matching(f, Payroll, t.payroll)|
                               + |Matching(f, System, t.system)|
  {
    SortKeepsEntries(Matching(f, Role, t.role) + Matching(f, Payroll, t.payroll) + Matching(f, System, t.system));
    if f.End() <= MAX_FETCH_PER_SOURCE {
      BoundedFetchIsExact(t, f);
    }
  }

  lemma Ceiling(total: int, limit: int)
    requires limit >= 1
    ensures var pages := (total + limit - 1) / limit; (pages - 1) * limit < total <= pages * limit
  {
    var pages := (total + limit - 1) / limit;
    assert total + limit - 1 == pages * limit + (total + limit - 1) % limit;
    assert (pages - 1) * limit == pages * limit - limit;
  }

  // ---- What the sort does ----

  predicate Descending(s: seq<Entry>) {
    forall i, j | 0 <= i < j < |s| :: s[j].createdAt <= s[i].createdAt
  }

  /** The entries of one instant, in order. */
  function At(s: seq<Entry>, t: int): seq<Entry> {
    if s == [] then [] else (if s[0].createdAt == t then [s[0]] else []) + At(s[1..], t)
  }

  lemma {:induction false} InsertAdds(x: Entry, s: seq<Entry>)
    ensures multiset(Insert(x, s)) == multiset{x} + multiset(s) && |Insert(x, s)| == |s| + 1
    decreases |s|
  {
    if s == [] || s[0].createdAt <= x.createdAt {
    } else {
      InsertAdds(x, s[1..]);
      assert s == [s[0]] + s[1..];
    }
  }

  predicate NoneAfter(s: seq<Entry>, t: int) {
    forall i | 0 <= i < |s| :: s[i].createdAt <= t
  }

  lemma {:induction false} InsertBounded(x: Entry, s: seq<Entry>, t: int)
    requires x.createdAt <= t && NoneAfter(s, t)
    ensures NoneAfter(Insert(x, s), t)
    decreases |s|
  {
    if s == [] || s[0].createdAt <= x.createdAt {
    } else {
      InsertBounded(x, s[1..], t);
    }
  }

  lemma {:induction false} InsertSorts(x: Entry, s: seq<Entry>)
    requires Descending(s)
    ensures Descending(Insert(x, s))
    decreases |s|
  {
    if s == [] || s[0].createdAt <= x.createdAt {
    } else {
      InsertSorts(x, s[1..]);
      InsertBounded(x, s[1..], s[0].createdAt);
    }
  }

  lemma AtCons(x: Entry, s: seq<Entry>, t: int)
    ensures At([x] + s, t) == (if x.createdAt == t then [x] else []) + At(s, t)
  {
  }

  lemma {:induction false} InsertIsStable(x: Entry, s: seq<Entry>, t: int)
    ensures At(Insert(x, s), t) == At([x] + s, t)
    decreases |s|
  {
    if s != [] && x.createdAt < s[0].createdAt {
      var rest := s[1..];
      InsertIsStable(x, rest, t);
      AtCons(s[0], Insert(x, rest), t);
      AtCons(x, rest, t);
      AtSwap(s[0], x, rest, t);
      assert s == [s[0]] + rest && Insert(x, s) == [s[0]] + Insert(x, rest);
    }
    hide At;
  }

  /** Entries of different instants change places without notice. */
  lemma AtSwap(x: Entry, y: Entry, s: seq<Entry>, t: int)
    requires x.createdAt != y.createdAt
    ensures (if x.createdAt == t then [x] else []) + At([y] + s, t) == At([y] + ([x] + s), t)
  {
    AtCons(y, s, t);
    AtCons(x, s, t);
    AtCons(y, [x] + s, t);
    hide At;
  }

  /** The sort is a stable sort: newest first, the same entries, equal instants in their original order. */
  lemma {:induction false} SortIsStable(s: seq<Entry>, t: int)
    ensures Descending(NewestFirst(s)) && multiset(NewestFirst(s)) == multiset(s) && |NewestFirst(s)| == |s|
    ensures At(NewestFirst(s), t) == At(s, t)
    decreases |s|
  {
    if s != [] {
      assert s == [s[0]] + s[1..];
      SortIsStable(s[1..], t);
      InsertAdds(s[0], NewestFirst(s[1..]));
      InsertSorts(s[0], NewestFirst(s[1..]));
      InsertIsStable(s[0], NewestFirst(s[1..]), t);
      AtCons(s[0], NewestFirst(s[1..]), t);
    }
  }

  lemma SortKeepsEntries(s: seq<Entry>)
    ensures Descending(NewestFirst(s)) && multiset(NewestFirst(s)) == multiset(s) && |NewestFirst(s)| == |s|
  {
    SortIsStable(s, 0);
  }

  lemma {:induction false} SortedStays(s: seq<Entry>)
    requires Descending(s)
    ensures NewestFirst(s) == s
    decreases |s|
  {
    if s != [] {
      SortedStays(s[1..]);
      assert s == [s[0]] + s[1..];
    }
  }

  // ---- Sorting a concatenation is merging ----

  function Merge(a: seq<Entry>, b: seq<Entry>): seq<Entry>
    decreases |a| + |b|
  {
    if a == [] then b
    else if b == [] then a
    else if b[0].createdAt <= a[0].createdAt then [a[0]] + Merge(a[1..], b)
    else [b[0]] + Merge(a, b[1..])
  }

  lemma {:induction false} InsertMerge(x: Entry, a: seq<Entry>, b: seq<Entry>)
    ensures Insert(x, Merge(a, b)) == Merge(Insert(x, a), b)
    decreases |a| + |b|
  {
    if a == [] {
      if b != [] && x.createdAt < b[0].createdAt {
        InsertMerge(x, a, b[1..]);
      }
    } else if b != [] {
      assert ([x] + a)[1..] == a;
      if b[0].createdAt <= a[0].createdAt {
        if x.createdAt < a[0].createdAt {
          InsertMerge(x, a[1..], b);
          assert ([a[0]] + Merge(a[1..], b))[1..] == Merge(a[1..], b);
          assert ([a[0]] + Insert(x, a[1..]))[1..] == Insert(x, a[1..]);
        }
      } else if x.createdAt < b[0].createdAt {
        InsertMerge(x, a, b[1..]);
        assert ([b[0]] + Merge(a, b[1..]))[1..] == Merge(a, b[1..]);
      }
    }
  }

  lemma {:induction false} SortConcat(a: seq<Entry>, b: seq<Entry>)
    ensures NewestFirst(a + b) == Merge(NewestFirst(a), NewestFirst(b))
    decreases |a|
  {
    if a == [] {
      assert a + b == b;
    } else {
      SortConcat(a[1..], b);
      assert (a + b)[1..] == a[1..] + b;
      InsertMerge(a[0], NewestFirst(a[1..]), NewestFirst(b));
    }
  }

  /** The newest n of a merge need only the newest n, or more, of each side. */
  lemma {:induction false} TakeMerge(a: seq<Entry>, b: seq<Entry>, i: int, j: int, n: int)
    requires n <= i && n <= j
    ensures Take(Merge(a, b), n) == Take(Merge(Take(a, i), Take(b, j)), n)
    decreases |a| + |b|
  {
    if n <= 0 {
    } else if a == [] || b == [] {
      TakeTake(a, i, n);
      TakeTake(b, j, n);
    } else {
      TakeTail(a, i);
      TakeTail(b, j);
      if b[0].createdAt <= a[0].createdAt {
        TakeMerge(a[1..], b, i - 1, j, n - 1);
        TakeHead(a[0], Merge(a[1..], b), n);
        TakeHead(a[0], Merge(Take(a[1..], i - 1), Take(b, j)), n);
      } else {
        TakeMerge(a, b[1..], i, j - 1, n - 1);
        TakeHead(b[0], Merge(a, b[1..]), n);
        TakeHead(b[0], Merge(Take(a, i), Take(b[1..], j - 1)), n);
      }
    }
  }

  lemma TakeTail(s: seq<Entry>, n: int)
    requires n > 0 && s != []
    ensures Take(s, n) != [] && Take(s, n)[0] == s[0] && Take(s, n)[1..] == Take(s[1..], n - 1)
  {
  }

  lemma TakeHead(x: Entry, s: seq<Entry>, n: int)
    requires n > 0
    ensures Take([x] + s, n) == [x] + Take(s, n - 1)
  {
  }

  lemma TakeTake(s: seq<Entry>, i: int, n: int)
    requires n <= i
    ensures Take(Take(s, i), n) == Take(s, n)
  {
  }

  lemma SortThree(a: seq<Entry>, b: seq<Entry>, c: seq<Entry>)
    ensures NewestFirst(a + b + c) == Merge(Merge(NewestFirst(a), NewestFirst(b)), NewestFirst(c))
  {
    SortConcat(a + b, c);
    SortConcat(a, b);
  }

  /** A fetched table is already in order. */
  lemma FetchedStays(s: seq<Entry>, n: int)
    ensures NewestFirst(Take(NewestFirst(s), n)) == Take(NewestFirst(s), n)
  {
    SortKeepsEntries(s);
    SortedStays(Take(NewestFirst(s), n));
  }

  /** The three bounded fetches, merged, agree with the whole trail on its newest n entries. */
  lemma BoundedMerge(a: seq<Entry>, b: seq<Entry>, c: seq<Entry>, n: int)
    ensures Take(NewestFirst(Take(NewestFirst(a), n) + Take(NewestFirst(b), n) + Take(NewestFirst(c), n)), n)
         == Take(NewestFirst(a + b + c), n)
  {
    SortThree(a, b, c);
    SortThree(Take(NewestFirst(a), n), Take(NewestFirst(b), n), Take(NewestFirst(c), n));
    FetchedStays(a, n);
    FetchedStays(b, n);
    FetchedStays(c, n);
    MergeThree(NewestFirst(a), NewestFirst(b), NewestFirst(c), n);
  }

  lemma MergeThree(a: seq<Entry>, b: seq<Entry>, c: seq<Entry>, n: int)
    ensures Take(Merge(Merge(Take(a, n), Take(b, n)), Take(c, n)), n) == Take(Merge(Merge(a, b), c), n)
  {
    var whole, bounded := Merge(a, b), Merge(Take(a, n), Take(b, n));
    TakeMerge(a, b, n, n, n);
    TakeMerge(whole, c, n, n, n);
    TakeMerge(bounded, Take(c, n), n, n, n);
    TakeTake(c, n, n);
  }

  // ---- The bounded page is the true page ----

  lemma WindowOfTake(s: seq<Entry>, start: int, count: int, n: int)
    requires 0 <= start && 0 <= count && start + count <= n
    ensures Window(Take(s, n), start, count) == Window(s, start, count)
  {
  }

  lemma BoundedFetchIsExact(t: Tables, f: Filters)
    requires f.Valid() && f.End() <= MAX_FETCH_PER_SOURCE
    ensures FindAllPage(t, f) == TruePage(t, f)
  {
    var n := f.End();
    var start := f.Start();
    BoundedMerge(Matching(f, Role, t.role), Matching(f, Payroll, t.payroll), Matching(f, System, t.system), n);
    WindowOfTake(Merged(t, f), start, f.Limit(), n);
    WindowOfTake(Trail(t, f), start, f.Limit(), n);
  }

  /** The filters contradict neither themselves nor the choice of log. */
  predicate Satisfiable(f: Filters) {
    && (f.from.Some? && f.upTo.Some? ==> f.from.value <= f.upTo.value)
    && !(f.source == Some(Role) && f.ByType())
  }

  /** A log that is asked for. */
  function Asked(f: Filters): Source { if f.source.Some? then f.source.value else Payroll }

  /** A row made to measure. */
  function Fitting(f: Filters): Row {
    Row(0, "UPDATE", if f.ByType() then f.entityType.value else "", None, f.actorId,
        if f.from.Some? then f.from.value else if f.upTo.Some? then f.upTo.value else 0)
  }

  function Busy(f: Filters, n: nat): (rows: seq<Row>)
    ensures |rows| == n
  {
    if n == 0 then [] else [Fitting(f)] + Busy(f, n - 1)
  }

  function OneLog(source: Source, rows: seq<Row>): Tables {
    match source
    case Role => Tables(rows, [], [])
    case Payroll => Tables([], rows, [])
    case System => Tables([], [], rows)
  }

  lemma {:induction false} BusyMatchesAll(f: Filters, n: nat)
    requires Satisfiable(f)
    ensures |Matching(f, Asked(f), Busy(f, n))| == n
  {
    if n > 0 {
      BusyMatchesAll(f, n - 1);
      assert Busy(f, n)[1..] == Busy(f, n - 1);
    }
  }

  /** Past the cap, a log with exactly enough matching rows for the page comes back short of it. */
  lemma BusyLogLosesRows(f: Filters)
    requires f.Valid() && Satisfiable(f) && f.End() > MAX_FETCH_PER_SOURCE
    ensures var t := OneLog(Asked(f), Busy(f, f.End()));
            |TruePage(t, f)| == f.Limit() && |FindAllPage(t, f)| < f.Limit()
  {
    BusyMatchesAll(f, f.End());
    OnlyOneLog(f, Asked(f), Busy(f, f.End()));
  }

  lemma OnlyOneLog(f: Filters, source: Source, rows: seq<Row>)
    requires |Matching(f, source, rows)| >= FetchCount(f) >= 0
    ensures |Trail(OneLog(source, rows), f)| == |Matching(f, source, rows)|
    ensures |Merged(OneLog(source, rows), f)| == FetchCount(f)
  {
    var all, fetched := Matching(f, source, rows), Fetch(f, source, rows, FetchCount(f));
    EmptySides(all);
    EmptySides(fetched);
    SortKeepsEntries(all);
    SortKeepsEntries(fetched);
    assert NewestFirst([]) == [] && Take([], FetchCount(f)) == [];
    assert |fetched| == FetchCount(f);
    hide NewestFirst, Take, Matches, Wanted;
    match source {
      case Role =>
      case Payroll =>
      case System =>
    }
  }

  lemma EmptySides(s: seq<Entry>)
    ensures s + [] + [] == [] + s + [] == [] + [] + s == s
  {
  }

  lemma {:induction false} NothingMatches(f: Filters, source: Source, rows: seq<Row>)
    requires !Satisfiable(f)
    ensures Matching(f, source, rows) == []
    decreases |rows|
  {
    if rows != [] {
      NothingMatches(f, source, rows[1..]);
    }
  }

  /**
   * The bounded fetch is right for every content of the tables exactly when page * limit stays
   * within the per-source cap, or the filters admit no row at all; otherwise a busy enough log
   * loses the end of the page.
   */
  lemma RightForAllTablesIff(f: Filters)
    requires f.Valid()
    ensures (forall t: Tables :: FindAllPage(t, f) == TruePage(t, f))
       <==> f.Page() * f.Limit() <= 1000 || !Satisfiable(f)
  {
    if f.End() <= MAX_FETCH_PER_SOURCE {
      forall t: Tables ensures FindAllPage(t, f) == TruePage(t, f) {
        BoundedFetchIsExact(t, f);
      }
    } else if Satisfiable(f) {
      BusyLogLosesRows(f);
      var t := OneLog(Asked(f), Busy(f, f.End()));
      assert FindAllPage(t, f) != TruePage(t, f);
    } else {
      forall t: Tables ensures FindAllPage(t, f) == TruePage(t, f) {
        NothingMatches(f, Role, t.role);
        NothingMatches(f, Payroll, t.payroll);
        NothingMatches(f, System, t.system);
      }
    }
  }

  // ---- Which rows the trail lists, field by field ----

  /** The entry is of the log, actor, type and time asked for, as far as each is given; role changes have no type. */
  predicate Admits(f: Filters, e: Entry) {
    && (f.source.Some? ==> e.source == f.source.value)
    && (f.actorId.Some? ==> e.actorId.Some? && e.actorId.value == f.actorId.value)
    && (f.entityType.Some? && f.entityType.value != "" ==> e.source != Role && e.entityType == f.entityType.value)
    && (f.from.Some? ==> f.from.value <= e.createdAt)
    && (f.upTo.Some? ==> e.createdAt <= f.upTo.value)
  }

  /** The entry tells the row: every column, and "AdminRole" for the type role changes lack. */
  predicate Tells(e: Entry, r: Row) {
    && e.id == r.id && e.action == r.action && e.entityId == r.entityId && e.actorId == r.actorId
    && e.createdAt == r.createdAt && e.entityType == (if e.source == Role then "AdminRole" else r.entityType)
  }

  function Log(t: Tables, source: Source): seq<Row> {
    match source case Role => t.role case Payroll => t.payroll case System => t.system
  }

  /** How many rows of a log the entry tells. */
  function Occurrences(rows: seq<Row>, e: Entry): nat {
    if rows == [] then 0 else (if Tells(e, rows[0]) then 1 else 0) + Occurrences(rows[1..], e)
  }

  lemma RowIsListedIff(f: Filters, source: Source, r: Row, e: Entry)
    ensures Wanted(f, source) && Matches(f, source, r) && Normalize(source, r) == e
       <==> e.source == source && Admits(f, e) && Tells(e, r)
  {
  }

  lemma AddCounts(a: seq<Entry>, b: seq<Entry>, e: Entry)
    ensures multiset(a + b)[e] == multiset(a)[e] + multiset(b)[e]
  {
  }

  lemma {:induction false} MatchingCounts(f: Filters, source: Source, rows: seq<Row>, e: Entry)
    ensures multiset(Matching(f, source, rows))[e]
         == if e.source == source && Admits(f, e) then Occurrences(rows, e) else 0
    decreases |rows|
  {
    if rows != [] {
      MatchingCounts(f, source, rows[1..], e);
      RowIsListedIff(f, source, rows[0], e);
      if Wanted(f, source) {
        var first := if Matches(f, source, rows[0]) then [Normalize(source, rows[0])] else [];
        AddCounts(first, Matching(f, source, rows[1..]), e);
      } else {
        NotWantedCounts(f, source, e);
      }
      hide Matches, Admits, Tells, Wanted, Normalize;
    }
  }

  lemma NotWantedCounts(f: Filters, source: Source, e: Entry)
    requires !Wanted(f, source)
    ensures !(e.source == source && Admits(f, e))
  {
  }

  /** The trail lists an admitted entry as often as its log has a row it tells, and no other entry. */
  lemma TrailListsWhatIsAdmitted(t: Tables, f: Filters, e: Entry)
    ensures multiset(Trail(t, f))[e] == if Admits(f, e) then Occurrences(Log(t, e.source), e) else 0
  {
    var role, payroll := Matching(f, Role, t.role), Matching(f, Payroll, t.payroll);
    var system := Matching(f, System, t.system);
    SortKeepsEntries(role + payroll + system);
    MatchingCounts(f, Role, t.role, e);
    MatchingCounts(f, Payroll, t.payroll, e);
    MatchingCounts(f, System, t.system, e);
    hide NewestFirst, Matching, Admits, Occurrences;
  }

  lemma SortedIn(s: seq<Entry>, e: Entry)
    ensures e in NewestFirst(s) <==> e in s
  {
    SortKeepsEntries(s);
    assert e in NewestFirst(s) <==> e in multiset(NewestFirst(s));
  }

  lemma FetchedIsMatching(f: Filters, source: Source, rows: seq<Row>, n: int, e: Entry)
    requires e in Fetch(f, source, rows, n)
    ensures e in Matching(f, source, rows)
  {
    SortedIn(Matching(f, source, rows), e);
    hide NewestFirst, Matching;
  }

  lemma FetchedIsAdmitted(t: Tables, f: Filters, source: Source, n: int, e: Entry)
    requires e in Fetch(f, source, Log(t, source), n)
    ensures Admits(f, e) && Occurrences(Log(t, e.source), e) > 0
  {
    FetchedIsMatching(f, source, Log(t, source), n, e);
    MatchingCounts(f, source, Log(t, source), e);
    hide Fetch, Matching, Admits, Occurrences;
    assert e in multiset(Matching(f, source, Log(t, source)));
  }

  /** Whatever the page, past the cap too: each entry shown is admitted and tells a row of its log. */
  lemma PageShowsOnlyAdmitted(t: Tables, f: Filters, e: Entry)
    requires f.Valid() && e in FindAllPage(t, f)
    ensures Admits(f, e) && Occurrences(Log(t, e.source), e) > 0
  {
    var n := FetchCount(f);
    var role, payroll, system :=
      Fetch(f, Role, t.role, n), Fetch(f, Payroll, t.payroll, n), Fetch(f, System, t.system, n);
    assert e in Merged(t, f) by { hide Merged; }
    hide NewestFirst, Fetch, Admits, Occurrences;
    SortedIn(role + payroll + system, e);
    if e in role {
      FetchedIsAdmitted(t, f, Role, n, e);
    } else if e in payroll {
      FetchedIsAdmitted(t, f, Payroll, n, e);
    } else {
      FetchedIsAdmitted(t, f, System, n, e);
    }
  }

  /** A request without page and limit gets the fifty newest entries it admits. */
  lemma DefaultPage(t: Tables, f: Filters)
    requires f.page.None? && f.limit.None?
    ensures FindAllPage(t, f) == Take(Trail(t, f), 50)
  {
    BoundedFetchIsExact(t, f);
    hide Trail;
  }

  // ---- Paging through ----

  /** Pages 1 to k, one after the other. */
  function Pages(t: Tables, f: Filters, k: nat): seq<Entry>
    requires f.Limit() >= 1
  {
    if k == 0 then [] else Pages(t, f, k - 1) + FindAllPage(t, f.(page := Some(k)))
  }

  /** Within the cap, reading page after page lists the trail from its newest entry, each entry once. */
  lemma {:induction false} PagesListTheTrail(t: Tables, f: Filters, k: nat)
    requires f.Limit() >= 1 && k * f.Limit() <= MAX_FETCH_PER_SOURCE
    ensures Pages(t, f, k) == Take(Trail(t, f), k * f.Limit())
    decreases k
  {
    if k > 0 {
      Distribute(k, f.Limit());
      PagesListTheTrail(t, f, k - 1);
      NextPage(t, f, k);
    }
  }

  lemma NextPage(t: Tables, f: Filters, k: nat)
    requires f.Limit() >= 1 && k >= 1 && k * f.Limit() <= MAX_FETCH_PER_SOURCE
    ensures Take(Trail(t, f), (k - 1) * f.Limit()) + FindAllPage(t, f.(page := Some(k)))
              == Take(Trail(t, f), k * f.Limit())
  {
    var g := f.(page := Some(k));
    BoundedFetchIsExact(t, g);
    SameTrail(t, f, g);
    TakeThenWindow(Trail(t, f), g.Start(), g.Limit());
  }

  lemma TakeThenWindow(s: seq<Entry>, start: int, count: int)
    requires 0 <= start && 0 <= count
    ensures Take(s, start) + Window(s, start, count) == Take(s, start + count)
  {
  }

  lemma {:induction false} SameMatches(f: Filters, g: Filters, source: Source, rows: seq<Row>)
    requires g == f.(page := g.page)
    ensures Matching(f, source, rows) == Matching(g, source, rows)
    decreases |rows|
  {
    if rows != [] {
      SameMatches(f, g, source, rows[1..]);
    }
  }

  lemma SameTrail(t: Tables, f: Filters, g: Filters)
    requires g == f.(page := g.page)
    ensures Trail(t, f) == Trail(t, g)
  {
    SameMatches(f, g, Role, t.role);
    SameMatches(f, g, Payroll, t.payroll);
    SameMatches(f, g, System, t.system);
  }
}
