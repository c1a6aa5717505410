/** Daily revenue: records bucketed by WAT day, gaps filled, and totals. Money is in kobo. */
module BranchFinance {
  import opened Base
  import opened WatTime

  // ---- Records ----

  datatype MovementType = Received | TransferIn | TransferOut

  datatype Record =
    | SalonBooking(completedAt: int, amount: int)
    | SelfServiceBooking(serviceCompletedAt: Option<int>, updatedAt: int, amount: int, byWallet: bool)
    | ProductSale(createdAt: int, amount: int)
    | StockMovement(kind: MovementType, delta: int, createdAt: int)
  {
    /** The instant that decides the day; old bookings without a completion time use their last update. */
    function When(): int {
      match this
      case SalonBooking(completedAt, _) => completedAt
      case SelfServiceBooking(done, updatedAt, _, _) => if done.Some? then done.value else updatedAt
      case ProductSale(createdAt, _) => createdAt
      case StockMovement(_, _, createdAt) => createdAt
    }

    function Day(): Day { ToWatDay(When()) }
  }

  datatype Reconciliation = Reconciliation(date: Day, cashCounted: int, variance: int)

  /** The rows of the branches asked for: completed bookings, sales, stock movements, cash counts. */
  datatype Books = Books(
    salon: seq<Record>, selfService: seq<Record>, sales: seq<Record>, movements: seq<Record>,
    counts: seq<Reconciliation>)
  {
    function All(): seq<Record> { salon + selfService + sales + movements }
  }

  datatype Figures = Figures(
    salonRevenue: int, salonCount: int, selfServiceRevenue: int, selfServiceCount: int, walletRevenue: int,
    saleRevenue: int, saleCount: int, received: int, transferredIn: int, transferredOut: int)
  {
    function TotalRevenue(): int { salonRevenue + selfServiceRevenue + saleRevenue }

    /** What should be in the till: everything but wallet payments. */
    function ExpectedCash(): int { TotalRevenue() - walletRevenue }
  }

  function Plus(f: Figures, g: Figures): Figures {
    Figures(f.salonRevenue + g.salonRevenue, f.salonCount + g.salonCount,
            f.selfServiceRevenue + g.selfServiceRevenue, f.selfServiceCount + g.selfServiceCount,
            f.walletRevenue + g.walletRevenue, f.saleRevenue + g.saleRevenue, f.saleCount + g.saleCount,
            f.received + g.received, f.transferredIn + g.transferredIn, f.transferredOut + g.transferredOut)
  }

  lemma PlusLaws(f: Figures, g: Figures, h: Figures)
    ensures Plus(Plus(f, g), h) == Plus(f, Plus(g, h))
    ensures Plus(f, g) == Plus(g, f)
    ensures Plus(f, NOTHING) == f == Plus(NOTHING, f)
  {
  }

  const NOTHING := Figures(0, 0, 0, 0, 0, 0, 0, 0, 0, 0)

  function Abs(x: int): int { if x < 0 then -x else x }

  /** What one record contributes. */
  function FiguresOf(r: Record): Figures {
    match r
    case SalonBooking(_, amount) => NOTHING.(salonRevenue := amount, salonCount := 1)
    case SelfServiceBooking(_, _, amount, byWallet) =>
      NOTHING.(selfServiceRevenue := amount, selfServiceCount := 1, walletRevenue := if byWallet then amount else 0)
    case ProductSale(_, amount) => NOTHING.(saleRevenue := amount, saleCount := 1)
    case StockMovement(Received, delta, _) => NOTHING.(received := delta)
    case StockMovement(TransferIn, delta, _) => NOTHING.(transferredIn := delta)
    case StockMovement(TransferOut, delta, _) => NOTHING.(transferredOut := Abs(delta))
  }

  function FiguresOn(r: Record, d: Day): Figures { if r.Day() == d then FiguresOf(r) else NOTHING }

  /** The sum over all records. */
  function Sum(rs: seq<Record>): Figures {
    if rs == [] then NOTHING else Plus(Sum(rs[..|rs| - 1]), FiguresOf(rs[|rs| - 1]))
  }

  /** The sum over the records of one day. */
  function DaySum(rs: seq<Record>, d: Day): Figures {
    if rs == [] then NOTHING
    else
      var r := rs[|rs| - 1];
      Plus(DaySum(rs[..|rs| - 1], d), FiguresOn(r, d))
  }

  predicate HasDay(rs: seq<Record>, d: Day) { exists i :: 0 <= i < |rs| && rs[i].Day() == d }

  // ---- What is fetched ----

  datatype Bounds = AllTime | Between(from: Day, till: Day)
  {
    predicate Has(d: Day) { AllTime? || from <= d <= till }

    /** The instant filter the queries use. */
    predicate InWindow(t: int) { AllTime? || WatDateAtTime(from, 0) <= t < WatDateAtTime(till, 0) + DAY_MS }
  }

  /** An instant passes the query exactly when its WAT day is in the range. */
  lemma WindowIsDays(b: Bounds, t: int)
    ensures b.InWindow(t) <==> b.Has(ToWatDay(t))
  {
    WatDayBounds(t, ToWatDay(t));
  }

  function Fetch(rs: seq<Record>, b: Bounds): seq<Record> {
    if rs == [] then []
    else Fetch(rs[..|rs| - 1], b) + if b.InWindow(rs[|rs| - 1].When()) then [rs[|rs| - 1]] else []
  }

  function FetchCounts(cs: seq<Reconciliation>, b: Bounds): seq<Reconciliation> {
    if cs == [] then []
    else FetchCounts(cs[..|cs| - 1], b) + if b.Has(cs[|cs| - 1].date) then [cs[|cs| - 1]] else []
  }

  lemma {:induction false} FetchedDays(rs: seq<Record>, b: Bounds, d: Day)
    ensures DaySum(Fetch(rs, b), d) == if b.Has(d) then DaySum(rs, d) else NOTHING
    ensures HasDay(Fetch(rs, b), d) <==> b.Has(d) && HasDay(rs, d)
    decreases |rs|
  {
    hide Plus, FiguresOf, ToWatDay;
    if rs != [] {
      var n := |rs| - 1;
      FetchedDays(rs[..n], b, d);
      PlusLaws(DaySum(rs[..n], d), NOTHING, NOTHING);
      PlusLaws(NOTHING, NOTHING, NOTHING);
      WindowIsDays(b, rs[n].When());
      HasDayAppend(rs[..n], rs[n], d);
      assert rs == rs[..n] + [rs[n]];
      if b.InWindow(rs[n].When()) {
        HasDayAppend(Fetch(rs[..n], b), rs[n], d);
        DaySumAppend(Fetch(rs[..n], b), rs[n], d);
      } else {
        assert Fetch(rs, b) == Fetch(rs[..n], b);
      }
    }
  }

  lemma HasDayAppend(rs: seq<Record>, r: Record, d: Day)
    ensures HasDay(rs + [r], d) <==> HasDay(rs, d) || r.Day() == d
  {
    hide ToWatDay;
    assert (rs + [r])[|rs|] == r;
    if HasDay(rs, d) {
      var i :| 0 <= i < |rs| && rs[i].Day() == d;
      assert (rs + [r])[i].Day() == d;
    }
  }

  lemma DaySumAppend(rs: seq<Record>, r: Record, d: Day)
    ensures DaySum(rs + [r], d) == Plus(DaySum(rs, d), FiguresOn(r, d))
  {
    hide Plus, FiguresOf, ToWatDay;
    assert (rs + [r])[..|rs|] == rs;
  }

  // ---- The day table ----

  datatype DaySummary = DaySummary(
    date: Day, figures: Figures, totalRevenue: int, expectedCash: int, reconciliation: Option<Reconciliation>)

  type Table = map<Day, DaySummary>

  function EmptyDay(d: Day): DaySummary { DaySummary(d, NOTHING, 0, 0, None) }

  function DayOrEmpty(m: Table, d: Day): DaySummary { if d in m then m[d] else EmptyDay(d) }

  /** Records added to their days: each day gains its own sum, and days with records appear. */
  ghost predicate Added(m: Table, rs: seq<Record>, m2: Table) {
    forall d: Day :: AddedAt(m, rs, m2, d)
  }

  ghost predicate AddedAt(m: Table, rs: seq<Record>, m2: Table, d: Day) {
    && (d in m2 <==> d in m || HasDay(rs, d))
    && DayOrEmpty(m2, d) == DayOrEmpty(m, d).(figures := Plus(DayOrEmpty(m, d).figures, DaySum(rs, d)))
  }

  method AddRecords(m: Table, rs: seq<Record>) returns (byDate: Table)
    ensures Added(m, rs, byDate)
  {
    hide Plus, FiguresOf, ToWatDay, Added;
    byDate := m;
    AddedNothing(m);
    for i := 0 to |rs|
      invariant Added(m, rs[..i], byDate)
    {
      var day := DayOrEmpty(byDate, rs[i].Day());
      var figures := AddFigures(day.figures, rs[i]);
      ghost var before := byDate;
      byDate := byDate[rs[i].Day() := day.(figures := figures)];
      AddedOneMore(m, rs, i, before, byDate);
    }
    assert rs[..|rs|] == rs;
  }

  /** Each kind of record adds to its own columns. */
  method AddFigures(start: Figures, r: Record) returns (f: Figures)
    ensures f == Plus(start, FiguresOf(r))
  {
    f := start;
    match r {
      case SalonBooking(_, amount) =>
        f := f.(salonRevenue := f.salonRevenue + amount, salonCount := f.salonCount + 1);
      case SelfServiceBooking(_, _, amount, byWallet) =>
        f := f.(selfServiceRevenue := f.selfServiceRevenue + amount, selfServiceCount := f.selfServiceCount + 1);
        if byWallet {
          f := f.(walletRevenue := f.walletRevenue + amount);
        }
      case ProductSale(_, amount) =>
        f := f.(saleRevenue := f.saleRevenue + amount, saleCount := f.saleCount + 1);
      case StockMovement(kind, delta, _) =>
        if kind == Received {
          f := f.(received := f.received + delta);
        } else if kind == TransferIn {
          f := f.(transferredIn := f.transferredIn + delta);
        } else {
          f := f.(transferredOut := f.transferredOut + Abs(delta));
        }
    }
  }

  lemma AddedNothing(m: Table)
    ensures Added(m, [], m)
  {
    hide Plus;
    forall d: Day ensures AddedAt(m, [], m, d) {
      assert DaySum([], d) == NOTHING;
      PlusLaws(DayOrEmpty(m, d).figures, NOTHING, NOTHING);
    }
  }

  lemma AddedOneMore(m: Table, rs: seq<Record>, i: nat, before: Table, after: Table)
    requires i < |rs| && Added(m, rs[..i], before)
    requires var day := DayOrEmpty(before, rs[i].Day());
             after == before[rs[i].Day() := day.(figures := Plus(day.figures, FiguresOf(rs[i])))]
    ensures Added(m, rs[..i + 1], after)
  {
    hide Plus, FiguresOf, ToWatDay, DaySum, HasDay;
    var seen := rs[..i + 1];
    forall d: Day ensures AddedAt(m, seen, after, d) {
      assert AddedAt(m, rs[..i], before, d);
      assert seen == rs[..i] + [rs[i]];
      HasDayAppend(rs[..i], rs[i], d);
      DaySumAppend(rs[..i], rs[i], d);
      PlusLaws(DayOrEmpty(m, d).figures, DaySum(rs[..i], d), FiguresOn(rs[i], d));
      PlusLaws(DayOrEmpty(before, d).figures, NOTHING, NOTHING);
    }
  }

  /** The last count entered for a day is the one shown. */
  function CountFor(cs: seq<Reconciliation>, d: Day): Option<Reconciliation> {
    if cs == [] then None
    else if cs[|cs| - 1].date == d then Some(cs[|cs| - 1])
    else CountFor(cs[..|cs| - 1], d)
  }

  ghost predicate CountedAt(m: Table, cs: seq<Reconciliation>, m2: Table, d: Day) {
    && (d in m2 <==> d in m || CountFor(cs, d).Some?)
    && DayOrEmpty(m2, d) == (if CountFor(cs, d).Some? then DayOrEmpty(m, d).(reconciliation := CountFor(cs, d))
                             else DayOrEmpty(m, d))
  }

  method AddCounts(m: Table, cs: seq<Reconciliation>) returns (byDate: Table)
    ensures forall d :: CountedAt(m, cs, byDate, d)
  {
    byDate := m;
    for i := 0 to |cs|
      invariant forall d :: CountedAt(m, cs[..i], byDate, d)
    {
      ghost var before := byDate;
      byDate := byDate[cs[i].date := DayOrEmpty(byDate, cs[i].date).(reconciliation := Some(cs[i]))];
      ghost var seen := cs[..i + 1];
      forall d ensures CountedAt(m, seen, byDate, d) {
        assert seen[..i] == cs[..i];
        assert CountedAt(m, cs[..i], before, d);
      }
    }
    assert cs[..|cs|] == cs;
  }

  /** Days without activity appear too, all of them and none outside. */
  method FillGaps(m: Table, b: Bounds) returns (byDate: Table)
    requires b.Between? && b.from <= b.till
    ensures forall d :: FilledAt(m, b, byDate, d)
  {
    byDate := m;
    var d := b.from;
    ghost var done := Between(b.from, b.from - 1);
    while d <= b.till
      invariant b.from <= d <= b.till + 1 && done == Between(b.from, d - 1)
      invariant forall e :: FilledAt(m, done, byDate, e)
    {
      ghost var before, doneBefore := byDate, done;
      byDate := byDate[d := DayOrEmpty(byDate, d)];
      d := d + 1;
      done := Between(b.from, d - 1);
      forall e ensures FilledAt(m, done, byDate, e) {
        assert FilledAt(m, doneBefore, before, e);
      }
    }
  }

  ghost predicate FilledAt(m: Table, b: Bounds, m2: Table, d: Day) {
    (d in m2 <==> d in m || b.Has(d)) && DayOrEmpty(m2, d) == DayOrEmpty(m, d)
  }

  /** The elements of a set in increasing order. */
  function Sorted(s: set<int>): (r: seq<int>)
    ensures |r| == |s|
    ensures forall x :: x in r <==> x in s
    ensures forall i, j | 0 <= i < j < |r| :: r[i] < r[j]
    decreases |s|
  {
    if s == {} then []
    else
      var m := Least(s);
      [m] + Sorted(s - {m})
  }

  datatype Report = Report(days: seq<DaySummary>, totals: Figures, totalRevenue: int, expectedCash: int)

  /** One given date stands for both ends; none at all means all time. */
  function BoundsOf(from: Option<Day>, till: Option<Day>): Bounds {
    if from.None? && till.None? then AllTime
    else Between(if from.Some? then from.value else till.value, if till.Some? then till.value else from.value)
  }

  /** A day's row, from the raw records of that day alone. */
  function TrueDay(books: Books, d: Day): DaySummary {
    var f := DaySum(books.All(), d);
    DaySummary(d, f, f.TotalRevenue(), f.ExpectedCash(), CountFor(books.counts, d))
  }

  function SumDays(days: seq<DaySummary>): Figures {
    if days == [] then NOTHING else Plus(SumDays(days[..|days| - 1]), days[|days| - 1].figures)
  }

  /** Something happened on the day: a record or a cash count. */
  predicate ActiveDay(books: Books, d: Day) { HasDay(books.All(), d) || CountFor(books.counts, d).Some? }

  ghost predicate DatesIncrease(days: seq<DaySummary>) {
    forall i, j | 0 <= i < j < |days| :: days[i].date < days[j].date
  }

  ghost predicate OnList(days: seq<DaySummary>, d: Day) {
    exists i :: 0 <= i < |days| && days[i].date == d
  }

  function Totalled(day: DaySummary): DaySummary {
    day.(totalRevenue := day.figures.TotalRevenue(), expectedCash := day.figures.ExpectedCash())
  }

  /** Every row tells its day's true figures; the dates increase and are the range's, or the active ones. */
  ghost predicate TrueDays(books: Books, b: Bounds, days: seq<DaySummary>) {
    && (forall i | 0 <= i < |days| :: days[i] == TrueDay(books, days[i].date))
    && DatesIncrease(days)
    && forall d :: OnList(days, d) <==> (if b.Between? then b.from <= d <= b.till else ActiveDay(books, d))
  }

  method GetDailySummary(books: Books, from: Option<Day>, till: Option<Day>) returns (r: Result<Report>)
    ensures var b := BoundsOf(from, till);
            if b.Between? && b.till < b.from then r == Err(BadRequest)
            else
              && r.Ok? && TrueDays(books, b, r.value.days)
              && r.value.totals == SumDays(r.value.days)
              && r.value.totalRevenue == r.value.totals.TotalRevenue()
              && r.value.expectedCash == r.value.totals.ExpectedCash()
  {
    hide TrueDays, DaySum, HasDay, ActiveDay, CountFor;
    var b := BoundsOf(from, till);
    if b.Between? && b.till < b.from {
      return Err(BadRequest);
    }
    var byDate := Bucket(books, b);
    ghost var bucketed := byDate;
    if b.Between? {
      byDate := FillGaps(byDate, b);
    }
    forall d | d in byDate ensures byDate[d].date == d {
      assert BucketedAt(books, b, bucketed, d);
      if b.Between? {
        assert FilledAt(bucketed, b, byDate, d);
      }
    }
    var days := Rows(byDate, b);
    RowsAreTrue(books, b, bucketed, byDate, days);
    var totals, totalRevenue, expectedCash := AddUp(days);
    r := Ok(Report(days, totals, totalRevenue, expectedCash));
  }

  /** The reduction to totals. */
  method AddUp(days: seq<DaySummary>) returns (totals: Figures, totalRevenue: int, expectedCash: int)
    requires forall i | 0 <= i < |days| :: days[i] == Totalled(days[i])
    ensures totals == SumDays(days) && totalRevenue == totals.TotalRevenue() && expectedCash == totals.ExpectedCash()
  {
    totals, totalRevenue, expectedCash := NOTHING, 0, 0;
    for i := 0 to |days|
      invariant totals == SumDays(days[..i]) && totalRevenue == totals.TotalRevenue()
                  && expectedCash == totals.ExpectedCash()
    {
      assert days[..i + 1][..i] == days[..i];
      assert days[i] == Totalled(days[i]);
      totals := Plus(totals, days[i].figures);
      totalRevenue := totalRevenue + days[i].totalRevenue;
      expectedCash := expectedCash + days[i].expectedCash;
    }
    assert days[..|days|] == days;
  }

  lemma RowsAreTrue(books: Books, b: Bounds, bucketed: Table, byDate: Table, days: seq<DaySummary>)
    requires forall d :: BucketedAt(books, b, bucketed, d)
    requires if b.Between? then forall d :: FilledAt(bucketed, b, byDate, d) else byDate == bucketed
    requires DatesIncrease(days)
    requires forall d :: OnList(days, d) <==> d in byDate && b.Has(d)
    requires forall i | 0 <= i < |days| :: days[i].date in byDate && days[i] == Totalled(byDate[days[i].date])
    ensures TrueDays(books, b, days)
  {
    hide DaySum, HasDay, ActiveDay, CountFor;
    forall d ensures d in byDate && b.Has(d) <==> (if b.Between? then b.from <= d <= b.till else ActiveDay(books, d)) {
      assert BucketedAt(books, b, bucketed, d);
      if b.Between? {
        assert FilledAt(bucketed, b, byDate, d);
      }
    }
    forall i | 0 <= i < |days| ensures days[i] == TrueDay(books, days[i].date) {
      var d := days[i].date;
      assert OnList(days, d);
      assert BucketedAt(books, b, bucketed, d);
      if b.Between? {
        assert FilledAt(bucketed, b, byDate, d);
      }
    }
  }

  ghost predicate BucketedAt(books: Books, b: Bounds, byDate: Table, d: Day) {
    && (d in byDate <==> b.Has(d) && ActiveDay(books, d))
    && (d in byDate ==> byDate[d].date == d)
    && (b.Has(d) ==> DayOrEmpty(byDate, d) == DaySummary(d, DaySum(books.All(), d), 0, 0, CountFor(books.counts, d)))
  }

  /** The five loops over what was fetched. */
  method Bucket(books: Books, b: Bounds) returns (byDate: Table)
    ensures forall d :: BucketedAt(books, b, byDate, d)
  {
    hide Added, DaySum, HasDay, CountFor, Fetch, FetchCounts;
    byDate := map[];
    byDate := AddRecords(byDate, Fetch(books.salon, b));
    ghost var m1 := byDate;
    byDate := AddRecords(byDate, Fetch(books.selfService, b));
    ghost var m2 := byDate;
    byDate := AddRecords(byDate, Fetch(books.sales, b));
    ghost var m3 := byDate;
    byDate := AddRecords(byDate, Fetch(books.movements, b));
    ghost var m4 := byDate;
    byDate := AddCounts(byDate, FetchCounts(books.counts, b));
    forall d ensures BucketedAt(books, b, byDate, d) {
      FourTables(books, b, m1, m2, m3, m4, d);
      CountsFetched(books.counts, b, d);
      assert CountedAt(m4, FetchCounts(books.counts, b), byDate, d);
    }
  }

  lemma FourTables(books: Books, b: Bounds, m1: Table, m2: Table, m3: Table, m4: Table, d: Day)
    requires Added(map[], Fetch(books.salon, b), m1) && Added(m1, Fetch(books.selfService, b), m2)
    requires Added(m2, Fetch(books.sales, b), m3) && Added(m3, Fetch(books.movements, b), m4)
    ensures d in m4 <==> b.Has(d) && HasDay(books.All(), d)
    ensures b.Has(d) ==> DayOrEmpty(m4, d) == EmptyDay(d).(figures := DaySum(books.All(), d))
    ensures !b.Has(d) ==> DayOrEmpty(m4, d) == EmptyDay(d)
  {
    hide Plus, FiguresOf, ToWatDay, DaySum, HasDay, Fetch;
    assert AddedAt(map[], Fetch(books.salon, b), m1, d) && AddedAt(m1, Fetch(books.selfService, b), m2, d);
    assert AddedAt(m2, Fetch(books.sales, b), m3, d) && AddedAt(m3, Fetch(books.movements, b), m4, d);
    FetchedDays(books.salon, b, d);
    FetchedDays(books.selfService, b, d);
    FetchedDays(books.sales, b, d);
    FetchedDays(books.movements, b, d);
    DayOfConcat(books.salon, books.selfService, d);
    DayOfConcat(books.salon + books.selfService, books.sales, d);
    DayOfConcat(books.salon + books.selfService + books.sales, books.movements, d);
    PlusLaws(DaySum(books.salon, d), NOTHING, NOTHING);
    PlusLaws(NOTHING, NOTHING, NOTHING);
  }

  lemma {:induction false} DayOfConcat(a: seq<Record>, c: seq<Record>, d: Day)
    ensures DaySum(a + c, d) == Plus(DaySum(a, d), DaySum(c, d))
    ensures HasDay(a + c, d) <==> HasDay(a, d) || HasDay(c, d)
    decreases |c|
  {
    hide Plus, FiguresOf, ToWatDay;
    if c == [] {
      assert a + c == a;
      PlusLaws(DaySum(a, d), NOTHING, NOTHING);
    } else {
      var n := |c| - 1;
      PlusLaws(DaySum(a, d), DaySum(c[..n], d), FiguresOn(c[n], d));
      assert a + c == (a + c[..n]) + [c[n]];
      assert c == c[..n] + [c[n]];
      DayOfConcat(a, c[..n], d);
      HasDayAppend(a + c[..n], c[n], d);
      HasDayAppend(c[..n], c[n], d);
      DaySumAppend(a + c[..n], c[n], d);
    }
  }

  lemma {:induction false} CountsFetched(cs: seq<Reconciliation>, b: Bounds, d: Day)
    ensures CountFor(FetchCounts(cs, b), d) == if b.Has(d) then CountFor(cs, d) else None
    decreases |cs|
  {
    if cs != [] {
      var n := |cs| - 1;
      CountsFetched(cs[..n], b, d);
      var front := FetchCounts(cs[..n], b);
      if b.Has(cs[n].date) {
        assert (front + [cs[n]])[..|front|] == front;
      } else {
        assert FetchCounts(cs, b) == front;
      }
    }
  }

  /** Filter, totals per day, sort. */
  method Rows(byDate: Table, b: Bounds) returns (days: seq<DaySummary>)
    requires forall d | d in byDate :: byDate[d].date == d
    ensures DatesIncrease(days)
    ensures forall d :: OnList(days, d) <==> d in byDate && b.Has(d)
    ensures forall i | 0 <= i < |days| :: days[i].date in byDate && days[i] == Totalled(byDate[days[i].date])
  {
    hide Sorted;
    var dates := Sorted(set d | d in byDate && b.Has(d));
    days := [];
    for i := 0 to |dates|
      invariant |days| == i
      invariant forall k | 0 <= k < i :: dates[k] in byDate && days[k] == Totalled(byDate[dates[k]])
    {
      assert dates[i] in dates;
      var day := byDate[dates[i]];
      var totalRevenue := day.figures.salonRevenue + day.figures.selfServiceRevenue + day.figures.saleRevenue;
      days := days + [day.(totalRevenue := totalRevenue, expectedCash := totalRevenue - day.figures.walletRevenue)];
    }
    forall d ensures OnList(days, d) <==> d in byDate && b.Has(d) {
      if d in byDate && b.Has(d) {
        assert d in dates;
        var i :| 0 <= i < |dates| && dates[i] == d;
        assert days[i].date == d;
      }
      if OnList(days, d) {
        var i :| 0 <= i < |days| && days[i].date == d;
        assert dates[i] in dates;
      }
    }
  }

  // ---- What the report promises ----

  /** For an explicit range the rows are the range's dates, once each, in order. */
  lemma RangeRowsAreTheRange(books: Books, b: Bounds, days: seq<DaySummary>)
    requires b.Between? && b.from <= b.till && TrueDays(books, b, days)
    ensures |days| == b.till - b.from + 1
    ensures forall i | 0 <= i < |days| :: days[i].date == b.from + i
  {
    hide DaySum, HasDay, CountFor, Plus;
    IncreasingHitsEvery(days, b.from, b.till);
  }

  /** Increasing dates that cover a range and stay in it are the range. */
  lemma {:induction false} IncreasingHitsEvery(days: seq<DaySummary>, from: Day, till: Day)
    requires from <= till + 1 && DatesIncrease(days)
    requires forall d :: OnList(days, d) <==> from <= d <= till
    ensures |days| == till - from + 1 && forall i | 0 <= i < |days| :: days[i].date == from + i
    decreases till + 1 - from
  {
    if from <= till {
      assert OnList(days, till);
      var n := |days| - 1;
      var k :| 0 <= k < |days| && days[k].date == till;
      assert OnList(days, days[n].date);
      assert k == n;
      var front := days[..n];
      forall d ensures OnList(front, d) <==> from <= d <= till - 1 {
        if from <= d <= till - 1 {
          assert OnList(days, d);
          var i :| 0 <= i < |days| && days[i].date == d;
          assert front[i].date == d;
        }
        if OnList(front, d) {
          var i :| 0 <= i < n && front[i].date == d;
          assert days[i].date == d && OnList(days, d);
          assert days[i].date < days[n].date;
        }
      }
      IncreasingHitsEvery(front, from, till - 1);
    } else if days != [] {
      assert OnList(days, days[0].date);
    }
  }

  /** Sums of the listed days, taken from the records. */
  function SumOver(days: seq<DaySummary>, rs: seq<Record>): Figures {
    if days == [] then NOTHING else Plus(SumOver(days[..|days| - 1], rs), DaySum(rs, days[|days| - 1].date))
  }

  /** One record shows up on its own day only. */
  lemma {:induction false} RecordOnOneDay(days: seq<DaySummary>, rs: seq<Record>, r: Record)
    requires DatesIncrease(days)
    ensures SumOver(days, rs + [r]) == Plus(SumOver(days, rs), if OnList(days, r.Day()) then FiguresOf(r) else NOTHING)
    decreases |days|
  {
    hide Plus, FiguresOf, ToWatDay, DaySum;
    if days == [] {
      PlusLaws(NOTHING, NOTHING, NOTHING);
    } else {
      var n := |days| - 1;
      var front, date := days[..n], days[n].date;
      RecordOnOneDay(front, rs, r);
      DaySumAppend(rs, r, date);
      OnListAppend(days, r.Day());
      var share := if OnList(front, r.Day()) then FiguresOf(r) else NOTHING;
      assert OnList(front, r.Day()) ==> date != r.Day();
      PlusSwap(SumOver(front, rs), share, DaySum(rs, date), FiguresOn(r, date));
      PlusLaws(share, NOTHING, NOTHING);
      PlusLaws(FiguresOn(r, date), NOTHING, NOTHING);
    }
  }

  lemma OnListAppend(days: seq<DaySummary>, d: Day)
    requires days != []
    ensures OnList(days, d) <==> OnList(days[..|days| - 1], d) || days[|days| - 1].date == d
  {
  }

  lemma PlusSwap(a: Figures, b: Figures, c: Figures, d: Figures)
    ensures Plus(Plus(a, b), Plus(c, d)) == Plus(Plus(a, c), Plus(b, d))
  {
  }

  /** Listed days that include every record's day sum to all the records. */
  lemma {:induction false} ListedDaysSumToRecords(days: seq<DaySummary>, rs: seq<Record>)
    requires DatesIncrease(days) && forall d | HasDay(rs, d) :: OnList(days, d)
    ensures SumOver(days, rs) == Sum(rs)
    decreases |rs|
  {
    if rs == [] {
      NothingOver(days);
    } else {
      hide Plus, FiguresOf, ToWatDay, DaySum;
      var n := |rs| - 1;
      assert rs == rs[..n] + [rs[n]];
      forall d ensures HasDay(rs, d) <==> HasDay(rs[..n], d) || rs[n].Day() == d {
        HasDayAppend(rs[..n], rs[n], d);
      }
      ListedDaysSumToRecords(days, rs[..n]);
      RecordOnOneDay(days, rs[..n], rs[n]);
    }
  }

  lemma {:induction false} NothingOver(days: seq<DaySummary>)
    ensures SumOver(days, []) == NOTHING
    decreases |days|
  {
    if days != [] {
      NothingOver(days[..|days| - 1]);
    }
  }

  lemma {:induction false} TrueDaysSum(books: Books, b: Bounds, days: seq<DaySummary>)
    requires forall i | 0 <= i < |days| :: days[i] == TrueDay(books, days[i].date) && b.Has(days[i].date)
    ensures SumDays(days) == SumOver(days, Fetch(books.All(), b))
    decreases |days|
  {
    hide Plus, DaySum, HasDay, CountFor, Fetch;
    if days != [] {
      var n := |days| - 1;
      TrueDaysSum(books, b, days[..n]);
      FetchedDays(books.All(), b, days[n].date);
    }
  }

  /**
   * The report's totals are the sums over the raw records whose instant lies in the window: none lost, none
   * doubled.
   */
  lemma TotalsAreRawSums(books: Books, b: Bounds, days: seq<DaySummary>)
    requires TrueDays(books, b, days)
    ensures SumDays(days) == Sum(Fetch(books.All(), b))
  {
    hide Plus, DaySum, CountFor, Fetch, HasDay, Sum;
    forall i | 0 <= i < |days| ensures b.Has(days[i].date) {
      assert OnList(days, days[i].date);
    }
    TrueDaysSum(books, b, days);
    forall d | HasDay(Fetch(books.All(), b), d) ensures OnList(days, d) {
      FetchedDays(books.All(), b, d);
    }
    ListedDaysSumToRecords(days, Fetch(books.All(), b));
  }

  /** Two adjacent ranges report, between them, exactly what the whole range reports. */
  lemma {:induction false} TotalsAreAdditive(rs: seq<Record>, from: Day, mid: Day, till: Day)
    requires from - 1 <= mid <= till
    ensures Sum(Fetch(rs, Between(from, till)))
         == Plus(Sum(Fetch(rs, Between(from, mid))), Sum(Fetch(rs, Between(mid + 1, till))))
    decreases |rs|
  {
    if rs != [] {
      var n := |rs| - 1;
      TotalsAreAdditive(rs[..n], from, mid, till);
      hide Plus, FiguresOf, ToWatDay, Sum;
      var whole, left, right := Between(from, till), Between(from, mid), Between(mid + 1, till);
      FetchedSum(rs, whole);
      FetchedSum(rs, left);
      FetchedSum(rs, right);
      var share := FiguresOf(rs[n]);
      PlusSwap(Sum(Fetch(rs[..n], left)), share, Sum(Fetch(rs[..n], right)), NOTHING);
      PlusSwap(Sum(Fetch(rs[..n], left)), NOTHING, Sum(Fetch(rs[..n], right)), share);
      PlusLaws(share, NOTHING, NOTHING);
      PlusLaws(NOTHING, NOTHING, NOTHING);
    } else {
      PlusLaws(NOTHING, NOTHING, NOTHING);
    }
  }

  lemma FetchedSum(rs: seq<Record>, b: Bounds)
    requires rs != []
    ensures var r := rs[|rs| - 1];
            Sum(Fetch(rs, b)) == Plus(Sum(Fetch(rs[..|rs| - 1], b)), if b.Has(r.Day()) then FiguresOf(r) else NOTHING)
  {
    hide Plus, FiguresOf, ToWatDay;
    var front, r := Fetch(rs[..|rs| - 1], b), rs[|rs| - 1];
    WindowIsDays(b, r.When());
    PlusLaws(Sum(front), NOTHING, NOTHING);
    if b.InWindow(r.When()) {
      assert (front + [r])[..|front|] == front;
    } else {
      assert Fetch(rs, b) == front;
    }
  }

  /** Cash taken for one record: nothing for wallet payments and stock movements. */
  function CashOf(r: Record): int {
    match r
    case SalonBooking(_, amount) => amount
    case SelfServiceBooking(_, _, amount, byWallet) => if byWallet then 0 else amount
    case ProductSale(_, amount) => amount
    case StockMovement(_, _, _) => 0
  }

  function Cash(rs: seq<Record>): int {
    if rs == [] then 0 else Cash(rs[..|rs| - 1]) + CashOf(rs[|rs| - 1])
  }

  /** Expected cash is what was not paid from a wallet, record by record. */
  lemma {:induction false} ExpectedCashIsCash(rs: seq<Record>)
    ensures Sum(rs).ExpectedCash() == Cash(rs)
    decreases |rs|
  {
    if rs != [] {
      ExpectedCashIsCash(rs[..|rs| - 1]);
    }
  }

  // ---- When a cash count may be submitted ----

  /** Only for WAT yesterday, and only before the deadline today. */
  function AssertWithinSubmissionWindow(d: Day, now: int, deadlineMinutes: int): Result<()> {
    var today := ToWatDay(now);
    var yesterday := ToWatDay(now - DAY_MS);
    if d != yesterday then Err(BadRequest)
    else if now >= WatDateAtTime(today, deadlineMinutes) then Err(BadRequest)
    else Ok(())
  }

  /** A day's count is accepted from the next WAT midnight until the deadline on that next day, and at no other time. */
  lemma SubmissionWindowIff(d: Day, now: int, deadlineMinutes: int)
    requires 0 <= deadlineMinutes < 1440
    ensures AssertWithinSubmissionWindow(d, now, deadlineMinutes).Ok?
       <==> WatDateAtTime(d + 1, 0) <= now < WatDateAtTime(d + 1, deadlineMinutes)
  {
    var today := ToWatDay(now);
    WatDayBounds(now, today);
    WatDayBounds(now, d + 1);
    WatDayBounds(now - DAY_MS, today - 1);
  }

  // ---- What one record adds, column by column ----

  /** A single date asked for is that day, two are the days between them, and none is all time. */
  lemma DatesAskedFor(from: Option<Day>, till: Option<Day>, d: Day)
    ensures BoundsOf(from, till).Has(d)
       <==> match (from, till)
            case (None, None) => true
            case (Some(x), None) => d == x
            case (None, Some(y)) => d == y
            case (Some(x), Some(y)) => x <= d <= y
  {
  }

  /** The instant that decides a record's day, per kind: completion, last update for want of it, or creation. */
  predicate Dated(r: Record, at: int) {
    match r
    case SalonBooking(completedAt, _) => at == completedAt
    case SelfServiceBooking(Some(done), _, _, _) => at == done
    case SelfServiceBooking(None, updatedAt, _, _) => at == updatedAt
    case ProductSale(createdAt, _) => at == createdAt
    case StockMovement(_, _, createdAt) => at == createdAt
  }

  /** Each kind fills its own columns: revenue and count, the wallet's share, stock by its change or its size. */
  lemma ColumnsOfItsKind(r: Record)
    ensures var f := FiguresOf(r);
            match r
            case SalonBooking(_, amount) => f == Figures(amount, 1, 0, 0, 0, 0, 0, 0, 0, 0)
            case SelfServiceBooking(_, _, amount, true) => f == Figures(0, 0, amount, 1, amount, 0, 0, 0, 0, 0)
            case SelfServiceBooking(_, _, amount, false) => f == Figures(0, 0, amount, 1, 0, 0, 0, 0, 0, 0)
            case ProductSale(_, amount) => f == Figures(0, 0, 0, 0, 0, amount, 1, 0, 0, 0)
            case StockMovement(Received, delta, _) => f == Figures(0, 0, 0, 0, 0, 0, 0, delta, 0, 0)
            case StockMovement(TransferIn, delta, _) => f == Figures(0, 0, 0, 0, 0, 0, 0, 0, delta, 0)
            case StockMovement(TransferOut, delta, _) =>
              f == Figures(0, 0, 0, 0, 0, 0, 0, 0, 0, f.transferredOut)
              && f.transferredOut >= 0 && (f.transferredOut == delta || f.transferredOut == -delta)
  {
  }

  lemma OnItsDay(r: Record, at: int, d: Day)
    requires Dated(r, at)
    ensures FiguresOn(r, d) == if d * 86400000 <= at + 3600000 < (d + 1) * 86400000 then FiguresOf(r) else NOTHING
  {
    WatDayBounds(at, d);
    hide ToWatDay, FiguresOf;
  }

  /** One more record adds its columns to its own WAT day, and nothing to any other. */
  lemma RecordCounts(rs: seq<Record>, r: Record, at: int, d: Day)
    requires Dated(r, at)
    ensures DaySum([], d) == Figures(0, 0, 0, 0, 0, 0, 0, 0, 0, 0)
    ensures DaySum(rs + [r], d)
         == if d * 86400000 <= at + 3600000 < (d + 1) * 86400000 then Plus(DaySum(rs, d), FiguresOf(r))
            else DaySum(rs, d)
  {
    assert DaySum([], d) == NOTHING;
    hide DaySum, Plus, FiguresOn, FiguresOf, Dated;
    DaySumAppend(rs, r, d);
    OnItsDay(r, at, d);
    PlusLaws(DaySum(rs, d), NOTHING, NOTHING);
  }

  /** The cash count shown for a day is the last one entered for it. */
  lemma {:induction false} LastCountIsShown(cs: seq<Reconciliation>, d: Day)
    ensures CountFor(cs, d).None? <==> forall i | 0 <= i < |cs| :: cs[i].date != d
    ensures CountFor(cs, d).Some? ==>
              exists i :: 0 <= i < |cs| && cs[i] == CountFor(cs, d).value && cs[i].date == d
                          && forall j | i < j < |cs| :: cs[j].date != d
    decreases |cs|
  {
    if cs != [] {
      var n := |cs| - 1;
      LastCountIsShown(cs[..n], d);
      if cs[n].date == d {
        assert cs[n] == CountFor(cs, d).value;
      } else if CountFor(cs, d).Some? {
        var i :| 0 <= i < n && cs[..n][i] == CountFor(cs, d).value && cs[..n][i].date == d
          && forall j | i < j < n :: cs[..n][j].date != d;
        assert cs[i] == CountFor(cs, d).value;
        forall j | i < j < |cs| ensures cs[j].date != d {
          assert j < n ==> cs[..n][j] == cs[j];
        }
      } else {
        forall i | 0 <= i < |cs| ensures cs[i].date != d {
          assert i < n ==> cs[..n][i] == cs[i];
        }
      }
    }
  }
}
