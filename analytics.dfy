/**
 * The chart derivations of the analytics panel (src/components/analytics-charts.tsx):
 * a rolling twelve-month revenue series and a revenue breakdown by service.
 */
module Analytics {
  import opened Wrappers
  import opened Records
  import Text
  import ServiceName
  import Sorting

  const MonthNames: seq<string> :=
    ["Ene", "Feb", "Mar", "Abr", "May", "Jun", "Jul", "Ago", "Sep", "Oct", "Nov", "Dic"]

  // ---------------------------------------------------------------------------
  // Monthly series

  /** The `billedWithDate` test: a date, a price, and a status other than "por facturar". */
  predicate Billed(p: Proyecto)
  {
    p.fechaTerminado.Some? && p.precio.Some? && !PaymentIs(p, PorFacturar)
  }

  /** `proyectos.filter(...)` with the `Billed` test, in the original order. */
  function BilledWithDate(ps: seq<Proyecto>): (r: seq<Proyecto>)
    ensures |r| <= |ps|
    ensures forall p :: p in r <==> p in ps && Billed(p)
  {
    if ps == [] then []
    else
      var last := ps[|ps| - 1];
      assert ps == ps[..|ps| - 1] + [last];
      BilledWithDate(ps[..|ps| - 1]) + (if Billed(last) then [last] else [])
  }

  /** A calendar month; `Ordinal` numbers the months consecutively across years. */
  datatype YearMonth = YearMonth(year: int, month: MonthIndex)

  function Ordinal(ym: YearMonth): int
  {
    ym.year * 12 + ym.month
  }

  /** The month `n` months after January of year 0: how `new Date(y, m, 1)`
      carries an out-of-range month `m` into the year, in either direction. */
  function FromOrdinal(n: int): (ym: YearMonth)
    ensures Ordinal(ym) == n
  {
    YearMonth(n / 12, n % 12)
  }

  lemma OrdinalRoundTrip(ym: YearMonth)
    ensures FromOrdinal(Ordinal(ym)) == ym
  {
    var n := Ordinal(ym);
    assert n / 12 == ym.year && n % 12 == ym.month;
  }

  /** The month a dated record falls in. */
  function MonthOf(p: Proyecto): YearMonth
    requires p.fechaTerminado.Some?
  {
    YearMonth(p.fechaTerminado.value.year, p.fechaTerminado.value.month)
  }

  /** The months in which some billed record falls. */
  function DataMonths(ps: seq<Proyecto>): set<YearMonth>
  {
    if ps == [] then {}
    else
      var last := ps[|ps| - 1];
      DataMonths(ps[..|ps| - 1]) + (if Billed(last) then {MonthOf(last)} else {})
  }

  /** The billed revenue of month `ym`: the sum of the prices of the billed records dated in it. */
  function MonthTotal(ps: seq<Proyecto>, ym: YearMonth): int
  {
    if ps == [] then 0
    else
      var last := ps[|ps| - 1];
      MonthTotal(ps[..|ps| - 1], ym) + (if Billed(last) && MonthOf(last) == ym then last.precio.value else 0)
  }

  /** `DataMonths` lists exactly the months of the billed records. */
  lemma {:induction false} DataMonthsMeaning(ps: seq<Proyecto>, ym: YearMonth)
    ensures ym in DataMonths(ps) <==> exists p :: p in ps && Billed(p) && MonthOf(p) == ym
  {
    if ps != [] {
      var init, last := ps[..|ps| - 1], ps[|ps| - 1];
      DataMonthsMeaning(init, ym);
      assert ps == init + [last];
      if ym in DataMonths(ps) && ym !in DataMonths(init) {
        assert last in ps && Billed(last) && MonthOf(last) == ym;
      }
    }
  }

  /** There is a month with data exactly when some record is billed. */
  lemma {:induction false} DataMonthsEmpty(ps: seq<Proyecto>)
    ensures DataMonths(ps) == {} <==> BilledWithDate(ps) == []
  {
    if ps != [] {
      DataMonthsEmpty(ps[..|ps| - 1]);
    }
  }

  /** A month without billed records has revenue 0. */
  lemma {:induction false} MonthTotalOutside(ps: seq<Proyecto>, ym: YearMonth)
    requires ym !in DataMonths(ps)
    ensures MonthTotal(ps, ym) == 0
  {
    if ps != [] {
      MonthTotalOutside(ps[..|ps| - 1], ym);
    }
  }

  /** Filtering out the records that are not billed first changes neither the
      months with data nor any month's revenue. */
  lemma {:induction false} BilledWithDateKeepsMonths(ps: seq<Proyecto>)
    ensures DataMonths(BilledWithDate(ps)) == DataMonths(ps)
  {
    if ps != [] {
      var init, last := ps[..|ps| - 1], ps[|ps| - 1];
      BilledWithDateKeepsMonths(init);
      var b := BilledWithDate(init);
      if Billed(last) {
        var bp := b + [last];
        assert BilledWithDate(ps) == bp;
        assert bp[..|bp| - 1] == b && bp[|bp| - 1] == last;
        assert DataMonths(bp) == DataMonths(b) + {MonthOf(last)};
      } else {
        assert BilledWithDate(ps) == b;
      }
    }
  }

  /** Appending a record adds its price to its own month's total, when it is billed. */
  lemma MonthTotalSnoc(b: seq<Proyecto>, last: Proyecto, ym: YearMonth)
    ensures MonthTotal(b + [last], ym) == MonthTotal(b, ym) + (if Billed(last) && MonthOf(last) == ym then last.precio.value else 0)
  {
    var bp := b + [last];
    assert bp[..|bp| - 1] == b && bp[|bp| - 1] == last;
  }

  lemma {:induction false} BilledWithDateKeepsTotals(ps: seq<Proyecto>, ym: YearMonth)
    ensures MonthTotal(BilledWithDate(ps), ym) == MonthTotal(ps, ym)
  {
    if ps != [] {
      var init, last := ps[..|ps| - 1], ps[|ps| - 1];
      BilledWithDateKeepsTotals(init, ym);
      var b := BilledWithDate(init);
      if Billed(last) {
        assert BilledWithDate(ps) == b + [last];
        MonthTotalSnoc(b, last, ym);
      } else {
        assert BilledWithDate(ps) == b;
      }
    }
  }

  /** The month map built from the billed records describes the whole list. */
  lemma MonthlyMapOfBilled(ps: seq<Proyecto>, monthly: map<YearMonth, int>)
    requires monthly.Keys == DataMonths(BilledWithDate(ps))
    requires forall ym :: ym in monthly ==> monthly[ym] == MonthTotal(BilledWithDate(ps), ym)
    ensures monthly.Keys == DataMonths(ps)
    ensures forall ym :: ym in monthly ==> monthly[ym] == MonthTotal(ps, ym)
  {
    BilledWithDateKeepsMonths(ps);
    forall ym | ym in monthly ensures monthly[ym] == MonthTotal(ps, ym) {
      BilledWithDateKeepsTotals(ps, ym);
    }
  }

  /** `ym` is the latest of `months`. */
  predicate IsLatest(ym: YearMonth, months: set<YearMonth>)
  {
    ym in months && forall o :: o in months ==> Ordinal(o) <= Ordinal(ym)
  }

  /** There is only one latest month. */
  lemma LatestUnique(a: YearMonth, b: YearMonth, months: set<YearMonth>)
    requires IsLatest(a, months) && IsLatest(b, months)
    ensures a == b
  {
    OrdinalRoundTrip(a);
    OrdinalRoundTrip(b);
  }

  /** The latest month that has data. */
  function LatestMonth(ps: seq<Proyecto>): (ym: YearMonth)
    requires DataMonths(ps) != {}
    ensures IsLatest(ym, DataMonths(ps))
  {
    var init, last := ps[..|ps| - 1], ps[|ps| - 1];
    if DataMonths(init) == {} then MonthOf(last)
    else
      var before := LatestMonth(init);
      if Billed(last) && Ordinal(MonthOf(last)) > Ordinal(before) then MonthOf(last) else before
  }

  /** One bar of the chart: the month's short name, its revenue, its year. */
  datatype BarPoint = BarPoint(name: string, total: int, year: int)

  /** The `k`-th of the twelve months ending at `latest` (k = 11 is `latest` itself). */
  function SeriesMonth(latest: YearMonth, k: int): YearMonth
  {
    FromOrdinal(Ordinal(latest) - 11 + k)
  }

  function PointFor(ps: seq<Proyecto>, ym: YearMonth): BarPoint
  {
    BarPoint(MonthNames[ym.month], MonthTotal(ps, ym), ym.year)
  }

  /** The bar data: empty without billed records, otherwise the twelve months
      ending at the latest month with data, oldest first. */
  function Series(ps: seq<Proyecto>): (r: seq<BarPoint>)
    ensures |r| == 0 || |r| == 12
    ensures r == [] <==> DataMonths(ps) == {}
  {
    if DataMonths(ps) == {} then []
    else
      var latest := LatestMonth(ps);
      seq(12, k requires 0 <= k < 12 => PointFor(ps, SeriesMonth(latest, k)))
  }

  /** The series is empty exactly when no record is billed, and has twelve points otherwise. */
  lemma SeriesLength(ps: seq<Proyecto>)
    ensures BilledWithDate(ps) == [] ==> Series(ps) == []
    ensures BilledWithDate(ps) != [] ==> |Series(ps)| == 12
  {
    DataMonthsEmpty(ps);
  }

  /** The twelve months are consecutive: each is the month after the previous one,
      so December is followed by January of the next year; the last is the latest
      month with data. */
  lemma SeriesMonthsConsecutive(latest: YearMonth, k: int)
    requires 0 <= k < 11
    ensures Ordinal(SeriesMonth(latest, k + 1)) == Ordinal(SeriesMonth(latest, k)) + 1
    ensures SeriesMonth(latest, k).month == 11 ==> SeriesMonth(latest, k + 1) == YearMonth(SeriesMonth(latest, k).year + 1, 0)
    ensures SeriesMonth(latest, k).month < 11 ==> SeriesMonth(latest, k + 1) == YearMonth(SeriesMonth(latest, k).year, SeriesMonth(latest, k).month + 1)
    ensures SeriesMonth(latest, 11) == latest
  {
    OrdinalRoundTrip(latest);
    var a, b := SeriesMonth(latest, k), SeriesMonth(latest, k + 1);
    OrdinalRoundTrip(b);
    if a.month == 11 {
      assert Ordinal(YearMonth(a.year + 1, 0)) == Ordinal(b);
      OrdinalRoundTrip(YearMonth(a.year + 1, 0));
    } else {
      assert Ordinal(YearMonth(a.year, a.month + 1)) == Ordinal(b);
      OrdinalRoundTrip(YearMonth(a.year, a.month + 1));
    }
  }

  /** Each point carries its month's name and year and the month's billed revenue,
      which is 0 for a month without data; the last point is the latest month with data. */
  lemma SeriesPoints(ps: seq<Proyecto>, k: int)
    requires BilledWithDate(ps) != [] && 0 <= k < 12
    ensures DataMonths(ps) != {}
    ensures var ym := SeriesMonth(LatestMonth(ps), k);
      && Series(ps)[k].name == MonthNames[ym.month]
      && Series(ps)[k].year == ym.year
      && Series(ps)[k].total == MonthTotal(ps, ym)
      && (ym !in DataMonths(ps) ==> Series(ps)[k].total == 0)
    ensures IsLatest(SeriesMonth(LatestMonth(ps), 11), DataMonths(ps))
  {
    DataMonthsEmpty(ps);
    var ym := SeriesMonth(LatestMonth(ps), k);
    if ym !in DataMonths(ps) {
      MonthTotalOutside(ps, ym);
    }
    SeriesMonthsConsecutive(LatestMonth(ps), 0);
  }

  /** The month-by-month accumulation of `monthlyMap`: the keys are the months
      with data, each mapped to its revenue. */
  method MonthlyMap(billed: seq<Proyecto>) returns (m: map<YearMonth, int>)
    requires forall p :: p in billed ==> Billed(p)
    ensures m.Keys == DataMonths(billed)
    ensures forall ym :: ym in m ==> m[ym] == MonthTotal(billed, ym)
  {
    m := map[];
    for i := 0 to |billed|
      invariant m.Keys == DataMonths(billed[..i])
      invariant forall ym :: ym in m ==> m[ym] == MonthTotal(billed[..i], ym)
    {
      var p := billed[i];
      assert p in billed;
      var key := MonthOf(p);
      m := m[key := (if key in m then m[key] else 0) + p.precio.value];
      assert billed[..i + 1][..i] == billed[..i];
      forall ym | ym in m ensures m[ym] == MonthTotal(billed[..i + 1], ym) {
        if ym == key && key !in DataMonths(billed[..i]) {
          MonthTotalOutside(billed[..i], ym);
        }
      }
    }
    assert billed[..|billed|] == billed;
  }

  /** The latest key of the month map (`Math.max` over the keys' first-of-month times). */
  method LatestKey(m: map<YearMonth, int>) returns (latest: YearMonth)
    requires m != map[]
    ensures IsLatest(latest, m.Keys)
  {
    var rest := m.Keys;
    latest :| latest in rest;
    rest := rest - {latest};
    while rest != {}
      invariant rest <= m.Keys && latest in m.Keys
      invariant forall k :: k in m.Keys && k !in rest ==> Ordinal(k) <= Ordinal(latest)
      decreases rest
    {
      var k :| k in rest;
      if Ordinal(k) > Ordinal(latest) {
        latest := k;
      }
      rest := rest - {k};
    }
  }

  /** `barData`: the accumulation, the latest month, then the countdown loop that
      pushes one point per month, from eleven months before the latest up to it. */
  method MonthlySeries(ps: seq<Proyecto>) returns (barData: seq<BarPoint>)
    ensures barData == Series(ps)
  {
    var billed := BilledWithDate(ps);
    barData := [];
    DataMonthsEmpty(ps);
    if |billed| > 0 {
      var monthly := MonthlyMap(billed);
      MonthlyMapOfBilled(ps, monthly);
      var latest := LatestKey(monthly);
      LatestUnique(latest, LatestMonth(ps), DataMonths(ps));
      barData := LastTwelve(ps, monthly, latest);
    }
  }

  /** A point read from the month map is the month's point. */
  lemma PointFromMap(ps: seq<Proyecto>, monthly: map<YearMonth, int>, d: YearMonth)
    requires monthly.Keys == DataMonths(ps)
    requires forall ym :: ym in monthly ==> monthly[ym] == MonthTotal(ps, ym)
    ensures BarPoint(MonthNames[d.month], if d in monthly then monthly[d] else 0, d.year) == PointFor(ps, d)
  {
    if d !in monthly {
      MonthTotalOutside(ps, d);
    }
  }

  /** The countdown loop: one point per month, from eleven months before `latest` up to it. */
  method LastTwelve(ps: seq<Proyecto>, monthly: map<YearMonth, int>, latest: YearMonth) returns (points: seq<BarPoint>)
    requires monthly.Keys == DataMonths(ps)
    requires forall ym :: ym in monthly ==> monthly[ym] == MonthTotal(ps, ym)
    ensures |points| == 12
    ensures forall k :: 0 <= k < 12 ==> points[k] == PointFor(ps, SeriesMonth(latest, k))
  {
    points := [];
    var i := 11;
    while i >= 0
      invariant -1 <= i <= 11
      invariant |points| == 11 - i
      invariant forall k :: 0 <= k < |points| ==> points[k] == PointFor(ps, SeriesMonth(latest, k))
    {
      var d := FromOrdinal(Ordinal(latest) - i);
      var total := if d in monthly then monthly[d] else 0;
      PointFromMap(ps, monthly, d);
      assert d == SeriesMonth(latest, 11 - i);
      points := points + [BarPoint(MonthNames[d.month], total, d.year)];
      i := i - 1;
    }
  }

  // ---------------------------------------------------------------------------
  // Service breakdown

  /** One entry of the breakdown: a service name and its revenue. */
  datatype Slice = Slice(name: string, value: int)

  /** The records the breakdown counts: those with a price whose status is not "por facturar". */
  predicate Counted(p: Proyecto)
  {
    p.precio.Some? && !PaymentIs(p, PorFacturar)
  }

  const Unspecified: string := "Sin especificar"

  /** The group a record is counted under: the normalised service name, or
      else the raw value trimmed, "Sin especificar" standing in for an absent
      or empty value. */
  function ServiceKey(sc: Option<string>): (k: string)
    ensures Text.Trimmed(k)
    ensures k == "" <==> sc.Some? && sc.value != "" && Text.AllSpace(sc.value)
  {
    var n := ServiceName.NormalizeServicio(sc);
    if n != "" then n
    else Text.Trim(if sc.None? || sc.value == "" then Unspecified else sc.value)
  }

  /** A service that is not blank is grouped under its normalised name. */
  lemma ServiceKeyNamed(sc: Option<string>)
    requires !ServiceName.Blank(sc)
    ensures ServiceKey(sc) == ServiceName.NormalizeServicio(sc) != ""
  {
  }

  /** An absent or empty service is grouped under "Sin especificar". */
  lemma ServiceKeyUnspecified(sc: Option<string>)
    requires sc.None? || sc.value == ""
    ensures ServiceKey(sc) == Unspecified
  {
    assert ServiceName.NormalizeServicio(sc) == "";
    UnspecifiedTrimmed();
  }

  lemma UnspecifiedTrimmed()
    ensures Text.Trim(Unspecified) == Unspecified
  {
    assert !Text.IsSpace(Unspecified[0]) && !Text.IsSpace(Unspecified[|Unspecified| - 1]);
    Text.TrimOfTrimmed(Unspecified);
  }

  /** A service made only of whitespace is grouped under the empty name: the
      fallback applies only to an absent or empty value, and trimming the
      whitespace leaves nothing. */
  lemma ServiceKeyWhitespace(sc: Option<string>)
    requires sc.Some? && sc.value != "" && Text.AllSpace(sc.value)
    ensures ServiceKey(sc) == ""
  {
    Text.TrimEmptyIffBlank(sc.value);
  }

  /** The contribution of each counted record: its group name and its price,
      in the order of the records. */
  function Entries(ps: seq<Proyecto>): seq<Slice>
  {
    if ps == [] then []
    else
      var last := ps[|ps| - 1];
      Entries(ps[..|ps| - 1])
        + (if Counted(last) then [Slice(ServiceKey(last.servicioContratado), last.precio.value)] else [])
  }

  function Names(groups: seq<Slice>): seq<string>
  {
    seq(|groups|, j requires 0 <= j < |groups| => groups[j].name)
  }

  /** The position of the group called `name`, or -1 when there is none. */
  function IndexOfName(groups: seq<Slice>, name: string): (r: int)
    ensures -1 <= r < |groups|
    ensures r >= 0 ==> groups[r].name == name
    ensures r < 0 <==> name !in Names(groups)
  {
    if groups == [] then -1
    else
      assert Names(groups) == [groups[0].name] + Names(groups[1..]);
      if groups[0].name == name then 0
      else
        var r := IndexOfName(groups[1..], name);
        if r < 0 then -1 else r + 1
  }

  /** `serviceMap.set(name, (serviceMap.get(name) ?? 0) + amount)`: a `Map`
      keeps its keys in first-insertion order, so a new name goes last. */
  function AddTo(groups: seq<Slice>, name: string, amount: int): seq<Slice>
  {
    var j := IndexOfName(groups, name);
    if j < 0 then groups + [Slice(name, amount)]
    else groups[j := Slice(name, groups[j].value + amount)]
  }

  /** The map after adding up a list of contributions, in order. */
  function Group(es: seq<Slice>): seq<Slice>
  {
    if es == [] then []
    else
      var last := es[|es| - 1];
      AddTo(Group(es[..|es| - 1]), last.name, last.value)
  }

  /** The service map after the records of `ps`. */
  function ServiceGroups(ps: seq<Proyecto>): seq<Slice>
  {
    Group(Entries(ps))
  }

  /** The loop that fills `serviceMap`. */
  method ServiceMap(ps: seq<Proyecto>) returns (groups: seq<Slice>)
    ensures groups == ServiceGroups(ps)
  {
    groups := [];
    for i := 0 to |ps|
      invariant groups == Group(Entries(ps[..i]))
    {
      var p := ps[i];
      EntriesStep(ps, i);
      if p.precio.None? || PaymentIs(p, PorFacturar) {
        assert Entries(ps[..i + 1]) == Entries(ps[..i]);
        continue;
      }
      var nombre := ServiceKey(p.servicioContratado);
      assert Entries(ps[..i + 1]) == Entries(ps[..i]) + [Slice(nombre, p.precio.value)];
      GroupStep(Entries(ps[..i]), Slice(nombre, p.precio.value));
      groups := AddTo(groups, nombre, p.precio.value);
    }
    assert ps[..|ps|] == ps;
  }

  lemma EntriesStep(ps: seq<Proyecto>, i: int)
    requires 0 <= i < |ps|
    ensures Entries(ps[..i + 1]) == Entries(ps[..i])
      + (if Counted(ps[i]) then [Slice(ServiceKey(ps[i].servicioContratado), ps[i].precio.value)] else [])
  {
    assert ps[..i + 1][..i] == ps[..i];
  }

  lemma GroupStep(es: seq<Slice>, e: Slice)
    ensures Group(es + [e]) == AddTo(Group(es), e.name, e.value)
  {
    assert (es + [e])[..|es|] == es;
  }

  /** Reference definition of a group's revenue: the contributions under `name` added up. */
  function SumOf(es: seq<Slice>, name: string): int
  {
    if es == [] then 0
    else
      var last := es[|es| - 1];
      SumOf(es[..|es| - 1], name) + (if last.name == name then last.value else 0)
  }

  function SumValues(groups: seq<Slice>): int
  {
    if groups == [] then 0 else groups[0].value + SumValues(groups[1..])
  }

  /** The revenue of all counted records. */
  function CountedTotal(ps: seq<Proyecto>): int
  {
    if ps == [] then 0
    else
      var last := ps[|ps| - 1];
      CountedTotal(ps[..|ps| - 1]) + (if Counted(last) then last.precio.value else 0)
  }

  predicate DistinctNames(groups: seq<Slice>)
  {
    forall i, j :: 0 <= i < j < |groups| ==> groups[i].name != groups[j].name
  }

  lemma {:induction false} SumValuesAppend(groups: seq<Slice>, x: Slice)
    ensures SumValues(groups + [x]) == SumValues(groups) + x.value
  {
    if groups != [] {
      assert (groups + [x])[1..] == groups[1..] + [x];
      SumValuesAppend(groups[1..], x);
    }
  }

  lemma {:induction false} SumValuesUpdate(groups: seq<Slice>, j: int, x: Slice)
    requires 0 <= j < |groups|
    ensures SumValues(groups[j := x]) == SumValues(groups) - groups[j].value + x.value
  {
    if j > 0 {
      assert groups[j := x][1..] == groups[1..][j - 1 := x];
      SumValuesUpdate(groups[1..], j - 1, x);
    }
  }

  /** Adding to the map keeps the names distinct, adds `name` to them, and adds
      the amount to the total. */
  lemma AddToProps(groups: seq<Slice>, name: string, amount: int)
    requires DistinctNames(groups)
    ensures DistinctNames(AddTo(groups, name, amount))
    ensures SumValues(AddTo(groups, name, amount)) == SumValues(groups) + amount
    ensures forall n :: n in Names(AddTo(groups, name, amount)) <==> n == name || n in Names(groups)
  {
    var j := IndexOfName(groups, name);
    var r := AddTo(groups, name, amount);
    if j < 0 {
      SumValuesAppend(groups, Slice(name, amount));
      assert Names(r) == Names(groups) + [name];
      forall i | 0 <= i < |groups| ensures groups[i].name != name {
        assert Names(groups)[i] == groups[i].name;
      }
    } else {
      SumValuesUpdate(groups, j, Slice(name, groups[j].value + amount));
      assert Names(r) == Names(groups);
    }
  }

  /** Every service appears once in the map. */
  lemma {:induction false} GroupDistinct(es: seq<Slice>)
    ensures DistinctNames(Group(es))
  {
    if es != [] {
      var last := es[|es| - 1];
      GroupDistinct(es[..|es| - 1]);
      AddToProps(Group(es[..|es| - 1]), last.name, last.value);
    }
  }

  /** The names in the map are the names contributed to. */
  lemma {:induction false} GroupNames(es: seq<Slice>, n: string)
    ensures n in Names(Group(es)) <==> exists e :: e in es && e.name == n
  {
    if es != [] {
      var init, last := es[..|es| - 1], es[|es| - 1];
      GroupNames(init, n);
      GroupDistinct(init);
      AddToProps(Group(init), last.name, last.value);
      assert es == init + [last];
    }
  }

  /** A name nobody contributed to adds up to 0. */
  lemma {:induction false} SumOfAbsent(es: seq<Slice>, name: string)
    requires forall e :: e in es ==> e.name != name
    ensures SumOf(es, name) == 0
  {
    if es != [] {
      assert es == es[..|es| - 1] + [es[|es| - 1]];
      SumOfAbsent(es[..|es| - 1], name);
    }
  }

  /** Each entry of the map holds the sum of the contributions under its name. */
  lemma {:induction false} GroupValues(es: seq<Slice>)
    ensures forall j :: 0 <= j < |Group(es)| ==> Group(es)[j].value == SumOf(es, Group(es)[j].name)
  {
    if es != [] {
      var init, last := es[..|es| - 1], es[|es| - 1];
      GroupValues(init);
      GroupDistinct(init);
      var g, r := Group(init), Group(es);
      assert r == AddTo(g, last.name, last.value);
      var k := IndexOfName(g, last.name);
      if k < 0 {
        GroupNames(init, last.name);
        SumOfAbsent(init, last.name);
      }
      forall j | 0 <= j < |r| ensures r[j].value == SumOf(es, r[j].name) {
        assert SumOf(es, r[j].name) == SumOf(init, r[j].name) + (if last.name == r[j].name then last.value else 0);
        if j < |g| {
          assert r[j].name == g[j].name;
          if j != k {
            assert Names(g)[j] == g[j].name;
            assert g[j].name != last.name;
          }
        }
      }
    }
  }

  /** Every contribution lands in exactly one entry: the map adds up to the sum
      of the contributions. */
  lemma {:induction false} GroupTotal(es: seq<Slice>)
    ensures SumValues(Group(es)) == SumValues(es)
  {
    if es != [] {
      var init, last := es[..|es| - 1], es[|es| - 1];
      GroupTotal(init);
      GroupDistinct(init);
      AddToProps(Group(init), last.name, last.value);
      assert es == init + [last];
      SumValuesAppend(init, last);
    }
  }

  /** Together the contributions are the counted revenue. */
  lemma {:induction false} EntriesTotal(ps: seq<Proyecto>)
    ensures SumValues(Entries(ps)) == CountedTotal(ps)
  {
    if ps != [] {
      var init, last := ps[..|ps| - 1], ps[|ps| - 1];
      EntriesTotal(init);
      if Counted(last) {
        var e := Slice(ServiceKey(last.servicioContratado), last.precio.value);
        assert Entries(ps) == Entries(init) + [e];
        SumValuesAppend(Entries(init), e);
      } else {
        assert Entries(ps) == Entries(init);
      }
    }
  }

  /** The contributions are those of the counted records. */
  lemma {:induction false} EntriesMembers(ps: seq<Proyecto>)
    ensures forall e :: e in Entries(ps) <==>
      exists p :: p in ps && Counted(p) && e == Slice(ServiceKey(p.servicioContratado), p.precio.value)
  {
    if ps != [] {
      var init, last := ps[..|ps| - 1], ps[|ps| - 1];
      EntriesMembers(init);
      assert ps == init + [last];
    }
  }

  /** The breakdown: every service once, named after the counted records, each
      with its records' revenue, all of it adding up to the counted revenue. */
  lemma ServiceGroupsProps(ps: seq<Proyecto>)
    ensures DistinctNames(ServiceGroups(ps))
    ensures forall n :: n in Names(ServiceGroups(ps)) <==>
      exists p :: p in ps && Counted(p) && ServiceKey(p.servicioContratado) == n
    ensures forall j :: 0 <= j < |ServiceGroups(ps)| ==>
      ServiceGroups(ps)[j].value == SumOf(Entries(ps), ServiceGroups(ps)[j].name)
    ensures SumValues(ServiceGroups(ps)) == CountedTotal(ps)
  {
    var es := Entries(ps);
    GroupDistinct(es);
    GroupValues(es);
    GroupTotal(es);
    EntriesTotal(ps);
    forall n ensures n in Names(ServiceGroups(ps)) <==> exists p :: p in ps && Counted(p) && ServiceKey(p.servicioContratado) == n {
      ServiceGroupNamed(ps, n);
    }
  }

  /** A service has a group exactly when a counted record is keyed by it. */
  lemma ServiceGroupNamed(ps: seq<Proyecto>, n: string)
    ensures n in Names(ServiceGroups(ps)) <==> exists p :: p in ps && Counted(p) && ServiceKey(p.servicioContratado) == n
  {
    var es := Entries(ps);
    GroupNames(es, n);
    EntriesMembers(ps);
    if n in Names(ServiceGroups(ps)) {
      var e :| e in es && e.name == n;
      var p :| p in ps && Counted(p) && e == Slice(ServiceKey(p.servicioContratado), p.precio.value);
      assert ServiceKey(p.servicioContratado) == n;
    }
    if exists p :: p in ps && Counted(p) && ServiceKey(p.servicioContratado) == n {
      var p :| p in ps && Counted(p) && ServiceKey(p.servicioContratado) == n;
      assert Slice(n, p.precio.value) in es;
    }
  }

  /** `servicesData`: the groups with a positive value, largest first. */
  function Descending(s: Slice): int
  {
    -s.value
  }

  function Positive(groups: seq<Slice>): (r: seq<Slice>)
    ensures forall x :: x in r <==> x in groups && x.value > 0
  {
    if groups == [] then []
    else
      assert groups == [groups[0]] + groups[1..];
      (if groups[0].value > 0 then [groups[0]] else []) + Positive(groups[1..])
  }

  function ServicesData(groups: seq<Slice>): (r: seq<Slice>)
    ensures multiset(r) == multiset(Positive(groups))
    ensures Sorting.SortedBy(r, Descending)
  {
    Sorting.SortBy(Positive(groups), Descending)
  }

  lemma {:induction false} SumValuesInsert(x: Slice, s: seq<Slice>)
    requires Sorting.SortedBy(s, Descending)
    ensures SumValues(Sorting.Insert(x, s, Descending)) == x.value + SumValues(s)
  {
    if s != [] && Descending(x) > Descending(s[0]) {
      SumValuesInsert(x, s[1..]);
      var r := Sorting.Insert(x, s, Descending);
      assert r[1..] == Sorting.Insert(x, s[1..], Descending);
    }
  }

  lemma {:induction false} SumValuesSort(s: seq<Slice>)
    ensures SumValues(Sorting.SortBy(s, Descending)) == SumValues(s)
  {
    if s != [] {
      SumValuesSort(s[1..]);
      SumValuesInsert(s[0], Sorting.SortBy(s[1..], Descending));
    }
  }

  lemma {:induction false} PositiveOfPositive(groups: seq<Slice>)
    requires forall j :: 0 <= j < |groups| ==> groups[j].value > 0
    ensures Positive(groups) == groups
  {
    if groups != [] {
      PositiveOfPositive(groups[1..]);
      assert groups == [groups[0]] + groups[1..];
    }
  }

  /** Dropping the groups that are not positive never lowers the sum, and keeps
      it when no group is negative. */
  lemma {:induction false} SumValuesPositive(groups: seq<Slice>)
    ensures SumValues(Positive(groups)) >= SumValues(groups)
    ensures (forall j :: 0 <= j < |groups| ==> groups[j].value >= 0) ==> SumValues(Positive(groups)) == SumValues(groups)
  {
    if groups != [] {
      var x, rest := groups[0], groups[1..];
      SumValuesPositive(rest);
      var tail := Positive(rest);
      if x.value > 0 {
        assert Positive(groups) == [x] + tail;
        assert ([x] + tail)[1..] == tail;
      } else {
        assert Positive(groups) == tail;
      }
      if forall j :: 0 <= j < |groups| ==> groups[j].value >= 0 {
        assert forall j :: 0 <= j < |rest| ==> rest[j].value >= 0 by {
          forall j | 0 <= j < |rest| ensures rest[j].value >= 0 {
            assert rest[j] == groups[j + 1];
          }
        }
      }
    }
  }

  /** The pie data holds exactly the positive groups, each once, largest first;
      it never adds up to less than the breakdown, and to exactly the breakdown
      when no group is negative. */
  lemma ServicesDataProps(groups: seq<Slice>)
    ensures forall x :: x in ServicesData(groups) <==> x in groups && x.value > 0
    ensures multiset(ServicesData(groups)) == multiset(Positive(groups))
    ensures forall i, j :: 0 <= i < j < |ServicesData(groups)| ==> ServicesData(groups)[i].value >= ServicesData(groups)[j].value
    ensures SumValues(ServicesData(groups)) >= SumValues(groups)
    ensures (forall j :: 0 <= j < |groups| ==> groups[j].value >= 0) ==> SumValues(ServicesData(groups)) == SumValues(groups)
  {
    var r := ServicesData(groups);
    forall x ensures x in r <==> x in groups && x.value > 0 {
      assert x in r <==> x in multiset(r);
      assert x in Positive(groups) <==> x in multiset(Positive(groups));
    }
    forall i, j | 0 <= i < j < |r| ensures r[i].value >= r[j].value {
      assert Descending(r[i]) <= Descending(r[j]);
    }
    SumValuesSort(Positive(groups));
    SumValuesPositive(groups);
  }

  /** With positive contributions, every name contributed to sums to more than 0. */
  lemma {:induction false} SumOfPositive(es: seq<Slice>, name: string)
    requires forall e :: e in es ==> e.value > 0
    requires exists e :: e in es && e.name == name
    ensures SumOf(es, name) > 0
  {
    var init, last := es[..|es| - 1], es[|es| - 1];
    assert es == init + [last];
    SumOfNonNegative(init, name);
    if last.name != name {
      SumOfPositive(init, name);
    }
  }

  lemma {:induction false} SumOfNonNegative(es: seq<Slice>, name: string)
    requires forall e :: e in es ==> e.value >= 0
    ensures SumOf(es, name) >= 0
  {
    if es != [] {
      assert es == es[..|es| - 1] + [es[|es| - 1]];
      SumOfNonNegative(es[..|es| - 1], name);
    }
  }

  lemma {:induction false} EntriesPositive(ps: seq<Proyecto>)
    requires forall p :: p in ps && Counted(p) ==> p.precio.value > 0
    ensures forall e :: e in Entries(ps) ==> e.value > 0
  {
    if ps != [] {
      var init, last := ps[..|ps| - 1], ps[|ps| - 1];
      assert ps == init + [last];
      EntriesPositive(init);
    }
  }

  lemma {:induction false} EntriesNonNegative(ps: seq<Proyecto>)
    requires forall p :: p in ps && Counted(p) ==> p.precio.value >= 0
    ensures forall e :: e in Entries(ps) ==> e.value >= 0
  {
    if ps != [] {
      var init, last := ps[..|ps| - 1], ps[|ps| - 1];
      assert ps == init + [last];
      EntriesNonNegative(init);
    }
  }

  /** With no counted price negative (prices are typed as digits, and a save
      writes 0 for an empty one), no group is negative. */
  lemma ServiceGroupsNonNegative(ps: seq<Proyecto>)
    requires forall p :: p in ps && Counted(p) ==> p.precio.value >= 0
    ensures forall j :: 0 <= j < |ServiceGroups(ps)| ==> ServiceGroups(ps)[j].value >= 0
  {
    var es := Entries(ps);
    EntriesNonNegative(ps);
    GroupValues(es);
    forall j | 0 <= j < |ServiceGroups(ps)| ensures ServiceGroups(ps)[j].value >= 0 {
      SumOfNonNegative(es, ServiceGroups(ps)[j].name);
    }
  }

  /** With every counted price positive, every group is positive, so the filter
      drops none of them. */
  lemma ServiceGroupsPositive(ps: seq<Proyecto>)
    requires forall p :: p in ps && Counted(p) ==> p.precio.value > 0
    ensures forall j :: 0 <= j < |ServiceGroups(ps)| ==> ServiceGroups(ps)[j].value > 0
    ensures Positive(ServiceGroups(ps)) == ServiceGroups(ps)
  {
    var es := Entries(ps);
    var g := Group(es);
    EntriesPositive(ps);
    GroupValues(es);
    forall j | 0 <= j < |g| ensures g[j].value > 0 {
      assert Names(g)[j] == g[j].name;
      GroupNames(es, g[j].name);
      SumOfPositive(es, g[j].name);
    }
    PositiveOfPositive(g);
  }

  /** The pie never adds up to less than the revenue of the counted records, and
      adds up to exactly that revenue when no counted price is negative (groups
      of 0 drop out without changing the sum). */
  lemma ServicesDataTotal(ps: seq<Proyecto>)
    ensures SumValues(ServicesData(ServiceGroups(ps))) >= CountedTotal(ps)
    ensures (forall p :: p in ps && Counted(p) ==> p.precio.value >= 0) ==>
      SumValues(ServicesData(ServiceGroups(ps))) == CountedTotal(ps)
  {
    if forall p :: p in ps && Counted(p) ==> p.precio.value >= 0 {
      ServiceGroupsNonNegative(ps);
    }
    GroupTotal(Entries(ps));
    EntriesTotal(ps);
    ServicesDataProps(ServiceGroups(ps));
  }

  // ---------------------------------------------------------------------------
  // The panel

  /** What the panel draws: nothing, or the two charts. */
  datatype Charts = Charts(barData: seq<BarPoint>, servicesData: seq<Slice>)

  /** The whole panel: both derivations, and nothing at all when both are empty. */
  method Panel(ps: seq<Proyecto>) returns (view: Option<Charts>)
    ensures view.None? <==> Series(ps) == [] && ServicesData(ServiceGroups(ps)) == []
    ensures view.Some? ==> view.value == Charts(Series(ps), ServicesData(ServiceGroups(ps)))
  {
    var barData := MonthlySeries(ps);
    var serviceMap := ServiceMap(ps);
    var servicesData := Sorting.SortBy(Positive(serviceMap), Descending);
    if |barData| == 0 && |servicesData| == 0 {
      return None;
    }
    return Some(Charts(barData, servicesData));
  }

  /** A billed record shows up in the monthly series, so the panel is drawn. */
  lemma BilledRecordDrawsPanel(ps: seq<Proyecto>, p: Proyecto)
    requires p in ps && Billed(p)
    ensures Series(ps) != []
  {
    assert p in BilledWithDate(ps);
    SeriesLength(ps);
  }
}
