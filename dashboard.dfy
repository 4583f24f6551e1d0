/**
 * The dashboard (src/components/dashboard.tsx): the searchable, sortable
 * project table, the payment KPIs, the yearly sales totals, the edit and save
 * handlers, and the component's state.
 */
module Dashboard {
  import opened Wrappers
  import opened Records
  import Text
  import ServiceName
  import Sorting
  import Calendar
  import Analytics
  import ProjectForm
  import UserProfile

  // ---------------------------------------------------------------------------
  // Badges

  /** The colours the status badges use. */
  datatype Tone = Blue | Emerald | Amber | Red | Muted

  /** The work-status badge, by the lower-cased status ("" when absent). */
  function EstadoTone(estado: Option<string>): (t: Tone)
    ensures t == Blue <==> Text.Lower(OrElse(estado, "")) == "agendado!"
    ensures t == Emerald <==> Text.Lower(OrElse(estado, "")) == "curso hecho :)"
    ensures t == Muted <==> Text.Lower(OrElse(estado, "")) != "agendado!" && Text.Lower(OrElse(estado, "")) != "curso hecho :)"
    ensures t != Red && t != Amber
    ensures estado.None? ==> t == Muted
  {
    var lower := Text.Lower(OrElse(estado, ""));
    if lower == "agendado!" then Blue
    else if lower == "curso hecho :)" then Emerald
    else Muted
  }

  /** The payment badge: red, emerald and amber mark exactly the records that
      the three KPIs count, and every other record is muted. */
  function EstadoPagoTone(p: Proyecto): (t: Tone)
    ensures t == Red <==> PaymentIs(p, PorFacturar)
    ensures t == Emerald <==> PaymentIs(p, PagoCompleto)
    ensures t == Amber <==> PaymentIs(p, EsperandoPago)
    ensures t == Muted <==> !PaymentIs(p, PorFacturar) && !PaymentIs(p, PagoCompleto) && !PaymentIs(p, EsperandoPago)
  {
    var lower := Text.Lower(OrElse(p.estadoPago, ""));
    assert p.estadoPago.None? ==> lower == "";
    if lower == PagoCompleto then Emerald
    else if lower == EsperandoPago then Amber
    else if lower == PorFacturar then Red
    else Muted
  }

  /** The work badge ignores case: a status and its lower-cased form get the same tone. */
  lemma EstadoToneIgnoresCase(e: string)
    ensures EstadoTone(Some(Text.Lower(e))) == EstadoTone(Some(e))
  {
    Text.LowerIdempotent(e);
  }

  /** The form's two work statuses get the two coloured badges. */
  lemma EstadoOptionsColoured()
    ensures EstadoTone(Some(ProjectForm.Estados[0])) == Blue
    ensures EstadoTone(Some(ProjectForm.Estados[1])) == Emerald
  {
    assert Text.Lower("Agendado!") == "agendado!";
    assert Text.Lower("Curso hecho :)") == "curso hecho :)";
  }

  /** The form's three payment statuses get the red, amber and emerald badges. */
  lemma EstadoPagoOptionsColoured(p: Proyecto)
    ensures p.estadoPago == Some(ProjectForm.EstadosPago[0]) ==> EstadoPagoTone(p) == Red
    ensures p.estadoPago == Some(ProjectForm.EstadosPago[1]) ==> EstadoPagoTone(p) == Amber
    ensures p.estadoPago == Some(ProjectForm.EstadosPago[2]) ==> EstadoPagoTone(p) == Emerald
  {
    assert Text.Lower("Por facturar") == PorFacturar;
    assert Text.Lower("esperando pago") == EsperandoPago;
    assert Text.Lower("pago completo") == PagoCompleto;
  }

  // ---------------------------------------------------------------------------
  // Search

  /** `p.cliente?.toLowerCase().includes(q)`: a record without a client never matches. */
  predicate MatchesSearch(p: Proyecto, q: string)
  {
    p.cliente.Some? && Text.Contains(Text.Lower(p.cliente.value), q)
  }

  function Matching(ps: seq<Proyecto>, q: string): (r: seq<Proyecto>)
    ensures forall p :: p in r <==> p in ps && MatchesSearch(p, q)
    ensures forall p :: MatchesSearch(p, q) ==> multiset(r)[p] == multiset(ps)[p]
    ensures multiset(r) <= multiset(ps)
  {
    if ps == [] then []
    else
      var init, last := ps[..|ps| - 1], ps[|ps| - 1];
      assert ps == init + [last];
      Matching(init, q) + (if MatchesSearch(last, q) then [last] else [])
  }

  /** The search step: a blank search keeps every record; otherwise the records
      whose lower-cased client contains the lower-cased query, untrimmed. */
  function SearchFilter(ps: seq<Proyecto>, search: string): (r: seq<Proyecto>)
    ensures Text.AllSpace(search) ==> r == ps
    ensures !Text.AllSpace(search) ==> forall p :: p in r <==> p in ps && MatchesSearch(p, Text.Lower(search))
    ensures !Text.AllSpace(search) ==> forall p :: MatchesSearch(p, Text.Lower(search)) ==> multiset(r)[p] == multiset(ps)[p]
    ensures multiset(r) <= multiset(ps)
  {
    Text.TrimEmptyIffBlank(search);
    if Text.Trim(search) == "" then ps else Matching(ps, Text.Lower(search))
  }

  // ---------------------------------------------------------------------------
  // Sort

  datatype SortKey = ByCliente | ByPrecio | ByFechaTerminado

  datatype Direction = Asc | Desc

  function Sign(d: Direction): int
  {
    if d == Asc then 1 else -1
  }

  /** What a row is compared by: the price (0 when missing), the date's time
      (0 when missing), or the client's collation rank (of "" when missing). */
  function SortValue(p: Proyecto, key: SortKey, collate: string -> int): int
  {
    match key
    case ByPrecio => PriceOrZero(p)
    case ByFechaTerminado => if p.fechaTerminado.Some? then Calendar.TimeMillis(p.fechaTerminado.value) else 0
    case ByCliente => collate(OrElse(p.cliente, ""))
  }

  /** The comparator `(a - b) * dir` orders ascending by `dir * value`. */
  function Rank(key: SortKey, dir: Direction, collate: string -> int): Proyecto -> int
  {
    p => Sign(dir) * SortValue(p, key, collate)
  }

  /** The `filtered` memo: the search result, sorted. It holds the searched
      rows, each as often as there, in the chosen direction of the key. */
  function Filtered(ps: seq<Proyecto>, search: string, key: SortKey, dir: Direction, collate: string -> int): (r: seq<Proyecto>)
    ensures multiset(r) == multiset(SearchFilter(ps, search))
    ensures dir == Asc ==> forall i, j :: 0 <= i < j < |r| ==> SortValue(r[i], key, collate) <= SortValue(r[j], key, collate)
    ensures dir == Desc ==> forall i, j :: 0 <= i < j < |r| ==> SortValue(r[i], key, collate) >= SortValue(r[j], key, collate)
  {
    var r := Sorting.SortBy(SearchFilter(ps, search), Rank(key, dir, collate));
    RankedInDirection(r, key, dir, collate);
    r
  }

  /** Rows sorted by `Rank` are in the chosen direction of the key. */
  lemma RankedInDirection(r: seq<Proyecto>, key: SortKey, dir: Direction, collate: string -> int)
    requires Sorting.SortedBy(r, Rank(key, dir, collate))
    ensures dir == Asc ==> forall i, j :: 0 <= i < j < |r| ==> SortValue(r[i], key, collate) <= SortValue(r[j], key, collate)
    ensures dir == Desc ==> forall i, j :: 0 <= i < j < |r| ==> SortValue(r[i], key, collate) >= SortValue(r[j], key, collate)
  {
    assert forall i, j :: 0 <= i < j < |r| ==> Rank(key, dir, collate)(r[i]) <= Rank(key, dir, collate)(r[j]);
  }

  /** Rows that tie on the key keep their order in the table (the order the rows
      were fetched in): the sort is stable. */
  lemma FilteredStable(ps: seq<Proyecto>, search: string, key: SortKey, dir: Direction, collate: string -> int, k: int)
    ensures Sorting.WithKey(Filtered(ps, search, key, dir, collate), Rank(key, dir, collate), k)
         == Sorting.WithKey(SearchFilter(ps, search), Rank(key, dir, collate), k)
  {
    Sorting.SortByStable(SearchFilter(ps, search), Rank(key, dir, collate), k);
  }

  /** A row without a date sorts as 1970-01-01: ascending, it comes before every
      row dated after that day (and after every row dated before it). */
  lemma UndatedSortsAsEpoch(r: seq<Proyecto>, ps: seq<Proyecto>, search: string, collate: string -> int, i: int, j: int)
    requires r == Filtered(ps, search, ByFechaTerminado, Asc, collate)
    requires 0 <= i < |r| && 0 <= j < |r|
    requires r[i].fechaTerminado.None? && r[j].fechaTerminado.Some?
    ensures Calendar.EpochDay(r[j].fechaTerminado.value) > 0 ==> i < j
    ensures Calendar.EpochDay(r[j].fechaTerminado.value) < 0 ==> j < i
  {
    assert SortValue(r[i], ByFechaTerminado, collate) == 0;
  }

  // ---------------------------------------------------------------------------
  // KPIs

  /** The sum of the prices (0 when missing) of the records whose lower-cased
      payment status is `status`. */
  function KpiSum(ps: seq<Proyecto>, status: string): (r: int)
    ensures (forall p :: p in ps ==> !PaymentIs(p, status)) ==> r == 0
  {
    if ps == [] then 0
    else
      var last := ps[|ps| - 1];
      KpiSum(ps[..|ps| - 1], status) + (if PaymentIs(last, status) then PriceOrZero(last) else 0)
  }

  /** The records none of the three KPIs counts. */
  predicate Unlabelled(p: Proyecto)
  {
    !PaymentIs(p, PorFacturar) && !PaymentIs(p, PagoCompleto) && !PaymentIs(p, EsperandoPago)
  }

  function UnlabelledSum(ps: seq<Proyecto>): int
  {
    if ps == [] then 0
    else
      var last := ps[|ps| - 1];
      UnlabelledSum(ps[..|ps| - 1]) + (if Unlabelled(last) then PriceOrZero(last) else 0)
  }

  datatype Kpis = Kpis(facturacionPendiente: int, cajaReal: int, porCobrar: int)

  function KpisOf(ps: seq<Proyecto>): Kpis
  {
    Kpis(KpiSum(ps, PorFacturar), KpiSum(ps, PagoCompleto), KpiSum(ps, EsperandoPago))
  }

  /** No record carries two of the labels. */
  lemma LabelsDisjoint(p: Proyecto)
    ensures !(PaymentIs(p, PorFacturar) && PaymentIs(p, PagoCompleto))
    ensures !(PaymentIs(p, PorFacturar) && PaymentIs(p, EsperandoPago))
    ensures !(PaymentIs(p, PagoCompleto) && PaymentIs(p, EsperandoPago))
  {
    assert |PorFacturar| == 12 && |PagoCompleto| == 13 && |EsperandoPago| == 14;
  }

  /** The three KPIs and the unlabelled records split the total of all prices. */
  lemma {:induction false} KpiPartition(ps: seq<Proyecto>)
    ensures KpiSum(ps, PorFacturar) + KpiSum(ps, PagoCompleto) + KpiSum(ps, EsperandoPago) + UnlabelledSum(ps) == TotalPrice(ps)
  {
    if ps != [] {
      KpiPartition(ps[..|ps| - 1]);
      LabelsDisjoint(ps[|ps| - 1]);
    }
  }

  lemma {:induction false} SumsNonNegative(ps: seq<Proyecto>, status: string)
    requires forall p :: p in ps ==> PriceOrZero(p) >= 0
    ensures KpiSum(ps, status) >= 0 && UnlabelledSum(ps) >= 0
  {
    if ps != [] {
      assert ps == ps[..|ps| - 1] + [ps[|ps| - 1]];
      SumsNonNegative(ps[..|ps| - 1], status);
    }
  }

  /** With no negative price, the three KPIs together never exceed the total. */
  lemma KpisWithinTotal(ps: seq<Proyecto>)
    requires forall p :: p in ps ==> PriceOrZero(p) >= 0
    ensures var k := KpisOf(ps);
      0 <= k.facturacionPendiente && 0 <= k.cajaReal && 0 <= k.porCobrar
      && k.facturacionPendiente + k.cajaReal + k.porCobrar <= TotalPrice(ps)
  {
    KpiPartition(ps);
    SumsNonNegative(ps, PorFacturar);
    SumsNonNegative(ps, PagoCompleto);
    SumsNonNegative(ps, EsperandoPago);
  }

  /** The invoicing backlog and the revenue the service chart counts make up the total. */
  lemma {:induction false} BacklogPlusCharted(ps: seq<Proyecto>)
    ensures KpiSum(ps, PorFacturar) + Analytics.CountedTotal(ps) == TotalPrice(ps)
  {
    if ps != [] {
      BacklogPlusCharted(ps[..|ps| - 1]);
    }
  }

  // ---------------------------------------------------------------------------
  // Sales by year

  /** A sale the year totals count: it has a date and a price. */
  predicate DatedSale(p: Proyecto)
  {
    p.fechaTerminado.Some? && p.precio.Some?
  }

  function YearSum(ps: seq<Proyecto>, year: int): (r: int)
    ensures (forall p :: p in ps && DatedSale(p) ==> p.fechaTerminado.value.year != year) ==> r == 0
  {
    if ps == [] then 0
    else
      var last := ps[|ps| - 1];
      YearSum(ps[..|ps| - 1], year)
        + (if DatedSale(last) && last.fechaTerminado.value.year == year then last.precio.value else 0)
  }

  datatype YearTotals = YearTotals(y2024: int, y2025: int, y2026: int)

  /** `ventasPorAnio`: the totals by year accumulated in a map, of which the
      three years shown are read back, 0 for a year without sales. */
  method VentasPorAnio(ps: seq<Proyecto>) returns (totals: YearTotals)
    ensures totals == YearTotals(YearSum(ps, 2024), YearSum(ps, 2025), YearSum(ps, 2026))
  {
    var byYear: map<int, int> := map[];
    for i := 0 to |ps|
      invariant forall y :: y in byYear ==> byYear[y] == YearSum(ps[..i], y)
      invariant forall y :: y !in byYear ==> YearSum(ps[..i], y) == 0
    {
      var p := ps[i];
      assert ps[..i + 1][..i] == ps[..i];
      if p.fechaTerminado.None? || p.precio.None? {
        continue;
      }
      var year := p.fechaTerminado.value.year;
      byYear := byYear[year := (if year in byYear then byYear[year] else 0) + p.precio.value];
    }
    assert ps[..|ps|] == ps;
    totals := YearTotals(
      if 2024 in byYear then byYear[2024] else 0,
      if 2025 in byYear then byYear[2025] else 0,
      if 2026 in byYear then byYear[2026] else 0);
  }

  /** The twelve monthly totals of a year, as the revenue chart computes them, added up. */
  function MonthsOfYear(ps: seq<Proyecto>, year: int, k: nat): int
    requires k <= 12
  {
    if k == 0 then 0 else MonthsOfYear(ps, year, k - 1) + Analytics.MonthTotal(ps, Analytics.YearMonth(year, k - 1))
  }

  lemma {:induction false} MonthsOfYearStep(ps: seq<Proyecto>, year: int, k: nat)
    requires ps != [] && k <= 12
    ensures var last := ps[|ps| - 1];
      MonthsOfYear(ps, year, k) == MonthsOfYear(ps[..|ps| - 1], year, k)
        + (if Analytics.Billed(last) && last.fechaTerminado.value.year == year && last.fechaTerminado.value.month < k
           then last.precio.value else 0)
  {
    if k > 0 {
      MonthsOfYearStep(ps, year, k - 1);
    }
  }

  lemma {:induction false} MonthsOfNothing(year: int, k: nat)
    requires k <= 12
    ensures MonthsOfYear([], year, k) == 0
  {
    if k > 0 {
      MonthsOfNothing(year, k - 1);
    }
  }

  /** The year total of the records the revenue chart counts is the sum of that
      year's twelve monthly totals. */
  lemma {:induction false} YearIsItsMonths(ps: seq<Proyecto>, year: int)
    ensures YearSum(Analytics.BilledWithDate(ps), year) == MonthsOfYear(ps, year, 12)
  {
    if ps == [] {
      MonthsOfNothing(year, 12);
    } else {
      var init, last := ps[..|ps| - 1], ps[|ps| - 1];
      YearIsItsMonths(init, year);
      MonthsOfYearStep(ps, year, 12);
      var b := Analytics.BilledWithDate(init);
      if Analytics.Billed(last) {
        assert Analytics.BilledWithDate(ps) == b + [last];
        assert (b + [last])[..|b|] == b;
        assert YearSum(b + [last], year) == YearSum(b, year) + (if last.fechaTerminado.value.year == year then last.precio.value else 0);
      } else {
        assert Analytics.BilledWithDate(ps) == b;
      }
    }
  }

  // ---------------------------------------------------------------------------
  // Editing and saving

  /** The service shown when a record is edited: its normalised name, or the
      stored text as it is when that normalises to nothing. */
  function EditService(sc: Option<string>): string
  {
    var n := ServiceName.NormalizeServicio(sc);
    if n != "" then n else OrElse(sc, "")
  }

  /** `handleEdit`: the record as form data, missing fields as empty ones. */
  function EditForm(p: Proyecto): (d: ProjectForm.ProyectoData)
    ensures ProjectForm.TruthyId(d.id) <==> p.id != 0
    ensures d.precio.Blank? <==> p.precio.None?
    ensures p.precio.Some? ==> d.precio == ProjectForm.Amount(p.precio.value)
    ensures d.fechaTerminado == p.fechaTerminado
  {
    ProjectForm.ProyectoData(
      Some(p.id),
      OrElse(p.cliente, ""),
      EditService(p.servicioContratado),
      OrElse(p.estado, ""),
      if p.precio.Some? then ProjectForm.Amount(p.precio.value) else ProjectForm.Blank,
      OrElse(p.contacto, ""),
      OrElse(p.estadoPago, ""),
      p.fechaTerminado)
  }

  /** The row written by a save. */
  datatype Payload = Payload(
    cliente: string,
    servicioContratado: string,
    estado: string,
    precio: int,
    contacto: string,
    estadoPago: string,
    fechaTerminado: Option<Date>)

  /** The payload: an empty price is written as 0, an empty date as null. */
  function PayloadOf(d: ProjectForm.ProyectoData): (w: Payload)
    ensures d.precio.Blank? ==> w.precio == 0
    ensures d.precio.Amount? ==> w.precio == d.precio.value
    ensures w.fechaTerminado == d.fechaTerminado
  {
    Payload(d.cliente, d.servicioContratado, d.estado,
      if d.precio.Blank? then 0 else d.precio.value,
      d.contacto, d.estadoPago, d.fechaTerminado)
  }

  datatype Write = Insert(payload: Payload) | Update(id: int, payload: Payload) | Delete(rowId: int)

  /** A truthy id updates that row; otherwise a new row is inserted. */
  function WriteFor(d: ProjectForm.ProyectoData): (w: Write)
    ensures w.Update? <==> ProjectForm.TruthyId(d.id)
    ensures w.Update? ==> w.id == d.id.value
    ensures !w.Delete? && w.payload == PayloadOf(d)
  {
    if ProjectForm.TruthyId(d.id) then Update(d.id.value, PayloadOf(d)) else Insert(PayloadOf(d))
  }

  /** What a save or delete does: the write it issues, the error it throws, and
      whether the table is fetched again. */
  datatype Effect = Effect(write: Option<Write>, thrown: Option<string>, reload: bool)

  /** `handleSave`, with `failure` the store's answer to the write (`None` on success). */
  function HandleSave(configured: bool, d: ProjectForm.ProyectoData, failure: Option<string>): (e: Effect)
    ensures e.write.Some? <==> configured
    ensures e.write.Some? ==> e.write.value == WriteFor(d)
    ensures e.thrown == (if configured then failure else None)
    ensures e.reload <==> configured && failure.None?
  {
    if !configured then Effect(None, None, false)
    else Effect(Some(WriteFor(d)), failure, failure.None?)
  }

  /** `handleDelete`, likewise. */
  function HandleDelete(configured: bool, id: int, failure: Option<string>): (e: Effect)
    ensures e.write.Some? <==> configured
    ensures e.write.Some? ==> e.write.value == Delete(id)
    ensures e.thrown == (if configured then failure else None)
    ensures e.reload <==> configured && failure.None?
  {
    if !configured then Effect(None, None, false)
    else Effect(Some(Delete(id)), failure, failure.None?)
  }

  /** Saving an unchanged edit writes the record back with the service normalised,
      a missing text field as "" and a missing price as 0, and updates the record
      when its id is not 0. */
  lemma EditThenSave(p: Proyecto)
    ensures WriteFor(EditForm(p)).payload
         == Payload(OrElse(p.cliente, ""), EditService(p.servicioContratado), OrElse(p.estado, ""),
                    OrElse(p.precio, 0), OrElse(p.contacto, ""), OrElse(p.estadoPago, ""), p.fechaTerminado)
    ensures WriteFor(EditForm(p)).Update? <==> p.id != 0
  {
  }

  /** Editing a saved record again shows the same service: the edit is settled after one save. */
  lemma EditServiceSettles(sc: Option<string>)
    ensures EditService(Some(EditService(sc))) == EditService(sc)
  {
    var n := ServiceName.NormalizeServicio(sc);
    ServiceName.NormalizeIdempotent(sc);
    if n == "" {
      var raw := OrElse(sc, "");
      assert ServiceName.Blank(sc);
      assert ServiceName.NormalizeServicio(Some(raw)) == "";
    }
  }

  // ---------------------------------------------------------------------------
  // The component's state

  /** The sort header's state. */
  datatype SortState = SortState(key: SortKey, direction: Direction)

  const InitialSort: SortState := SortState(ByFechaTerminado, Desc)

  /** `handleSort`: the same key flips the direction; a new key starts
      ascending for the client and descending otherwise. */
  function NextSort(s: SortState, clicked: SortKey): (r: SortState)
    ensures r.key == clicked
    ensures clicked == s.key ==> r.direction != s.direction
    ensures clicked != s.key ==> (r.direction == Asc <==> clicked == ByCliente)
  {
    if s.key == clicked then SortState(clicked, if s.direction == Asc then Desc else Asc)
    else SortState(clicked, if clicked == ByCliente then Asc else Desc)
  }

  /** Clicking the same header twice restores the sort. */
  lemma SortTwiceRestores(s: SortState)
    ensures NextSort(NextSort(s, s.key), s.key) == s
  {
  }

  /** What the table fetch returned. */
  datatype FetchResult = Fetched(data: Option<seq<Proyecto>>) | FetchFailed(message: string)

  const NotConfiguredMessage: string :=
    "Supabase no configurado. Agrega NEXT_PUBLIC_SUPABASE_URL y NEXT_PUBLIC_SUPABASE_ANON_KEY en .env.local"

  class DashboardState {
    var proyectos: seq<Proyecto>
    var loading: bool
    var error: Option<string>
    var user: Option<UserProfile.DashboardUser>
    var search: string
    var sort: SortState
    var modalOpen: bool
    var editingProject: Option<ProjectForm.ProyectoData>

    constructor(initialUser: Option<UserProfile.DashboardUser>)
      ensures proyectos == [] && loading && error.None? && user == initialUser && search == ""
      ensures sort == InitialSort && !modalOpen && editingProject.None?
    {
      proyectos := [];
      loading := true;
      error := None;
      user := initialUser;
      search := "";
      sort := InitialSort;
      modalOpen := false;
      editingProject := None;
    }

    /** The rows the table shows. */
    function Rows(collate: string -> int): (r: seq<Proyecto>)
      reads this
      ensures multiset(r) == multiset(SearchFilter(proyectos, search))
      ensures sort.direction == Asc ==> forall i, j :: 0 <= i < j < |r| ==>
        SortValue(r[i], sort.key, collate) <= SortValue(r[j], sort.key, collate)
      ensures sort.direction == Desc ==> forall i, j :: 0 <= i < j < |r| ==>
        SortValue(r[i], sort.key, collate) >= SortValue(r[j], sort.key, collate)
    {
      Filtered(proyectos, search, sort.key, sort.direction, collate)
    }

    /** The analytics panel is mounted once loaded with at least one record. */
    predicate ShowsAnalytics()
      reads this
    {
      !loading && |proyectos| > 0
    }

    /** `fetchProyectos`: without a configured store, the configuration message;
        otherwise the rows (none when the answer has no data) or the error's message. */
    method FetchProyectos(configured: bool, result: FetchResult)
      modifies this`proyectos, this`loading, this`error
      ensures !loading
      ensures !configured ==> error == Some(NotConfiguredMessage) && proyectos == old(proyectos)
      ensures configured && result.FetchFailed? ==> error == Some(result.message) && proyectos == old(proyectos)
      ensures configured && result.Fetched? ==> proyectos == OrElse(result.data, []) && error == old(error)
      ensures configured && result.Fetched? ==> (ShowsAnalytics() <==> OrElse(result.data, []) != [])
      ensures !(configured && result.Fetched?) ==> (ShowsAnalytics() <==> old(proyectos) != [])
    {
      if !configured {
        error := Some(NotConfiguredMessage);
        loading := false;
        return;
      }
      match result {
        case FetchFailed(message) =>
          error := Some(message);
        case Fetched(data) =>
          proyectos := OrElse(data, []);
      }
      loading := false;
    }

    /** The auth listener's `applyUser`: a signed-in user replaces the shown one. */
    method ApplyUser(u: Option<UserProfile.AuthUser>)
      modifies this`user
      ensures user == if u.Some? then Some(UserProfile.DisplayUser(u.value)) else old(user)
    {
      if u.None? {
        return;
      }
      user := Some(UserProfile.DisplayUser(u.value));
    }

    /** Typing in the search box changes the search only; the stored rows keep their order. */
    method SetSearch(text: string)
      modifies this`search
      ensures search == text
    {
      search := text;
    }

    method HandleSort(key: SortKey)
      modifies this`sort
      ensures sort == NextSort(old(sort), key)
    {
      if sort.key == key {
        sort := sort.(direction := if sort.direction == Asc then Desc else Asc);
      } else {
        sort := SortState(key, if key == ByCliente then Asc else Desc);
      }
    }

    /** `handleNew`: the dialog opens on an empty, new project. */
    method HandleNew()
      modifies this`editingProject, this`modalOpen
      ensures modalOpen && editingProject.None? && !ProjectForm.IsEditing(editingProject)
    {
      editingProject := None;
      modalOpen := true;
    }

    /** `handleEdit`: the dialog opens on the record's data; it counts as an
        edit unless the record's id is 0. */
    method HandleEdit(p: Proyecto)
      modifies this`editingProject, this`modalOpen
      ensures modalOpen && editingProject == Some(EditForm(p))
      ensures ProjectForm.IsEditing(editingProject) <==> p.id != 0
    {
      var d := EditForm(p);
      assert d.id == Some(p.id);
      editingProject := Some(d);
      modalOpen := true;
    }
  }
}
