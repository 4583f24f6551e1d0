/**
 * The project form dialog (src/components/proyecto-modal.tsx): the form record,
 * its field updates, the price and UF inputs, the service choices, and the
 * open, submit and delete handlers over the dialog's state.
 */
module ProjectForm {
  import opened Wrappers
  import opened Records
  import Text

  /** The price field: empty, or a number of pesos. */
  datatype PriceField = Blank | Amount(value: int)

  /** The form's data. The date input's text is decoded; its empty text is `None`. */
  datatype ProyectoData = ProyectoData(
    id: Option<int>,
    cliente: string,
    servicioContratado: string,
    estado: string,
    precio: PriceField,
    contacto: string,
    estadoPago: string,
    fechaTerminado: Option<Date>)

  const EmptyForm: ProyectoData := ProyectoData(None, "", "", "", Blank, "", "", None)

  const Estados: seq<string> := ["Agendado!", "Curso hecho :)"]
  const EstadosPago: seq<string> := ["Por facturar", "esperando pago", "pago completo"]
  const Servicios: seq<string> :=
    ["Programa acompañamiento", "Talleres IA", "Hands-On grupales", "Cápsulas", "Clases particulares", "Otro"]

  /** JavaScript truthiness of an optional number: present and not 0. */
  predicate TruthyId(id: Option<int>)
  {
    id.Some? && id.value != 0
  }

  /** `isEditing`: the dialog edits a record when its initial data has a truthy id. */
  predicate IsEditing(initialData: Option<ProyectoData>)
  {
    initialData.Some? && TruthyId(initialData.value.id)
  }

  // ---------------------------------------------------------------------------
  // Fields

  datatype Field = Cliente | ServicioContratado | Estado | Precio | Contacto | EstadoPago | FechaTerminado

  datatype FieldValue = Text(text: string) | Price(price: PriceField) | Day(date: Option<Date>)

  /** The value kinds the form's declared type gives each field. */
  predicate Fits(f: Field, v: FieldValue)
  {
    match f
    case Precio => v.Price?
    case FechaTerminado => v.Day?
    case _ => v.Text?
  }

  function Get(d: ProyectoData, f: Field): (v: FieldValue)
    ensures Fits(f, v)
  {
    match f
    case Cliente => Text(d.cliente)
    case ServicioContratado => Text(d.servicioContratado)
    case Estado => Text(d.estado)
    case Precio => Price(d.precio)
    case Contacto => Text(d.contacto)
    case EstadoPago => Text(d.estadoPago)
    case FechaTerminado => Day(d.fechaTerminado)
  }

  /** `{ ...prev, [field]: value }`: field `f` becomes `v`, every other field and the id stay. */
  function With(d: ProyectoData, f: Field, v: FieldValue): (r: ProyectoData)
    requires Fits(f, v)
    ensures Get(r, f) == v
    ensures forall g :: g != f ==> Get(r, g) == Get(d, g)
    ensures r.id == d.id
  {
    match f
    case Cliente => d.(cliente := v.text)
    case ServicioContratado => d.(servicioContratado := v.text)
    case Estado => d.(estado := v.text)
    case Precio => d.(precio := v.price)
    case Contacto => d.(contacto := v.text)
    case EstadoPago => d.(estadoPago := v.text)
    case FechaTerminado => d.(fechaTerminado := v.date)
  }

  /** Two forms with the same id and the same value in every field are the same form. */
  lemma FieldsDetermineForm(a: ProyectoData, b: ProyectoData)
    requires a.id == b.id
    requires forall f :: Get(a, f) == Get(b, f)
    ensures a == b
  {
    assert Get(a, Cliente) == Get(b, Cliente) && Get(a, ServicioContratado) == Get(b, ServicioContratado);
    assert Get(a, Estado) == Get(b, Estado) && Get(a, Precio) == Get(b, Precio);
    assert Get(a, Contacto) == Get(b, Contacto) && Get(a, EstadoPago) == Get(b, EstadoPago);
    assert Get(a, FechaTerminado) == Get(b, FechaTerminado);
  }

  /** Setting a field to the value it has changes nothing. */
  lemma WithSame(d: ProyectoData, f: Field)
    ensures With(d, f, Get(d, f)) == d
  {
    FieldsDetermineForm(With(d, f, Get(d, f)), d);
  }

  // ---------------------------------------------------------------------------
  // The UF quantity

  /** `s.replace(",", ".")`: a string pattern replaces its first occurrence only. */
  function ReplaceFirstComma(s: string): (r: string)
    ensures |r| == |s|
  {
    if s == [] then []
    else if s[0] == ',' then ['.'] + s[1..]
    else [s[0]] + ReplaceFirstComma(s[1..])
  }

  /** The position of the first comma, or `|s|` when there is none. */
  function FirstComma(s: string): (i: nat)
    ensures i <= |s|
    ensures forall j :: 0 <= j < i ==> s[j] != ','
    ensures i < |s| ==> s[i] == ','
  {
    if s == [] || s[0] == ',' then 0 else FirstComma(s[1..]) + 1
  }

  /** Only the first comma becomes a point; every other character is kept. */
  lemma {:induction false} ReplaceFirstCommaSpec(s: string)
    ensures forall j :: 0 <= j < |s| ==> ReplaceFirstComma(s)[j] == if j == FirstComma(s) then '.' else s[j]
  {
    if s != [] && s[0] != ',' {
      ReplaceFirstCommaSpec(s[1..]);
      var r := ReplaceFirstComma(s);
      forall j | 0 < j < |s| ensures r[j] == if j == FirstComma(s) then '.' else s[j] {
        assert r[j] == ReplaceFirstComma(s[1..])[j - 1];
      }
    }
  }

  /** The longest prefix of decimal digits. */
  function LeadingDigits(s: string): (r: string)
    ensures Text.AllDigits(r) && r <= s
    ensures |r| == |s| || !Text.IsDigit(s[|r|])
  {
    if s == [] || !Text.IsDigit(s[0]) then []
    else
      var rest := LeadingDigits(s[1..]);
      assert s == [s[0]] + s[1..];
      [s[0]] + rest
  }

  function Pow10(n: nat): (r: real)
    ensures r >= 1.0
  {
    if n == 0 then 1.0 else 10.0 * Pow10(n - 1)
  }

  function Scale(e: int): real
  {
    if e >= 0 then Pow10(e) else 1.0 / Pow10(-e)
  }

  /** The exponent of `e`/`E` followed by an optionally signed run of digits;
      without digits the letter is not part of the number and the exponent is 0. */
  function ExponentOf(s: string): int
  {
    if |s| == 0 || (s[0] != 'e' && s[0] != 'E') then 0
    else
      var signed := |s| > 1 && (s[1] == '+' || s[1] == '-');
      var ds := LeadingDigits(s[if signed then 2 else 1..]);
      if ds == [] then 0
      else if signed && s[1] == '-' then -(Text.DigitsValue(ds) as int)
      else Text.DigitsValue(ds)
  }

  /** `parseFloat`: after leading white space, the longest prefix that reads as
      a signed decimal number with an optional fraction and exponent; `None`
      (NaN) when no digit starts it. */
  function ParseFloat(s: string): (r: Option<real>)
    ensures (forall i :: 0 <= i < |s| ==> !Text.IsDigit(s[i])) ==> r.None?
  {
    assert (forall i :: 0 <= i < |s| ==> !Text.IsDigit(s[i])) ==> ParseSigned(Text.TrimStart(s)).None? by {
      if forall i :: 0 <= i < |s| ==> !Text.IsDigit(s[i]) {
        NoDigitsNoNumber(s);
      }
    }
    ParseSigned(Text.TrimStart(s))
  }

  function ParseSigned(t: string): Option<real>
  {
    if |t| > 0 && t[0] == '-' then
      var m := ParseUnsigned(t[1..]);
      if m.None? then None else Some(-m.value)
    else if |t| > 0 && t[0] == '+' then ParseUnsigned(t[1..])
    else ParseUnsigned(t)
  }

  /** Digits, an optional point with more digits, and an optional exponent. */
  function ParseUnsigned(u: string): Option<real>
  {
    var whole := LeadingDigits(u);
    ParseFraction(whole, u[|whole|..])
  }

  function ParseFraction(whole: string, rest: string): Option<real>
    requires Text.AllDigits(whole)
  {
    var point := |rest| > 0 && rest[0] == '.';
    var frac := if point then LeadingDigits(rest[1..]) else "";
    if |whole| + |frac| == 0 then None
    else
      var after := if point then rest[1 + |frac|..] else rest;
      Some(DecimalValue(whole, frac) * Scale(ExponentOf(after)))
  }

  /** The value of `whole.frac`. */
  function DecimalValue(whole: string, frac: string): real
    requires Text.AllDigits(whole) && Text.AllDigits(frac)
  {
    Text.DigitsValue(whole) as real + Text.DigitsValue(frac) as real / Pow10(|frac|)
  }

  /** A digit string without a point or exponent reads as its value. */
  lemma FractionOfWhole(whole: string)
    requires Text.AllDigits(whole) && |whole| > 0
    ensures ParseFraction(whole, []) == Some(Text.DigitsValue(whole) as real)
  {
    assert ExponentOf([]) == 0 && Scale(0) == 1.0;
    assert Text.DigitsValue("") == 0 && Pow10(0) == 1.0;
  }

  lemma UnsignedOfDigits(s: string)
    requires Text.AllDigits(s) && |s| > 0
    ensures ParseUnsigned(s) == Some(Text.DigitsValue(s) as real)
  {
    assert LeadingDigits(s) == s;
    assert s[|s|..] == [];
    FractionOfWhole(s);
  }

  /** Text opening with a digit or a point has no space or sign to skip. */
  lemma UnsignedStart(s: string)
    requires |s| > 0 && (Text.IsDigit(s[0]) || s[0] == '.')
    ensures ParseFloat(s) == ParseUnsigned(s)
  {
    Text.TrimStartOfTrimmed2(s);
  }

  /** Any string of digits, leading zeros included, reads as its value. */
  lemma ParseFloatOfDigitString(s: string)
    requires Text.AllDigits(s) && |s| > 0
    ensures ParseFloat(s) == Some(Text.DigitsValue(s) as real)
  {
    assert Text.IsDigit(s[0]);
    UnsignedStart(s);
    UnsignedOfDigits(s);
  }

  /** The leading digits of digits followed by a non-digit are those digits. */
  lemma {:induction false} LeadingDigitsOfDigits(w: string, rest: string)
    requires Text.AllDigits(w) && (rest == [] || !Text.IsDigit(rest[0]))
    ensures LeadingDigits(w + rest) == w
  {
    if w == [] {
      assert w + rest == rest;
    } else {
      assert (w + rest)[0] == w[0] && (w + rest)[1..] == w[1..] + rest;
      LeadingDigitsOfDigits(w[1..], rest);
      assert w == [w[0]] + w[1..];
    }
  }

  lemma FractionOfDecimal(w: string, f: string)
    requires Text.AllDigits(w) && Text.AllDigits(f) && |w| + |f| > 0
    ensures ParseFraction(w, "." + f) == Some(DecimalValue(w, f))
  {
    var rest := "." + f;
    assert rest[1..] == f + [];
    LeadingDigitsOfDigits(f, []);
    assert rest[1 + |f|..] == [];
    assert ExponentOf([]) == 0 && Scale(0) == 1.0;
  }

  /** A decimal quantity `w.f` (digits, a point, digits, with a digit on at
      least one side) reads as its value. */
  lemma ParseFloatOfDecimal(w: string, f: string)
    requires Text.AllDigits(w) && Text.AllDigits(f) && |w| + |f| > 0
    ensures ParseFloat(w + "." + f) == Some(DecimalValue(w, f))
  {
    var rest := "." + f;
    var s := w + rest;
    assert s == w + "." + f;
    assert s[0] == if w == [] then '.' else w[0];
    UnsignedStart(s);
    LeadingDigitsOfDigits(w, rest);
    assert s[|w|..] == rest;
    FractionOfDecimal(w, f);
  }

  /** A string of digits reads as its value. */
  lemma ParseFloatOfDigits(n: nat)
    ensures ParseFloat(Text.NatToDigits(n)) == Some(n as real)
  {
    var s := Text.NatToDigits(n);
    Text.TrimStartOfTrimmed2(s);
    assert Text.IsDigit(s[0]);
    assert ParseSigned(s) == ParseUnsigned(s);
    UnsignedOfDigits(s);
    Text.DigitsValueOfNatToDigits(n);
  }

  /** Text with no digit at all is not a number. */
  lemma NoDigitsNoNumber(s: string)
    requires forall i :: 0 <= i < |s| ==> !Text.IsDigit(s[i])
    ensures ParseSigned(Text.TrimStart(s)).None?
  {
    var t := Text.TrimStart(s);
    NoDigitsInSuffix(s, |s| - |t|);
    SignedNoDigits(t);
  }

  lemma NoDigitsInSuffix(s: string, k: nat)
    requires k <= |s| && forall i :: 0 <= i < |s| ==> !Text.IsDigit(s[i])
    ensures forall i :: 0 <= i < |s[k..]| ==> !Text.IsDigit(s[k..][i])
  {
    forall i | 0 <= i < |s[k..]| ensures !Text.IsDigit(s[k..][i]) {
      assert s[k..][i] == s[k + i];
    }
  }

  lemma SignedNoDigits(t: string)
    requires forall i :: 0 <= i < |t| ==> !Text.IsDigit(t[i])
    ensures ParseSigned(t).None?
  {
    if |t| > 0 {
      UnsignedNoDigits(t[1..]);
    }
    UnsignedNoDigits(t);
  }

  lemma UnsignedNoDigits(u: string)
    requires forall i :: 0 <= i < |u| ==> !Text.IsDigit(u[i])
    ensures ParseUnsigned(u).None?
  {
    assert LeadingDigits(u) == [];
    assert u[0..] == u;
    if |u| > 0 && u[0] == '.' {
      assert |u| == 1 || !Text.IsDigit(u[1..][0]);
      assert LeadingDigits(u[1..]) == [];
    }
  }

  /** `Math.round`: the nearest integer, halves rounded up. */
  function RoundHalfUp(x: real): (r: int)
    ensures r as real - 0.5 <= x < r as real + 0.5
  {
    (x + 0.5).Floor
  }

  /** The peso price a typed UF quantity sets: present only for a positive
      quantity with a known rate, and then the quantity times the rate, rounded. */
  function UfPrice(num: Option<real>, rate: Option<real>): (r: Option<int>)
    ensures r.Some? <==> num.Some? && num.value > 0.0 && rate.Some?
    ensures r.Some? ==> (r.value as real) - 0.5 <= num.value * rate.value < (r.value as real) + 0.5
  {
    if num.Some? && num.value > 0.0 && rate.Some? then Some(RoundHalfUp(num.value * rate.value)) else None
  }

  /** With a positive rate, a positive quantity never gives a negative price. */
  lemma UfPriceNonNegative(num: Option<real>, rate: Option<real>)
    requires rate.Some? && rate.value > 0.0 && UfPrice(num, rate).Some?
    ensures UfPrice(num, rate).value >= 0
  {
    assert num.value * rate.value > 0.0;
  }

  // ---------------------------------------------------------------------------
  // The price input

  /** `raw.replace(/\D/g, "")`: the digits of the text, in order. */
  function KeepDigits(s: string): (r: string)
    ensures Text.AllDigits(r) && |r| <= |s|
  {
    if s == [] then []
    else (if Text.IsDigit(s[0]) then [s[0]] else []) + KeepDigits(s[1..])
  }

  lemma {:induction false} KeepDigitsConcat(a: string, b: string)
    ensures KeepDigits(a + b) == KeepDigits(a) + KeepDigits(b)
  {
    if a == [] {
      assert a + b == b;
    } else {
      assert (a + b)[0] == a[0];
      assert (a + b)[1..] == a[1..] + b;
      KeepDigitsConcat(a[1..], b);
    }
  }

  lemma {:induction false} KeepDigitsOfDigits(s: string)
    requires Text.AllDigits(s)
    ensures KeepDigits(s) == s
  {
    if s != [] {
      KeepDigitsOfDigits(s[1..]);
      assert s == [s[0]] + s[1..];
    }
  }

  /** The price the field's text stands for: empty without digits, otherwise their value. */
  function PriceFromInput(s: string): (p: PriceField)
    ensures p.Blank? <==> KeepDigits(s) == []
    ensures p.Amount? ==> p.value >= 0
  {
    var raw := KeepDigits(s);
    if raw == [] then Blank else Amount(Text.DigitsValue(raw))
  }

  /** Digits grouped in threes from the right with `.`, as es-CL writes numbers. */
  function GroupThousands(ds: string): string
  {
    if |ds| <= 3 then ds else GroupThousands(ds[..|ds| - 3]) + "." + ds[|ds| - 3..]
  }

  lemma {:induction false} KeepDigitsOfGrouped(ds: string)
    requires Text.AllDigits(ds)
    ensures KeepDigits(GroupThousands(ds)) == ds
  {
    if |ds| <= 3 {
      KeepDigitsOfDigits(ds);
    } else {
      var head, tail := ds[..|ds| - 3], ds[|ds| - 3..];
      assert Text.AllDigits(head) && Text.AllDigits(tail) by {
        assert forall i :: 0 <= i < |head| ==> head[i] == ds[i];
        assert forall i :: 0 <= i < |tail| ==> tail[i] == ds[|ds| - 3 + i];
      }
      var g := GroupThousands(head);
      assert GroupThousands(ds) == g + "." + tail;
      KeepDigitsOfGrouped(head);
      KeepDigitsConcat(g + ".", tail);
      KeepDigitsConcat(g, ".");
      KeepDigitsOfDigits(tail);
      assert KeepDigits(".") == [];
      assert head + tail == ds;
    }
  }

  /** The text the price field shows: `$` and the grouped amount. */
  function PriceText(p: PriceField): (t: string)
    ensures t == "" <==> p.Blank?
    ensures p.Amount? ==> t[0] == '$'
  {
    match p
    case Blank => ""
    case Amount(n) =>
      if n >= 0 then "$" + GroupThousands(Text.NatToDigits(n))
      else "$-" + GroupThousands(Text.NatToDigits(-n))
  }

  /** Reading back what the field shows gives the same non-negative price. */
  lemma PriceTextRoundTrip(p: PriceField)
    requires p.Amount? ==> p.value >= 0
    ensures PriceFromInput(PriceText(p)) == p
  {
    if p.Amount? {
      var ds := Text.NatToDigits(p.value);
      KeepDigitsOfGrouped(ds);
      KeepDigitsConcat("$", GroupThousands(ds));
      assert KeepDigits("$") == [];
      assert PriceText(p) == "$" + GroupThousands(ds);
      assert KeepDigits(PriceText(p)) == ds;
      Text.DigitsValueOfNatToDigits(p.value);
    }
  }

  /** A negative price loses its sign when the shown text is read back. */
  lemma PriceTextDropsSign(n: int)
    requires n < 0
    ensures PriceFromInput(PriceText(Amount(n))) == Amount(-n)
  {
    var ds := Text.NatToDigits(-n);
    KeepDigitsOfGrouped(ds);
    KeepDigitsConcat("$-", GroupThousands(ds));
    assert KeepDigits("$-") == [];
    assert PriceText(Amount(n)) == "$-" + GroupThousands(ds);
    assert KeepDigits(PriceText(Amount(n))) == ds;
    Text.DigitsValueOfNatToDigits(-n);
  }

  // ---------------------------------------------------------------------------
  // The service choices

  /** The fixed services, then the current value when it is not empty and not among them. */
  function ServiceOptions(current: string): (options: seq<string>)
    ensures |options| >= |Servicios| && options[..|Servicios|] == Servicios
    ensures current != "" ==> current in options
    ensures forall o :: o in options ==> o in Servicios || o == current
    ensures |options| == |Servicios| + (if current != "" && current !in Servicios then 1 else 0)
  {
    Servicios + (if current != "" && current !in Servicios then [current] else [])
  }

  lemma ServiciosDistinct()
    ensures forall i, j :: 0 <= i < j < |Servicios| ==> Servicios[i] != Servicios[j]
  {
    assert Servicios[0][0] == 'P' && Servicios[1][0] == 'T' && Servicios[2][0] == 'H';
    assert Servicios[3][0] == 'C' && Servicios[4][0] == 'C' && Servicios[5][0] == 'O';
    assert Servicios[3][1] == 'á' && Servicios[4][1] == 'l';
  }

  /** No service is offered twice, so the list works as the choices' keys. */
  lemma ServiceOptionsDistinct(current: string)
    ensures forall i, j :: 0 <= i < j < |ServiceOptions(current)| ==> ServiceOptions(current)[i] != ServiceOptions(current)[j]
  {
    ServiciosDistinct();
    var o := ServiceOptions(current);
    forall i, j | 0 <= i < j < |o| ensures o[i] != o[j] {
      if j >= |Servicios| {
        assert o[i] == Servicios[i];
      } else {
        assert o[i] == Servicios[i] && o[j] == Servicios[j];
      }
    }
  }

  // ---------------------------------------------------------------------------
  // The dialog's state

  class ProjectDialog {
    var form: ProyectoData
    var saving: bool
    var ufCantidad: string
    var ufValorHoy: Option<real>
    var ufLoading: bool

    constructor()
      ensures form == EmptyForm && !saving && ufCantidad == "" && ufValorHoy.None? && !ufLoading
    {
      form := EmptyForm;
      saving := false;
      ufCantidad := "";
      ufValorHoy := None;
      ufLoading := false;
    }

    /** The effect when the dialog opens: the initial data (or the empty form),
        no UF quantity, and the rate being fetched. */
    method Open(initialData: Option<ProyectoData>)
      modifies this
      ensures form == OrElse(initialData, EmptyForm)
      ensures ufCantidad == "" && ufLoading
      ensures saving == old(saving) && ufValorHoy == old(ufValorHoy)
    {
      form := OrElse(initialData, EmptyForm);
      ufCantidad := "";
      ufLoading := true;
    }

    /** The rate request finished with `rate` (`None` when it failed). */
    method RateLoaded(rate: Option<real>)
      modifies this
      ensures ufValorHoy == rate && !ufLoading
      ensures form == old(form) && saving == old(saving) && ufCantidad == old(ufCantidad)
    {
      ufValorHoy := rate;
      ufLoading := false;
    }

    method UpdateField(f: Field, v: FieldValue)
      requires Fits(f, v)
      modifies this
      ensures form == With(old(form), f, v)
      ensures saving == old(saving) && ufCantidad == old(ufCantidad)
      ensures ufValorHoy == old(ufValorHoy) && ufLoading == old(ufLoading)
    {
      form := With(form, f, v);
    }

    /** Typing a UF quantity: the text is kept, and the price becomes the
        rounded peso amount only for a positive quantity with a known rate. */
    method AplicarUF(cantidad: string)
      modifies this
      ensures ufCantidad == cantidad
      ensures var price := UfPrice(ParseFloat(ReplaceFirstComma(cantidad)), old(ufValorHoy));
        form == if price.Some? then old(form).(precio := Amount(price.value)) else old(form)
      ensures saving == old(saving) && ufValorHoy == old(ufValorHoy) && ufLoading == old(ufLoading)
    {
      ufCantidad := cantidad;
      var num := ParseFloat(ReplaceFirstComma(cantidad));
      var precioCLP := UfPrice(num, ufValorHoy);
      if precioCLP.Some? {
        assert With(form, Precio, Price(Amount(precioCLP.value))) == form.(precio := Amount(precioCLP.value));
        UpdateField(Precio, Price(Amount(precioCLP.value)));
      }
    }

    /** Typing in the price field: the UF quantity is cleared and the price is
        the value of the digits typed. */
    method PriceEdited(input: string)
      modifies this
      ensures ufCantidad == ""
      ensures form == old(form).(precio := PriceFromInput(input))
      ensures saving == old(saving) && ufValorHoy == old(ufValorHoy) && ufLoading == old(ufLoading)
    {
      ufCantidad := "";
      var raw := KeepDigits(input);
      UpdateField(Precio, Price(if raw == [] then Blank else Amount(Text.DigitsValue(raw))));
    }

    /** Submitting: `saving` is set and the form is handed to the save callback. */
    method BeginSubmit() returns (data: ProyectoData)
      modifies this
      ensures data == form == old(form) && saving
      ensures ufCantidad == old(ufCantidad) && ufValorHoy == old(ufValorHoy) && ufLoading == old(ufLoading)
    {
      saving := true;
      data := form;
    }

    /** The callback settled: `saving` is cleared whether or not it failed, and
        the dialog closes only after a success. */
    method EndCallback(succeeded: bool) returns (close: bool)
      modifies this
      ensures !saving && close == succeeded
      ensures form == old(form) && ufCantidad == old(ufCantidad)
      ensures ufValorHoy == old(ufValorHoy) && ufLoading == old(ufLoading)
    {
      saving := false;
      close := succeeded;
    }

    /** The delete button: nothing happens (and nothing is asked) without a
        delete callback or a truthy id, nor when the user does not confirm;
        otherwise `saving` is set and the id is handed to the callback. */
    method BeginDelete(hasOnDelete: bool, confirms: bool) returns (asked: bool, request: Option<int>)
      modifies this
      ensures asked <==> hasOnDelete && TruthyId(form.id)
      ensures request.Some? <==> asked && confirms
      ensures request.Some? ==> request.value == form.id.value && saving
      ensures request.None? ==> saving == old(saving)
      ensures form == old(form) && ufCantidad == old(ufCantidad)
      ensures ufValorHoy == old(ufValorHoy) && ufLoading == old(ufLoading)
    {
      asked := false;
      request := None;
      if !hasOnDelete || !TruthyId(form.id) {
        return;
      }
      asked := true;
      if !confirms {
        return;
      }
      saving := true;
      request := Some(form.id.value);
    }
  }

  /** Example: "17,5" UF reads as 17.5. */
  lemma ExampleDecimalComma()
    ensures ParseFloat(ReplaceFirstComma("17,5")) == Some(17.5)
  {
    ExampleComma();
    ExampleParse();
  }

  lemma ExampleFraction()
    ensures ParseFraction("17", ".5") == Some(17.5)
  {
    assert ".5"[1..] == "5";
    assert LeadingDigits("5") == "5";
    assert "5"[1..] == [];
    assert Text.DigitsValue("17") == 17 && Text.DigitsValue("5") == 5;
    assert Pow10(1) == 10.0 && Scale(ExponentOf([])) == 1.0;
    assert DecimalValue("17", "5") == 17.5;
  }

  lemma ExampleComma()
    ensures ReplaceFirstComma("17,5") == "17.5"
  {
    assert ReplaceFirstComma(",5") == ".5";
    assert ReplaceFirstComma("7,5") == "7.5";
  }

  lemma ExampleLeading()
    ensures LeadingDigits("17.5") == "17"
  {
    assert "17.5"[1..] == "7.5" && "7.5"[1..] == ".5";
    assert LeadingDigits(".5") == "";
    assert LeadingDigits("7.5") == "7";
  }

  lemma ExampleParse()
    ensures ParseFloat("17.5") == Some(17.5)
  {
    var s := "17.5";
    Text.TrimStartOfTrimmed2(s);
    assert ParseSigned(s) == ParseUnsigned(s);
    ExampleLeading();
    assert s[2..] == ".5";
    ExampleFraction();
  }
}
