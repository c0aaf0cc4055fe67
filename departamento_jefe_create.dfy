/**
 * The form that appoints a head of department: the required-field check
 * that lists every missing field, the two date checks, the payload, the
 * message shown when the backend refuses, and the page's own URL
 * normalisation and page arithmetic for its pickers.
 *
 * Picked dates are library values (`DateHelpers.Dayjs`) at local midnight,
 * so comparing them as instants is comparing them as calendar dates;
 * "today" is the caller's date, a parameter.
 */
module DepartamentoJefeCreate {
  import opened Wrappers
  import opened JsText
  import JsNumber
  import Models
  import DateHelpers
  import UrlHelpers
  import UseSearch
  import opened ErrorBody

  type JsNum = JsNumber.JsNum
  type Dayjs = DateHelpers.Dayjs

  // ---------------------------------------------------------------------
  // normalizeUrl

  /** `s.replace(/^\/api/, "")`: a leading "/api" is dropped, whatever follows it. */
  function StripApi(s: string): (r: string)
    ensures StartsWith(s, "/api") ==> s == "/api" + r
    ensures !StartsWith(s, "/api") ==> r == s
  {
    if StartsWith(s, "/api") then s[4..] else s
  }

  /**
   * The page's `normalizeUrl`: the hook's normalisation (path plus query
   * for an "http…" URL, a single leading '/' otherwise), then a leading
   * "/api" removed. `None` is the exception `new URL` throws.
   */
  function NormalizeUrl(url: string, parseUrl: string -> Option<UrlHelpers.UrlParts>): (r: Option<string>)
    ensures r.None? <==> UseSearch.NormalizePageUrl(url, parseUrl).None?
    ensures r.Some? ==> r.value == StripApi(UseSearch.NormalizePageUrl(url, parseUrl).value)
  {
    if StartsWith(url, "http") then
      match parseUrl(url)
      case None => None
      case Some(parts) => Some(StripApi(parts.pathname + parts.search))
    else Some(StripApi(UseSearch.CollapseLeadingSlashes(url)))
  }

  /** A path under "/api" loses that prefix and is otherwise kept as it is. */
  lemma ApiPrefixDropped(p: string, parseUrl: string -> Option<UrlHelpers.UrlParts>)
    requires StartsWith(p, "/")
    ensures NormalizeUrl("/api" + p, parseUrl) == Some(p)
  {
    var u := "/api" + p;
    assert !StartsWith(u, "http") by { assert u[0] != "http"[0]; }
    assert UseSearch.LeadingSlashes(u) == 1 by {
      assert u[1..] == "api" + p;
      assert UseSearch.LeadingSlashes(u[1..]) == 0;
    }
    assert UseSearch.CollapseLeadingSlashes(u) == u by {
      assert u[1..] == "/api"[1..] + p;
    }
    assert u[..4] == "/api";
    assert u[4..] == p;
  }

  /** Any other relative path only has its leading slashes collapsed. */
  lemma OtherPathCollapsed(url: string, parseUrl: string -> Option<UrlHelpers.UrlParts>)
    requires !StartsWith(url, "http") && !StartsWith(UseSearch.CollapseLeadingSlashes(url), "/api")
    ensures NormalizeUrl(url, parseUrl) == Some(UseSearch.CollapseLeadingSlashes(url))
  {
  }

  // ---------------------------------------------------------------------
  // The page of a picker

  /** The search part of `new URL(url)`: from the first '?' on, or "" without one. */
  function UrlSearch(url: string): string {
    match IndexOf(url, "?")
    case None => ""
    case Some(i) => url[i..]
  }

  /** `Math.floor(n / pageSize) + 1` on JavaScript numbers. */
  function PageFromNumber(n: JsNum, pageSize: int): (r: JsNum)
    requires pageSize > 0
    ensures n.NaN? <==> r.NaN?
    ensures n.Infinity? ==> r == n
  {
    match n
    case NaN => JsNumber.NaN
    case Infinity(positive) => JsNumber.Infinity(positive)
    case Finite(v) => JsNumber.Finite((v / pageSize as real).Floor as real + 1.0)
  }

  /** `Math.floor(Number(params.get("offset") || "0") / pageSize) + 1`. */
  function PageFromParams(params: seq<(string, string)>, pageSize: int): JsNum
    requires pageSize > 0
  {
    var offset := UseSearch.OrDefault(UseSearch.Get(params, "offset"), "0");
    PageFromNumber(JsNumber.StringToNumber(offset), pageSize)
  }

  /**
   * The page computed after loading `url`; an "http…" URL goes through
   * `new URL`, `None` standing for the exception it throws.
   */
  function CurrentPageOf(url: string, pageSize: int, parseUrl: string -> Option<UrlHelpers.UrlParts>): (r: Option<JsNum>)
    requires pageSize > 0
    ensures r.None? <==> StartsWith(url, "http") && parseUrl(url).None?
  {
    if StartsWith(url, "http") then
      match parseUrl(url)
      case None => None
      case Some(parts) => Some(PageFromParams(UseSearch.SearchParams(parts.search), pageSize))
    else Some(PageFromParams(UseSearch.SearchParams(UrlSearch(url)), pageSize))
  }

  /** A whole offset lands on the page holding it: one more than the number of full pages before it. */
  lemma {:induction false} OffsetPage(params: seq<(string, string)>, k: nat, pageSize: int)
    requires pageSize > 0 && UseSearch.Get(params, "offset") == Some(NatToString(k))
    ensures PageFromParams(params, pageSize) == JsNumber.Finite((k / pageSize + 1) as real)
  {
    assert UseSearch.OrDefault(UseSearch.Get(params, "offset"), "0") == NatToString(k);
    NatNumber(k);
    FinitePage(k, pageSize);
  }

  /** The offset a loaded URL carries: from `new URL` for an "http…" URL, from its own query otherwise. */
  predicate OffsetIn(url: string, parseUrl: string -> Option<UrlHelpers.UrlParts>, offset: Option<string>) {
    if StartsWith(url, "http") then
      parseUrl(url).Some? && UseSearch.Get(UseSearch.SearchParams(parseUrl(url).value.search), "offset") == offset
    else UseSearch.Get(UseSearch.SearchParams(UrlSearch(url)), "offset") == offset
  }

  /**
   * Loading a URL whose offset is the whole number `k`, relative or
   * absolute, sets the page holding that offset.
   */
  lemma {:induction false} CurrentPageReadsOffset(url: string, k: nat, pageSize: int, parseUrl: string -> Option<UrlHelpers.UrlParts>)
    requires pageSize > 0 && OffsetIn(url, parseUrl, Some(NatToString(k)))
    ensures CurrentPageOf(url, pageSize, parseUrl) == Some(JsNumber.Finite((k / pageSize + 1) as real))
  {
    if StartsWith(url, "http") {
      OffsetPage(UseSearch.SearchParams(parseUrl(url).value.search), k, pageSize);
    } else {
      OffsetPage(UseSearch.SearchParams(UrlSearch(url)), k, pageSize);
    }
  }

  /** Loading a URL without an offset, relative or absolute, sets the first page. */
  lemma {:induction false} CurrentPageWithoutOffset(url: string, pageSize: int, parseUrl: string -> Option<UrlHelpers.UrlParts>)
    requires pageSize > 0 && (OffsetIn(url, parseUrl, None) || OffsetIn(url, parseUrl, Some("")))
    ensures CurrentPageOf(url, pageSize, parseUrl) == Some(JsNumber.Finite(1.0))
  {
    if StartsWith(url, "http") {
      NoOffsetFirstPage(UseSearch.SearchParams(parseUrl(url).value.search), pageSize);
    } else {
      NoOffsetFirstPage(UseSearch.SearchParams(UrlSearch(url)), pageSize);
    }
  }

  /** `Number(String(k))` is `k`. */
  lemma NatNumber(k: nat)
    ensures JsNumber.StringToNumber(NatToString(k)) == JsNumber.Finite(k as real)
  {
    JsNumber.NatToStringValue(k);
    JsNumber.DigitsNumberValue(NatToString(k));
  }

  /** On a whole number the page is the integer quotient plus one. */
  lemma FinitePage(v: int, pageSize: int)
    requires pageSize > 0
    ensures PageFromNumber(JsNumber.Finite(v as real), pageSize) == JsNumber.Finite((v / pageSize + 1) as real)
  {
    UseSearch.FloorDivIsFloor(v, pageSize);
  }

  /** `Number("0")` is 0. */
  lemma ZeroNumber()
    ensures JsNumber.StringToNumber("0") == JsNumber.Finite(0.0)
  {
    assert JsNumber.IsDigitIn('0', 10);
    assert JsNumber.AllDigits("0", 10);
    JsNumber.DigitsNumberValue("0");
    assert JsNumber.DigitsValue("0", 10) == 0 by {
      assert "0"[..0] == [];
    }
  }

  /** An offset of "0" is on the first page. */
  lemma ZeroOffsetPage(pageSize: int)
    requires pageSize > 0
    ensures PageFromNumber(JsNumber.StringToNumber("0"), pageSize) == JsNumber.Finite(1.0)
  {
    ZeroNumber();
    calc {
      PageFromNumber(JsNumber.StringToNumber("0"), pageSize);
      PageFromNumber(JsNumber.Finite(0 as real), pageSize);
      { FinitePage(0, pageSize); }
      JsNumber.Finite((0 / pageSize + 1) as real);
      { assert 0 / pageSize == 0; }
      JsNumber.Finite(1.0);
    }
  }

  /** Without an offset, or with an empty one, the page is the first. */
  lemma NoOffsetFirstPage(params: seq<(string, string)>, pageSize: int)
    requires pageSize > 0
    requires UseSearch.Get(params, "offset").None? || UseSearch.Get(params, "offset") == Some("")
    ensures PageFromParams(params, pageSize) == JsNumber.Finite(1.0)
  {
    assert UseSearch.OrDefault(UseSearch.Get(params, "offset"), "0") == "0";
    ZeroOffsetPage(pageSize);
  }

  /** Dividing a multiple of `b` by `b`. */
  lemma MulDiv(a: nat, b: int)
    requires b > 0
    ensures a * b / b == a
  {
    var q := a * b / b;
    var r := a * b % b;
    assert a * b == q * b + r && 0 <= r < b;
    assert (a - q) * b == r;
    if a - q >= 1 {
      assert false;
    } else if a - q <= -1 {
      assert false;
    }
  }

  /** The offset the backend writes for page `p` (`(p - 1) * pageSize`) reads back as page `p`. */
  lemma LinkOffsetPage(params: seq<(string, string)>, p: nat, pageSize: int)
    requires pageSize > 0 && p >= 1
    requires UseSearch.Get(params, "offset") == Some(NatToString((p - 1) * pageSize))
    ensures PageFromParams(params, pageSize) == JsNumber.Finite(p as real)
  {
    var k := (p - 1) * pageSize;
    var q := k / pageSize + 1;
    assert q == p by {
      MulDiv(p - 1, pageSize);
    }
    OffsetPage(params, k, pageSize);
  }

  // ---------------------------------------------------------------------
  // Required fields

  /** The form's required selections, in the order they are checked. */
  datatype Field = Resolucion | Jefe | Departamento | FechaInicio | FechaFin | Estado

  const Order: seq<Field> := [Resolucion, Jefe, Departamento, FechaInicio, FechaFin, Estado]

  /** The name listed for a missing field. */
  function Label(f: Field): (r: string)
    ensures '\n' !in r
  {
    match f
    case Resolucion => "Resolución"
    case Jefe => "Jefe"
    case Departamento => "Departamento"
    case FechaInicio => "Fecha de Inicio"
    case FechaFin => "Fecha de Fin"
    case Estado => "Estado"
  }

  /** Two fields never share a label. */
  lemma LabelInjective(f: Field, g: Field)
    requires Label(f) == Label(g)
    ensures f == g
  {
    match f
    case Resolucion => assert Label(f)[0] == 'R';
    case Jefe => assert |Label(f)| == 4;
    case Departamento => assert Label(f)[0] == 'D';
    case FechaInicio => assert Label(f)[9] == 'I';
    case FechaFin => assert |Label(f)| == 12;
    case Estado => assert Label(f)[0] == 'E';
  }

  /** What the form holds when it is submitted. */
  datatype Form = Form(
    resolucion: Option<int>,
    jefe: Option<int>,
    departamento: Option<int>,
    fechaInicio: Option<Dayjs>,
    fechaFin: Option<Dayjs>,
    observaciones: string,
    estado: string)

  /** A field the form leaves empty: no selection, no date, or no estado. */
  predicate IsMissing(form: Form, f: Field) {
    match f
    case Resolucion => form.resolucion.None?
    case Jefe => form.jefe.None?
    case Departamento => form.departamento.None?
    case FechaInicio => form.fechaInicio.None?
    case FechaFin => form.fechaFin.None?
    case Estado => form.estado == ""
  }

  /** The labels of the missing fields among `fs`, in the order of `fs`. */
  function MissingOf(form: Form, fs: seq<Field>): seq<string> {
    if fs == [] then [] else Listed(form, fs[0]) + MissingOf(form, fs[1..])
  }

  /** What one field adds to the list: its label when it is missing. */
  function Listed(form: Form, f: Field): seq<string> {
    if IsMissing(form, f) then [Label(f)] else []
  }

  /** The list for the form's order, field by field. */
  lemma MissingInOrder(form: Form)
    ensures MissingOf(form, Order) == Listed(form, Resolucion) + (Listed(form, Jefe) + (Listed(form, Departamento)
                                      + (Listed(form, FechaInicio) + (Listed(form, FechaFin) + Listed(form, Estado)))))
  {
    assert MissingOf(form, Order[5..]) == Listed(form, Estado) by {
      assert Order[5..][1..] == [];
    }
    assert MissingOf(form, Order[4..]) == Listed(form, FechaFin) + MissingOf(form, Order[5..]) by {
      assert Order[4..][1..] == Order[5..];
    }
    assert MissingOf(form, Order[3..]) == Listed(form, FechaInicio) + MissingOf(form, Order[4..]) by {
      assert Order[3..][1..] == Order[4..];
    }
    assert MissingOf(form, Order[2..]) == Listed(form, Departamento) + MissingOf(form, Order[3..]) by {
      assert Order[2..][1..] == Order[3..];
    }
    assert MissingOf(form, Order[1..]) == Listed(form, Jefe) + MissingOf(form, Order[2..]) by {
      assert Order[1..][1..] == Order[2..];
    }
  }

  /** Six lists joined one after the other, grouped from the right. */
  lemma Regroup(a: seq<string>, b: seq<string>, c: seq<string>, d: seq<string>, e: seq<string>, f: seq<string>)
    ensures a + b + c + d + e + f == a + (b + (c + (d + (e + f))))
  {
  }

  /** A field's label is listed exactly when the field is among those checked and missing. */
  lemma {:induction false} MissingOfIff(form: Form, fs: seq<Field>, f: Field)
    ensures Label(f) in MissingOf(form, fs) <==> f in fs && IsMissing(form, f)
  {
    if fs != [] {
      MissingOfIff(form, fs[1..], f);
      if Label(f) == Label(fs[0]) {
        LabelInjective(f, fs[0]);
      }
      assert f in fs <==> f == fs[0] || f in fs[1..];
    }
  }

  /** Every listed name is a label, so none spans two lines. */
  lemma {:induction false} MissingOfLabels(form: Form, fs: seq<Field>)
    ensures forall k :: 0 <= k < |MissingOf(form, fs)| ==> '\n' !in MissingOf(form, fs)[k]
  {
    if fs != [] {
      MissingOfLabels(form, fs[1..]);
    }
  }

  /** Nothing is listed exactly when every required field is filled in. */
  lemma NothingMissingIff(form: Form)
    ensures MissingOf(form, Order) == [] <==> forall f: Field :: !IsMissing(form, f)
  {
    forall f: Field
      ensures Label(f) in MissingOf(form, Order) <==> IsMissing(form, f)
    {
      MissingOfIff(form, Order, f);
    }
    if MissingOf(form, Order) != [] {
      var l := MissingOf(form, Order)[0];
      assert l in MissingOf(form, Order);
      MissingLabelIsField(form, Order, l);
    }
  }

  /** Every listed name is the label of some field. */
  lemma {:induction false} MissingLabelIsField(form: Form, fs: seq<Field>, l: string)
    requires l in MissingOf(form, fs)
    ensures exists f: Field :: Label(f) == l
  {
    if fs != [] {
      if !(IsMissing(form, fs[0]) && l == Label(fs[0])) {
        MissingLabelIsField(form, fs[1..], l);
      }
    }
  }

  const MissingHeading: string := "Faltan los siguientes campos obligatorios:"

  /** A heading, a blank line, then the lines: the shape of the page's error messages. */
  function Headed(heading: string, body: seq<string>): string {
    heading + "\n\n" + Join(body, "\n")
  }

  /** The message listing the missing fields, one per line, below a heading and a blank line. */
  function MissingMessage(missing: seq<string>): string {
    Headed(MissingHeading, missing)
  }

  /** A heading, a blank line and then lines with no break in them read back as exactly those lines. */
  lemma HeadedLines(heading: string, body: seq<string>)
    requires body != [] && '\n' !in heading
    requires forall k :: 0 <= k < |body| ==> '\n' !in body[k]
    ensures Split(Headed(heading, body), '\n') == [heading, ""] + body
  {
    var lines := [heading, ""] + body;
    assert lines[1..] == [""] + body;
    assert lines[1..][1..] == body;
    assert Join(lines[1..], "\n") == "" + "\n" + Join(body, "\n");
    assert Join(lines, "\n") == heading + "\n" + Join(lines[1..], "\n");
    assert heading + "\n\n" + Join(body, "\n") == heading + "\n" + ("" + "\n" + Join(body, "\n"));
    forall k | 0 <= k < |lines|
      ensures '\n' !in lines[k]
    {
      if k >= 2 {
        assert lines[k] == body[k - 2];
      }
    }
    SplitJoin(lines, '\n');
  }

  /** Read line by line, the message is the heading, a blank line, then exactly the missing fields. */
  lemma MissingMessageLines(form: Form)
    requires MissingOf(form, Order) != []
    ensures Split(MissingMessage(MissingOf(form, Order)), '\n') == [MissingHeading, ""] + MissingOf(form, Order)
  {
    MissingOfLabels(form, Order);
    assert '\n' !in MissingHeading;
    HeadedLines(MissingHeading, MissingOf(form, Order));
  }

  // ---------------------------------------------------------------------
  // Dates

  /** `a < b` on the dates' instants: both valid and `a` strictly earlier. */
  predicate Before(a: Dayjs, b: Dayjs) {
    a.Valid? && b.Valid? && Models.DateLeq(a.date, b.date) && a.date != b.date
  }

  /** `a >= b` on the dates' instants: both valid and `a` not earlier; an invalid date compares false. */
  predicate NotBefore(a: Dayjs, b: Dayjs) {
    a.Valid? && b.Valid? && Models.DateLeq(b.date, a.date)
  }

  const OrderMessage: string := "La fecha de inicio debe ser anterior a la fecha de fin."
  const PastMessage: string := "La fecha de fin no puede ser anterior a hoy."

  /** The first date check that fails, once every field is present. */
  function DateError(inicio: Dayjs, fin: Dayjs, today: Models.CivilDate): (r: Option<string>)
    ensures r == Some(OrderMessage) <==> NotBefore(inicio, fin)
    ensures r == Some(PastMessage) <==> !NotBefore(inicio, fin) && Before(fin, DateHelpers.Valid(today))
    ensures r.None? <==> !NotBefore(inicio, fin) && !Before(fin, DateHelpers.Valid(today))
  {
    if NotBefore(inicio, fin) then Some(OrderMessage)
    else if Before(fin, DateHelpers.Valid(today)) then Some(PastMessage)
    else None
  }

  /** A term that starts before it ends and ends today is accepted: today is not in the past. */
  lemma EndingTodayAccepted(inicio: Models.CivilDate, today: Models.CivilDate)
    requires Models.DateLeq(inicio, today) && inicio != today
    ensures DateError(DateHelpers.Valid(inicio), DateHelpers.Valid(today), today).None?
  {
    assert !Models.DateLeq(today, inicio);
  }

  /** A term whose start equals its end is refused, whatever today is. */
  lemma SameDayRefused(d: Models.CivilDate, today: Models.CivilDate)
    ensures DateError(DateHelpers.Valid(d), DateHelpers.Valid(d), today) == Some(OrderMessage)
  {
  }

  /** A date the library cannot read passes both checks, since every comparison with it is false. */
  lemma InvalidDatesPass(inicio: Dayjs, today: Models.CivilDate)
    ensures DateError(inicio, DateHelpers.Invalid, today).None?
    ensures DateError(DateHelpers.Invalid, DateHelpers.Valid(today), today).None?
  {
  }

  // ---------------------------------------------------------------------
  // Payload and server errors

  /** The request body. */
  datatype Payload = Payload(
    departamento: int,
    jefe: int,
    resolucion: int,
    fechaDeInicio: Option<string>,
    fechaDeFin: Option<string>,
    observaciones: string,
    estado: int)

  /** `formatFechaParaBackend` of a library value (the text parser is never reached for one). */
  function BackendDate(d: Dayjs): (r: Option<string>)
    ensures r == Some(DateHelpers.FormatYYYYMMDD(d))
  {
    DateHelpers.FormatFechaParaBackend(DateHelpers.Object(d), _ => DateHelpers.Invalid)
  }

  /** `estado === "1" ? 1 : 0`. */
  function EstadoValue(estado: string): (r: int)
    ensures r == 1 <==> estado == "1"
    ensures r == 0 <==> estado != "1"
  {
    if estado == "1" then 1 else 0
  }

  /** The body sent for a complete form. */
  function PayloadOf(form: Form): Payload
    requires forall f: Field :: !IsMissing(form, f)
  {
    assert !IsMissing(form, Resolucion) && !IsMissing(form, Jefe) && !IsMissing(form, Departamento);
    assert !IsMissing(form, FechaInicio) && !IsMissing(form, FechaFin);
    Payload(form.departamento.value, form.jefe.value, form.resolucion.value,
            BackendDate(form.fechaInicio.value), BackendDate(form.fechaFin.value),
            form.observaciones, EstadoValue(form.estado))
  }

  /** `Array.isArray(errores) ? errores.join(", ") : errores`. */
  function ErrorsText(e: FieldErrors): string {
    match e
    case Many(texts) => Join(texts, ", ")
    case One(text) => text
  }

  /** One field's line, "campo: e1, e2". */
  function FieldLine(entry: (string, FieldErrors)): string {
    entry.0 + ": " + ErrorsText(entry.1)
  }

  /** The field lines, in the object's order. */
  function FieldLines(entries: seq<(string, FieldErrors)>): (r: seq<string>)
    ensures |r| == |entries| && forall k :: 0 <= k < |entries| ==> r[k] == FieldLine(entries[k])
  {
    seq(|entries|, k requires 0 <= k < |entries| => FieldLine(entries[k]))
  }

  const DefaultError: string := "No se pudo realizar la acción."
  const ValidationHeading: string := "Errores de validación:"

  /**
   * The message for a refused request: the `detail` text, else every field
   * with its errors one per line; a reply without an object (no data, or a
   * text) leaves the default message.
   */
  function ErrorMessage(data: Option<ErrorData>): (r: string)
    ensures data.None? || data.value.TextData? ==> r == DefaultError
    ensures data.Some? && data.value.ObjectData? && TextOf(data.value.entries, "detail").Some? ==>
              r == TextOf(data.value.entries, "detail").value
    ensures data.Some? && data.value.ObjectData? && TextOf(data.value.entries, "detail").None? ==>
              r == Headed(ValidationHeading, FieldLines(data.value.entries))
  {
    match data
    case None => DefaultError
    case Some(TextData(_)) => DefaultError
    case Some(ObjectData(entries)) =>
      match TextOf(entries, "detail")
      case Some(detail) => detail
      case None => Headed(ValidationHeading, FieldLines(entries))
  }

  /** A `detail` text in front of any other fields is shown on its own. */
  lemma DetailWins(detail: string, others: seq<(string, FieldErrors)>)
    requires detail != ""
    ensures ErrorMessage(Some(ObjectData([("detail", One(detail))] + others))) == detail
  {
  }

  /**
   * Without a `detail`, and with no line break in any field name or error,
   * the message reads as the heading, a blank line, and then one line per
   * field, in order.
   */
  lemma {:induction false} FieldLinesRead(entries: seq<(string, FieldErrors)>)
    requires entries != [] && TextOf(entries, "detail").None?
    requires forall k :: 0 <= k < |entries| ==> '\n' !in FieldLine(entries[k])
    ensures Split(ErrorMessage(Some(ObjectData(entries))), '\n') == [ValidationHeading, ""] + FieldLines(entries)
  {
    var lines := FieldLines(entries);
    assert forall k :: 0 <= k < |lines| ==> '\n' !in lines[k];
    assert '\n' !in ValidationHeading;
    HeadedLines(ValidationHeading, lines);
  }

  // ---------------------------------------------------------------------
  // The page

  /** What the request ends in. */
  datatype Reply = Created | Failed(data: Option<ErrorData>)

  const ErrorTitle: string := "Error"
  const SuccessTitle: string := "Éxito"
  const SuccessMessage: string := "Se creó el jefe de departamento con éxito"

  /** The message a complete form gets: a date error, or the request's result. */
  function SubmitMessage(form: Form, today: Models.CivilDate, reply: Reply): (r: (string, string))
    requires forall f: Field :: !IsMissing(form, f)
  {
    assert !IsMissing(form, FechaInicio) && !IsMissing(form, FechaFin);
    match DateError(form.fechaInicio.value, form.fechaFin.value, today)
    case Some(m) => (ErrorTitle, m)
    case None =>
      match reply
      case Created => (SuccessTitle, SuccessMessage)
      case Failed(data) => (ErrorTitle, ErrorMessage(data))
  }

  /** The body sent for a complete form: only once both date checks pass. */
  function SentOf(form: Form, today: Models.CivilDate): (r: Option<Payload>)
    requires forall f: Field :: !IsMissing(form, f)
    ensures r.Some? ==> r.value == PayloadOf(form)
  {
    assert !IsMissing(form, FechaInicio) && !IsMissing(form, FechaFin);
    if DateError(form.fechaInicio.value, form.fechaFin.value, today).None? then Some(PayloadOf(form)) else None
  }

  class CreateJefeDepartamentoPage {
    var selectedResolucion: Option<int>
    var jefe: Option<int>
    var departamento: Option<int>
    var fechaInicio: Option<Dayjs>
    var fechaFin: Option<Dayjs>
    var observaciones: string
    var estado: string
    var modalVisible: bool
    var modalTitle: string
    var modalMessage: string

    constructor ()
      ensures selectedResolucion.None? && jefe.None? && departamento.None?
      ensures fechaInicio.None? && fechaFin.None? && observaciones == "" && estado == ""
      ensures !modalVisible && modalTitle == "" && modalMessage == ""
    {
      selectedResolucion := None;
      jefe := None;
      departamento := None;
      fechaInicio := None;
      fechaFin := None;
      observaciones := "";
      estado := "";
      modalVisible := false;
      modalTitle := "";
      modalMessage := "";
    }

    /** The form as the page holds it. */
    function Current(): Form
      reads this
    {
      Form(selectedResolucion, jefe, departamento, fechaInicio, fechaFin, observaciones, estado)
    }

    /** The missing fields, pushed one check at a time in the form's order. */
    method CamposFaltantes() returns (camposFaltantes: seq<string>)
      ensures camposFaltantes == MissingOf(Current(), Order)
    {
      var form := Current();
      camposFaltantes := [];
      if selectedResolucion.None? {
        camposFaltantes := camposFaltantes + [Label(Resolucion)];
      }
      assert camposFaltantes == Listed(form, Resolucion);
      if jefe.None? {
        camposFaltantes := camposFaltantes + [Label(Jefe)];
      }
      assert camposFaltantes == Listed(form, Resolucion) + Listed(form, Jefe);
      if departamento.None? {
        camposFaltantes := camposFaltantes + [Label(Departamento)];
      }
      assert camposFaltantes == Listed(form, Resolucion) + Listed(form, Jefe) + Listed(form, Departamento);
      if fechaInicio.None? {
        camposFaltantes := camposFaltantes + [Label(FechaInicio)];
      }
      assert camposFaltantes == Listed(form, Resolucion) + Listed(form, Jefe) + Listed(form, Departamento) + Listed(form, FechaInicio);
      if fechaFin.None? {
        camposFaltantes := camposFaltantes + [Label(FechaFin)];
      }
      assert camposFaltantes == Listed(form, Resolucion) + Listed(form, Jefe) + Listed(form, Departamento) + Listed(form, FechaInicio)
                                + Listed(form, FechaFin);
      if estado == "" {
        camposFaltantes := camposFaltantes + [Label(Estado)];
      }
      MissingInOrder(form);
      Regroup(Listed(form, Resolucion), Listed(form, Jefe), Listed(form, Departamento),
              Listed(form, FechaInicio), Listed(form, FechaFin), Listed(form, Estado));
    }

    /** `handleOpenModal`. */
    method OpenModal(title: string, message: string)
      modifies this
      ensures modalVisible && modalTitle == title && modalMessage == message
      ensures Current() == old(Current())
    {
      modalTitle := title;
      modalMessage := message;
      modalVisible := true;
    }

    /**
     * `crearNuevoJefeDepartamento`: the missing fields, then the dates
     * against `today`, then the request, whose reply the caller supplies.
     */
    method CrearNuevoJefeDepartamento(today: Models.CivilDate, reply: Reply) returns (sent: Option<Payload>)
      modifies this
      ensures Current() == old(Current()) && modalVisible
      ensures MissingOf(Current(), Order) != [] ==>
                sent.None? && modalTitle == ErrorTitle && modalMessage == MissingMessage(MissingOf(Current(), Order))
      ensures MissingOf(Current(), Order) == [] ==>
                (forall f: Field :: !IsMissing(Current(), f))
                && (modalTitle, modalMessage) == SubmitMessage(Current(), today, reply)
                && sent == SentOf(Current(), today)
    {
      var form := Current();
      var camposFaltantes := CamposFaltantes();
      if |camposFaltantes| > 0 {
        OpenModal(ErrorTitle, MissingMessage(camposFaltantes));
        return None;
      }
      NothingMissingIff(form);
      assert !IsMissing(form, FechaInicio) && !IsMissing(form, FechaFin);
      var inicio := fechaInicio.value;
      var fin := fechaFin.value;
      if NotBefore(inicio, fin) {
        OpenModal(ErrorTitle, OrderMessage);
        return None;
      }
      if Before(fin, DateHelpers.Valid(today)) {
        OpenModal(ErrorTitle, PastMessage);
        return None;
      }
      sent := Some(PayloadOf(form));
      match reply {
        case Created =>
          OpenModal(SuccessTitle, SuccessMessage);
        case Failed(data) =>
          OpenModal(ErrorTitle, ErrorMessage(data));
      }
    }
  }
}
