/**
 * The form that creates a person: the three required fields, the payload
 * built from the trimmed fields (blank optional fields become null), and
 * the capitalisation applied to names as they are typed.
 */
module PersonsCreate {
  import opened Wrappers
  import opened JsText
  import JsNumber
  import DateHelpers

  /** `s.charAt(0).toUpperCase() + s.slice(1).toLowerCase()`. */
  function CapitalizeFirstLetter(s: string): (r: string)
    ensures |r| == |s|
    ensures s != [] ==> r[0] == ToUpperAscii(s[0]) && r[1..] == LowerAscii(s[1..])
  {
    if s == [] then [] else [ToUpperAscii(s[0])] + LowerAscii(s[1..])
  }

  /** After the first character, no upper-case letter is left. */
  lemma CapitalizedRestIsLower(s: string)
    ensures forall i :: 1 <= i < |s| ==> !('A' <= CapitalizeFirstLetter(s)[i] <= 'Z')
  {
    var r := CapitalizeFirstLetter(s);
    forall i | 1 <= i < |s|
      ensures !('A' <= r[i] <= 'Z')
    {
      assert r[i] == r[1..][i - 1] == ToLowerAscii(s[1..][i - 1]);
    }
  }

  /** Names are capitalised on every keystroke, so capitalising must be stable. */
  lemma CapitalizeIdempotent(s: string)
    ensures CapitalizeFirstLetter(CapitalizeFirstLetter(s)) == CapitalizeFirstLetter(s)
  {
    var r := CapitalizeFirstLetter(s);
    if s != [] {
      var rest := r[1..];
      assert LowerAscii(rest) == rest by {
        forall i | 0 <= i < |rest|
          ensures LowerAscii(rest)[i] == rest[i]
        {
          assert rest[i] == ToLowerAscii(s[1..][i]);
        }
      }
      assert CapitalizeFirstLetter(r) == [ToUpperAscii(r[0])] + LowerAscii(rest);
    }
  }

  /** What the form holds; `tituloId` is `None` for the empty choice. */
  datatype Form = Form(
    dni: string,
    nombre: string,
    apellido: string,
    legajo: string,
    telefono: string,
    email: string,
    interno: string,
    estado: string,
    fechaNacimiento: Option<DateHelpers.Dayjs>,
    tituloId: Option<int>)

  /** The request body; `None` is JSON null. */
  datatype Payload = Payload(
    nombre: string,
    apellido: string,
    telefono: Option<string>,
    dni: string,
    estado: string,
    email: Option<string>,
    interno: Option<int>,
    legajo: Option<string>,
    titulo: Option<int>,
    fechaNacimiento: Option<string>)

  /** `!nombre.trim() || !apellido.trim() || !dni.trim()`. */
  predicate MissingRequired(form: Form) {
    Trim(form.nombre) == "" || Trim(form.apellido) == "" || Trim(form.dni) == ""
  }

  /** `s.trim() || null`. */
  function TrimmedOrNull(s: string): (r: Option<string>)
    ensures r.None? <==> forall i :: 0 <= i < |s| ==> IsSpace(s[i])
    ensures r.Some? ==> r.value == Trim(s) && Trim(r.value) == r.value
  {
    TrimEmptyIff(s);
    TrimIdempotent(s);
    if Trim(s) == "" then None else Some(Trim(s))
  }

  /**
   * `interno.trim() ? parseInt(interno.trim()) : null`; a text `parseInt`
   * cannot read gives NaN, which the JSON body carries as null.
   */
  function InternoValue(interno: string): (r: Option<int>)
    ensures Trim(interno) == "" ==> r.None?
    ensures Trim(interno) != "" ==> r == JsNumber.ParseInt(Trim(interno))
  {
    if Trim(interno) == "" then None else JsNumber.ParseInt(Trim(interno))
  }

  /** An internal number typed as digits, with or without spaces around, is sent as its value. */
  lemma InternoDigits(pre: string, digits: string, post: string)
    requires digits != [] && JsNumber.AllDigits(digits, 10)
    requires forall i :: 0 <= i < |pre| ==> IsSpace(pre[i])
    requires forall i :: 0 <= i < |post| ==> IsSpace(post[i])
    ensures InternoValue(pre + digits + post) == Some(JsNumber.DigitsValue(digits, 10) as int)
  {
    assert !IsSpace(digits[0]) && !IsSpace(digits[|digits| - 1]) by {
      assert JsNumber.IsDigitIn(digits[0], 10);
      assert JsNumber.IsDigitIn(digits[|digits| - 1], 10);
    }
    TrimAround(pre, digits, post);
    JsNumber.ParseIntOfDigits(digits);
  }

  /** `tituloId || null`: the empty choice and 0 are both null. */
  function TituloValue(tituloId: Option<int>): (r: Option<int>)
    ensures r.Some? <==> tituloId.Some? && tituloId.value != 0
    ensures r.Some? ==> r.value == tituloId.value
  {
    if tituloId.Some? && tituloId.value != 0 then tituloId else None
  }

  /** `formatFechaParaBackend(fechaNacimiento)`. */
  function BirthDate(d: Option<DateHelpers.Dayjs>): (r: Option<string>)
    ensures d.None? ==> r.None?
    ensures d.Some? ==> r == Some(DateHelpers.FormatYYYYMMDD(d.value))
  {
    match d
    case None => DateHelpers.FormatFechaParaBackend(DateHelpers.NoDate, _ => DateHelpers.Invalid)
    case Some(v) => DateHelpers.FormatFechaParaBackend(DateHelpers.Object(v), _ => DateHelpers.Invalid)
  }

  /** The body sent for a form with its required fields. */
  function PayloadOf(form: Form): (r: Payload)
    requires !MissingRequired(form)
    ensures r.nombre != "" && r.apellido != "" && r.dni != ""
    ensures Trim(r.nombre) == r.nombre && Trim(r.apellido) == r.apellido && Trim(r.dni) == r.dni
  {
    TrimIdempotent(form.nombre);
    TrimIdempotent(form.apellido);
    TrimIdempotent(form.dni);
    Payload(
      Trim(form.nombre),
      Trim(form.apellido),
      TrimmedOrNull(form.telefono),
      Trim(form.dni),
      form.estado,
      TrimmedOrNull(form.email),
      InternoValue(form.interno),
      TrimmedOrNull(form.legajo),
      TituloValue(form.tituloId),
      BirthDate(form.fechaNacimiento))
  }

  /** What the request ends in. */
  datatype Reply = Created | Failed

  /** What a submission shows and sends. */
  datatype Submission = Submission(sent: Option<Payload>, title: string, message: string)

  const RequiredMessage: string := "Los campos Nombre, Apellido y DNI son obligatorios."
  const SuccessMessage: string := "Se creó la persona con éxito."
  const FailureMessage: string := "No se pudo realizar la acción."

  /** `crearNuevaPersona`, the request's reply supplied by the caller. */
  function CrearNuevaPersona(form: Form, reply: Reply): (r: Submission)
    ensures r.sent.None? <==> MissingRequired(form)
    ensures MissingRequired(form) ==> r.title == "Error" && r.message == RequiredMessage
    ensures !MissingRequired(form) ==> r.sent == Some(PayloadOf(form))
    ensures !MissingRequired(form) && reply.Created? ==> r.title == "Éxito" && r.message == SuccessMessage
    ensures !MissingRequired(form) && reply.Failed? ==> r.title == "Error" && r.message == FailureMessage
  {
    if MissingRequired(form) then Submission(None, "Error", RequiredMessage)
    else
      match reply
      case Created => Submission(Some(PayloadOf(form)), "Éxito", SuccessMessage)
      case Failed => Submission(Some(PayloadOf(form)), "Error", FailureMessage)
  }

  /** A name made only of spaces is as good as no name: nothing is sent. */
  lemma BlankNameRejected(form: Form, reply: Reply)
    requires forall i :: 0 <= i < |form.nombre| ==> IsSpace(form.nombre[i])
    ensures CrearNuevaPersona(form, reply).sent.None?
  {
    TrimEmptyIff(form.nombre);
  }

  /** Spaces typed around the required fields never reach the backend. */
  lemma SpacesAroundDropped(form: Form, reply: Reply, pre: string, post: string)
    requires form.nombre != [] && !IsSpace(form.nombre[0]) && !IsSpace(form.nombre[|form.nombre| - 1])
    requires !MissingRequired(form)
    requires forall i :: 0 <= i < |pre| ==> IsSpace(pre[i])
    requires forall i :: 0 <= i < |post| ==> IsSpace(post[i])
    ensures var padded := form.(nombre := pre + form.nombre + post);
            CrearNuevaPersona(padded, reply) == CrearNuevaPersona(form, reply)
  {
    var padded := form.(nombre := pre + form.nombre + post);
    TrimAround(pre, form.nombre, post);
    TrimOfTrimmed(form.nombre);
    SameTrimSamePayload(form, padded, reply);
  }

  /** Forms whose names trim alike, and that agree otherwise, are submitted alike. */
  lemma SameTrimSamePayload(form: Form, padded: Form, reply: Reply)
    requires !MissingRequired(form) && padded == form.(nombre := padded.nombre)
    requires Trim(padded.nombre) == Trim(form.nombre)
    ensures CrearNuevaPersona(padded, reply) == CrearNuevaPersona(form, reply)
  {
    assert PayloadOf(padded) == PayloadOf(form);
  }

}
