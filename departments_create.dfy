/**
 * The form that creates a department: the optional e-mail rule, the order
 * in which the two e-mails are checked, the payload (an empty e-mail is
 * sent as null), the capitalised name, and the message shown when the
 * backend refuses.
 */
module DepartmentsCreate {
  import opened Wrappers
  import opened JsText
  import JsNumber
  import opened ErrorBody
  import UsuariosCreate

  // ---------------------------------------------------------------------
  // capitalizeFirstLetter

  /** `s.charAt(0).toUpperCase() + s.slice(1)`: only the first character changes. */
  function CapitalizeFirstLetter(s: string): (r: string)
    ensures |r| == |s|
    ensures s != [] ==> r[0] == ToUpperAscii(s[0]) && r[1..] == s[1..]
  {
    if s == [] then [] else [ToUpperAscii(s[0])] + s[1..]
  }

  /** Upper-casing an upper-cased character changes nothing. */
  lemma UpperTwice(c: char)
    ensures ToUpperAscii(ToUpperAscii(c)) == ToUpperAscii(c)
  {
  }

  /**
   * The name is capitalised on every keystroke, so it must be stable:
   * capitalising an already capitalised name changes nothing.
   */
  lemma CapitalizeIdempotent(s: string)
    ensures CapitalizeFirstLetter(CapitalizeFirstLetter(s)) == CapitalizeFirstLetter(s)
  {
    if s != [] {
      UpperTwice(s[0]);
      var r := CapitalizeFirstLetter(s);
      assert CapitalizeFirstLetter(r) == [ToUpperAscii(r[0])] + r[1..];
    }
  }

  // ---------------------------------------------------------------------
  // validarEmail

  /** A run the pattern `[^\s@]+` may cover: no white space and no '@'. */
  predicate Plain(p: string) {
    forall i :: 0 <= i < |p| ==> !IsSpace(p[i]) && p[i] != '@'
  }

  /**
   * `^[^\s@]+@[^\s@]+\.[^\s@]+$` matched with the '@' at `at` and the last
   * '.' the pattern uses at `dot`: three non-empty plain runs around them.
   */
  predicate SplitsAt(s: string, at: int, dot: int) {
    && 0 < at && at + 1 < dot < |s| - 1
    && s[at] == '@' && s[dot] == '.'
    && Plain(s[..at]) && Plain(s[at + 1..dot]) && Plain(s[dot + 1..])
  }

  /** The pattern matches the whole string. */
  predicate EmailShape(s: string) {
    exists at, dot | 0 < at < |s| && 0 < dot < |s| :: SplitsAt(s, at, dot)
  }

  /** `validarEmail`: an empty e-mail is accepted, since both e-mails are optional. */
  function ValidarEmail(email: string): (r: bool)
    ensures email == "" ==> r
    ensures email != "" ==> (r <==> EmailShape(email))
  {
    email == "" || EmailShape(email)
  }

  /** A name, a domain and a suffix with no space and no '@' make an accepted address. */
  lemma PlainAddressAccepted(name: string, domain: string, suffix: string)
    requires name != [] && domain != [] && suffix != []
    requires Plain(name) && Plain(domain) && Plain(suffix)
    ensures ValidarEmail(name + "@" + domain + "." + suffix)
  {
    var s := name + "@" + domain + "." + suffix;
    var at := |name|;
    var dot := |name| + 1 + |domain|;
    assert s[..at] == name;
    assert s[at + 1..dot] == domain;
    assert s[dot + 1..] == suffix;
    assert SplitsAt(s, at, dot);
  }

  /** White space anywhere makes a non-empty e-mail invalid. */
  lemma SpaceRejected(s: string, i: int)
    requires 0 <= i < |s| && IsSpace(s[i])
    ensures !ValidarEmail(s)
  {
    forall at, dot | SplitsAt(s, at, dot)
      ensures false
    {
    }
  }

  /** A second '@' makes the e-mail invalid. */
  lemma SecondAtRejected(s: string, i: int, j: int)
    requires 0 <= i < j < |s| && s[i] == '@' && s[j] == '@'
    ensures !ValidarEmail(s)
  {
    forall at, dot | SplitsAt(s, at, dot)
      ensures false
    {
    }
  }

  /**
   * The department form is stricter than the user form: every non-empty
   * e-mail it accepts is also accepted by the user form's looser pattern.
   */
  lemma StricterThanUserForm(s: string)
    requires s != "" && ValidarEmail(s)
    ensures UsuariosCreate.LooseEmail(s)
  {
    var at, dot :| 0 < at < |s| && 0 < dot < |s| && SplitsAt(s, at, dot);
    var name, domain, suffix := s[..at], s[at + 1..dot], s[dot + 1..];
    assert name[at - 1] == s[at - 1];
    assert suffix[0] == s[dot + 1];
    assert Plain(domain);
  }

  // ---------------------------------------------------------------------
  // The e-mail checks and the payload

  const DeptEmailInvalid: string := "El Email del Departamento no tiene un formato válido."
  const JefeEmailInvalid: string := "El Email del Jefe del Departamento no tiene un formato válido."

  /** The department's e-mail is checked first; the first invalid one decides. */
  function EmailCheck(mailDepartamento: string, mailJefeDepartamento: string): (r: Option<string>)
    ensures r.None? <==> ValidarEmail(mailDepartamento) && ValidarEmail(mailJefeDepartamento)
    ensures !ValidarEmail(mailDepartamento) ==> r == Some(DeptEmailInvalid)
    ensures ValidarEmail(mailDepartamento) && !ValidarEmail(mailJefeDepartamento) ==> r == Some(JefeEmailInvalid)
  {
    if mailDepartamento != "" && !ValidarEmail(mailDepartamento) then Some(DeptEmailInvalid)
    else if mailJefeDepartamento != "" && !ValidarEmail(mailJefeDepartamento) then Some(JefeEmailInvalid)
    else None
  }

  /** Leaving both e-mails empty never blocks the form. */
  lemma EmptyEmailsPass()
    ensures EmailCheck("", "").None?
  {
  }

  /** `value || null`. */
  function NullIfEmpty(s: string): (r: Option<string>)
    ensures r.None? <==> s == ""
    ensures r.Some? ==> r.value == s
  {
    if s == "" then None else Some(s)
  }

  /** The request body. */
  datatype Payload = Payload(
    nombre: string,
    telefono: string,
    estado: JsNumber.JsNum,
    interno: string,
    mailDepartamento: Option<string>,
    mailJefeDepartamento: Option<string>)

  // ---------------------------------------------------------------------
  // The message for a refused request

  /** The label shown for a backend field name; other names are shown as they are. */
  function FieldName(field: string): (r: string)
    ensures field !in {"mail_departamento", "mail_jefe_departamento", "nombre", "telefono"} ==> r == field
  {
    if field == "mail_departamento" then "Email del Departamento"
    else if field == "mail_jefe_departamento" then "Email del Jefe"
    else if field == "nombre" then "Nombre"
    else if field == "telefono" then "Teléfono"
    else field
  }

  /** One line per error of a field: "Campo: error". */
  function EntryLines(field: string, errs: seq<string>): (r: seq<string>)
    ensures |r| == |errs| && forall j :: 0 <= j < |errs| ==> r[j] == FieldName(field) + ": " + errs[j]
  {
    seq(|errs|, j requires 0 <= j < |errs| => FieldName(field) + ": " + errs[j])
  }

  /** The lines of one field: those of its list of errors; a field holding one text adds none. */
  function LinesOf(entry: (string, FieldErrors)): seq<string> {
    match entry.1
    case Many(errs) => EntryLines(entry.0, errs)
    case One(_) => []
  }

  /** Every field's lines, fields in the object's order. */
  function FieldErrorLines(entries: seq<(string, FieldErrors)>): seq<string> {
    if entries == [] then []
    else FieldErrorLines(entries[..|entries| - 1]) + LinesOf(entries[|entries| - 1])
  }

  /** A field's lines are "Campo: error" for each error of its list, and nothing for a single text. */
  lemma LinesOfIff(entry: (string, FieldErrors), line: string)
    ensures line in LinesOf(entry) <==>
              entry.1.Many? && exists j :: 0 <= j < |entry.1.texts| && line == FieldName(entry.0) + ": " + entry.1.texts[j]
  {
    if entry.1.Many? && line in LinesOf(entry) {
      var j :| 0 <= j < |LinesOf(entry)| && LinesOf(entry)[j] == line;
      assert line == FieldName(entry.0) + ": " + entry.1.texts[j];
    }
  }

  /** Each line of each field is shown. */
  lemma {:induction false} ShownFromField(entries: seq<(string, FieldErrors)>, k: int, line: string)
    requires 0 <= k < |entries| && line in LinesOf(entries[k])
    ensures line in FieldErrorLines(entries)
  {
    var init := entries[..|entries| - 1];
    if k < |init| {
      assert init[k] == entries[k];
      ShownFromField(init, k, line);
    }
  }

  /** Each line shown is a line of some field. */
  lemma {:induction false} FieldOfShown(entries: seq<(string, FieldErrors)>, line: string) returns (k: int)
    requires line in FieldErrorLines(entries)
    ensures 0 <= k < |entries| && line in LinesOf(entries[k])
  {
    var init := entries[..|entries| - 1];
    if line in FieldErrorLines(init) {
      k := FieldOfShown(init, line);
      assert init[k] == entries[k];
    } else {
      k := |entries| - 1;
    }
  }

  /** A line is shown exactly when it is one of some field's lines. */
  lemma FieldErrorLinesIff(entries: seq<(string, FieldErrors)>, line: string)
    ensures line in FieldErrorLines(entries) <==> exists k :: 0 <= k < |entries| && line in LinesOf(entries[k])
  {
    if line in FieldErrorLines(entries) {
      var k := FieldOfShown(entries, line);
    }
    if exists k :: 0 <= k < |entries| && line in LinesOf(entries[k]) {
      var k :| 0 <= k < |entries| && line in LinesOf(entries[k]);
      ShownFromField(entries, k, line);
    }
  }

  /** No line is produced exactly when no field holds a non-empty list of errors. */
  lemma {:induction false} NoFieldLinesIff(entries: seq<(string, FieldErrors)>)
    ensures FieldErrorLines(entries) == [] <==>
              forall k :: 0 <= k < |entries| && entries[k].1.Many? ==> entries[k].1.texts == []
  {
    if entries != [] {
      var init := entries[..|entries| - 1];
      NoFieldLinesIff(init);
      assert forall k :: 0 <= k < |init| ==> init[k] == entries[k];
    }
  }

  const DefaultError: string := "NO se pudo realizar la acción."

  /**
   * The message for a refused request: a non-empty text body as it is; for
   * an object its `detail`, else its `message`, else its field errors one
   * per line, else the object written as JSON (`stringify`).
   */
  function ErrorMessage(data: Option<ErrorData>, stringify: ErrorData -> string): (r: string)
    ensures data.None? || data == Some(TextData("")) ==> r == DefaultError
    ensures data.Some? && data.value.TextData? && data.value.text != "" ==> r == data.value.text
    ensures data.Some? && data.value.ObjectData? && TextOf(data.value.entries, "detail").Some? ==>
              r == TextOf(data.value.entries, "detail").value
    ensures data.Some? && data.value.ObjectData? && TextOf(data.value.entries, "detail").None?
            && TextOf(data.value.entries, "message").Some? ==>
              r == TextOf(data.value.entries, "message").value
  {
    match data
    case None => DefaultError
    case Some(TextData(text)) => if text != "" then text else DefaultError
    case Some(ObjectData(entries)) =>
      if TextOf(entries, "detail").Some? then TextOf(entries, "detail").value
      else if TextOf(entries, "message").Some? then TextOf(entries, "message").value
      else
        var lines := FieldErrorLines(entries);
        if |lines| > 0 then Join(lines, "\n") else stringify(data.value)
  }

  /**
   * A non-empty text under `detail` is the message, whatever else the
   * object holds, `message` included.
   */
  lemma DetailBeforeMessage(entries: seq<(string, FieldErrors)>, k: int, stringify: ErrorData -> string)
    requires 0 <= k < |entries| && entries[k].0 == "detail" && entries[k].1.One? && entries[k].1.text != ""
    requires forall j :: 0 <= j < k ==> entries[j].0 != "detail"
    ensures ErrorMessage(Some(ObjectData(entries)), stringify) == entries[k].1.text
  {
    TextOfFirst(entries, "detail", k);
  }

  /** Without a `detail` text, a non-empty text under `message` is the message, whatever fields follow. */
  lemma MessageBeforeFields(entries: seq<(string, FieldErrors)>, k: int, stringify: ErrorData -> string)
    requires forall j :: 0 <= j < |entries| ==> entries[j].0 != "detail"
    requires 0 <= k < |entries| && entries[k].0 == "message" && entries[k].1.One? && entries[k].1.text != ""
    requires forall j :: 0 <= j < k ==> entries[j].0 != "message"
    ensures ErrorMessage(Some(ObjectData(entries)), stringify) == entries[k].1.text
  {
    TextOfAbsent(entries, "detail");
    TextOfFirst(entries, "message", k);
  }

  /**
   * Without `detail` or `message`, and with no line break in the lines,
   * the message read line by line is exactly the field lines.
   */
  lemma {:induction false} FieldLinesShown(entries: seq<(string, FieldErrors)>, stringify: ErrorData -> string)
    requires TextOf(entries, "detail").None? && TextOf(entries, "message").None?
    requires FieldErrorLines(entries) != []
    requires forall k :: 0 <= k < |FieldErrorLines(entries)| ==> '\n' !in FieldErrorLines(entries)[k]
    ensures Split(ErrorMessage(Some(ObjectData(entries)), stringify), '\n') == FieldErrorLines(entries)
  {
    SplitJoin(FieldErrorLines(entries), '\n');
  }

  /** Without `detail`, `message` or any listed error, the object is shown as JSON. */
  lemma {:induction false} JsonFallback(entries: seq<(string, FieldErrors)>, stringify: ErrorData -> string)
    requires TextOf(entries, "detail").None? && TextOf(entries, "message").None?
    requires forall k :: 0 <= k < |entries| && entries[k].1.Many? ==> entries[k].1.texts == []
    ensures ErrorMessage(Some(ObjectData(entries)), stringify) == stringify(ObjectData(entries))
  {
    NoFieldLinesIff(entries);
  }

  /** The loops over the fields and over each field's errors, pushing one line per error. */
  method FormatFieldErrors(entries: seq<(string, FieldErrors)>) returns (errors: seq<string>)
    ensures errors == FieldErrorLines(entries)
  {
    errors := [];
    var i := 0;
    while i < |entries|
      invariant 0 <= i <= |entries|
      invariant errors == FieldErrorLines(entries[..i])
    {
      var field := entries[i].0;
      var fieldErrors := entries[i].1;
      if fieldErrors.Many? {
        var j := 0;
        while j < |fieldErrors.texts|
          invariant 0 <= j <= |fieldErrors.texts|
          invariant errors == FieldErrorLines(entries[..i]) + EntryLines(field, fieldErrors.texts[..j])
        {
          assert EntryLines(field, fieldErrors.texts[..j + 1])
              == EntryLines(field, fieldErrors.texts[..j]) + [FieldName(field) + ": " + fieldErrors.texts[j]];
          errors := errors + [FieldName(field) + ": " + fieldErrors.texts[j]];
          j := j + 1;
        }
        assert fieldErrors.texts[..j] == fieldErrors.texts;
      }
      assert entries[..i + 1][..i] == entries[..i];
      assert FieldErrorLines(entries[..i + 1]) == FieldErrorLines(entries[..i]) + LinesOf(entries[i]);
      i := i + 1;
    }
    assert entries[..i] == entries;
  }

  // ---------------------------------------------------------------------
  // The page

  /** What the request ends in. */
  datatype Reply = Created | Failed(data: Option<ErrorData>)

  const ErrorTitle: string := "Error"
  const SuccessTitle: string := "Éxito"
  const SuccessMessage: string := "Se creó el departamento con éxito."

  class CreateDepartmentPage {
    var nombre: string
    var telefono: string
    var estado: string
    var interno: string
    var mailDepartamento: string
    var mailJefeDepartamento: string
    var modalVisible: bool
    var modalTitle: string
    var modalMessage: string

    constructor ()
      ensures nombre == "" && telefono == "" && estado == "" && interno == ""
      ensures mailDepartamento == "" && mailJefeDepartamento == ""
      ensures !modalVisible && modalTitle == "" && modalMessage == ""
    {
      nombre := "";
      telefono := "";
      estado := "";
      interno := "";
      mailDepartamento := "";
      mailJefeDepartamento := "";
      modalVisible := false;
      modalTitle := "";
      modalMessage := "";
    }

    /** The name field's change handler: the typed value, capitalised. */
    method SetNombre(value: string)
      modifies this
      ensures nombre == CapitalizeFirstLetter(value)
      ensures telefono == old(telefono) && estado == old(estado) && interno == old(interno)
      ensures mailDepartamento == old(mailDepartamento) && mailJefeDepartamento == old(mailJefeDepartamento)
      ensures modalVisible == old(modalVisible) && modalTitle == old(modalTitle) && modalMessage == old(modalMessage)
    {
      nombre := CapitalizeFirstLetter(value);
    }

    /** The body built from the fields: `Number(estado)`, empty e-mails as null. */
    function PayloadOf(): Payload
      reads this
    {
      Payload(nombre, telefono, JsNumber.StringToNumber(estado), interno,
              NullIfEmpty(mailDepartamento), NullIfEmpty(mailJefeDepartamento))
    }

    /**
     * `crearNuevoDepartamento`: the two e-mail checks, then the request,
     * whose reply the caller supplies.
     */
    method CrearNuevoDepartamento(reply: Reply, stringify: ErrorData -> string) returns (sent: Option<Payload>)
      modifies this
      ensures nombre == old(nombre) && telefono == old(telefono) && estado == old(estado) && interno == old(interno)
      ensures mailDepartamento == old(mailDepartamento) && mailJefeDepartamento == old(mailJefeDepartamento)
      ensures modalVisible
      ensures EmailCheck(mailDepartamento, mailJefeDepartamento).Some? ==>
                sent.None? && modalTitle == ErrorTitle
                && modalMessage == EmailCheck(mailDepartamento, mailJefeDepartamento).value
      ensures EmailCheck(mailDepartamento, mailJefeDepartamento).None? ==>
                sent == Some(PayloadOf())
                && (reply.Created? ==> modalTitle == SuccessTitle && modalMessage == SuccessMessage)
                && (reply.Failed? ==> modalTitle == ErrorTitle && modalMessage == ErrorMessage(reply.data, stringify))
    {
      if mailDepartamento != "" && !ValidarEmail(mailDepartamento) {
        OpenModal(ErrorTitle, DeptEmailInvalid);
        return None;
      }
      if mailJefeDepartamento != "" && !ValidarEmail(mailJefeDepartamento) {
        OpenModal(ErrorTitle, JefeEmailInvalid);
        return None;
      }
      sent := Some(PayloadOf());
      match reply {
        case Created =>
          OpenModal(SuccessTitle, SuccessMessage);
        case Failed(data) =>
          var errorMessage := DefaultError;
          if data.Some? {
            match data.value {
              case TextData(text) =>
                if text != "" {
                  errorMessage := text;
                }
              case ObjectData(entries) =>
                if TextOf(entries, "detail").Some? {
                  errorMessage := TextOf(entries, "detail").value;
                } else if TextOf(entries, "message").Some? {
                  errorMessage := TextOf(entries, "message").value;
                } else {
                  var errors := FormatFieldErrors(entries);
                  errorMessage := if |errors| > 0 then Join(errors, "\n") else stringify(data.value);
                }
            }
          }
          OpenModal(ErrorTitle, errorMessage);
      }
    }

    /** `handleOpenModal`. */
    method OpenModal(title: string, message: string)
      modifies this
      ensures modalVisible && modalTitle == title && modalMessage == message
      ensures nombre == old(nombre) && telefono == old(telefono) && estado == old(estado) && interno == old(interno)
      ensures mailDepartamento == old(mailDepartamento) && mailJefeDepartamento == old(mailJefeDepartamento)
    {
      modalTitle := title;
      modalMessage := message;
      modalVisible := true;
    }
  }
}
