/**
 * The user-creation form: the field-by-field validation that fills the
 * error dictionary, the clearing of one field's error as the user types,
 * the request body, and the message shown when the server refuses the user.
 */
module UsuariosCreate {
  import opened Wrappers
  import opened JsText
  import JsNumber

  /** The form's fields, all text as typed. */
  datatype FormData = FormData(
    email: string,
    password: string,
    confirmPassword: string,
    nombre: string,
    apellido: string,
    legajo: string,
    documento: string,
    rol: string)

  datatype Field = Email | Password | ConfirmPassword | Nombre | Apellido | Legajo | Documento | Rol

  function ValueOf(form: FormData, f: Field): string {
    match f
    case Email => form.email
    case Password => form.password
    case ConfirmPassword => form.confirmPassword
    case Nombre => form.nombre
    case Apellido => form.apellido
    case Legajo => form.legajo
    case Documento => form.documento
    case Rol => form.rol
  }

  /** The form with one field replaced, as `handleInputChange` spreads it. */
  function WithValue(form: FormData, f: Field, v: string): (r: FormData)
    ensures ValueOf(r, f) == v
    ensures forall g :: g != f ==> ValueOf(r, g) == ValueOf(form, g)
  {
    match f
    case Email => form.(email := v)
    case Password => form.(password := v)
    case ConfirmPassword => form.(confirmPassword := v)
    case Nombre => form.(nombre := v)
    case Apellido => form.(apellido := v)
    case Legajo => form.(legajo := v)
    case Documento => form.(documento := v)
    case Rol => form.(rol := v)
  }

  // ---------------------------------------------------------------------
  // validateForm

  /**
   * `/\S+@\S+\.\S+/.test(s)`: somewhere in `s` an '@' with a non-space
   * character before it, then a non-empty run of non-space characters, a
   * '.', and a non-space character after it.
   */
  predicate LooseEmail(s: string) {
    exists at, dot :: 0 < at < |s| && at + 1 < dot < |s| - 1
      && s[at] == '@' && s[dot] == '.'
      && !IsSpace(s[at - 1]) && NoSpace(s[at + 1..dot]) && !IsSpace(s[dot + 1])
  }

  const EmailRequired: string := "El email es requerido"
  const EmailInvalid: string := "El email no es válido"
  const PasswordRequired: string := "La contraseña es requerida"
  const PasswordShort: string := "La contraseña debe tener al menos 6 caracteres"
  const PasswordsDiffer: string := "Las contraseñas no coinciden"
  const NombreRequired: string := "El nombre es requerido"
  const ApellidoRequired: string := "El apellido es requerido"
  const LegajoRequired: string := "El legajo es requerido"
  const LegajoNotNumber: string := "El legajo debe ser un número"
  const DocumentoRequired: string := "El documento es requerido"
  const DocumentoNotNumber: string := "El documento debe ser un número"
  const RolRequired: string := "El rol es requerido"

  /** The e-mail's error: required, then the pattern. */
  function EmailError(email: string): Option<string> {
    if email == "" then Some(EmailRequired)
    else if !LooseEmail(email) then Some(EmailInvalid)
    else None
  }

  /** The password's error: required, then at least six characters. */
  function PasswordError(password: string): Option<string> {
    if password == "" then Some(PasswordRequired)
    else if |password| < 6 then Some(PasswordShort)
    else None
  }

  /** The confirmation's error: it must equal the password. */
  function ConfirmError(password: string, confirmPassword: string): Option<string> {
    if password != confirmPassword then Some(PasswordsDiffer) else None
  }

  /** The error of a text that must be present. */
  function RequiredError(v: string, message: string): Option<string> {
    if v == "" then Some(message) else None
  }

  /** The error of a number typed as text: required, then `isNaN(Number(v))`. */
  function NumberError(v: string, required: string, notNumber: string): Option<string> {
    if v == "" then Some(required)
    else if JsNumber.IsNaNNumber(v) then Some(notNumber)
    else None
  }

  /** The one error a field gets, if any. */
  function FieldError(form: FormData, f: Field): Option<string> {
    match f
    case Email => EmailError(form.email)
    case Password => PasswordError(form.password)
    case ConfirmPassword => ConfirmError(form.password, form.confirmPassword)
    case Nombre => RequiredError(form.nombre, NombreRequired)
    case Apellido => RequiredError(form.apellido, ApellidoRequired)
    case Legajo => NumberError(form.legajo, LegajoRequired, LegajoNotNumber)
    case Documento => NumberError(form.documento, DocumentoRequired, DocumentoNotNumber)
    case Rol => RequiredError(form.rol, RolRequired)
  }

  /** `newErrors.f = message` when the field has an error. */
  function Note(errors: map<Field, string>, f: Field, e: Option<string>): map<Field, string> {
    if e.Some? then errors[f := e.value] else errors
  }

  /** The error dictionary `validateForm` ends with: each field's error noted in the order the fields are checked. */
  function Errors(form: FormData): map<Field, string> {
    NoteFields(EmailError(form.email), PasswordError(form.password), ConfirmError(form.password, form.confirmPassword),
      RequiredError(form.nombre, NombreRequired), RequiredError(form.apellido, ApellidoRequired),
      NumberError(form.legajo, LegajoRequired, LegajoNotNumber),
      NumberError(form.documento, DocumentoRequired, DocumentoNotNumber), RequiredError(form.rol, RolRequired))
  }

  /** Noting the eight fields' errors in the order `validateForm` checks them. */
  function NoteFields(email: Option<string>, password: Option<string>, confirm: Option<string>, nombre: Option<string>,
                      apellido: Option<string>, legajo: Option<string>, documento: Option<string>, rol: Option<string>)
    : map<Field, string>
  {
    var m := Note(map[], Email, email);
    var m := Note(m, Password, password);
    var m := Note(m, ConfirmPassword, confirm);
    var m := Note(m, Nombre, nombre);
    var m := Note(m, Apellido, apellido);
    var m := Note(m, Legajo, legajo);
    var m := Note(m, Documento, documento);
    Note(m, Rol, rol)
  }

  /** The one of eight per-field values that belongs to `f`. */
  function Pick<T>(f: Field, email: T, password: T, confirm: T, nombre: T, apellido: T, legajo: T, documento: T, rol: T): T {
    match f
    case Email => email
    case Password => password
    case ConfirmPassword => confirm
    case Nombre => nombre
    case Apellido => apellido
    case Legajo => legajo
    case Documento => documento
    case Rol => rol
  }

  /** Noting each field once records exactly the fields that have an error, with that error. */
  lemma NoteFieldsIff(email: Option<string>, password: Option<string>, confirm: Option<string>, nombre: Option<string>,
                      apellido: Option<string>, legajo: Option<string>, documento: Option<string>, rol: Option<string>)
    ensures forall f :: (f in NoteFields(email, password, confirm, nombre, apellido, legajo, documento, rol)
                         <==> Pick(f, email, password, confirm, nombre, apellido, legajo, documento, rol).Some?)
    ensures forall f :: f in NoteFields(email, password, confirm, nombre, apellido, legajo, documento, rol) ==>
                          NoteFields(email, password, confirm, nombre, apellido, legajo, documento, rol)[f]
                          == Pick(f, email, password, confirm, nombre, apellido, legajo, documento, rol).value
  {
    forall f ensures var m := NoteFields(email, password, confirm, nombre, apellido, legajo, documento, rol);
                     var e := Pick(f, email, password, confirm, nombre, apellido, legajo, documento, rol);
                     (f in m <==> e.Some?) && (f in m ==> m[f] == e.value) {
      NoteField(f, email, password, confirm, nombre, apellido, legajo, documento, rol);
    }
  }

  /** One field's entry after noting every field. */
  lemma NoteField(f: Field, email: Option<string>, password: Option<string>, confirm: Option<string>, nombre: Option<string>,
                  apellido: Option<string>, legajo: Option<string>, documento: Option<string>, rol: Option<string>)
    ensures var m := NoteFields(email, password, confirm, nombre, apellido, legajo, documento, rol);
            var e := Pick(f, email, password, confirm, nombre, apellido, legajo, documento, rol);
            (f in m <==> e.Some?) && (f in m ==> m[f] == e.value)
  {
    var m1 := Note(map[], Email, email);
    var m2 := Note(m1, Password, password);
    var m3 := Note(m2, ConfirmPassword, confirm);
    var m4 := Note(m3, Nombre, nombre);
    var m5 := Note(m4, Apellido, apellido);
    var m6 := Note(m5, Legajo, legajo);
    var m7 := Note(m6, Documento, documento);
    NoteStep(map[], Email, email, f);
    NoteStep(m1, Password, password, f);
    NoteStep(m2, ConfirmPassword, confirm, f);
    NoteStep(m3, Nombre, nombre, f);
    NoteStep(m4, Apellido, apellido, f);
    NoteStep(m5, Legajo, legajo, f);
    NoteStep(m6, Documento, documento, f);
    NoteStep(m7, Rol, rol, f);
  }

  /** What noting one field does to another field's entry, or to its own. */
  lemma NoteStep(m: map<Field, string>, h: Field, e: Option<string>, f: Field)
    ensures f in Note(m, h, e) <==> (f == h && e.Some?) || f in m
    ensures f in Note(m, h, e) ==> Note(m, h, e)[f] == (if f == h && e.Some? then e.value else m[f])
  {
  }

  /** The dictionary has an entry for a field exactly when the field has an error, and it holds that error. */
  lemma ErrorOfField(form: FormData, f: Field)
    ensures f in Errors(form) <==> FieldError(form, f).Some?
    ensures f in Errors(form) ==> Errors(form)[f] == FieldError(form, f).value
  {
    var email := EmailError(form.email);
    var password := PasswordError(form.password);
    var confirm := FieldError(form, ConfirmPassword);
    var nombre := RequiredError(form.nombre, NombreRequired);
    var apellido := RequiredError(form.apellido, ApellidoRequired);
    var legajo := NumberError(form.legajo, LegajoRequired, LegajoNotNumber);
    var documento := NumberError(form.documento, DocumentoRequired, DocumentoNotNumber);
    var rol := RequiredError(form.rol, RolRequired);
    NoteFieldsIff(email, password, confirm, nombre, apellido, legajo, documento, rol);
    assert Errors(form) == NoteFields(email, password, confirm, nombre, apellido, legajo, documento, rol);
    assert FieldError(form, f) == Pick(f, email, password, confirm, nombre, apellido, legajo, documento, rol);
  }

  /** Whether the form is accepted: every rule of `validateForm`, stated field by field. */
  predicate Acceptable(form: FormData) {
    && LooseEmail(form.email)
    && |form.password| >= 6
    && form.password == form.confirmPassword
    && form.nombre != "" && form.apellido != "" && form.rol != ""
    && form.legajo != "" && !JsNumber.IsNaNNumber(form.legajo)
    && form.documento != "" && !JsNumber.IsNaNNumber(form.documento)
  }

  /** `validateForm` returns true exactly when the form meets every rule. */
  lemma NoErrorsIff(form: FormData)
    ensures Errors(form) == map[] <==> Acceptable(form)
  {
    if Acceptable(form) {
      forall f ensures f !in Errors(form) {
        AcceptableField(form, f);
        ErrorOfField(form, f);
      }
    } else if Errors(form) == map[] {
      NoErrorAcceptable(form);
    }
  }

  /** A dictionary without keys is the empty one. */
  lemma EmptyIff(m: map<Field, string>)
    ensures |m| == 0 <==> m == map[]
  {
    if m != map[] {
      var f :| f in m;
      assert f in m.Keys;
    }
  }

  /** A form none of whose fields has an error meets every rule. */
  lemma NoErrorAcceptable(form: FormData)
    requires forall f :: f !in Errors(form)
    ensures Acceptable(form)
  {
    ErrorOfField(form, Email);
    ErrorOfField(form, Password);
    ErrorOfField(form, ConfirmPassword);
    ErrorOfField(form, Nombre);
    ErrorOfField(form, Apellido);
    ErrorOfField(form, Legajo);
    ErrorOfField(form, Documento);
    ErrorOfField(form, Rol);
  }

  lemma AcceptableField(form: FormData, f: Field)
    requires Acceptable(form)
    ensures FieldError(form, f).None?
  {
    match f
    case Email =>
    case Password =>
    case ConfirmPassword =>
    case Nombre =>
    case Apellido =>
    case Legajo =>
    case Documento =>
    case Rol =>
  }

  /**
   * The confirmation's error depends on the two passwords only: it is
   * recorded exactly when they differ, whatever the password's own error.
   */
  lemma ConfirmErrorIndependent(form: FormData)
    ensures ConfirmPassword in Errors(form) <==> form.password != form.confirmPassword
    ensures Password in Errors(form) <==> |form.password| < 6
  {
    ErrorOfField(form, ConfirmPassword);
    ErrorOfField(form, Password);
  }

  /** An address `local@domain.tld` with no white space in its parts passes the e-mail rule. */
  lemma PlainAddressAccepted(local: string, domain: string, tld: string)
    requires local != "" && domain != "" && tld != ""
    requires NoSpace(local) && NoSpace(domain) && NoSpace(tld)
    ensures LooseEmail(local + "@" + domain + "." + tld)
  {
    var s := local + "@" + domain + "." + tld;
    var at := |local|;
    var dot := |local| + 1 + |domain|;
    assert s[at] == '@' && s[dot] == '.';
    assert s[at - 1] == local[|local| - 1];
    assert s[at + 1..dot] == domain;
    assert s[dot + 1] == tld[0];
  }

  /** Without an '@' no address passes. */
  lemma NoAtRejected(s: string)
    requires '@' !in s
    ensures !LooseEmail(s)
  {
    forall at | 0 <= at < |s|
      ensures s[at] != '@'
    {
      assert s[at] in s;
    }
  }

  /** A number typed as plain decimal digits passes the legajo and documento rules. */
  lemma DigitsAreAccepted(s: string)
    requires s != [] && JsNumber.AllDigits(s, 10)
    ensures NumberError(s, LegajoRequired, LegajoNotNumber).None?
    ensures NumberError(s, DocumentoRequired, DocumentoNotNumber).None?
  {
    JsNumber.DigitsAreNumbers(s);
  }

  // ---------------------------------------------------------------------
  // The request and the server's refusal

  /**
   * The request body: legajo, documento and rol through `parseInt` (`None`
   * where that is NaN, which the request carries as null), `is_active` true.
   */
  datatype UserPayload = UserPayload(
    email: string,
    password: string,
    nombre: string,
    apellido: string,
    legajo: Option<int>,
    documento: Option<int>,
    rol: Option<int>,
    isActive: bool)

  function Payload(form: FormData): (r: UserPayload)
    ensures r.isActive
    ensures r.email == form.email && r.password == form.password
    ensures form.rol == "" ==> r.rol.None?
  {
    UserPayload(form.email, form.password, form.nombre, form.apellido,
      JsNumber.ParseInt(form.legajo), JsNumber.ParseInt(form.documento),
      if form.rol != "" then JsNumber.ParseInt(form.rol) else None,
      true)
  }

  /** A legajo and documento typed as plain digits are sent as their values. */
  lemma DigitsSentAsValues(form: FormData)
    requires form.legajo != [] && JsNumber.AllDigits(form.legajo, 10)
    requires form.documento != [] && JsNumber.AllDigits(form.documento, 10)
    ensures Payload(form).legajo == Some(JsNumber.DigitsValue(form.legajo, 10))
    ensures Payload(form).documento == Some(JsNumber.DigitsValue(form.documento, 10))
  {
    JsNumber.ParseIntOfDigits(form.legajo);
    JsNumber.ParseIntOfDigits(form.documento);
  }

  /** The body of a refused request: absent, text, or field errors (each a list of messages). */
  datatype ErrorData = NoData | TextData(text: string) | FieldsData(entries: seq<(string, seq<string>)>)

  predicate HasKey(entries: seq<(string, seq<string>)>, key: string) {
    exists i :: 0 <= i < |entries| && entries[i].0 == key
  }

  /** `Object.values(data).join(", ")`, each list of messages written as `join(",")`. */
  function JoinedValues(entries: seq<(string, seq<string>)>): string {
    Join(seq(|entries|, i requires 0 <= i < |entries| => Join(entries[i].1, ",")), ", ")
  }

  const CreateFailed: string := "Error al crear el usuario"
  const EmailTaken: string := "El email ya está registrado en el sistema"
  const LegajoTaken: string := "El legajo ya está registrado en el sistema"
  const DocumentoTaken: string := "El documento ya está registrado en el sistema"
  const RolInvalid: string := "El rol seleccionado no es válido"

  /**
   * The message shown for a refused request: by priority an error on
   * email, legajo, documento, rol, else all the messages joined; text or no
   * body gives the generic message.
   */
  function ServerMessage(data: ErrorData): (r: string)
    ensures !data.FieldsData? ==> r == CreateFailed
    ensures data.FieldsData? && HasKey(data.entries, "email") ==> r == EmailTaken
    ensures data.FieldsData? && !HasKey(data.entries, "email") && HasKey(data.entries, "legajo") ==> r == LegajoTaken
    ensures (data.FieldsData? && !HasKey(data.entries, "email") && !HasKey(data.entries, "legajo")
             && HasKey(data.entries, "documento")) ==> r == DocumentoTaken
    ensures (data.FieldsData? && !HasKey(data.entries, "email") && !HasKey(data.entries, "legajo")
             && !HasKey(data.entries, "documento") && HasKey(data.entries, "rol")) ==> r == RolInvalid
    ensures (data.FieldsData? && !HasKey(data.entries, "email") && !HasKey(data.entries, "legajo")
             && !HasKey(data.entries, "documento") && !HasKey(data.entries, "rol")) ==> r == JoinedValues(data.entries)
  {
    match data
    case NoData => CreateFailed
    case TextData(_) => CreateFailed
    case FieldsData(entries) =>
      if HasKey(entries, "email") then EmailTaken
      else if HasKey(entries, "legajo") then LegajoTaken
      else if HasKey(entries, "documento") then DocumentoTaken
      else if HasKey(entries, "rol") then RolInvalid
      else JoinedValues(entries)
  }

  /** An error on the e-mail hides every other error the server reports. */
  lemma EmailErrorWins(entries: seq<(string, seq<string>)>, others: seq<(string, seq<string>)>, msgs: seq<string>)
    ensures ServerMessage(FieldsData(others + [("email", msgs)] + entries)) == EmailTaken
  {
    var all := others + [("email", msgs)] + entries;
    assert all[|others|].0 == "email";
  }

  /** How a submission ends. */
  datatype SubmitOutcome = Invalid | Created | Refused(message: string)

  /** The form's state. */
  class CreateUserForm {
    var formData: FormData
    var errors: map<Field, string>

    constructor ()
      ensures formData == FormData("", "", "", "", "", "", "", "") && errors == map[]
    {
      formData := FormData("", "", "", "", "", "", "", "");
      errors := map[];
    }

    /** `validateForm`: fills a fresh error dictionary field by field and keeps it. */
    method ValidateForm() returns (ok: bool)
      modifies this
      ensures errors == Errors(formData) && formData == old(formData)
      ensures ok <==> Acceptable(formData)
    {
      var form := formData;
      var newErrors: map<Field, string> := map[];
      newErrors := Note(newErrors, Email, EmailError(form.email));
      newErrors := Note(newErrors, Password, PasswordError(form.password));
      newErrors := Note(newErrors, ConfirmPassword, ConfirmError(form.password, form.confirmPassword));
      newErrors := Note(newErrors, Nombre, RequiredError(form.nombre, NombreRequired));
      newErrors := Note(newErrors, Apellido, RequiredError(form.apellido, ApellidoRequired));
      newErrors := Note(newErrors, Legajo, NumberError(form.legajo, LegajoRequired, LegajoNotNumber));
      newErrors := Note(newErrors, Documento, NumberError(form.documento, DocumentoRequired, DocumentoNotNumber));
      newErrors := Note(newErrors, Rol, RequiredError(form.rol, RolRequired));
      assert newErrors == Errors(form);
      errors := newErrors;
      ok := |newErrors| == 0;
      EmptyIff(newErrors);
      NoErrorsIff(form);
    }

    /**
     * `handleInputChange`: stores the new value and, when the field showed
     * an error, blanks that error; no other field's value or error changes.
     */
    method HandleInputChange(field: Field, value: string)
      modifies this
      ensures formData == WithValue(old(formData), field, value)
      ensures errors == if field in old(errors) && old(errors)[field] != "" then old(errors)[field := ""] else old(errors)
      ensures forall g :: g != field ==> (g in errors <==> g in old(errors)) && (g in errors ==> errors[g] == old(errors)[g])
    {
      formData := WithValue(formData, field, value);
      if field in errors && errors[field] != "" {
        errors := errors[field := ""];
      }
    }

    /** `handleSubmit`: validation, then the request, whose refusal (if any) the caller supplies. */
    method Submit(refusal: Option<ErrorData>) returns (outcome: SubmitOutcome, sent: Option<UserPayload>)
      modifies this
      ensures errors == Errors(old(formData)) && formData == old(formData)
      ensures !Acceptable(formData) ==> outcome == Invalid && sent.None?
      ensures Acceptable(formData) ==>
                sent == Some(Payload(formData))
                && outcome == (if refusal.None? then Created else Refused(ServerMessage(refusal.value)))
    {
      var ok := ValidateForm();
      if !ok {
        return Invalid, None;
      }
      sent := Some(Payload(formData));
      outcome := if refusal.None? then Created else Refused(ServerMessage(refusal.value));
    }
  }
}
