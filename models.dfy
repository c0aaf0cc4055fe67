/**
 * The tables of the departments application that the notification pipeline
 * reads and writes, and the two things outside the database it touches: the
 * mail transport (an outbox of handed-over messages) and the task queue (the
 * dispatches enqueued with `.delay`).
 *
 * Instants are integer seconds since 1970-01-01 UTC; a date (`DateField`) is
 * the number of the day since that epoch.
 */
module Models {
  import opened Wrappers
  import JsText

  const SecondsPerDay: int := 86400

  /** `instant.date()` for an instant in UTC. */
  function DateOf(t: int): int {
    t / SecondsPerDay
  }

  /** `settings.DEFAULT_FROM_EMAIL` when the environment does not override it. */
  const DefaultFromEmail: string := "noreply@facet.unt.edu.ar"

  /** One key of a JSON request body: absent, `null`, or a boolean, number or string. */
  datatype Value = Missing | Null | Bool(b: bool) | Int(i: int) | Str(s: string)

  /** Python's truthiness of that value. */
  predicate Truthy(v: Value) {
    match v
    case Missing => false
    case Null => false
    case Bool(b) => b
    case Int(i) => i != 0
    case Str(s) => s != ""
  }

  /** `data.get(key) is not None`. */
  predicate Given(v: Value) {
    !v.Missing? && !v.Null?
  }

  /** Python's `str()` of a given value. */
  function StrOf(v: Value): string
    requires Given(v)
  {
    match v
    case Bool(b) => if b then "True" else "False"
    case Int(i) => JsText.IntToString(i)
    case Str(s) => s
  }

  /** A person; `email` is `None` for NULL, `estado` is "1" for active and "0" for deleted. */
  datatype Persona = Persona(id: int, nombre: string, apellido: string, dni: string, estado: string, email: Option<string>)

  /** Python's `if not persona.email`: NULL and the empty string both count as "no e-mail". */
  predicate HasEmail(p: Persona) {
    p.email.Some? && p.email.value != ""
  }

  /** A department-head term; `personaId` is `jefe.persona.id`, `departamento` the department's name. */
  datatype JefeDepartamento = JefeDepartamento(
    id: int,
    personaId: int,
    departamento: string,
    fechaDeInicio: Option<CivilDate>,
    fechaDeFin: Option<CivilDate>,
    estado: string,
    notificado: bool)

  /**
   * A teaching term; `docenteId` is `docente.id`, `personaId` is
   * `docente.persona.id`, `fechaDeVencimiento` an instant.
   */
  datatype AsignaturaDocente = AsignaturaDocente(
    id: int,
    asignaturaId: int,
    docenteId: int,
    personaId: int,
    condicion: string,
    cargo: string,
    dedicacion: string,
    fechaDeInicio: Option<int>,
    fechaDeVencimiento: Option<int>,
    estado: string,
    notificado: bool)

  /**
   * The text of a notification: either text given by a client, or the
   * renewal reminder the scan writes, kept as the values it is rendered
   * from (`Tasks.Text` renders it).
   */
  datatype Mensaje =
    | Texto(text: string)
    | Recordatorio(nombre: string, apellido: string, departamento: string, fechaDeFin: CivilDate)

  /** A stored notification; `fechaCreacion` is set on creation (`auto_now_add`). */
  datatype Notificacion = Notificacion(id: int, personaId: int, mensaje: Mensaje, leido: bool, fechaCreacion: int)

  /** A message handed to the mail transport by `send_mail`. */
  datatype Mail = Mail(subject: string, body: Mensaje, fromEmail: string, recipients: seq<string>)

  /** The two dispatch tasks. */
  datatype TaskName = EnviarEmailNotificacion | EnviarEmailAsignatura

  /** A dispatch waiting in the queue: the task and its keyword arguments; `subject` is `None` when omitted. */
  datatype DispatchRequest = DispatchRequest(task: TaskName, personaId: int, mensaje: Mensaje, subject: Option<string>)

  /** A snapshot of everything the pipeline reads or writes. */
  datatype Db = Db(
    personas: seq<Persona>,
    jefes: seq<JefeDepartamento>,
    asignaturas: seq<AsignaturaDocente>,
    notificaciones: seq<Notificacion>,
    nextNotificacionId: int,
    outbox: seq<Mail>,
    queue: seq<DispatchRequest>)

  /** `Persona.objects.get(id=...)`: the person with that primary key, if any. */
  function FindPersona(ps: seq<Persona>, id: int): (r: Option<Persona>)
    ensures r.Some? ==> r.value in ps && r.value.id == id
    ensures r.None? ==> forall k :: 0 <= k < |ps| ==> ps[k].id != id
  {
    if ps == [] then None
    else if ps[0].id == id then Some(ps[0])
    else FindPersona(ps[1..], id)
  }

  /**
   * The database constraints the pipeline relies on: every term's holder
   * exists (foreign keys) and the next notification id is above every id in
   * use (the auto-increment sequence).
   */
  predicate Valid(db: Db) {
    && (forall k :: 0 <= k < |db.jefes| ==> FindPersona(db.personas, db.jefes[k].personaId).Some?)
    && (forall k :: 0 <= k < |db.asignaturas| ==> FindPersona(db.personas, db.asignaturas[k].personaId).Some?)
    && (forall k :: 0 <= k < |db.notificaciones| ==> db.notificaciones[k].id < db.nextNotificacionId)
  }

  /** The database, the mail transport's outbox and the task queue, updated in place by the tasks and views. */
  class Database {
    var personas: seq<Persona>
    var jefes: seq<JefeDepartamento>
    var asignaturas: seq<AsignaturaDocente>
    var notificaciones: seq<Notificacion>
    var nextNotificacionId: int
    var outbox: seq<Mail>
    var queue: seq<DispatchRequest>

    constructor (personas: seq<Persona>, jefes: seq<JefeDepartamento>, asignaturas: seq<AsignaturaDocente>)
      ensures State() == Db(personas, jefes, asignaturas, [], 1, [], [])
    {
      this.personas := personas;
      this.jefes := jefes;
      this.asignaturas := asignaturas;
      this.notificaciones := [];
      this.nextNotificacionId := 1;
      this.outbox := [];
      this.queue := [];
    }

    function State(): Db
      reads this
    {
      Db(personas, jefes, asignaturas, notificaciones, nextNotificacionId, outbox, queue)
    }
  }

  /** A `date` value: a proleptic Gregorian calendar date. */
  datatype CivilDate = CivilDate(year: int, month: int, day: int)

  /** Python's `date <= date`: dates compare as (year, month, day). */
  predicate DateLeq(a: CivilDate, b: CivilDate) {
    a.year < b.year || (a.year == b.year && (a.month < b.month || (a.month == b.month && a.day <= b.day)))
  }

  /** The calendar date of a day number (days since 1970-01-01). */
  function CivilFromDays(z: int): CivilDate {
    var shifted := z + 719468;
    var era := shifted / 146097;
    var dayOfEra := shifted - era * 146097;
    var yearOfEra := (dayOfEra - dayOfEra / 1460 + dayOfEra / 36524 - dayOfEra / 146096) / 365;
    var dayOfYear := dayOfEra - (365 * yearOfEra + yearOfEra / 4 - yearOfEra / 100);
    var mp := (5 * dayOfYear + 2) / 153;
    var day := dayOfYear - (153 * mp + 2) / 5 + 1;
    var month := if mp < 10 then mp + 3 else mp - 9;
    var year := yearOfEra + era * 400;
    CivilDate(if month <= 2 then year + 1 else year, month, day)
  }

  /** `instant.date()` in UTC, as a calendar date. */
  function DateOfInstant(t: int): CivilDate {
    CivilFromDays(DateOf(t))
  }

  /** `date.strftime('%d/%m/%Y')`. */
  function StrftimeDDMMYYYY(d: CivilDate): string {
    JsText.PadStart(JsText.IntToString(d.day), 2) + "/" + JsText.PadStart(JsText.IntToString(d.month), 2)
      + "/" + JsText.IntToString(d.year)
  }

  /** For a four-digit year, `%d/%m/%Y` is ten characters with the slashes at positions 2 and 5. */
  lemma StrftimeShape(d: CivilDate)
    requires 1 <= d.day <= 31 && 1 <= d.month <= 12 && 1000 <= d.year <= 9999
    ensures var s := StrftimeDDMMYYYY(d);
            |s| == 10 && s[2] == '/' && s[5] == '/'
  {
    TwoDigitsAtMost(d.day);
    TwoDigitsAtMost(d.month);
    var y1 := d.year / 10;
    var y2 := y1 / 10;
    var y3 := y2 / 10;
    assert 1 <= y3 <= 9;
    assert |JsText.NatToString(y3)| == 1;
    assert |JsText.NatToString(y2)| == 1 + |JsText.NatToString(y3)|;
    assert |JsText.NatToString(y1)| == 1 + |JsText.NatToString(y2)|;
    assert |JsText.NatToString(d.year)| == 1 + |JsText.NatToString(y1)|;
  }

  lemma TwoDigitsAtMost(n: nat)
    requires 1 <= n <= 99
    ensures |JsText.NatToString(n)| <= 2 && |JsText.PadStart(JsText.IntToString(n), 2)| == 2
  {
    if n >= 10 {
      assert JsText.NatToString(n) == JsText.NatToString(n / 10) + [JsText.DigitChar(n % 10)];
    }
  }
}
