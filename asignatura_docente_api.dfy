/**
 * The teaching-terms endpoint's two read-only listings: the terms of one
 * subject (`list_detalle`) and the terms whose expiry instant falls within
 * the next `dias` days (`proximos_a_vencer`).
 */
module AsignaturaDocenteApi {
  import opened Wrappers
  import opened Models
  import PyText

  /** Why a listing request fails (a 500 in both cases). */
  datatype ListError =
    | NotAnInteger    // `int()` of the parameter raises ValueError
    | OutOfRange      // `timedelta` or the datetime sum overflows

  /** The holder's person as `list_detalle` shows it. */
  datatype DetallePersona = DetallePersona(
    id: int, nombre: string, apellido: string, dni: string, estado: string, email: Option<string>)

  /**
   * One term as `list_detalle` lists it: the term's own fields, the teacher's
   * id, and the teacher's person when it exists.
   */
  datatype DetalleRecord = DetalleRecord(
    id: int,
    condicion: string,
    cargo: string,
    dedicacion: string,
    estado: string,
    fechaDeInicio: Option<int>,
    fechaDeVencimiento: Option<int>,
    notificado: bool,
    docenteId: int,
    persona: Option<DetallePersona>)

  function DetalleRecordOf(personas: seq<Persona>, a: AsignaturaDocente): (r: DetalleRecord)
    ensures && r.id == a.id && r.condicion == a.condicion && r.cargo == a.cargo && r.dedicacion == a.dedicacion
            && r.estado == a.estado && r.fechaDeInicio == a.fechaDeInicio
            && r.fechaDeVencimiento == a.fechaDeVencimiento && r.notificado == a.notificado
            && r.docenteId == a.docenteId
    ensures r.persona.Some? <==> FindPersona(personas, a.personaId).Some?
    ensures r.persona.Some? ==>
              exists p :: p in personas && p.id == a.personaId
                && r.persona.value == DetallePersona(p.id, p.nombre, p.apellido, p.dni, p.estado, p.email)
  {
    var persona := match FindPersona(personas, a.personaId)
      case None => None
      case Some(p) => Some(DetallePersona(p.id, p.nombre, p.apellido, p.dni, p.estado, p.email));
    DetalleRecord(a.id, a.condicion, a.cargo, a.dedicacion, a.estado, a.fechaDeInicio, a.fechaDeVencimiento,
                  a.notificado, a.docenteId, persona)
  }

  /** The holder's person as `proximos_a_vencer` shows it: no `estado`, no e-mail. */
  datatype ExpiringPersona = ExpiringPersona(id: int, nombre: string, apellido: string, dni: string)

  /** One term as `proximos_a_vencer` lists it: no `estado` of its own either. */
  datatype ExpiringRecord = ExpiringRecord(
    id: int,
    condicion: string,
    cargo: string,
    dedicacion: string,
    fechaDeInicio: Option<int>,
    fechaDeVencimiento: Option<int>,
    notificado: bool,
    docenteId: int,
    persona: Option<ExpiringPersona>)

  function ExpiringRecordOf(personas: seq<Persona>, a: AsignaturaDocente): (r: ExpiringRecord)
    ensures && r.id == a.id && r.condicion == a.condicion && r.cargo == a.cargo && r.dedicacion == a.dedicacion
            && r.fechaDeInicio == a.fechaDeInicio && r.fechaDeVencimiento == a.fechaDeVencimiento
            && r.notificado == a.notificado && r.docenteId == a.docenteId
    ensures r.persona.Some? <==> FindPersona(personas, a.personaId).Some?
    ensures r.persona.Some? ==>
              exists p :: p in personas && p.id == a.personaId
                && r.persona.value == ExpiringPersona(p.id, p.nombre, p.apellido, p.dni)
  {
    var persona := match FindPersona(personas, a.personaId)
      case None => None
      case Some(p) => Some(ExpiringPersona(p.id, p.nombre, p.apellido, p.dni));
    ExpiringRecord(a.id, a.condicion, a.cargo, a.dedicacion, a.fechaDeInicio, a.fechaDeVencimiento,
                   a.notificado, a.docenteId, persona)
  }

  // ---------------------------------------------------------------------
  // list_detalle

  /** The terms of subject `id`, in table order. */
  function OfSubject(rows: seq<AsignaturaDocente>, id: int): (r: seq<AsignaturaDocente>)
    ensures |r| <= |rows|
  {
    if rows == [] then []
    else
      var rest := OfSubject(rows[1..], id);
      if rows[0].asignaturaId == id then [rows[0]] + rest else rest
  }

  /** A term is listed for subject `id` exactly when it belongs to that subject. */
  lemma {:induction false} OfSubjectIff(rows: seq<AsignaturaDocente>, id: int, a: AsignaturaDocente)
    ensures a in OfSubject(rows, id) <==> a in rows && a.asignaturaId == id
  {
    if rows != [] {
      OfSubjectIff(rows[1..], id, a);
      assert rows == [rows[0]] + rows[1..];
    }
  }

  /**
   * `list_detalle`: the terms whose subject is the `asignatura` parameter.
   * Without the parameter the filter compares with NULL and matches nothing;
   * a value that is not an integer makes the lookup raise.
   */
  function ListDetalle(personas: seq<Persona>, rows: seq<AsignaturaDocente>, asignatura: Option<string>)
    : Result<seq<DetalleRecord>, ListError>
  {
    match asignatura
    case None => Ok([])
    case Some(text) =>
      match PyText.PyInt(text)
      case None => Err(NotAnInteger)
      case Some(id) =>
        var terms := OfSubject(rows, id);
        Ok(seq(|terms|, k requires 0 <= k < |terms| => DetalleRecordOf(personas, terms[k])))
  }

  /**
   * A successful `list_detalle` lists every term of the requested subject,
   * and every record it returns is such a term, echoed field by field.
   */
  lemma ListDetalleOnlySubject(personas: seq<Persona>, rows: seq<AsignaturaDocente>, text: string)
    requires ListDetalle(personas, rows, Some(text)).Ok?
    ensures PyText.PyInt(text).Some?
    ensures var r := ListDetalle(personas, rows, Some(text)).value;
            forall k :: 0 <= k < |r| ==>
              exists a :: a in rows && a.asignaturaId == PyText.PyInt(text).value && r[k] == DetalleRecordOf(personas, a)
    ensures var r := ListDetalle(personas, rows, Some(text)).value;
            forall a :: a in rows && a.asignaturaId == PyText.PyInt(text).value ==> DetalleRecordOf(personas, a) in r
  {
    var id := PyText.PyInt(text).value;
    var sel := OfSubject(rows, id);
    var r := ListDetalle(personas, rows, Some(text)).value;
    forall k | 0 <= k < |r|
      ensures exists a :: a in rows && a.asignaturaId == id && r[k] == DetalleRecordOf(personas, a)
    {
      assert sel[k] in sel;
      OfSubjectIff(rows, id, sel[k]);
      assert r[k] == DetalleRecordOf(personas, sel[k]);
    }
    forall a | a in rows && a.asignaturaId == id
      ensures DetalleRecordOf(personas, a) in r
    {
      OfSubjectIff(rows, id, a);
      var k :| 0 <= k < |sel| && sel[k] == a;
      assert r[k] == DetalleRecordOf(personas, a);
    }
    assert forall k :: 0 <= k < |r| ==>
      exists a :: a in rows && a.asignaturaId == PyText.PyInt(text).value && r[k] == DetalleRecordOf(personas, a);
  }

  // ---------------------------------------------------------------------
  // proximos_a_vencer

  const DefaultDias: int := 30

  /** The largest day count a `timedelta` accepts. */
  const MaxTimedeltaDays: int := 999999999

  /** The first and last instants a `datetime` can hold (years 1 to 9999), in whole seconds. */
  const MinInstant: int := -62135596800
  const MaxInstant: int := 253402300799

  /** `now <= fecha_de_vencimiento <= limit`; a term with no expiry is never in the window. */
  predicate InWindow(a: AsignaturaDocente, now: int, limit: int) {
    a.fechaDeVencimiento.Some? && now <= a.fechaDeVencimiento.value <= limit
  }

  /** The terms in the window, in table order; no filter on `estado` or `notificado`. */
  function Expiring(rows: seq<AsignaturaDocente>, now: int, limit: int): (r: seq<AsignaturaDocente>)
    ensures |r| <= |rows|
  {
    if rows == [] then []
    else
      var rest := Expiring(rows[1..], now, limit);
      if InWindow(rows[0], now, limit) then [rows[0]] + rest else rest
  }

  lemma {:induction false} ExpiringIff(rows: seq<AsignaturaDocente>, now: int, limit: int, a: AsignaturaDocente)
    ensures a in Expiring(rows, now, limit) <==> a in rows && InWindow(a, now, limit)
  {
    if rows != [] {
      ExpiringIff(rows[1..], now, limit, a);
      assert rows == [rows[0]] + rows[1..];
    }
  }

  /** The number of days the request asks for: `dias`, or 30 without it. */
  function Dias(dias: Option<string>): Option<int> {
    match dias
    case None => Some(DefaultDias)
    case Some(text) => PyText.PyInt(text)
  }

  /** `proximos_a_vencer` at instant `now`. */
  function ProximosAVencer(personas: seq<Persona>, rows: seq<AsignaturaDocente>, now: int, dias: Option<string>)
    : Result<seq<ExpiringRecord>, ListError>
  {
    match Dias(dias)
    case None => Err(NotAnInteger)
    case Some(d) =>
      if d < -MaxTimedeltaDays || d > MaxTimedeltaDays then Err(OutOfRange)
      else
        var limit := now + d * SecondsPerDay;
        if limit < MinInstant || limit > MaxInstant then Err(OutOfRange)
        else
          var terms := Expiring(rows, now, limit);
          Ok(seq(|terms|, k requires 0 <= k < |terms| => ExpiringRecordOf(personas, terms[k])))
  }

  /**
   * A term is listed exactly when its expiry lies between now and `dias`
   * days later, inclusive, whatever its `estado` and `notificado`; each
   * listed record is one such term, echoed field by field.
   */
  lemma ProximosWindow(personas: seq<Persona>, rows: seq<AsignaturaDocente>, now: int, dias: Option<string>)
    requires ProximosAVencer(personas, rows, now, dias).Ok?
    ensures Dias(dias).Some? && -MaxTimedeltaDays <= Dias(dias).value <= MaxTimedeltaDays
    ensures var limit := now + Dias(dias).value * SecondsPerDay;
            var r := ProximosAVencer(personas, rows, now, dias).value;
            && (forall a :: a in rows && InWindow(a, now, limit) ==> ExpiringRecordOf(personas, a) in r)
            && (forall x :: x in r ==> exists a :: a in rows && InWindow(a, now, limit) && x == ExpiringRecordOf(personas, a))
  {
    var limit := now + Dias(dias).value * SecondsPerDay;
    var sel := Expiring(rows, now, limit);
    var r := ProximosAVencer(personas, rows, now, dias).value;
    forall a | a in rows && InWindow(a, now, limit)
      ensures ExpiringRecordOf(personas, a) in r
    {
      ExpiringIff(rows, now, limit, a);
      var k :| 0 <= k < |sel| && sel[k] == a;
      assert r[k] == ExpiringRecordOf(personas, a);
    }
    forall x | x in r
      ensures exists a :: a in rows && InWindow(a, now, limit) && x == ExpiringRecordOf(personas, a)
    {
      var k :| 0 <= k < |r| && r[k] == x;
      assert sel[k] in sel;
      ExpiringIff(rows, now, limit, sel[k]);
    }
  }

  /** Without `dias` the window is the next 30 days; a `dias` that is not an integer is an error. */
  lemma DiasDefault(text: string)
    requires PyText.PyInt(text).None?
    ensures Dias(None) == Some(30)
    ensures forall personas, rows, now :: ProximosAVencer(personas, rows, now, Some(text)) == Err(NotAnInteger)
  {
  }
}
