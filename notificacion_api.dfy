/**
 * The notifications endpoint: the listing order, marking one notification
 * as read, and creating one by hand.
 */
module NotificacionApi {
  import opened Wrappers
  import opened Models
  import PyText

  // ---------------------------------------------------------------------
  // Listing order: newest first.

  /** No notification comes before a more recent one. */
  predicate NewestFirstSorted(s: seq<Notificacion>) {
    forall i, j :: 0 <= i < j < |s| ==> s[i].fechaCreacion >= s[j].fechaCreacion
  }

  /** Puts `n` into a newest-first sequence, before the first strictly older row. */
  function InsertByDate(n: Notificacion, s: seq<Notificacion>): (r: seq<Notificacion>)
    requires NewestFirstSorted(s)
    ensures NewestFirstSorted(r)
    ensures multiset(r) == multiset(s) + multiset{n}
    ensures forall k :: 0 <= k < |r| ==> r[k] == n || r[k] in s
  {
    if s == [] then [n]
    else if n.fechaCreacion >= s[0].fechaCreacion then [n] + s
    else
      var rest := InsertByDate(n, s[1..]);
      InsertBehind(n, s, rest);
      [s[0]] + rest
  }

  /** Putting the newest row of `s` in front of `n` inserted into the others. */
  lemma InsertBehind(n: Notificacion, s: seq<Notificacion>, rest: seq<Notificacion>)
    requires s != [] && NewestFirstSorted(s) && n.fechaCreacion < s[0].fechaCreacion
    requires NewestFirstSorted(rest) && multiset(rest) == multiset(s[1..]) + multiset{n}
    requires forall k :: 0 <= k < |rest| ==> rest[k] == n || rest[k] in s[1..]
    ensures NewestFirstSorted([s[0]] + rest)
    ensures multiset([s[0]] + rest) == multiset(s) + multiset{n}
    ensures forall k :: 0 <= k < |[s[0]] + rest| ==> ([s[0]] + rest)[k] == n || ([s[0]] + rest)[k] in s
  {
    assert s == [s[0]] + s[1..];
    forall k | 0 <= k < |rest| ensures rest[k].fechaCreacion <= s[0].fechaCreacion {
      if rest[k] != n {
        var j :| 0 <= j < |s[1..]| && s[1..][j] == rest[k];
        assert s[j + 1] == rest[k];
      }
    }
  }

  /** `order_by('-fecha_creacion')`: the same rows, newest first. */
  function NewestFirst(rows: seq<Notificacion>): (r: seq<Notificacion>)
    ensures NewestFirstSorted(r)
    ensures multiset(r) == multiset(rows)
  {
    if rows == [] then []
    else
      assert rows == [rows[0]] + rows[1..];
      InsertByDate(rows[0], NewestFirst(rows[1..]))
  }

  /** Sorting a listing that is already newest first changes nothing. */
  lemma {:induction false} NewestFirstKeepsSorted(rows: seq<Notificacion>)
    requires NewestFirstSorted(rows)
    ensures NewestFirst(rows) == rows
  {
    if rows != [] {
      assert NewestFirstSorted(rows[1..]);
      NewestFirstKeepsSorted(rows[1..]);
      if |rows| > 1 {
        assert rows[0].fechaCreacion >= rows[1].fechaCreacion;
      }
    }
  }

  // ---------------------------------------------------------------------
  // marcar_leida

  /** The position of the notification with primary key `pk`. */
  function IndexOfId(rows: seq<Notificacion>, pk: int): (r: Option<nat>)
    ensures r.Some? ==> r.value < |rows| && rows[r.value].id == pk
    ensures r.Some? ==> forall j :: 0 <= j < r.value ==> rows[j].id != pk
    ensures r.None? ==> forall k :: 0 <= k < |rows| ==> rows[k].id != pk
  {
    if rows == [] then None
    else if rows[0].id == pk then Some(0)
    else match IndexOfId(rows[1..], pk)
      case None => None
      case Some(k) => Some(k + 1)
  }

  /** The table after `marcar_leida(pk)`: `None` is the 404 of `get_object`. */
  function MarkRead(rows: seq<Notificacion>, pk: int): Option<seq<Notificacion>> {
    match IndexOfId(rows, pk)
    case None => None
    case Some(k) => Some(rows[k := rows[k].(leido := true)])
  }

  /**
   * Marking as read finds the row with the key (the first, should keys
   * repeat), sets `leido` on it and changes nothing else: its person,
   * message, creation instant and id stay, and every other row is left as
   * it was.
   */
  lemma MarkReadOnlyLeido(rows: seq<Notificacion>, pk: int)
    ensures MarkRead(rows, pk).None? <==> forall k :: 0 <= k < |rows| ==> rows[k].id != pk
    ensures MarkRead(rows, pk).Some? ==>
              var after := MarkRead(rows, pk).value;
              && |after| == |rows|
              && exists k :: && 0 <= k < |rows| && rows[k].id == pk
                             && (forall j :: 0 <= j < k ==> rows[j].id != pk)
                             && after[k] == rows[k].(leido := true)
                             && (forall j :: 0 <= j < |rows| && j != k ==> after[j] == rows[j])
  {
    if IndexOfId(rows, pk).Some? {
      var k := IndexOfId(rows, pk).value;
      var after := MarkRead(rows, pk).value;
      assert after[k] == rows[k].(leido := true);
    }
  }

  /** Marking the same notification twice leaves the table as marking it once. */
  lemma MarkReadIdempotent(rows: seq<Notificacion>, pk: int)
    requires MarkRead(rows, pk).Some?
    ensures MarkRead(MarkRead(rows, pk).value, pk) == MarkRead(rows, pk)
  {
    var k := IndexOfId(rows, pk).value;
    var after := MarkRead(rows, pk).value;
    assert forall j :: 0 <= j < |after| ==> after[j].id == rows[j].id;
    IndexOfIdSameKeys(rows, after, pk);
    assert after[k].leido;
    assert after[k := after[k].(leido := true)] == after;
  }

  /** Finding a key depends only on the keys. */
  lemma {:induction false} IndexOfIdSameKeys(a: seq<Notificacion>, b: seq<Notificacion>, pk: int)
    requires |a| == |b| && forall j :: 0 <= j < |a| ==> a[j].id == b[j].id
    ensures IndexOfId(a, pk) == IndexOfId(b, pk)
  {
    if a != [] {
      IndexOfIdSameKeys(a[1..], b[1..], pk);
    }
  }

  /** `marcar_leida`: 200 after marking the notification, 404 when there is none with that key. */
  method MarcarLeida(db: Database, pk: int) returns (status: int)
    modifies db
    ensures status == (if MarkRead(old(db.notificaciones), pk).Some? then 200 else 404)
    ensures db.State() == old(db.State()).(notificaciones := MarkRead(old(db.notificaciones), pk).GetOr(old(db.notificaciones)))
  {
    var found := IndexOfId(db.notificaciones, pk);
    if found.None? {
      return 404;
    }
    var k := found.value;
    db.notificaciones := db.notificaciones[k := db.notificaciones[k].(leido := true)];
    return 200;
  }

  // ---------------------------------------------------------------------
  // crear_notificacion

  /** What `crear_notificacion` answers. */
  datatype CrearOutcome =
    | Created(notificacion: Notificacion)   // 201 with the new row
    | FaltanDatos                           // 400 {"error": "Faltan datos"}
    | InvalidPersonaId                      // `persona_id` is not an integer: the insert raises
    | PersonaMissing                        // no such person: the foreign key check fails at commit

  function StatusOf(o: CrearOutcome): int {
    match o
    case Created(_) => 201
    case FaltanDatos => 400
    case _ => 500
  }

  /** The integer a `persona_id` value stands for, as the model field converts it. */
  function PersonaKey(v: Value): Option<int> {
    match v
    case Bool(b) => Some(if b then 1 else 0)
    case Int(i) => Some(i)
    case Str(s) => PyText.PyInt(s)
    case _ => None
  }

  /** The stored text of a `mensaje` value: `TextField` stores `str()` of what it is given. */
  function MensajeText(v: Value): string {
    if Given(v) then StrOf(v) else ""
  }

  /** The outcome and the table after `crear_notificacion`. */
  function Crear(db: Db, personaId: Value, mensaje: Value, now: int): (CrearOutcome, Db) {
    if !Truthy(personaId) || !Truthy(mensaje) then (FaltanDatos, db)
    else match PersonaKey(personaId)
      case None => (InvalidPersonaId, db)
      case Some(pid) =>
        if FindPersona(db.personas, pid).None? then (PersonaMissing, db)
        else
          var n := Notificacion(db.nextNotificacionId, pid, Texto(MensajeText(mensaje)), false, now);
          (Created(n), db.(notificaciones := db.notificaciones + [n], nextNotificacionId := db.nextNotificacionId + 1))
  }

  /**
   * A missing or empty `persona_id` or `mensaje` is refused with 400 and
   * nothing stored; otherwise exactly one unread row for that person and
   * message is appended and returned with 201, or nothing is stored at all.
   * No mail is sent and no term changes.
   */
  lemma CrearContract(db: Db, personaId: Value, mensaje: Value, now: int)
    ensures var (o, after) := Crear(db, personaId, mensaje, now);
            && (o == FaltanDatos <==> !Truthy(personaId) || !Truthy(mensaje))
            && (o.Created? ==>
                  && StatusOf(o) == 201
                  && after.notificaciones == db.notificaciones + [o.notificacion]
                  && Some(o.notificacion.personaId) == PersonaKey(personaId)
                  && o.notificacion.mensaje == Texto(MensajeText(mensaje))
                  && !o.notificacion.leido && o.notificacion.fechaCreacion == now)
            && (!o.Created? ==> after == db)
            && after.outbox == db.outbox && after.jefes == db.jefes && after.asignaturas == db.asignaturas
  {
  }

  /** A request naming a known person by number with a non-empty message is created. */
  lemma CrearAccepts(db: Db, pid: int, text: string, now: int)
    requires pid != 0 && text != "" && FindPersona(db.personas, pid).Some?
    ensures Crear(db, Int(pid), Str(text), now).0.Created?
    ensures Crear(db, Int(pid), Str(text), now).0.notificacion.mensaje == Texto(text)
  {
  }

  /** `crear_notificacion`, run on the database. */
  method CrearNotificacion(db: Database, personaId: Value, mensaje: Value, now: int) returns (outcome: CrearOutcome)
    modifies db
    ensures (outcome, db.State()) == Crear(old(db.State()), personaId, mensaje, now)
  {
    if !Truthy(personaId) || !Truthy(mensaje) {
      return FaltanDatos;
    }
    var key := PersonaKey(personaId);
    if key.None? {
      return InvalidPersonaId;
    }
    if FindPersona(db.personas, key.value).None? {
      return PersonaMissing;
    }
    var notificacion := Notificacion(db.nextNotificacionId, key.value, Texto(MensajeText(mensaje)), false, now);
    db.notificaciones := db.notificaciones + [notificacion];
    db.nextNotificacionId := db.nextNotificacionId + 1;
    return Created(notificacion);
  }
}
