/**
 * The expiration-monitoring and notification pipeline: the two e-mail
 * dispatch tasks with their retry policy, the daily scan that enqueues
 * dispatches for department-head terms about to expire, and the retention
 * cleanup of stored notifications.
 *
 * A dispatch attempt is `Attempt`, a pure function of the database snapshot,
 * the retry counter, what the mail transport does and the current instant;
 * a whole dispatch with its retries is `Run`. The methods on `Database`
 * perform the same steps in place and are proved to end in the state those
 * functions describe.
 */
module Tasks {
  import opened Wrappers
  import opened Models

  /** `max_retries=3` on both dispatch tasks. */
  const MaxRetries: nat := 3
  /** `self.retry(countdown=60, ...)`, in seconds. */
  const RetryCountdown: int := 60
  /** The scan looks 30 days ahead. */
  const HorizonDays: int := 30
  /** Notifications older than 180 days are removed. */
  const RetentionDays: int := 180

  const JefeDefaultSubject: string := "Notificación - Renovación de jefatura"
  const AsignaturaDefaultSubject: string := "Notificación - Renovación de cargo"
  const ReminderSubject: string := "Recordatorio de Renovación de Cargo - Próximo Vencimiento"

  /** What the mail transport does when `send_mail` is called: it delivers, or it raises. */
  datatype Transport = Delivers | Raises

  /** The exceptions that reach the generic handler. */
  datatype Failure = TransportError | MultipleTermsReturned

  /** The dictionary a dispatch task returns. */
  datatype TaskResult =
    | Sent(email: string, notificacionId: int)
    | NoEmail
    | PersonaNotFound
    | GaveUp(cause: Failure)

  /** One attempt either returns, or asks Celery to run the task again after `countdown` seconds. */
  datatype AttemptOutcome = Finished(result: TaskResult) | Retry(countdown: int, cause: Failure)

  datatype Step = Step(db: Db, outcome: AttemptOutcome)

  /** A whole dispatch: the final state, what the task finally returned, and how many times it ran. */
  datatype Dispatch = Dispatch(db: Db, result: TaskResult, attempts: nat)

  function SubjectFor(req: DispatchRequest): string {
    match req.subject
    case Some(s) => s
    case None => if req.task == EnviarEmailNotificacion then JefeDefaultSubject else AsignaturaDefaultSubject
  }

  /** The generic `except Exception` handler: retry while `request.retries < max_retries`, else return an error. */
  function OnException(retries: nat, cause: Failure): (o: AttemptOutcome)
    ensures o.Retry? <==> retries < MaxRetries
    ensures o.Retry? ==> o.countdown == RetryCountdown && o.cause == cause
    ensures o.Finished? ==> o.result == GaveUp(cause)
  {
    if retries < MaxRetries then Retry(RetryCountdown, cause) else Finished(GaveUp(cause))
  }

  /** How many entries of `ids` equal `id`. */
  function CountOf(ids: seq<int>, id: int): nat {
    if ids == [] then 0 else (if ids[0] == id then 1 else 0) + CountOf(ids[1..], id)
  }

  /** The position of the first entry of `ids` equal to `id`. */
  function FirstOf(ids: seq<int>, id: int): (r: Option<nat>)
    ensures r.Some? ==> r.value < |ids| && ids[r.value] == id
    ensures r.None? <==> forall k :: 0 <= k < |ids| ==> ids[k] != id
  {
    if ids == [] then None
    else if ids[0] == id then Some(0)
    else match FirstOf(ids[1..], id)
      case None => None
      case Some(k) => Some(k + 1)
  }

  /** No match means no first match, and a first match exists whenever there is one. */
  lemma {:induction false} CountOfZero(ids: seq<int>, id: int)
    ensures CountOf(ids, id) == 0 <==> FirstOf(ids, id).None?
  {
    if ids != [] {
      CountOfZero(ids[1..], id);
    }
  }

  /** With exactly one match, every other position holds another id. */
  lemma {:induction false} CountOfOne(ids: seq<int>, id: int, k: nat)
    requires CountOf(ids, id) == 1 && k < |ids| && ids[k] == id
    ensures FirstOf(ids, id) == Some(k)
    ensures forall j :: 0 <= j < |ids| && j != k ==> ids[j] != id
  {
    if ids[0] == id {
      CountOfZero(ids[1..], id);
      if k != 0 {
        assert false;
      }
    } else {
      assert ids[1..][k - 1] == id;
      CountOfOne(ids[1..], id, k - 1);
      forall j | 0 <= j < |ids| && j != k ensures ids[j] != id {
        if j > 0 { assert ids[j] == ids[1..][j - 1]; }
      }
    }
  }

  function JefeHolders(jefes: seq<JefeDepartamento>): (ids: seq<int>)
    ensures |ids| == |jefes| && forall k :: 0 <= k < |jefes| ==> ids[k] == jefes[k].personaId
  {
    seq(|jefes|, k requires 0 <= k < |jefes| => jefes[k].personaId)
  }

  function DocenteHolders(asignaturas: seq<AsignaturaDocente>): (ids: seq<int>)
    ensures |ids| == |asignaturas| && forall k :: 0 <= k < |asignaturas| ==> ids[k] == asignaturas[k].personaId
  {
    seq(|asignaturas|, k requires 0 <= k < |asignaturas| => asignaturas[k].personaId)
  }

  /** The holder ids of the table the task marks: department heads or subject teachers. */
  function Holders(db: Db, task: TaskName): seq<int> {
    if task == EnviarEmailNotificacion then JefeHolders(db.jefes) else DocenteHolders(db.asignaturas)
  }

  /**
   * The "mark as notified" step: `.get()` by person on the task's table.
   * `None` is `MultipleObjectsReturned`; no match (`DoesNotExist`) leaves
   * the database as it is.
   */
  function MarkNotified(db: Db, task: TaskName, personaId: int): Option<Db> {
    var ids := Holders(db, task);
    if CountOf(ids, personaId) >= 2 then None
    else match FirstOf(ids, personaId)
      case None => Some(db)
      case Some(k) =>
        if task == EnviarEmailNotificacion then Some(db.(jefes := db.jefes[k := db.jefes[k].(notificado := true)]))
        else Some(db.(asignaturas := db.asignaturas[k := db.asignaturas[k].(notificado := true)]))
  }

  /**
   * One run of a dispatch task body with `request.retries == retries` at
   * instant `now`: look the person up, refuse a person without e-mail,
   * append the notification row, hand the mail to the transport, mark the
   * term by person; every other exception goes to the retry handler, and
   * what was written before it stays written.
   */
  function Attempt(db: Db, req: DispatchRequest, retries: nat, transport: Transport, now: int): (s: Step)
    ensures s.outcome.Retry? ==> retries < MaxRetries && s.outcome.countdown == RetryCountdown
  {
    match FindPersona(db.personas, req.personaId)
    case None => Step(db, Finished(PersonaNotFound))
    case Some(p) =>
      if !HasEmail(p) then Step(db, Finished(NoEmail))
      else
        var row := Notificacion(db.nextNotificacionId, p.id, req.mensaje, false, now);
        var stored := db.(notificaciones := db.notificaciones + [row], nextNotificacionId := db.nextNotificacionId + 1);
        if transport == Raises then Step(stored, OnException(retries, TransportError))
        else
          var mailed := stored.(outbox := stored.outbox + [Mail(SubjectFor(req), req.mensaje, DefaultFromEmail, [p.email.value])]);
          match MarkNotified(mailed, req.task, p.id)
          case None => Step(mailed, OnException(retries, MultipleTermsReturned))
          case Some(marked) => Step(marked, Finished(Sent(p.email.value, row.id)))
  }

  /**
   * A dispatch from retry count `retries` on, the k-th remaining attempt
   * seeing `transports[k]` and running `RetryCountdown` seconds after the
   * previous one.
   */
  function Run(db: Db, req: DispatchRequest, retries: nat, transports: seq<Transport>, start: int): (r: Dispatch)
    requires retries <= MaxRetries && |transports| == MaxRetries + 1 - retries
    ensures 1 <= r.attempts <= MaxRetries + 1 - retries
    decreases |transports|
  {
    var step := Attempt(db, req, retries, transports[0], start);
    match step.outcome
    case Finished(result) => Dispatch(step.db, result, 1)
    case Retry(countdown, _) =>
      var rest := Run(step.db, req, retries + 1, transports[1..], start + countdown);
      Dispatch(rest.db, rest.result, rest.attempts + 1)
  }

  /** A dispatch from the first attempt: at most `MaxRetries + 1` runs. */
  function Dispatched(db: Db, req: DispatchRequest, transports: seq<Transport>, start: int): (r: Dispatch)
    requires |transports| == MaxRetries + 1
    ensures 1 <= r.attempts <= MaxRetries + 1
  {
    Run(db, req, 0, transports, start)
  }

  /**
   * How the pipeline may change the database: persons and the queue stay,
   * terms stay except that a `notificado` flag may go from false to true,
   * notifications and mails are only appended, and the id sequence only
   * grows.
   */
  predicate Evolves(d0: Db, d1: Db) {
    && d1.personas == d0.personas
    && d1.queue == d0.queue
    && |d1.jefes| == |d0.jefes|
    && (forall k :: 0 <= k < |d0.jefes| ==> d1.jefes[k] == d0.jefes[k] || d1.jefes[k] == d0.jefes[k].(notificado := true))
    && |d1.asignaturas| == |d0.asignaturas|
    && (forall k :: 0 <= k < |d0.asignaturas| ==>
          d1.asignaturas[k] == d0.asignaturas[k] || d1.asignaturas[k] == d0.asignaturas[k].(notificado := true))
    && d0.notificaciones <= d1.notificaciones
    && d0.outbox <= d1.outbox
    && d0.nextNotificacionId <= d1.nextNotificacionId
  }

  lemma EvolvesTransitive(d0: Db, d1: Db, d2: Db)
    requires Evolves(d0, d1) && Evolves(d1, d2)
    ensures Evolves(d0, d2)
  {
    forall k | 0 <= k < |d0.jefes|
      ensures d2.jefes[k] == d0.jefes[k] || d2.jefes[k] == d0.jefes[k].(notificado := true)
    {
      assert d1.jefes[k] == d0.jefes[k] || d1.jefes[k] == d0.jefes[k].(notificado := true);
    }
    forall k | 0 <= k < |d0.asignaturas|
      ensures d2.asignaturas[k] == d0.asignaturas[k] || d2.asignaturas[k] == d0.asignaturas[k].(notificado := true)
    {
      assert d1.asignaturas[k] == d0.asignaturas[k] || d1.asignaturas[k] == d0.asignaturas[k].(notificado := true);
    }
  }

  /** One attempt only appends rows and mails and only raises flags. */
  lemma AttemptEvolves(db: Db, req: DispatchRequest, retries: nat, transport: Transport, now: int)
    ensures Evolves(db, Attempt(db, req, retries, transport, now).db)
  {
  }

  /** A whole dispatch, retries included, only appends rows and mails and only raises flags. */
  lemma {:induction false} RunEvolves(db: Db, req: DispatchRequest, retries: nat, transports: seq<Transport>, start: int)
    requires retries <= MaxRetries && |transports| == MaxRetries + 1 - retries
    ensures Evolves(db, Run(db, req, retries, transports, start).db)
    decreases |transports|
  {
    var step := Attempt(db, req, retries, transports[0], start);
    AttemptEvolves(db, req, retries, transports[0], start);
    if step.outcome.Retry? {
      RunEvolves(step.db, req, retries + 1, transports[1..], start + step.outcome.countdown);
      EvolvesTransitive(db, step.db, Run(db, req, retries, transports, start).db);
    }
  }

  /** A change the pipeline may make keeps the constraints when every appended notification id is below the sequence. */
  lemma EvolvedValid(d0: Db, d1: Db)
    requires Valid(d0) && Evolves(d0, d1)
    requires forall k :: |d0.notificaciones| <= k < |d1.notificaciones| ==> d1.notificaciones[k].id < d1.nextNotificacionId
    ensures Valid(d1)
  {
    forall k | 0 <= k < |d1.jefes| ensures d1.jefes[k].personaId == d0.jefes[k].personaId {
      assert d1.jefes[k] == d0.jefes[k] || d1.jefes[k] == d0.jefes[k].(notificado := true);
    }
    forall k | 0 <= k < |d1.asignaturas| ensures d1.asignaturas[k].personaId == d0.asignaturas[k].personaId {
      assert d1.asignaturas[k] == d0.asignaturas[k] || d1.asignaturas[k] == d0.asignaturas[k].(notificado := true);
    }
    forall k | 0 <= k < |d0.notificaciones| ensures d1.notificaciones[k].id < d1.nextNotificacionId {
      assert d1.notificaciones[k] == d0.notificaciones[k];
    }
  }

  /** One attempt keeps the database constraints: holders still exist and every id stays below the sequence. */
  lemma AttemptKeepsValid(db: Db, req: DispatchRequest, retries: nat, transport: Transport, now: int)
    requires Valid(db)
    ensures Valid(Attempt(db, req, retries, transport, now).db)
  {
    var after := Attempt(db, req, retries, transport, now).db;
    AttemptEvolves(db, req, retries, transport, now);
    if FindPersona(db.personas, req.personaId).Some? && HasEmail(FindPersona(db.personas, req.personaId).value) {
      AttemptStoresOneRow(db, req, retries, transport, now);
    } else {
      assert after == db;
    }
    EvolvedValid(db, after);
  }

  /** A whole dispatch, retries included, keeps the database constraints. */
  lemma {:induction false} RunKeepsValid(db: Db, req: DispatchRequest, retries: nat, transports: seq<Transport>, start: int)
    requires retries <= MaxRetries && |transports| == MaxRetries + 1 - retries
    requires Valid(db)
    ensures Valid(Run(db, req, retries, transports, start).db)
    decreases |transports|
  {
    var step := Attempt(db, req, retries, transports[0], start);
    AttemptKeepsValid(db, req, retries, transports[0], start);
    if step.outcome.Retry? {
      var later := start + step.outcome.countdown;
      RunKeepsValid(step.db, req, retries + 1, transports[1..], later);
      assert Run(db, req, retries, transports, start).db == Run(step.db, req, retries + 1, transports[1..], later).db;
    } else {
      assert Run(db, req, retries, transports, start).db == step.db;
    }
  }

  /** An unknown person: the task returns at once, changes nothing and is not retried. */
  lemma UnknownPersonaIsFinal(db: Db, req: DispatchRequest, transports: seq<Transport>, start: int)
    requires |transports| == MaxRetries + 1
    requires FindPersona(db.personas, req.personaId).None?
    ensures Dispatched(db, req, transports, start) == Dispatch(db, PersonaNotFound, 1)
  {
  }

  /** A person without e-mail: the task returns at once, stores no row, sends no mail and is not retried. */
  lemma NoEmailIsFinal(db: Db, req: DispatchRequest, transports: seq<Transport>, start: int)
    requires |transports| == MaxRetries + 1
    requires FindPersona(db.personas, req.personaId).Some? && !HasEmail(FindPersona(db.personas, req.personaId).value)
    ensures Dispatched(db, req, transports, start) == Dispatch(db, NoEmail, 1)
  {
  }

  /**
   * A successful attempt: exactly one row `Notificacion(persona, mensaje)`
   * was appended, one mail to `[persona.email]` was handed over, and the
   * result carries that address and the new row's id.
   */
  lemma AttemptSuccess(db: Db, req: DispatchRequest, retries: nat, transport: Transport, now: int)
    requires Attempt(db, req, retries, transport, now).outcome.Finished?
    requires Attempt(db, req, retries, transport, now).outcome.result.Sent?
    ensures var s := Attempt(db, req, retries, transport, now);
            var p := FindPersona(db.personas, req.personaId);
            && transport == Delivers
            && p.Some? && HasEmail(p.value)
            && s.outcome.result == Sent(p.value.email.value, db.nextNotificacionId)
            && s.db.notificaciones == db.notificaciones + [Notificacion(db.nextNotificacionId, req.personaId, req.mensaje, false, now)]
            && s.db.outbox == db.outbox + [Mail(SubjectFor(req), req.mensaje, DefaultFromEmail, [p.value.email.value])]
  {
  }

  /**
   * On a successful attempt the person's only term of the task's table
   * (department heads for `enviar_email_notificacion_task`, subject
   * teachers for `enviar_email_asignatura_task`) has its flag set and the
   * other table is untouched; if the person holds no term the attempt still
   * succeeds and no flag changes.
   */
  lemma {:induction false} SuccessMarksTheTerm(db: Db, req: DispatchRequest, retries: nat, now: int)
    requires FindPersona(db.personas, req.personaId).Some? && HasEmail(FindPersona(db.personas, req.personaId).value)
    requires CountOf(Holders(db, req.task), req.personaId) <= 1
    ensures Attempt(db, req, retries, Delivers, now).outcome.Finished?
    ensures Attempt(db, req, retries, Delivers, now).outcome.result.Sent?
    ensures var s := Attempt(db, req, retries, Delivers, now);
            req.task == EnviarEmailNotificacion ==>
              && s.db.asignaturas == db.asignaturas
              && forall k :: 0 <= k < |db.jefes| ==>
                   s.db.jefes[k].notificado == (db.jefes[k].notificado || db.jefes[k].personaId == req.personaId)
    ensures var s := Attempt(db, req, retries, Delivers, now);
            req.task == EnviarEmailAsignatura ==>
              && s.db.jefes == db.jefes
              && forall k :: 0 <= k < |db.asignaturas| ==>
                   s.db.asignaturas[k].notificado
                   == (db.asignaturas[k].notificado || db.asignaturas[k].personaId == req.personaId)
  {
    var ids := Holders(db, req.task);
    CountOfZero(ids, req.personaId);
    match FirstOf(ids, req.personaId)
    case None =>
    case Some(k) => CountOfOne(ids, req.personaId, k);
  }

  /** An attempt whose send raises keeps the row it stored before sending, mails nothing and raises no flag. */
  lemma FailedSendKeepsRow(db: Db, req: DispatchRequest, retries: nat, now: int)
    requires FindPersona(db.personas, req.personaId).Some? && HasEmail(FindPersona(db.personas, req.personaId).value)
    ensures var s := Attempt(db, req, retries, Raises, now);
            && s.outcome == OnException(retries, TransportError)
            && s.db == db.(notificaciones := db.notificaciones + [Notificacion(db.nextNotificacionId, req.personaId, req.mensaje, false, now)],
                           nextNotificacionId := db.nextNotificacionId + 1)
  {
  }

  /** The number of `Delivers` among the first `k` transport outcomes. */
  function Deliveries(ts: seq<Transport>, k: nat): nat
    requires k <= |ts|
  {
    if k == 0 then 0 else Deliveries(ts, k - 1) + (if ts[k - 1] == Delivers then 1 else 0)
  }

  /** For a person with an e-mail, an attempt stores exactly one row, and mails once if the send goes through. */
  lemma AttemptStoresOneRow(db: Db, req: DispatchRequest, retries: nat, transport: Transport, now: int)
    requires FindPersona(db.personas, req.personaId).Some? && HasEmail(FindPersona(db.personas, req.personaId).value)
    ensures var s := Attempt(db, req, retries, transport, now);
            && s.db.personas == db.personas
            && s.db.notificaciones == db.notificaciones + [Notificacion(db.nextNotificacionId, req.personaId, req.mensaje, false, now)]
            && s.db.nextNotificacionId == db.nextNotificacionId + 1
            && |s.db.outbox| == |db.outbox| + (if transport == Delivers then 1 else 0)
  {
  }

  /** The rows of `rows` from position `from` on all belong to the request's person and message and are unread. */
  predicate RowsOf(rows: seq<Notificacion>, from: nat, req: DispatchRequest) {
    forall i :: from <= i < |rows| ==> rows[i].personaId == req.personaId && rows[i].mensaje == req.mensaje && !rows[i].leido
  }

  /** A row of the request in front of rows of the request. */
  lemma RowsExtend(before: seq<Notificacion>, after: seq<Notificacion>, n0: nat, req: DispatchRequest)
    requires |before| == n0 + 1 && before <= after && RowsOf(before, n0, req) && RowsOf(after, n0 + 1, req)
    ensures RowsOf(after, n0, req)
  {
    assert after[n0] == before[n0];
  }

  /**
   * For a person with an e-mail every attempt stores one row before sending:
   * a dispatch leaves one new row per attempt, all for that person and
   * message and unread, and hands over one mail per attempt whose send
   * went through.
   */
  lemma {:induction false} RowPerAttempt(db: Db, req: DispatchRequest, retries: nat, transports: seq<Transport>, start: int)
    requires retries <= MaxRetries && |transports| == MaxRetries + 1 - retries
    requires FindPersona(db.personas, req.personaId).Some? && HasEmail(FindPersona(db.personas, req.personaId).value)
    ensures var r := Run(db, req, retries, transports, start);
            && |r.db.notificaciones| == |db.notificaciones| + r.attempts && RowsOf(r.db.notificaciones, |db.notificaciones|, req)
            && |r.db.outbox| == |db.outbox| + Deliveries(transports, r.attempts)
    decreases |transports|
  {
    var step := Attempt(db, req, retries, transports[0], start);
    AttemptStoresOneRow(db, req, retries, transports[0], start);
    var n0 := |db.notificaciones|;
    if step.outcome.Retry? {
      var next := start + step.outcome.countdown;
      var rest := Run(step.db, req, retries + 1, transports[1..], next);
      assert Run(db, req, retries, transports, start) == Dispatch(rest.db, rest.result, rest.attempts + 1);
      RowPerAttempt(step.db, req, retries + 1, transports[1..], next);
      RunEvolves(step.db, req, retries + 1, transports[1..], next);
      RowsExtend(step.db.notificaciones, rest.db.notificaciones, n0, req);
      DeliveriesFront(transports, rest.attempts + 1);
    } else {
      assert Run(db, req, retries, transports, start) == Dispatch(step.db, step.outcome.result, 1);
      DeliveriesFront(transports, 1);
    }
  }

  /** Counting the deliveries among the first `k` outcomes, the first one apart. */
  lemma {:induction false} DeliveriesFront(ts: seq<Transport>, k: nat)
    requires 1 <= k <= |ts|
    ensures Deliveries(ts, k) == (if ts[0] == Delivers then 1 else 0) + Deliveries(ts[1..], k - 1)
  {
    if k > 1 {
      DeliveriesFront(ts, k - 1);
      assert ts[1..][k - 2] == ts[k - 1];
    }
  }

  /**
   * When every send raises the task runs `MaxRetries + 1` times, gives up
   * with an error result, leaves one row per attempt, mails nothing and
   * raises no flag.
   */
  lemma AllSendsRaise(db: Db, req: DispatchRequest, start: int)
    requires FindPersona(db.personas, req.personaId).Some? && HasEmail(FindPersona(db.personas, req.personaId).value)
    ensures var r := Dispatched(db, req, [Raises, Raises, Raises, Raises], start);
            && r.result == GaveUp(TransportError)
            && r.attempts == MaxRetries + 1
            && |r.db.notificaciones| == |db.notificaciones| + 4
            && r.db.outbox == db.outbox && r.db.jefes == db.jefes && r.db.asignaturas == db.asignaturas
  {
    var d1 := Attempt(db, req, 0, Raises, start).db;
    var d2 := Attempt(d1, req, 1, Raises, start + 60).db;
    var d3 := Attempt(d2, req, 2, Raises, start + 120).db;
    assert [Raises, Raises, Raises, Raises][1..] == [Raises, Raises, Raises];
    assert [Raises, Raises, Raises][1..] == [Raises, Raises];
    assert [Raises, Raises][1..] == [Raises];
  }

  /**
   * The `.get()` by person: when the person holds two department-head terms
   * the mark step raises after the mail went out, so every attempt mails the
   * person again, and the task gives up after `MaxRetries + 1` mails with no
   * flag set.
   */
  lemma SharedHolderIsMailedOnEveryAttempt(db: Db, req: DispatchRequest, start: int, i: nat, j: nat)
    requires FindPersona(db.personas, req.personaId).Some? && HasEmail(FindPersona(db.personas, req.personaId).value)
    requires req.task == EnviarEmailNotificacion
    requires i < j < |db.jefes| && db.jefes[i].personaId == req.personaId && db.jefes[j].personaId == req.personaId
    ensures var r := Dispatched(db, req, [Delivers, Delivers, Delivers, Delivers], start);
            && r.result == GaveUp(MultipleTermsReturned)
            && r.attempts == MaxRetries + 1
            && |r.db.outbox| == |db.outbox| + 4
            && |r.db.notificaciones| == |db.notificaciones| + 4
            && r.db.jefes == db.jefes
  {
    var ts := [Delivers, Delivers, Delivers, Delivers];
    TwoHoldersCount(JefeHolders(db.jefes), req.personaId, i, j);
    RowPerAttempt(db, req, 0, ts, start);
    var s0 := Attempt(db, req, 0, Delivers, start);
    var s1 := Attempt(s0.db, req, 1, Delivers, start + 60);
    var s2 := Attempt(s1.db, req, 2, Delivers, start + 120);
    var s3 := Attempt(s2.db, req, 3, Delivers, start + 180);
    assert s0.db.jefes == db.jefes;
    assert s1.db.jefes == db.jefes;
    assert s2.db.jefes == db.jefes;
    assert ts[1..] == [Delivers, Delivers, Delivers];
    assert ts[1..][1..] == [Delivers, Delivers];
    assert ts[1..][1..][1..] == [Delivers];
  }

  lemma {:induction false} TwoHoldersCount(ids: seq<int>, id: int, i: nat, j: nat)
    requires i < j < |ids| && ids[i] == id && ids[j] == id
    ensures CountOf(ids, id) >= 2
  {
    if i == 0 {
      assert ids[1..][j - 1] == id;
      CountOfZero(ids[1..], id);
    } else {
      assert ids[1..][i - 1] == id && ids[1..][j - 1] == id;
      TwoHoldersCount(ids[1..], id, i - 1, j - 1);
    }
  }

  /**
   * A transient fault followed by a delivery: for a person holding at most
   * one term, `n` raising sends then a delivering one end the task after
   * `n + 1` attempts with the mail sent once.
   */
  lemma {:induction false} RetriedUntilDelivered(db: Db, req: DispatchRequest, retries: nat, transports: seq<Transport>, start: int, n: nat)
    requires retries <= MaxRetries && |transports| == MaxRetries + 1 - retries
    requires FindPersona(db.personas, req.personaId).Some? && HasEmail(FindPersona(db.personas, req.personaId).value)
    requires CountOf(Holders(db, req.task), req.personaId) <= 1
    requires n < |transports| && transports[n] == Delivers && forall k :: 0 <= k < n ==> transports[k] == Raises
    ensures var r := Run(db, req, retries, transports, start);
            && r.result.Sent? && r.attempts == n + 1
            && |r.db.outbox| == |db.outbox| + 1
    decreases n
  {
    if n == 0 {
      SuccessMarksTheTerm(db, req, retries, start);
    } else {
      var step := Attempt(db, req, retries, Raises, start);
      assert Holders(step.db, req.task) == Holders(db, req.task);
      RetriedUntilDelivered(step.db, req, retries + 1, transports[1..], start + RetryCountdown, n - 1);
    }
  }

  // ---------------------------------------------------------------------
  // The daily scan.

  /** The scan's `fecha_limite.date()`: the date 30 days after `now`. */
  function ScanLimit(now: int): CivilDate {
    DateOfInstant(now + HorizonDays * SecondsPerDay)
  }

  /** `fecha_de_fin <= fecha_limite.date()`, not null, `estado = 1`; there is no lower bound. */
  predicate Due(j: JefeDepartamento, limit: CivilDate) {
    j.fechaDeFin.Some? && DateLeq(j.fechaDeFin.value, limit) && j.estado == "1"
  }

  /** The terms the scan enqueues a dispatch for: due and not yet notified. */
  predicate Selected(j: JefeDepartamento, limit: CivilDate) {
    Due(j, limit) && !j.notificado
  }

  /** The selected terms, in table order. */
  function Selection(jefes: seq<JefeDepartamento>, limit: CivilDate): (sel: seq<JefeDepartamento>)
    ensures |sel| <= |jefes|
    ensures forall i :: 0 <= i < |sel| ==> sel[i] in jefes && Selected(sel[i], limit)
  {
    if jefes == [] then []
    else
      var last := jefes[|jefes| - 1];
      Selection(jefes[..|jefes| - 1], limit) + (if Selected(last, limit) then [last] else [])
  }

  /** A term is in the selection exactly when it is in the table and selected. */
  lemma {:induction false} SelectionExact(jefes: seq<JefeDepartamento>, limit: CivilDate, j: JefeDepartamento)
    ensures j in Selection(jefes, limit) <==> j in jefes && Selected(j, limit)
  {
    if jefes != [] {
      var init := jefes[..|jefes| - 1];
      SelectionExact(init, limit, j);
      assert jefes == init + [jefes[|jefes| - 1]];
    }
  }

  /** Every holder of a term is a known person (the foreign key). */
  predicate HoldersKnown(personas: seq<Persona>, jefes: seq<JefeDepartamento>) {
    forall j :: j in jefes ==> FindPersona(personas, j.personaId).Some?
  }

  const Greeting: string := "Estimado/a "
  const TermNotice: string := ",\n\nLe informamos que su cargo como jefe/a del departamento "
  const EndNotice: string := " \nvence el "
  const Closing: string :=
    ".\n\nPara renovar su cargo, debe acercarse al área de Personal con la documentación necesaria.\n\n"
    + "Gracias por su atención.\n\nÁrea de Personal"

  /** The text of a message; a reminder is rendered with its end date as day/month/year. */
  function Text(m: Mensaje): string {
    match m
    case Texto(t) => t
    case Recordatorio(nombre, apellido, departamento, fechaDeFin) =>
      Greeting + nombre + " " + apellido + TermNotice + departamento
      + EndNotice + StrftimeDDMMYYYY(fechaDeFin) + Closing
  }

  /**
   * The reminder names the person and the department, and for a date of
   * the calendar writes the end date as ten characters `dd/mm/yyyy`.
   */
  lemma ReminderText(nombre: string, apellido: string, departamento: string, fin: CivilDate)
    requires 1 <= fin.day <= 31 && 1 <= fin.month <= 12 && 1000 <= fin.year <= 9999
    ensures var t := Text(Recordatorio(nombre, apellido, departamento, fin));
            var at := |Greeting + nombre + " " + apellido + TermNotice + departamento + EndNotice|;
            && Greeting + nombre + " " + apellido <= t
            && at + 10 <= |t|
            && t[at..at + 10] == StrftimeDDMMYYYY(fin)
            && t[at + 2] == '/' && t[at + 5] == '/'
  {
    StrftimeShape(fin);
    var name := Greeting + nombre + " " + apellido;
    var head := name + TermNotice + departamento + EndNotice;
    var date := StrftimeDDMMYYYY(fin);
    Framed(name, TermNotice + departamento + EndNotice, date, Closing);
    assert head == name + (TermNotice + departamento + EndNotice);
  }

  /** In `pre + more + mid + post`, `pre` is a prefix and `mid` sits right after `pre + more`. */
  lemma Framed(pre: string, more: string, mid: string, post: string)
    ensures var t := pre + more + mid + post;
            && pre <= t
            && |pre + more| + |mid| <= |t|
            && t[|pre + more|..|pre + more| + |mid|] == mid
  {
    var t := pre + more + mid + post;
    assert t == pre + (more + mid + post);
    assert forall k :: 0 <= k < |mid| ==> t[|pre + more| + k] == mid[k];
  }

  /** The reminder for a term held by `p`. */
  function RenewalMessage(p: Persona, j: JefeDepartamento): (m: Mensaje)
    requires j.fechaDeFin.Some?
    ensures m.Recordatorio? && m.fechaDeFin == j.fechaDeFin.value
  {
    Recordatorio(p.nombre, p.apellido, j.departamento, j.fechaDeFin.value)
  }

  /** The dispatch enqueued for a selected term: its holder, the reminder text and the reminder subject. */
  function RequestFor(personas: seq<Persona>, j: JefeDepartamento): (r: DispatchRequest)
    requires j.fechaDeFin.Some? && FindPersona(personas, j.personaId).Some?
    ensures r.task == EnviarEmailNotificacion && r.personaId == j.personaId && r.subject == Some(ReminderSubject)
  {
    DispatchRequest(EnviarEmailNotificacion, j.personaId, RenewalMessage(FindPersona(personas, j.personaId).value, j),
                    Some(ReminderSubject))
  }

  /** The dispatches for a sequence of selected terms, one each, in order. */
  function Requests(personas: seq<Persona>, sel: seq<JefeDepartamento>): (rs: seq<DispatchRequest>)
    requires forall i :: 0 <= i < |sel| ==> sel[i].fechaDeFin.Some? && FindPersona(personas, sel[i].personaId).Some?
    ensures |rs| == |sel|
    ensures forall i :: 0 <= i < |sel| ==> rs[i].personaId == sel[i].personaId && rs[i].subject == Some(ReminderSubject)
  {
    if sel == [] then []
    else Requests(personas, sel[..|sel| - 1]) + [RequestFor(personas, sel[|sel| - 1])]
  }

  /** The dispatches the scan enqueues. */
  function ScanRequests(personas: seq<Persona>, jefes: seq<JefeDepartamento>, limit: CivilDate): seq<DispatchRequest>
    requires HoldersKnown(personas, jefes)
  {
    Requests(personas, Selection(jefes, limit))
  }

  /**
   * There is no lower bound: an active, unnotified term that ended in any
   * year before the limit's is still selected, however long ago it ended.
   */
  lemma ExpiredTermIsSelected(jefes: seq<JefeDepartamento>, k: nat, limit: CivilDate)
    requires k < |jefes| && jefes[k].fechaDeFin.Some? && jefes[k].fechaDeFin.value.year < limit.year
    requires jefes[k].estado == "1" && !jefes[k].notificado
    ensures jefes[k] in Selection(jefes, limit)
  {
    SelectionExact(jefes, limit, jefes[k]);
  }

  /**
   * Once a dispatch for the holder of a single term has succeeded, the next
   * scan no longer selects that term.
   */
  lemma NotifiedTermLeavesTheScan(db: Db, req: DispatchRequest, now: int, later: int, k: nat)
    requires FindPersona(db.personas, req.personaId).Some? && HasEmail(FindPersona(db.personas, req.personaId).value)
    requires req.task == EnviarEmailNotificacion && k < |db.jefes| && db.jefes[k].personaId == req.personaId
    requires CountOf(JefeHolders(db.jefes), req.personaId) == 1
    ensures var after := Attempt(db, req, 0, Delivers, now).db.jefes;
            k < |after| && after[k] !in Selection(after, ScanLimit(later))
  {
    SuccessMarksTheTerm(db, req, 0, now);
    var after := Attempt(db, req, 0, Delivers, now).db.jefes;
    SelectionExact(after, ScanLimit(later), after[k]);
  }

  // ---------------------------------------------------------------------
  // Retention cleanup.

  /** The instant before which notifications are deleted. */
  function RetentionLimit(now: int): int {
    now - RetentionDays * SecondsPerDay
  }

  /** The notifications the cleanup keeps, in order: those created at or after the limit. */
  function Retained(rows: seq<Notificacion>, now: int): (kept: seq<Notificacion>)
    ensures |kept| <= |rows|
    ensures forall i :: 0 <= i < |kept| ==> kept[i] in rows && kept[i].fechaCreacion >= RetentionLimit(now)
  {
    if rows == [] then []
    else
      var last := rows[|rows| - 1];
      Retained(rows[..|rows| - 1], now) + (if last.fechaCreacion < RetentionLimit(now) then [] else [last])
  }

  /** The cleanup keeps the database constraints: it only removes notifications. */
  lemma CleanupKeepsValid(db: Db, now: int)
    requires Valid(db)
    ensures Valid(db.(notificaciones := Retained(db.notificaciones, now)))
  {
    var kept := Retained(db.notificaciones, now);
    forall i | 0 <= i < |kept| ensures kept[i].id < db.nextNotificacionId {
      var k :| 0 <= k < |db.notificaciones| && db.notificaciones[k] == kept[i];
    }
  }

  /** How many notifications are strictly older than the limit. */
  function ExpiredCount(rows: seq<Notificacion>, now: int): nat {
    if rows == [] then 0
    else ExpiredCount(rows[..|rows| - 1], now) + (if rows[|rows| - 1].fechaCreacion < RetentionLimit(now) then 1 else 0)
  }

  /**
   * The cleanup deletes exactly the rows strictly older than the limit: a
   * row survives iff it is at least as recent as the limit, and the number
   * deleted is the number of old rows.
   */
  lemma {:induction false} CleanupExact(rows: seq<Notificacion>, now: int)
    ensures |Retained(rows, now)| + ExpiredCount(rows, now) == |rows|
    ensures forall n :: n in rows ==> (n in Retained(rows, now) <==> n.fechaCreacion >= RetentionLimit(now))
  {
    if rows != [] {
      var init := rows[..|rows| - 1];
      CleanupExact(init, now);
      assert rows == init + [rows[|rows| - 1]];
    }
  }

  /** A row created exactly 180 days ago is kept: the comparison is strict. */
  lemma BoundaryRowIsKept(rows: seq<Notificacion>, now: int, k: nat)
    requires k < |rows| && rows[k].fechaCreacion == now - 180 * 86400
    ensures rows[k] in Retained(rows, now)
  {
    CleanupExact(rows, now);
  }

  // ---------------------------------------------------------------------
  // The tasks, run in place on the database.

  /** One run of a dispatch task body, as `Attempt` describes it. */
  method DispatchAttempt(db: Database, req: DispatchRequest, retries: nat, transport: Transport, now: int)
    returns (outcome: AttemptOutcome)
    modifies db
    ensures var s := Attempt(old(db.State()), req, retries, transport, now);
            db.State() == s.db && outcome == s.outcome
  {
    var found := FindPersona(db.personas, req.personaId);
    if found.None? {
      return Finished(PersonaNotFound);
    }
    var persona := found.value;
    if !HasEmail(persona) {
      return Finished(NoEmail);
    }
    var notificacion := Notificacion(db.nextNotificacionId, persona.id, req.mensaje, false, now);
    db.notificaciones := db.notificaciones + [notificacion];
    db.nextNotificacionId := db.nextNotificacionId + 1;
    if transport == Raises {
      return OnException(retries, TransportError);
    }
    db.outbox := db.outbox + [Mail(SubjectFor(req), req.mensaje, DefaultFromEmail, [persona.email.value])];
    var ids := Holders(db.State(), req.task);
    if CountOf(ids, persona.id) >= 2 {
      return OnException(retries, MultipleTermsReturned);
    }
    var k := FirstOf(ids, persona.id);
    if k.Some? {
      if req.task == EnviarEmailNotificacion {
        db.jefes := db.jefes[k.value := db.jefes[k.value].(notificado := true)];
      } else {
        db.asignaturas := db.asignaturas[k.value := db.asignaturas[k.value].(notificado := true)];
      }
    }
    return Finished(Sent(persona.email.value, notificacion.id));
  }

  /**
   * A dispatch as the worker runs it: attempt after attempt, each one
   * `RetryCountdown` seconds after the previous, until the body returns.
   */
  method RunDispatch(db: Database, req: DispatchRequest, transports: seq<Transport>, start: int)
    returns (result: TaskResult, attempts: nat)
    requires |transports| == MaxRetries + 1
    modifies db
    ensures var r := Dispatched(old(db.State()), req, transports, start);
            db.State() == r.db && result == r.result && attempts == r.attempts
  {
    var retries: nat := 0;
    var now := start;
    while true
      invariant retries <= MaxRetries
      invariant var r := Dispatched(old(db.State()), req, transports, start);
                var rest := Run(db.State(), req, retries, transports[retries..], now);
                r == Dispatch(rest.db, rest.result, rest.attempts + retries)
      decreases MaxRetries - retries
    {
      var outcome := DispatchAttempt(db, req, retries, transports[retries], now);
      assert transports[retries..][1..] == transports[retries + 1..];
      match outcome
      case Finished(res) =>
        return res, retries + 1;
      case Retry(countdown, _) =>
        retries := retries + 1;
        now := now + countdown;
    }
  }

  /** The worker takes the oldest queued dispatch and runs it. */
  method ProcessNext(db: Database, transports: seq<Transport>, start: int)
    returns (req: DispatchRequest, result: TaskResult, attempts: nat)
    requires |transports| == MaxRetries + 1 && db.queue != []
    modifies db
    ensures req == old(db.queue[0])
    ensures var r := Dispatched(old(db.State()).(queue := old(db.queue[1..])), req, transports, start);
            db.State() == r.db && result == r.result && attempts == r.attempts
  {
    req := db.queue[0];
    db.queue := db.queue[1..];
    result, attempts := RunDispatch(db, req, transports, start);
  }

  /**
   * `verificar_documentaciones_task`: walks the terms and enqueues one
   * dispatch per selected term; returns how many it enqueued.
   */
  method VerificarDocumentacionesTask(db: Database, now: int) returns (emailsEnviados: nat)
    requires HoldersKnown(db.personas, db.jefes)
    modifies db
    ensures emailsEnviados == |Selection(old(db.jefes), ScanLimit(now))|
    ensures db.State() == old(db.State()).(queue := old(db.queue) + ScanRequests(old(db.personas), old(db.jefes), ScanLimit(now)))
  {
    var fechaLimite := ScanLimit(now);
    emailsEnviados := EnqueueDue(db, fechaLimite);
  }

  /** The loop of the scan, for the limit date it computed. */
  method EnqueueDue(db: Database, fechaLimite: CivilDate) returns (emailsEnviados: nat)
    requires HoldersKnown(db.personas, db.jefes)
    modifies db
    ensures emailsEnviados == |Selection(old(db.jefes), fechaLimite)|
    ensures db.State() == old(db.State()).(queue := old(db.queue) + ScanRequests(old(db.personas), old(db.jefes), fechaLimite))
  {
    var personas := db.personas;
    var jefes := db.jefes;
    var queued: seq<DispatchRequest> := [];
    emailsEnviados := 0;
    var i := 0;
    while i < |jefes|
      invariant 0 <= i <= |jefes|
      invariant HoldersKnown(personas, jefes[..i])
      invariant emailsEnviados == |Selection(jefes[..i], fechaLimite)|
      invariant queued == ScanRequests(personas, jefes[..i], fechaLimite)
      invariant unchanged(db)
    {
      ScanStep(personas, jefes, i, fechaLimite);
      if Selected(jefes[i], fechaLimite) {
        queued := queued + [RequestFor(personas, jefes[i])];
        emailsEnviados := emailsEnviados + 1;
      }
      i := i + 1;
    }
    assert jefes[..i] == jefes;
    db.queue := db.queue + queued;
  }

  /** Scanning one more term adds its dispatch when it is selected, and nothing otherwise. */
  lemma ScanStep(personas: seq<Persona>, jefes: seq<JefeDepartamento>, i: nat, limit: CivilDate)
    requires HoldersKnown(personas, jefes) && i < |jefes|
    ensures HoldersKnown(personas, jefes[..i]) && HoldersKnown(personas, jefes[..i + 1])
    ensures Selection(jefes[..i + 1], limit) == Selection(jefes[..i], limit) + (if Selected(jefes[i], limit) then [jefes[i]] else [])
    ensures ScanRequests(personas, jefes[..i + 1], limit)
            == ScanRequests(personas, jefes[..i], limit) + (if Selected(jefes[i], limit) then [RequestFor(personas, jefes[i])] else [])
  {
    assert jefes[..i + 1][..i] == jefes[..i];
    var sel := Selection(jefes[..i], limit);
    if Selected(jefes[i], limit) {
      assert Selection(jefes[..i + 1], limit) == sel + [jefes[i]];
      RequestsAppend(personas, sel, jefes[i]);
    } else {
      assert Selection(jefes[..i + 1], limit) == sel;
    }
  }

  lemma RequestsAppend(personas: seq<Persona>, sel: seq<JefeDepartamento>, j: JefeDepartamento)
    requires forall i :: 0 <= i < |sel| ==> sel[i].fechaDeFin.Some? && FindPersona(personas, sel[i].personaId).Some?
    requires j.fechaDeFin.Some? && FindPersona(personas, j.personaId).Some?
    ensures Requests(personas, sel + [j]) == Requests(personas, sel) + [RequestFor(personas, j)]
  {
    assert (sel + [j])[..|sel|] == sel;
  }

  /**
   * `limpiar_notificaciones_antiguas`: keeps the notifications created at or
   * after `now - 180 days`, in order, and returns how many it deleted.
   */
  method LimpiarNotificacionesAntiguas(db: Database, now: int) returns (eliminadas: nat)
    modifies db
    ensures eliminadas == ExpiredCount(old(db.notificaciones), now)
    ensures db.State() == old(db.State()).(notificaciones := Retained(old(db.notificaciones), now))
  {
    var rows := db.notificaciones;
    var kept: seq<Notificacion> := [];
    var limite := now - RetentionDays * SecondsPerDay;
    eliminadas := 0;
    var i := 0;
    while i < |rows|
      invariant 0 <= i <= |rows|
      invariant kept == Retained(rows[..i], now)
      invariant eliminadas == ExpiredCount(rows[..i], now)
    {
      assert rows[..i + 1][..i] == rows[..i];
      if rows[i].fechaCreacion < limite {
        eliminadas := eliminadas + 1;
      } else {
        kept := kept + [rows[i]];
      }
      i := i + 1;
    }
    assert rows[..i] == rows;
    db.notificaciones := kept;
  }
}
