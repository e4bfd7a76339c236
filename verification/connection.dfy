/** The per-agent connection state machine: the registry of statuses, live sockets
    and connect locks; `startWhatsApp` with its guards; the `connection.update`
    handler with close-reason classification and capped exponential backoff; the
    periodic sweeps of statuses and stale locks; and the two HTTP-facing entry
    points. The transport is abstract: a socket is an opaque handle, and what the
    socket factory, the database and the QR renderer answer are inputs. Retries
    are returned as scheduled calls rather than run. */
module Connection {
  import opened Common
  import CredentialStore

  datatype Status = Iniciando | Qr | Conectado | Desconectado | Deslogado | Erro

  function StatusName(s: Status): (r: string)
    ensures r != ""
  {
    match s
    case Iniciando => "iniciando"
    case Qr => "qr"
    case Conectado => "conectado"
    case Desconectado => "desconectado"
    case Deslogado => "deslogado"
    case Erro => "erro"
  }

  /** `{ status, qr, error }` as stored in the status map. */
  datatype StatusEntry = StatusEntry(status: Status, qr: Option<string>, error: Option<string>)

  type Socket = nat

  /** The three module-level maps that describe every agent's connection. The
      statuses and sockets live in plain objects, so an id is looked up by its
      string form; the locks live in a `Map`, so an id is looked up as the value
      it is, and `5` and `"5"` are different keys there. */
  datatype Registry = Registry(
    statuses: map<string, StatusEntry>,
    sockets: map<string, Socket>,
    locks: map<Value, int>)           // connect lock and when it was taken

  /** A call of `startWhatsApp(id, allowNewSession, attempt)` scheduled `delayMs`
      from now. */
  datatype Retry = Retry(attempt: nat, delayMs: nat)

  // ---------------------------------------------------------------------------
  // Constants

  const MaxAttempts := 10
  const BaseDelayMs := 2000
  const MaxDelayMs := 30000
  const TimedOutRetryMs := 5000
  const LockMaxAgeMs := 5 * 60 * 1000

  /** Status codes the transport reports on close. */
  const LoggedOutCode := 401
  const ConnectionReplacedCode := 440
  const RequestTimeoutCode := 408

  // ---------------------------------------------------------------------------
  // startWhatsApp

  /** What the session lookup in the database produced. */
  datatype DbLookup = DbFailed(message: string) | Found(doc: Option<CredentialStore.Doc>)

  /** What creating the socket produced: the handle, or the message of the error
      thrown by the store, the version lookup or the socket factory. */
  datatype Creation = Created(sock: Socket) | CreateFailed(message: string)

  /** Everything outside the registry that `startWhatsApp` consults. */
  datatype StartEnv = StartEnv(mongoConfigured: bool, db: DbLookup, create: Creation)

  /** `null`, `undefined` or a socket, as returned. */
  datatype Reply = SocketReply(sock: Socket) | NullReply | NoReply

  datatype StartOutcome = StartOutcome(reg: Registry, reply: Reply, retry: Option<Retry>)

  /** `doc && doc.data`: only a document with a truthy `data` field counts as a
      stored session. */
  predicate HasSessionData(doc: Option<CredentialStore.Doc>) {
    doc.Some? && "data" in doc.value && Truthy(doc.value["data"])
  }

  /** The status an early exit records after the lock is taken, or `None` when the
      start goes on to create the socket. */
  function Precheck(env: StartEnv, allowNewSession: bool): (r: Option<StatusEntry>)
    ensures !env.mongoConfigured ==> r == Some(StatusEntry(Erro, None, Some("MONGO_URL n\U{00E3}o configurada.")))
    ensures env.mongoConfigured && env.db.DbFailed? ==> r.Some? && r.value.status == Erro
    ensures env.mongoConfigured && env.db.Found? ==>
      (r.Some? <==> !HasSessionData(env.db.doc) && !allowNewSession)
    ensures r.Some? && env.mongoConfigured && env.db.Found? ==>
      r.value == StatusEntry(Desconectado, None, Some("Sess\U{00E3}o n\U{00E3}o registrada ou corrompida."))
  {
    if !env.mongoConfigured then Some(StatusEntry(Erro, None, Some("MONGO_URL n\U{00E3}o configurada.")))
    else match env.db
      case DbFailed(m) => Some(StatusEntry(Erro, None, Some("Erro no DB: " + m)))
      case Found(doc) =>
        if !HasSessionData(doc) && !allowNewSession
        then Some(StatusEntry(Desconectado, None, Some("Sess\U{00E3}o n\U{00E3}o registrada ou corrompida.")))
        else None
  }

  predicate IsTimeout(message: string) {
    Includes(message, "Timed Out")
  }

  /** `startWhatsApp` as written: when creating the socket fails with a timeout, a
      retry is scheduled but the connect lock taken at the start is kept. */
  function StartAsWritten(reg: Registry, id: Value, allowNewSession: bool, attempt: nat,
                          now: int, env: StartEnv): (o: StartOutcome)
    ensures JsString(id) in reg.sockets ==> o == StartOutcome(reg, SocketReply(reg.sockets[JsString(id)]), None)
    ensures JsString(id) !in reg.sockets && id in reg.locks ==> o == StartOutcome(reg, NullReply, None)
    ensures o.retry.Some? ==> o.reg.locks == reg.locks[id := now]
  {
    var key := JsString(id);
    if key in reg.sockets then StartOutcome(reg, SocketReply(reg.sockets[key]), None)
    else if id in reg.locks then StartOutcome(reg, NullReply, None)
    else match Precheck(env, allowNewSession)
      case Some(st) => StartOutcome(reg.(statuses := reg.statuses[key := st]), NoReply, None)
      case None =>
        match env.create
        case Created(sock) =>
          StartOutcome(Registry(reg.statuses[key := StatusEntry(Iniciando, None, None)],
                                reg.sockets[key := sock], reg.locks),
                       SocketReply(sock), None)
        case CreateFailed(m) =>
          var failed := reg.statuses[key := StatusEntry(Erro, None, Some(m))];
          if IsTimeout(m) then
            StartOutcome(reg.(statuses := failed, locks := reg.locks[id := now]), NoReply,
                         Some(Retry(attempt + 1, TimedOutRetryMs)))
          else StartOutcome(reg.(statuses := failed), NoReply, None)
  }

  /** `startWhatsApp` with every exit after the lock releasing it, the timed-out
      retry included. */
  function Start(reg: Registry, id: Value, allowNewSession: bool, attempt: nat,
                 now: int, env: StartEnv): (o: StartOutcome)
    // an active socket is returned as it is
    ensures JsString(id) in reg.sockets ==> o == StartOutcome(reg, SocketReply(reg.sockets[JsString(id)]), None)
    // a held lock turns the call away with null
    ensures JsString(id) !in reg.sockets && id in reg.locks ==> o == StartOutcome(reg, NullReply, None)
    // the lock taken by this call never outlives it
    ensures JsString(id) !in reg.sockets && id !in reg.locks ==> o.reg.locks == reg.locks
    // a new socket is registered as starting, exactly when creation succeeds
    ensures JsString(id) !in reg.sockets && id !in reg.locks ==>
      (o.reply.SocketReply? <==> Precheck(env, allowNewSession).None? && env.create.Created?)
    ensures JsString(id) !in reg.sockets && id !in reg.locks && o.reply.SocketReply? ==>
      o.reg.sockets == reg.sockets[JsString(id) := o.reply.sock] && JsString(id) in o.reg.statuses && o.reg.statuses[JsString(id)].status == Iniciando
    // no socket is created without a session unless new sessions are allowed
    ensures env.mongoConfigured && env.db.Found? && !HasSessionData(env.db.doc) && !allowNewSession && JsString(id) !in reg.sockets && id !in reg.locks ==>
      o.reg.sockets == reg.sockets && JsString(id) in o.reg.statuses && o.reg.statuses[JsString(id)].status == Desconectado && o.reg.statuses[JsString(id)].error.Some?
    // only a timed-out creation schedules a retry, of the next attempt, 5 s later
    ensures o.retry.Some? <==> JsString(id) !in reg.sockets && id !in reg.locks && Precheck(env, allowNewSession).None?
                               && env.create.CreateFailed? && IsTimeout(env.create.message)
    ensures o.retry.Some? ==> o.retry.value == Retry(attempt + 1, TimedOutRetryMs)
  {
    var key := JsString(id);
    if key in reg.sockets then StartOutcome(reg, SocketReply(reg.sockets[key]), None)
    else if id in reg.locks then StartOutcome(reg, NullReply, None)
    else match Precheck(env, allowNewSession)
      case Some(st) => StartOutcome(reg.(statuses := reg.statuses[key := st]), NoReply, None)
      case None =>
        match env.create
        case Created(sock) =>
          StartOutcome(Registry(reg.statuses[key := StatusEntry(Iniciando, None, None)],
                                reg.sockets[key := sock], reg.locks),
                       SocketReply(sock), None)
        case CreateFailed(m) =>
          var failed := reg.statuses[key := StatusEntry(Erro, None, Some(m))];
          var retry := if IsTimeout(m) then Some(Retry(attempt + 1, TimedOutRetryMs)) else None;
          StartOutcome(reg.(statuses := failed), NoReply, retry)
  }

  /** The two versions differ only in the lock left behind by a timed-out
      creation. */
  lemma StartVersionsAgree(reg: Registry, id: Value, allowNewSession: bool, attempt: nat, now: int, env: StartEnv)
    ensures var a := StartAsWritten(reg, id, allowNewSession, attempt, now, env);
      var b := Start(reg, id, allowNewSession, attempt, now, env);
      a.reply == b.reply && a.retry == b.retry && a.reg.statuses == b.reg.statuses && a.reg.sockets == b.reg.sockets
      && (a.retry.None? ==> a.reg.locks == b.reg.locks)
  {
  }

  /** As written, the retry scheduled after a timed-out creation always finds the
      lock of the failed call and gives up with null, whatever it would find. */
  lemma TimedOutRetryIsRefused(reg: Registry, id: Value, allowNewSession: bool, attempt: nat,
                               now: int, env: StartEnv, later: int, env2: StartEnv)
    requires JsString(id) !in reg.sockets && id !in reg.locks
    requires Precheck(env, allowNewSession).None? && env.create.CreateFailed? && IsTimeout(env.create.message)
    ensures var o := StartAsWritten(reg, id, allowNewSession, attempt, now, env);
      o.retry.Some? &&
      StartAsWritten(o.reg, id, allowNewSession, o.retry.value.attempt, later, env2) == StartOutcome(o.reg, NullReply, None)
  {
  }

  /** With the lock released, the scheduled retry runs: it gets past both guards
      and creates the socket when creation succeeds this time. */
  lemma TimedOutRetryRuns(reg: Registry, id: Value, allowNewSession: bool, attempt: nat,
                          now: int, env: StartEnv, later: int, sock: Socket)
    requires JsString(id) !in reg.sockets && id !in reg.locks
    requires Precheck(env, allowNewSession).None? && env.create.CreateFailed? && IsTimeout(env.create.message)
    ensures var o := Start(reg, id, allowNewSession, attempt, now, env);
      o.retry.Some? &&
      Start(o.reg, id, allowNewSession, o.retry.value.attempt, later, env.(create := Created(sock))).reply == SocketReply(sock)
  {
  }

  /** Starting twice: the second call hands back the first call's socket and
      changes nothing. */
  lemma StartIsIdempotent(reg: Registry, id: Value, allowNewSession: bool, attempt: nat, now: int,
                          env: StartEnv, attempt2: nat, now2: int, env2: StartEnv)
    requires Start(reg, id, allowNewSession, attempt, now, env).reply.SocketReply?
    ensures var o := Start(reg, id, allowNewSession, attempt, now, env);
      Start(o.reg, id, allowNewSession, attempt2, now2, env2) == StartOutcome(o.reg, o.reply, None)
  {
  }

  /** A document the credential store wrote from credentials without a `data`
      field does not count as a stored session. */
  lemma StoreWrittenDocHasNoSessionData(id: string, fields: map<string, Value>)
    requires "data" !in fields
    ensures !HasSessionData(Some(CredentialStore.Stored(id, Obj(fields))))
  {
  }

  // ---------------------------------------------------------------------------
  // connection.update

  function Pow2(n: nat): (r: nat)
    ensures r >= 1
  {
    if n == 0 then 1 else 2 * Pow2(n - 1)
  }

  /** `Math.min(30000, 2000 * Math.pow(2, attempt))`. */
  function Delay(attempt: nat): (r: nat)
    ensures r <= MaxDelayMs
    ensures r == MaxDelayMs || r == BaseDelayMs * Pow2(attempt)
  {
    var d := BaseDelayMs * Pow2(attempt);
    if d < MaxDelayMs then d else MaxDelayMs
  }

  /** What a close does, by reason. */
  datatype CloseAction = Replaced | LoggedOut | Reconnect(retry: Retry) | GiveUp

  /** The branch taken for a close with status code `reason` (none when the
      transport gave none) at attempt `attempt`. */
  function ClassifyClose(reason: Option<int>, attempt: nat): (a: CloseAction)
    ensures a.Replaced? <==> reason == Some(ConnectionReplacedCode)
    ensures a.LoggedOut? <==> reason == Some(LoggedOutCode)
    ensures a.Reconnect? <==> reason != Some(ConnectionReplacedCode) && reason != Some(LoggedOutCode) && attempt + 1 <= MaxAttempts
    ensures a.Reconnect? ==> a.retry == Retry(attempt + 1, Delay(attempt))
  {
    if reason == Some(ConnectionReplacedCode) then Replaced
    else if reason == Some(LoggedOutCode) then LoggedOut
    else
      // `reason === 408 || reason !== loggedOut` holds for every remaining reason
      if attempt + 1 <= MaxAttempts then Reconnect(Retry(attempt + 1, Delay(attempt)))
      else GiveUp
  }

  /** The fields of one `connection.update` event; `qr` and `connection` are
      empty when absent. */
  datatype Update = Update(qr: string, connection: string, reason: Option<int>)

  /** The handler's effect: the registry, its own attempt counter, a scheduled
      restart and whether the stored credentials are cleared. */
  datatype UpdateOutcome = UpdateOutcome(reg: Registry, attempt: nat, retry: Option<Retry>, clearCreds: bool)

  /** The `connection.update` handler of agent `id`; `qrImage` is the rendering of
      the QR text. */
  function OnUpdate(reg: Registry, id: Value, attempt: nat, u: Update, qrImage: string): (o: UpdateOutcome)
    ensures u.connection == "open" ==> o.attempt == 0 && JsString(id) in o.reg.statuses && o.reg.statuses[JsString(id)] == StatusEntry(Conectado, None, None)
    ensures u.connection != "open" ==> o.attempt == attempt
    ensures u.connection != "close" ==> o.retry.None? && !o.clearCreds && o.reg.sockets == reg.sockets && o.reg.locks == reg.locks
    ensures u.connection == "close" ==> JsString(id) !in o.reg.sockets
    ensures u.connection == "close" ==> (o.clearCreds <==> u.reason == Some(LoggedOutCode))
    ensures o.retry.Some? ==> u.connection == "close" && u.reason != Some(ConnectionReplacedCode) && u.reason != Some(LoggedOutCode)
    // a QR alone records the rendered image and nothing else
    ensures u.connection != "open" && u.connection != "close" ==>
      o.reg == reg.(statuses := if u.qr != "" then reg.statuses[JsString(id) := StatusEntry(Qr, Some(qrImage), None)] else reg.statuses)
    // a replaced connection is left disconnected, with its lock released
    ensures u.connection == "close" && u.reason == Some(ConnectionReplacedCode) ==>
      o.reg == Registry(reg.statuses[JsString(id) := StatusEntry(Desconectado, None, None)],
                        reg.sockets - {JsString(id)}, reg.locks - {id})
    // a close that restarts keeps the lock and reports the agent disconnected
    ensures o.retry.Some? ==>
      o.reg == Registry(reg.statuses[JsString(id) := StatusEntry(Desconectado, None, None)],
                        reg.sockets - {JsString(id)}, reg.locks)
  {
    var key := JsString(id);
    var statuses := if u.qr != "" then reg.statuses[key := StatusEntry(Qr, Some(qrImage), None)] else reg.statuses;
    var statuses := if u.connection == "open" then statuses[key := StatusEntry(Conectado, None, None)] else statuses;
    var attempt := if u.connection == "open" then 0 else attempt;
    if u.connection != "close" then UpdateOutcome(reg.(statuses := statuses), attempt, None, false)
    else
      var sockets := reg.sockets - {key};
      var statuses := statuses[key := StatusEntry(Desconectado, None, None)];
      match ClassifyClose(u.reason, attempt)
      case Replaced => UpdateOutcome(Registry(statuses, sockets, reg.locks - {id}), attempt, None, false)
      case LoggedOut =>
        var statuses := statuses[key := StatusEntry(Deslogado, None, Some("Usu\U{00E1}rio deslogado."))];
        UpdateOutcome(Registry(statuses, sockets, reg.locks - {id}), attempt, None, true)
      case Reconnect(r) => UpdateOutcome(Registry(statuses, sockets, reg.locks), attempt, Some(r), false)
      case GiveUp =>
        var statuses := statuses[key := StatusEntry(Erro, None, Some("Reconex\U{00E3}o falhou"))];
        UpdateOutcome(Registry(statuses, sockets, reg.locks - {id}), attempt, None, false)
  }

  function Close(reason: Option<int>): Update {
    Update("", "close", reason)
  }

  /** A replaced connection and a logged-out session are never restarted; a
      logged-out one ends as `deslogado` with its credentials cleared. */
  lemma TerminalCloses(reg: Registry, id: Value, attempt: nat, qrImage: string)
    ensures OnUpdate(reg, id, attempt, Close(Some(ConnectionReplacedCode)), qrImage).retry.None?
    ensures var o := OnUpdate(reg, id, attempt, Close(Some(LoggedOutCode)), qrImage);
      o.retry.None? && o.clearCreds && JsString(id) in o.reg.statuses && o.reg.statuses[JsString(id)].status == Deslogado && id !in o.reg.locks
  {
  }

  /** Every other close, including one without a reason, restarts the agent while
      the budget lasts and otherwise ends in `erro` with the lock released. */
  lemma OtherClosesRetry(reg: Registry, id: Value, attempt: nat, reason: Option<int>, qrImage: string)
    requires reason != Some(ConnectionReplacedCode) && reason != Some(LoggedOutCode)
    ensures var o := OnUpdate(reg, id, attempt, Close(reason), qrImage);
      if attempt + 1 <= MaxAttempts then o.retry == Some(Retry(attempt + 1, Delay(attempt)))
      else o.retry.None? && JsString(id) in o.reg.statuses && o.reg.statuses[JsString(id)].status == Erro && id !in o.reg.locks
  {
  }

  /** After `open`, the next close waits the base delay again. */
  lemma OpenResetsBackoff(reg: Registry, id: Value, attempt: nat, qrImage: string, reason: Option<int>)
    requires reason != Some(ConnectionReplacedCode) && reason != Some(LoggedOutCode)
    ensures var o := OnUpdate(reg, id, attempt, Update("", "open", None), qrImage);
      OnUpdate(o.reg, id, o.attempt, Close(reason), qrImage).retry == Some(Retry(1, BaseDelayMs))
  {
  }

  /** The delays of the restarts scheduled when every restart closes again
      straight away (with a reason that retries), starting from attempt `a`. */
  function BackoffChain(a: nat): (ds: seq<nat>)
    requires a <= MaxAttempts
    ensures |ds| == MaxAttempts - a
    decreases MaxAttempts - a
  {
    var reg := Registry(map[], map[], map[]);
    var o := OnUpdate(reg, Str(""), a, Close(None), "");
    match o.retry
    case None => []
    case Some(r) => [r.delayMs] + BackoffChain(r.attempt)
  }

  /** Ten restarts at most, waiting 2, 4, 8 and 16 seconds and then the 30-second
      cap six times: three and a half minutes in all. */
  lemma BackoffSchedule()
    ensures BackoffChain(0) == [2000, 4000, 8000, 16000, 30000, 30000, 30000, 30000, 30000, 30000]
  {
    assert Delay(4) == 30000;
    DelayCapped(5);
    DelayCapped(6);
    DelayCapped(7);
    DelayCapped(8);
    DelayCapped(9);
  }

  /** From the fifth attempt on the delay is the cap. */
  lemma {:induction false} DelayCapped(a: nat)
    requires a >= 4
    ensures Delay(a) == MaxDelayMs
  {
    if a > 4 {
      DelayCapped(a - 1);
      assert Pow2(a) == 2 * Pow2(a - 1);
    }
  }

  /** The delay never shrinks from one attempt to the next. */
  lemma DelayMonotone(a: nat)
    ensures Delay(a) <= Delay(a + 1)
  {
    assert Pow2(a + 1) == 2 * Pow2(a);
  }

  // ---------------------------------------------------------------------------
  // Sweeps and lookups

  /** `cleanupOldStatuses`: drop the status of every agent without an active socket
      whose status is `desconectado`. */
  function SweepStatuses(statuses: map<string, StatusEntry>, sockets: map<string, Socket>): (r: map<string, StatusEntry>)
    ensures forall id :: id in r <==> id in statuses && (id in sockets || statuses[id].status != Desconectado)
    ensures forall id :: id in r ==> r[id] == statuses[id]
  {
    map id | id in statuses && (id in sockets || statuses[id].status != Desconectado) :: statuses[id]
  }

  /** `cleanupStaleLocks`: drop every lock taken more than five minutes ago. */
  function SweepLocks(locks: map<Value, int>, now: int): (r: map<Value, int>)
    ensures forall id :: id in r <==> id in locks && now - locks[id] <= LockMaxAgeMs
    ensures forall id :: id in r ==> r[id] == locks[id]
  {
    map id | id in locks && now - locks[id] <= LockMaxAgeMs :: locks[id]
  }

  /** A lock is swept exactly when it is older than five minutes: a lock exactly
      five minutes old survives. */
  lemma LockSweepBoundary(locks: map<Value, int>, id: Value, t: int)
    requires id in locks && locks[id] == t
    ensures id in SweepLocks(locks, t + LockMaxAgeMs)
    ensures id !in SweepLocks(locks, t + LockMaxAgeMs + 1)
  {
  }

  /** The lock left by the timed-out creation is cleared by the first lock sweep
      that runs more than five minutes later, after which a start can proceed. */
  lemma StaleLockSweptThenStart(reg: Registry, id: Value, allowNewSession: bool, attempt: nat,
                                now: int, env: StartEnv, later: int, sock: Socket)
    requires JsString(id) !in reg.sockets && id !in reg.locks
    requires Precheck(env, allowNewSession).None? && env.create.CreateFailed? && IsTimeout(env.create.message)
    requires later > now + LockMaxAgeMs
    ensures var o := StartAsWritten(reg, id, allowNewSession, attempt, now, env);
      var swept := o.reg.(locks := SweepLocks(o.reg.locks, later));
      StartAsWritten(swept, id, allowNewSession, attempt, later, env.(create := Created(sock))).reply == SocketReply(sock)
  {
  }

  /** `getWhatsappStatus`: with an id, that agent's entry or a disconnected
      default; without one (or with an empty one), the whole map. */
  datatype StatusReply = One(entry: StatusEntry) | All(statuses: map<string, StatusEntry>)

  function GetStatus(statuses: map<string, StatusEntry>, id: Option<string>): (r: StatusReply)
    ensures (id.None? || id.value == "") <==> r.All?
    ensures r.All? ==> r.statuses == statuses
    ensures r.One? && id.value in statuses ==> r.entry == statuses[id.value]
    ensures r.One? && id.value !in statuses ==> r.entry == StatusEntry(Desconectado, None, None)
  {
    match id
    case None => All(statuses)
    case Some(k) =>
      if k == "" then All(statuses)
      else if k in statuses then One(statuses[k])
      else One(StatusEntry(Desconectado, None, None))
  }

  /** What the status endpoint reports follows the updates: `conectado` after an
      `open`, the rendered code after a QR alone. */
  lemma StatusFollowsUpdates(reg: Registry, id: Value, attempt: nat, qr: string, qrImage: string)
    requires JsString(id) != ""
    ensures var o := OnUpdate(reg, id, attempt, Update(qr, "open", None), qrImage);
      GetStatus(o.reg.statuses, Some(JsString(id))) == One(StatusEntry(Conectado, None, None))
    ensures qr != "" ==>
      var o := OnUpdate(reg, id, attempt, Update(qr, "", None), qrImage);
      GetStatus(o.reg.statuses, Some(JsString(id))) == One(StatusEntry(Qr, Some(qrImage), None))
  {
  }

  /** The reply of `conectarWhatsApp`: HTTP code, the status reported, and whether
      `startWhatsApp(id, true)` was launched (and with which id, as received). */
  datatype ConnectReply = ConnectReply(code: nat, status: string, launch: Option<Value>)

  /** `conectarWhatsApp` for a request body; a missing body is the TypeError that
      the handler turns into 500. Starting is left to `Start`. */
  function Connect(reg: Registry, body: Value): (o: (Registry, ConnectReply))
    ensures Nullish(body) ==> o.1.code == 500 && o.0 == reg
    ensures !Nullish(body) ==> (o.1.code == 400 <==> !Truthy(Prop(body, "id").value))
    ensures o.1.launch.Some? ==>
      var id := o.1.launch.value;
      o.1.code == 200 && Prop(body, "id") == Some(id)
      && JsString(id) !in reg.sockets && id !in reg.locks
      && o.0 == reg.(statuses := reg.statuses[JsString(id) := StatusEntry(Iniciando, None, None)])
    ensures o.1.launch.None? ==> o.0 == reg
  {
    match Prop(body, "id")
    case None => (reg, ConnectReply(500, "", None))
    case Some(v) =>
      if !Truthy(v) then (reg, ConnectReply(400, "", None))
      else
        var key := JsString(v);
        if key in reg.sockets then
          (reg, ConnectReply(200, if key in reg.statuses then StatusName(reg.statuses[key].status) else "desconhecido", None))
        else if v in reg.locks then (reg, ConnectReply(200, "conectando", None))
        else
          (reg.(statuses := reg.statuses[key := StatusEntry(Iniciando, None, None)]),
           ConnectReply(200, "iniciando", Some(v)))
  }

  /** The endpoint launches a start exactly when the start's own guards would let
      it through, and a start it launches is never turned away by them. */
  lemma ConnectMirrorsStartGuards(reg: Registry, id: Value, now: int, env: StartEnv)
    requires Truthy(id)
    ensures var o := Connect(reg, Obj(map["id" := id]));
      (o.1.launch == Some(id) <==> JsString(id) !in reg.sockets && id !in reg.locks)
    ensures var o := Connect(reg, Obj(map["id" := id]));
      o.1.launch.Some? ==> Start(o.0, id, true, 0, now, env).reply != NullReply
  {
  }

  /** The lock of a start under the number `5` does not hold back a start under
      the text `"5"`, although both name the same socket and status entry. */
  lemma LockIsPerValue(reg: Registry, now: int, env: StartEnv, sock: Socket)
    requires Str("5") !in reg.locks && "5" !in reg.sockets
    requires Precheck(env, true).None?
    ensures var r := reg.(locks := reg.locks[Num(5) := now]);
      JsString(Num(5)) == JsString(Str("5"))
      && Start(r, Str("5"), true, 0, now, env.(create := Created(sock))).reply == SocketReply(sock)
      && Start(r, Num(5), true, 0, now, env).reply == NullReply
  {
    assert JsString(Num(5)) == "5" by {
      assert NatToString(5) == [DigitChar(5)];
    }
  }
}
