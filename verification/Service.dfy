// What one API request does to the database, the vault key and the limiter,
// as a function. The class in Server.dfy performs the same requests step by
// step inside a transaction and is proved against these functions.
module Service {
  import opened Base
  import opened Records
  import Sealing
  import Limiter
  import Paths

  type Bytes = Sealing.Bytes

  datatype Verb = GET | HEAD | POST | PUT | DELETE | OTHER

  datatype Body = Malformed | NoValue | Value(text: string)

  // Everything a request draws from the clock and the random source.
  datatype Draws = Draws(id: string, token: string, csrf: string, salt: nat, nonce: nat, call: Limiter.Call, now: int)

  datatype AdminOp =
    | Logout
    | Unlock(master: string)
    | Lock
    | ChangeMaster(current: string, next: string)
    | CreateAgent(name: string, paths: seq<string>)
    | SetAgentPaths(agentId: string, paths: seq<string>)
    | RevokeAgent(agentId: string)
    | PurgeAgent(agentId: string)
    | CreateEnrollment(agentId: string, ttl: int)
    | DeleteEnrollment(enrollmentId: string)
    | SetAdministrator(name: string, password: string)
    | DeleteAdministrator(name: string)
    | CreateWriter(name: string, paths: seq<string>, allowCreate: bool)
    | EditWriter(writerId: string, newPaths: Option<seq<string>>, newAllowCreate: Option<bool>)
    | RevokeWriter(writerId: string)
    | SecretAt(verb: Verb, path: string, body: Body)

  datatype Request =
    | Login(name: string, password: string)
    | Enroll(token: string)
    | Administer(cookie: Option<string>, csrf: string, op: AdminOp)
    | WriteSecret(header: string, verb: Verb, path: string, body: Body)
    | ReadSecret(header: string, verb: Verb, path: string, metadata: bool)

  datatype Reply =
    | Done
    | LoggedIn(session: Session, cookie: string)
    | Enrolled(id: string, token: string)
    | KeyState(locked: bool)
    | AgentView(agent: Agent)
    | Issued(id: string, agentId: string, token: string, expires: int)
    | WriterIssued(id: string, token: string)
    | WriterView(id: string, paths: seq<string>, allowCreate: bool, revoked: bool)
    | SecretView(record: Secret)
    | ValueView(value: string, path: string, revision: nat, created: Option<int>, updated: int)

  // A reply, and the database should the transaction commit.
  datatype Outcome = Outcome(reply: Result<Reply, Error>, db: Db)

  function Fail(db: Db, e: Error): Outcome {
    Outcome(Err(e), db)
  }

  // ---- identities ----

  function AuthenticateAgent(db: Db, header: string): Result<Agent, Error> {
    var token := BearerToken(header);
    if token.None? then Err(Unauthenticated)
    else
      var h := Digest(token.value);
      if h !in db.credentials then Err(Unauthenticated)
      else
        var id := db.credentials[h];
        if id !in db.agents || db.agents[id].revoked || db.agents[id].hash != Some(h) then Err(Unauthenticated)
        else Ok(db.agents[id])
  }

  function AuthenticateWriter(db: Db, header: string): Result<Writer, Error> {
    var token := BearerToken(header);
    if token.None? then Err(Unauthenticated)
    else
      var h := Digest(token.value);
      if h !in db.writerTokens then Err(Unauthenticated)
      else
        var id := db.writerTokens[h];
        if id !in db.writers || db.writers[id].revoked || db.writers[id].hash != h then Err(Unauthenticated)
        else Ok(db.writers[id])
  }

  function AuthenticateAdmin(db: Db, cookie: Option<string>, csrf: string, read: bool, now: int)
    : Result<Session, Error>
  {
    if cookie.None? || Digest(cookie.value) !in db.sessions then Err(Unauthenticated)
    else
      var s := db.sessions[Digest(cookie.value)];
      if now >= s.expires || s.admin !in db.admins then Err(Unauthenticated)
      else if !read && csrf != s.csrf then Err(Forbidden)
      else Ok(s)
  }

  predicate IsRead(op: AdminOp) {
    op.SecretAt? && (op.verb == GET || op.verb == HEAD)
  }

  function LoginCall(db: Db, name: string, password: string, ttl: int, d: Draws): Outcome {
    if name !in db.admins || db.admins[name].password != Bcrypt(password) then Fail(db, Unauthenticated)
    else
      var s := Session(Digest(d.token), db.admins[name].name, d.csrf, d.now + ttl);
      Outcome(Ok(LoggedIn(s, d.token)), db.(sessions := db.sessions[Digest(d.token) := s]))
  }

  function EnrollCall(db: Db, token: string, d: Draws): Outcome {
    var h := Digest(token);
    if h !in db.enrollment || db.enrollment[h].used || d.now >= db.enrollment[h].expires then Fail(db, Unauthenticated)
    else
      var en := db.enrollment[h];
      if en.agentId !in db.agents || db.agents[en.agentId].revoked || db.agents[en.agentId].hash.Some? then
        Fail(db, Unauthenticated)
      else
        var runtime := Digest(d.token);
        var a := db.agents[en.agentId].(hash := Some(runtime));
        Outcome(Ok(Enrolled(a.id, d.token)),
                db.(agents := db.agents[a.id := a],
                    credentials := db.credentials[runtime := a.id],
                    enrollment := db.enrollment[en.hash := en.(used := true)]))
  }

  function WithoutSessionsOf(db: Db, name: string): Db {
    db.(sessions := map h | h in db.sessions && db.sessions[h].admin != name :: db.sessions[h])
  }

  // Deleting an agent takes its enrollment tokens and its credential along.
  function WithoutAgent(db: Db, id: string): Db
    requires id in db.agents
  {
    var a := db.agents[id];
    db.(enrollment := map h | h in db.enrollment && db.enrollment[h].agentId != id :: db.enrollment[h],
        credentials := if a.hash.Some? then db.credentials - {a.hash.value} else db.credentials,
        agents := db.agents - {id})
  }

  function WithoutEnrollment(db: Db, id: string): Db {
    db.(enrollment := map h | h in db.enrollment && db.enrollment[h].id != id :: db.enrollment[h])
  }

  function CreateAgentCall(db: Db, name: string, paths: seq<string>, d: Draws): Outcome {
    if name == "" || !Paths.ValidateRules(paths) then Fail(db, BadRequest)
    else
      var a := Agent(d.id, name, paths, None, false, d.now);
      Outcome(Ok(AgentView(a)), db.(agents := db.agents[a.id := a]))
  }

  function SetAgentPathsCall(db: Db, id: string, paths: seq<string>): Outcome {
    if id !in db.agents then Fail(db, NotFound)
    else if !Paths.ValidateRules(paths) then Fail(db, BadRequest)
    else
      var a := db.agents[id].(paths := paths);
      Outcome(Ok(AgentView(a.(hash := None))), db.(agents := db.agents[a.id := a]))
  }

  function RevokeAgentCall(db: Db, id: string): Outcome {
    if id !in db.agents then Fail(db, NotFound)
    else
      var a := db.agents[id].(revoked := true);
      Outcome(Ok(AgentView(a.(hash := None))),
              db.(credentials := if a.hash.Some? then db.credentials - {a.hash.value} else db.credentials,
                  agents := db.agents[a.id := a]))
  }

  function PurgeAgentCall(db: Db, id: string): Outcome {
    if id !in db.agents then Fail(db, NotFound) else Outcome(Ok(Done), WithoutAgent(db, id))
  }

  function CreateEnrollmentCall(db: Db, agentId: string, ttl: int, d: Draws): Outcome {
    if ttl < 1 || ttl > 86400 then Fail(db, BadRequest)
    else if agentId !in db.agents then Fail(db, NotFound)
    else if db.agents[agentId].revoked || db.agents[agentId].hash.Some? then Fail(db, BadRequest)
    else
      var en := Enrollment(d.id, db.agents[agentId].id, Digest(d.token), d.now + ttl * SECOND, false);
      Outcome(Ok(Issued(en.id, en.agentId, d.token, en.expires)), db.(enrollment := db.enrollment[en.hash := en]))
  }

  const SECOND: int := 1_000_000_000

  function DeleteEnrollmentCall(db: Db, id: string): Outcome {
    if forall h :: h in db.enrollment ==> db.enrollment[h].id != id then Fail(db, NotFound)
    else Outcome(Ok(Done), WithoutEnrollment(db, id))
  }

  const MIN_PASSWORD: nat := 12
  const MAX_PASSWORD: nat := 72 // bcrypt's own limit

  function SetAdministratorCall(db: Db, name: string, password: string): Outcome {
    if name == "" || Utf8Len(password) < MIN_PASSWORD || Utf8Len(password) > MAX_PASSWORD then Fail(db, BadRequest)
    else
      Outcome(Ok(Done), WithoutSessionsOf(db.(admins := db.admins[name := Admin(name, Bcrypt(password))]), name))
  }

  function DeleteAdministratorCall(db: Db, session: Session, name: string): Outcome {
    if name == session.admin then Fail(db, BadRequest)
    else Outcome(Ok(Done), WithoutSessionsOf(db.(admins := db.admins - {name}), name))
  }

  predicate Blank(s: string) {
    forall c :: c in s ==> Paths.IsSpace(c)
  }

  function CreateWriterCall(db: Db, name: string, paths: seq<string>, allowCreate: bool, d: Draws): Outcome {
    if Blank(name) || !Paths.ValidateRules(paths) then Fail(db, BadRequest)
    else
      var c := Writer(allowCreate, d.id, name, paths, Digest(d.token), false, d.now);
      Outcome(Ok(WriterIssued(c.id, d.token)),
              db.(writers := db.writers[c.id := c], writerTokens := db.writerTokens[c.hash := c.id]))
  }

  function ViewOf(c: Writer): Reply {
    WriterView(c.id, c.paths, c.allowCreate, c.revoked)
  }

  function EditWriterCall(db: Db, id: string, paths: Option<seq<string>>, allowCreate: Option<bool>): Outcome {
    if id !in db.writers then Fail(db, NotFound)
    else if paths.Some? && !Paths.ValidateRules(paths.value) then Fail(db, BadRequest)
    else
      var c := db.writers[id];
      var c := c.(paths := if paths.Some? then paths.value else c.paths,
                  allowCreate := if allowCreate.Some? then allowCreate.value else c.allowCreate);
      Outcome(Ok(ViewOf(c)), db.(writers := db.writers[c.id := c]))
  }

  function RevokeWriterCall(db: Db, id: string): Outcome {
    if id !in db.writers then Fail(db, NotFound)
    else
      var c := db.writers[id].(revoked := true);
      Outcome(Ok(ViewOf(c)), db.(writerTokens := db.writerTokens - {c.hash}, writers := db.writers[c.id := c]))
  }

  // ---- secrets ----

  function RecordAt(db: Db, path: string): Secret {
    if path in db.secrets then db.secrets[path] else NO_SECRET
  }

  predicate Live(db: Db, path: string) {
    path in db.secrets && !db.secrets[path].deleted
  }

  const ALGORITHM := "AES-256-GCM"

  function Written(record: Secret, path: string, box: Sealing.Ciphertext, now: int): Secret {
    Secret(path, record.revision + 1, if record.created.None? then Some(now) else record.created,
           now, Some(box), ALGORITHM, false)
  }

  function ReadCall(db: Db, key: Bytes, path: string, metadata: bool): Outcome {
    if !Live(db, path) then Fail(db, NotFound)
    else
      var r := db.secrets[path];
      if metadata then Outcome(Ok(SecretView(r.(ciphertext := None))), db)
      else
        match Sealing.Decrypt(key, path, r.ciphertext)
        case Err(e) => Fail(db, e)
        case Ok(value) => Outcome(Ok(ValueView(value, path, r.revision, r.created, r.updated)), db)
  }

  function StoreCall(db: Db, key: Bytes, path: string, body: Body, d: Draws): Outcome {
    if !body.Value? then Fail(db, BadRequest)
    else
      var r := RecordAt(db, path);
      var current := if Live(db, path) then Sealing.Decrypt(key, path, r.ciphertext) else Err(NotFound);
      if Live(db, path) && current.Err? then Fail(db, current.error)
      else if Live(db, path) && current.value == body.text then Outcome(Ok(SecretView(r.(ciphertext := None))), db)
      else
        match Sealing.Encrypt(key, path, body.text, d.nonce)
        case Err(e) => Fail(db, e)
        case Ok(box) =>
          var w := Written(r, path, box, d.now);
          Outcome(Ok(SecretView(w.(ciphertext := None))), db.(secrets := db.secrets[path := w]))
  }

  function RemoveCall(db: Db, path: string, d: Draws): Outcome {
    if !Live(db, path) then Fail(db, NotFound)
    else
      var r := db.secrets[path].(deleted := true, ciphertext := None, updated := d.now);
      Outcome(Ok(Done), db.(secrets := db.secrets[path := r]))
  }

  function SecretCall(db: Db, key: Bytes, verb: Verb, path: string, metadata: bool, body: Body, d: Draws): Outcome {
    if Paths.Normalize(path).Err? then Fail(db, BadRequest)
    else if key == [] then Fail(db, Locked)
    else
      match verb
      case GET => ReadCall(db, key, path, metadata)
      case POST => if Live(db, path) then Fail(db, Conflict) else StoreCall(db, key, path, body, d)
      case PUT => if !Live(db, path) then Fail(db, NotFound) else StoreCall(db, key, path, body, d)
      case DELETE => RemoveCall(db, path, d)
      case _ => Fail(db, MethodNotAllowed)
  }

  // A writer's POST becomes a create or an update before it reaches the store.
  function WriteCall(db: Db, key: Bytes, header: string, verb: Verb, path: string, body: Body, d: Draws): Outcome {
    match AuthenticateWriter(db, header)
    case Err(e) => Fail(db, e)
    case Ok(c) =>
      if Paths.Normalize(path).Err? then Fail(db, BadRequest)
      else if !Paths.Allowed(path, c.paths) then Fail(db, Forbidden)
      else if verb != POST then Fail(db, MethodNotAllowed)
      else SecretCall(db, key, if c.allowCreate && !Live(db, path) then POST else PUT, path, false, body, d)
  }

  function AgentCall(db: Db, key: Bytes, header: string, verb: Verb, path: string, metadata: bool, d: Draws): Outcome {
    match AuthenticateAgent(db, header)
    case Err(e) => Fail(db, e)
    case Ok(a) =>
      if Paths.Normalize(path).Err? then Fail(db, BadRequest)
      else if !Paths.Allowed(path, a.paths) then Fail(db, Forbidden)
      else if verb != GET then Fail(db, Forbidden)
      else SecretCall(db, key, GET, path, metadata, NoValue, d)
  }

  // ---- the whole request ----

  // The reply, and what the request leaves behind. The key and the limiter live
  // in memory and change at once; the database only with the commit.
  datatype Effect = Effect(reply: Result<Reply, Error>, db: Db, key: Bytes, limiter: Limiter.State)

  datatype Sys = Sys(db: Db, key: Bytes, limiter: Limiter.State, drawn: set<string>)

  function Plainly(s: Sys, o: Outcome): Effect {
    Effect(o.reply, o.db, s.key, s.limiter)
  }

  // Login, enrollment and key derivation pass the limiter first.
  function Limited(s: Sys, d: Draws, e: Effect): Effect {
    var limiter := Limiter.Next(s.limiter, d.call);
    if Limiter.Accepts(s.limiter, d.call) then e.(limiter := limiter)
    else Effect(Err(TooMany), s.db, s.key, limiter)
  }

  function UnlockCall(s: Sys, master: string): Effect {
    if s.db.envelope.None? then Effect(Err(NotFound), s.db, s.key, s.limiter)
    else
      match Sealing.Unwrap(master, s.db.envelope.value)
      case None => Effect(Err(Unauthenticated), s.db, s.key, s.limiter)
      case Some(k) => Effect(Ok(KeyState(false)), s.db, k, s.limiter)
  }

  function ChangeMasterCall(db: Db, current: string, next: string, d: Draws): Outcome {
    if db.envelope.None? then Fail(db, NotFound)
    else
      match Sealing.Rewrap(current, next, db.envelope.value, d.salt, d.nonce)
      case None => Fail(db, BadRequest)
      case Some(en) => Outcome(Ok(Done), db.(envelope := Some(en)))
  }

  function RecordsCall(s: Sys, session: Session, cookie: string, op: AdminOp, d: Draws): Outcome
    requires !op.Unlock? && !op.Lock? && !op.ChangeMaster?
  {
    var db := s.db;
    match op
    case Logout => Outcome(Ok(Done), db.(sessions := db.sessions - {Digest(cookie)}))
    case CreateAgent(name, paths) => CreateAgentCall(db, name, paths, d)
    case SetAgentPaths(id, paths) => SetAgentPathsCall(db, id, paths)
    case RevokeAgent(id) => RevokeAgentCall(db, id)
    case PurgeAgent(id) => PurgeAgentCall(db, id)
    case CreateEnrollment(id, ttl) => CreateEnrollmentCall(db, id, ttl, d)
    case DeleteEnrollment(id) => DeleteEnrollmentCall(db, id)
    case SetAdministrator(name, password) => SetAdministratorCall(db, name, password)
    case DeleteAdministrator(name) => DeleteAdministratorCall(db, session, name)
    case CreateWriter(name, paths, allow) => CreateWriterCall(db, name, paths, allow, d)
    case EditWriter(id, paths, allow) => EditWriterCall(db, id, paths, allow)
    case RevokeWriter(id) => RevokeWriterCall(db, id)
    case SecretAt(verb, path, body) => SecretCall(db, s.key, verb, path, false, body, d)
  }

  function AdminCall(s: Sys, session: Session, cookie: string, op: AdminOp, d: Draws): Effect {
    match op
    case Unlock(master) => Limited(s, d, UnlockCall(s, master))
    case Lock => Effect(Ok(KeyState(true)), s.db, [], s.limiter)
    case ChangeMaster(current, next) => Limited(s, d, Plainly(s, ChangeMasterCall(s.db, current, next, d)))
    case _ => Plainly(s, RecordsCall(s, session, cookie, op, d))
  }

  function Handle(s: Sys, req: Request, ttl: int, d: Draws): Effect {
    match req
    case Login(name, password) => Limited(s, d, Plainly(s, LoginCall(s.db, name, password, ttl, d)))
    case Enroll(token) => Limited(s, d, Plainly(s, EnrollCall(s.db, token, d)))
    case Administer(cookie, csrf, op) =>
      (match AuthenticateAdmin(s.db, cookie, csrf, IsRead(op), d.now)
       case Err(e) => Effect(Err(e), s.db, s.key, s.limiter)
       case Ok(session) => AdminCall(s, session, cookie.value, op, d))
    case WriteSecret(header, verb, path, body) => Plainly(s, WriteCall(s.db, s.key, header, verb, path, body, d))
    case ReadSecret(header, verb, path, metadata) => Plainly(s, AgentCall(s.db, s.key, header, verb, path, metadata, d))
  }

  // ---- one step of a running server ----

  // A transaction that aborts leaves the database alone, but may have changed
  // the vault or the limiter before it did.
  datatype Fate = Completed | Aborted(keyChanged: bool, limiterChanged: bool)

  datatype Event =
    | Request(req: Request, draws: Draws, fate: Fate)
    | Restart
    | Setup(name: string, password: string, master: string, dek: Bytes, setupDraws: Draws)

  function SetupCall(db: Db, name: string, password: string, master: string, dek: Bytes, d: Draws): Result<Db, ()> {
    if Blank(name) || Utf8Len(password) < MIN_PASSWORD || Utf8Len(password) > MAX_PASSWORD then Err(())
    else
      match Sealing.Wrap(master, dek, d.salt, d.nonce)
      case None => Err(())
      case Some(en) =>
        if db.envelope.Some? then Err(())
        else Ok(db.(envelope := Some(en), admins := db.admins[name := Admin(name, Bcrypt(password))]))
  }

  function Next(s: Sys, ttl: int, ev: Event): Sys {
    match ev
    case Request(req, d, fate) =>
      var e := Handle(s, req, ttl, d);
      var drawn := s.drawn + {d.id, d.token, d.csrf};
      (match fate
       case Completed => Sys(e.db, e.key, e.limiter, drawn)
       case Aborted(k, l) => Sys(s.db, if k then e.key else s.key, if l then e.limiter else s.limiter, drawn))
    case Restart => Sys(s.db, [], Limiter.FRESH, s.drawn)
    case Setup(name, password, master, dek, d) =>
      match SetupCall(s.db, name, password, master, dek, d)
      case Err(_) => s
      case Ok(db) => s.(db := db)
  }

  // The reply a caller of a completed request gets.
  function ReplyTo(s: Sys, ttl: int, ev: Event): Result<Reply, Error> {
    if ev.Request? && ev.fate == Completed then Handle(s, ev.req, ttl, ev.draws).reply else Err(Internal)
  }

  // Tokens never repeat.
  predicate FreshDraws(s: Sys, d: Draws) {
    && d.id !in s.drawn && d.token !in s.drawn && d.csrf !in s.drawn
    && d.id != d.token && d.token != d.csrf && d.id != d.csrf && d.token != ""
  }

  predicate Possible(s: Sys, ev: Event) {
    ev.Request? ==> FreshDraws(s, ev.draws)
  }
}
