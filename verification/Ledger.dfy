// What the server keeps, row by row. A row of any table becomes what its
// previous content and the requests answered with success make of it, and
// nothing else ever changes it. From this follow exact statements about whole
// histories: which tokens, passwords, sessions and enrollments are good now, and
// what a secret holds.
module Ledger {
  import opened Base
  import opened Records
  import opened Service
  import opened Invariant
  import opened Runs
  import Identities
  import Access
  import Refinement
  import Sealing
  import Paths

  function Row<K, V>(table: map<K, V>, key: K): Option<V> {
    if key in table then Some(table[key]) else None
  }

  // ---- what a request answered with success makes of a row ----

  function AgentAfter(row: Option<Agent>, req: Request, d: Draws, reply: Reply, id: string): Option<Agent> {
    match req
    case Enroll(_) =>
      if row.Some? && reply == Enrolled(id, d.token) then Some(row.value.(hash := Some(Digest(d.token)))) else row
    case Administer(_, _, CreateAgent(name, paths)) =>
      if id == d.id then Some(Agent(id, name, paths, None, false, d.now)) else row
    case Administer(_, _, SetAgentPaths(x, paths)) =>
      if row.Some? && x == id then Some(row.value.(paths := paths)) else row
    case Administer(_, _, RevokeAgent(x)) =>
      if row.Some? && x == id then Some(row.value.(revoked := true)) else row
    case Administer(_, _, PurgeAgent(x)) => if x == id then None else row
    case _ => row
  }

  function EnrollmentAfter(row: Option<Enrollment>, req: Request, d: Draws, h: Digest): Option<Enrollment> {
    match req
    case Enroll(token) => if row.Some? && Digest(token) == h then Some(row.value.(used := true)) else row
    case Administer(_, _, CreateEnrollment(agentId, ttl)) =>
      if h == Digest(d.token) then Some(Enrollment(d.id, agentId, h, d.now + ttl * 1_000_000_000, false)) else row
    case Administer(_, _, DeleteEnrollment(x)) => if row.Some? && row.value.id == x then None else row
    case Administer(_, _, PurgeAgent(x)) => if row.Some? && row.value.agentId == x then None else row
    case _ => row
  }

  function WriterAfter(row: Option<Writer>, req: Request, d: Draws, id: string): Option<Writer> {
    match req
    case Administer(_, _, CreateWriter(name, paths, allow)) =>
      if id == d.id then Some(Writer(allow, id, name, paths, Digest(d.token), false, d.now)) else row
    case Administer(_, _, EditWriter(x, paths, allow)) =>
      if row.None? || x != id then row
      else
        var c := row.value;
        var c := if paths.Some? then c.(paths := paths.value) else c;
        Some(if allow.Some? then c.(allowCreate := allow.value) else c)
    case Administer(_, _, RevokeWriter(x)) =>
      if row.Some? && x == id then Some(row.value.(revoked := true)) else row
    case _ => row
  }

  function SessionAfter(row: Option<Session>, req: Request, ttl: int, d: Draws, h: Digest): Option<Session> {
    match req
    case Login(name, _) => if h == Digest(d.token) then Some(Session(h, name, d.csrf, d.now + ttl)) else row
    case Administer(cookie, _, Logout) => if cookie == Some(h.token) then None else row
    case Administer(_, _, SetAdministrator(name, _)) => if row.Some? && row.value.admin == name then None else row
    case Administer(_, _, DeleteAdministrator(name)) => if row.Some? && row.value.admin == name then None else row
    case _ => row
  }

  function AdminAfter(row: Option<Admin>, req: Request, name: string): Option<Admin> {
    match req
    case Administer(_, _, SetAdministrator(n, password)) =>
      if n == name then Some(Admin(name, Bcrypt(password))) else row
    case Administer(_, _, DeleteAdministrator(n)) => if n == name then None else row
    case _ => row
  }

  // ---- tables that an operation is not about ----

  lemma IdentityFrame(s: Sys, session: Session, cookie: string, op: AdminOp, d: Draws)
    ensures !OnAgents(op) ==> AdminCall(s, session, cookie, op, d).db.agents == s.db.agents
    ensures !OnWriters(op) ==> AdminCall(s, session, cookie, op, d).db.writers == s.db.writers
  {
    if !OnAgents(op) && !OnWriters(op) {
      Access.OtherCallsFrame(s, session, cookie, op, d);
    } else if OnAgents(op) {
      match op {
        case CreateAgent(_, _) =>
        case SetAgentPaths(_, _) =>
        case RevokeAgent(_) =>
        case PurgeAgent(_) =>
      }
    } else {
      match op {
        case CreateWriter(_, _, _) =>
        case EditWriter(_, _, _) =>
        case RevokeWriter(_) =>
      }
    }
  }

  // A request that is not an administrator's touches none of these tables, but
  // for a login and an enrollment.
  lemma OutsideFrame(s: Sys, req: Request, ttl: int, d: Draws)
    requires !req.Administer?
    ensures var db' := Handle(s, req, ttl, d).db;
            && db'.writers == s.db.writers && db'.admins == s.db.admins
            && (!req.Login? ==> db'.sessions == s.db.sessions)
            && (!req.Enroll? ==> db'.agents == s.db.agents && db'.enrollment == s.db.enrollment)
  {
    match req {
      case Login(_, _) =>
      case Enroll(_) =>
      case WriteSecret(header, verb, path, body) => WriteFrame(s, header, verb, path, body, d);
      case ReadSecret(header, verb, path, metadata) => ReadsChangeNothing(s, header, verb, path, metadata, d);
    }
  }

  // ---- every row after one request ----

  lemma AgentRowByOp(s: Sys, session: Session, cookie: string, req: Request, d: Draws, id: string)
    requires Identities.Keyed(s.db) && req.Administer?
    ensures var e := AdminCall(s, session, cookie, req.op, d);
            e.reply.Ok? ==> Row(e.db.agents, id) == AgentAfter(Row(s.db.agents, id), req, d, e.reply.value, id)
  {
    match req.op {
      case CreateAgent(_, _) =>
      case SetAgentPaths(_, _) =>
      case RevokeAgent(_) =>
      case PurgeAgent(_) =>
      case _ => IdentityFrame(s, session, cookie, req.op, d);
    }
  }

  lemma WriterRowByOp(s: Sys, session: Session, cookie: string, req: Request, d: Draws, id: string)
    requires Identities.Keyed(s.db) && req.Administer?
    ensures var e := AdminCall(s, session, cookie, req.op, d);
            e.reply.Ok? ==> Row(e.db.writers, id) == WriterAfter(Row(s.db.writers, id), req, d, id)
  {
    match req.op {
      case CreateWriter(_, _, _) =>
      case EditWriter(_, _, _) =>
      case RevokeWriter(_) =>
      case _ => IdentityFrame(s, session, cookie, req.op, d);
    }
  }

  lemma EnrollmentRowByOp(s: Sys, session: Session, cookie: string, req: Request, d: Draws, h: Digest)
    requires Identities.Keyed(s.db) && req.Administer?
    ensures var e := AdminCall(s, session, cookie, req.op, d);
            e.reply.Ok? ==> Row(e.db.enrollment, h) == EnrollmentAfter(Row(s.db.enrollment, h), req, d, h)
  {
    match req.op {
      case CreateEnrollment(_, _) =>
      case DeleteEnrollment(_) =>
      case PurgeAgent(_) =>
      case _ => Identities.EnrollmentTableFrame(s, session, cookie, req.op, d);
    }
  }

  lemma SessionRowByOp(s: Sys, session: Session, req: Request, ttl: int, d: Draws, h: Digest)
    requires req.Administer? && req.cookie.Some?
    ensures var e := AdminCall(s, session, req.cookie.value, req.op, d);
            e.reply.Ok? ==> Row(e.db.sessions, h) == SessionAfter(Row(s.db.sessions, h), req, ttl, d, h)
  {
    match req.op {
      case Logout =>
      case SetAdministrator(_, _) =>
      case DeleteAdministrator(_) =>
      case _ => Identities.AdminTablesFrame(s, session, req.cookie.value, req.op, d);
    }
  }

  lemma AdminRowByOp(s: Sys, session: Session, cookie: string, req: Request, d: Draws, name: string)
    requires req.Administer?
    ensures var e := AdminCall(s, session, cookie, req.op, d);
            e.reply.Ok? ==> Row(e.db.admins, name) == AdminAfter(Row(s.db.admins, name), req, name)
  {
    match req.op {
      case SetAdministrator(_, _) =>
      case DeleteAdministrator(_) =>
      case _ => Access.AdminsFrame(s, session, cookie, req.op, d);
    }
  }

  // The rows of all tables, under any keys.
  ghost predicate RowsFollow(db: Db, db': Db, req: Request, ttl: int, d: Draws, reply: Reply,
                             id: string, h: Digest, name: string) {
    && Row(db'.agents, id) == AgentAfter(Row(db.agents, id), req, d, reply, id)
    && Row(db'.writers, id) == WriterAfter(Row(db.writers, id), req, d, id)
    && Row(db'.enrollment, h) == EnrollmentAfter(Row(db.enrollment, h), req, d, h)
    && Row(db'.sessions, h) == SessionAfter(Row(db.sessions, h), req, ttl, d, h)
    && Row(db'.admins, name) == AdminAfter(Row(db.admins, name), req, name)
  }

  lemma LoginRows(s: Sys, name: string, password: string, ttl: int, d: Draws, id: string, h: Digest, other: string)
    requires AdminsOk(s.db.admins)
    ensures var req := Login(name, password);
            var e := Handle(s, req, ttl, d);
            e.reply.Ok? ==> RowsFollow(s.db, e.db, req, ttl, d, e.reply.value, id, h, other)
  {
    OutsideFrame(s, Login(name, password), ttl, d);
  }

  lemma EnrollRows(s: Sys, token: string, ttl: int, d: Draws, id: string, h: Digest, name: string)
    requires Identities.Keyed(s.db)
    ensures var req := Enroll(token);
            var e := Handle(s, req, ttl, d);
            e.reply.Ok? ==> RowsFollow(s.db, e.db, req, ttl, d, e.reply.value, id, h, name)
  {
    OutsideFrame(s, Enroll(token), ttl, d);
  }

  lemma AdministerRows(s: Sys, req: Request, ttl: int, d: Draws, id: string, h: Digest, name: string)
    requires Identities.Keyed(s.db) && req.Administer?
    ensures var e := Handle(s, req, ttl, d);
            e.reply.Ok? ==> RowsFollow(s.db, e.db, req, ttl, d, e.reply.value, id, h, name)
  {
    var auth := AuthenticateAdmin(s.db, req.cookie, req.csrf, IsRead(req.op), d.now);
    if auth.Ok? {
      AgentRowByOp(s, auth.value, req.cookie.value, req, d, id);
      WriterRowByOp(s, auth.value, req.cookie.value, req, d, id);
      EnrollmentRowByOp(s, auth.value, req.cookie.value, req, d, h);
      SessionRowByOp(s, auth.value, req, ttl, d, h);
      AdminRowByOp(s, auth.value, req.cookie.value, req, d, name);
    }
  }

  lemma HandleRows(s: Sys, req: Request, ttl: int, d: Draws, id: string, h: Digest, name: string)
    requires Identities.Keyed(s.db) && AdminsOk(s.db.admins)
    ensures var e := Handle(s, req, ttl, d);
            if e.reply.Ok? then RowsFollow(s.db, e.db, req, ttl, d, e.reply.value, id, h, name) else e.db == s.db
  {
    HandleFrame(s, req, ttl, d);
    match req {
      case Login(n, password) => LoginRows(s, n, password, ttl, d, id, h, name);
      case Enroll(token) => EnrollRows(s, token, ttl, d, id, h, name);
      case Administer(_, _, _) => AdministerRows(s, req, ttl, d, id, h, name);
      case _ => OutsideFrame(s, req, ttl, d);
    }
  }

  // ---- what a reply shows ----

  // A record as replies show it, without its ciphertext.
  ghost predicate ShowsRecord(secrets: map<string, Secret>, path: string, reply: Reply) {
    path in secrets && reply == SecretView(secrets[path].(ciphertext := None))
  }

  // The value sealed in a record, with the record's revision and times.
  ghost predicate ShowsContent(secrets: map<string, Secret>, path: string, reply: Reply) {
    && path in secrets && secrets[path].ciphertext.Some?
    && var r := secrets[path];
       reply == ValueView(r.ciphertext.value.plain, path, r.revision, r.created, r.updated)
  }

  ghost predicate ShowsAgent(agents: Agents, id: string, reply: Reply) {
    id in agents && reply == AgentView(agents[id].(hash := None))
  }

  ghost predicate ShowsWriter(writers: Writers, id: string, reply: Reply) {
    id in writers && var c := writers[id]; reply == WriterView(id, c.paths, c.allowCreate, c.revoked)
  }

  // The reply of a request answered with success: what was drawn for it, or the
  // rows as they are afterwards.
  ghost predicate ReplyFits(db: Db, db': Db, req: Request, ttl: int, d: Draws, reply: Reply) {
    match req
    case Login(name, _) => reply == LoggedIn(Session(Digest(d.token), name, d.csrf, d.now + ttl), d.token)
    case Enroll(token) =>
      Digest(token) in db.enrollment && reply == Enrolled(db.enrollment[Digest(token)].agentId, d.token)
    case WriteSecret(_, _, path, _) => ShowsRecord(db'.secrets, path, reply)
    case ReadSecret(_, _, path, metadata) =>
      if metadata then ShowsRecord(db'.secrets, path, reply) else ShowsContent(db'.secrets, path, reply)
    case Administer(_, _, op) =>
      match op
      case CreateAgent(_, _) => ShowsAgent(db'.agents, d.id, reply)
      case SetAgentPaths(id, _) => ShowsAgent(db'.agents, id, reply)
      case RevokeAgent(id) => ShowsAgent(db'.agents, id, reply)
      case CreateEnrollment(id, ttl) => reply == Issued(d.id, id, d.token, d.now + ttl * 1_000_000_000)
      case CreateWriter(_, _, _) => reply == WriterIssued(d.id, d.token)
      case EditWriter(id, _, _) => ShowsWriter(db'.writers, id, reply)
      case RevokeWriter(id) => ShowsWriter(db'.writers, id, reply)
      case Unlock(_) => reply == KeyState(false)
      case Lock => reply == KeyState(true)
      case SecretAt(verb, path, _) =>
        if verb == GET then ShowsContent(db'.secrets, path, reply)
        else if verb == DELETE then reply == Done
        else ShowsRecord(db'.secrets, path, reply)
      case _ => reply == Done
  }

  lemma SecretReply(db: Db, key: Bytes, verb: Verb, path: string, metadata: bool, body: Body, d: Draws)
    ensures var o := SecretCall(db, key, verb, path, metadata, body, d);
            o.reply.Ok? ==>
              if verb == GET && !metadata then ShowsContent(o.db.secrets, path, o.reply.value)
              else if verb == DELETE then o.reply.value == Done
              else ShowsRecord(o.db.secrets, path, o.reply.value)
  {
  }

  lemma AdminReply(s: Sys, session: Session, req: Request, ttl: int, d: Draws)
    requires Identities.Keyed(s.db) && req.Administer? && req.cookie.Some?
    ensures var e := AdminCall(s, session, req.cookie.value, req.op, d);
            e.reply.Ok? ==> ReplyFits(s.db, e.db, req, ttl, d, e.reply.value)
  {
    match req.op {
      case SecretAt(verb, path, body) => SecretReply(s.db, s.key, verb, path, false, body, d);
      case _ =>
    }
  }

  lemma WriteReply(s: Sys, header: string, verb: Verb, path: string, body: Body, d: Draws)
    ensures var o := WriteCall(s.db, s.key, header, verb, path, body, d);
            o.reply.Ok? ==> ShowsRecord(o.db.secrets, path, o.reply.value)
  {
    var auth := AuthenticateWriter(s.db, header);
    if auth.Ok? {
      var stored := if auth.value.allowCreate && !Live(s.db, path) then POST else PUT;
      SecretReply(s.db, s.key, stored, path, false, body, d);
    }
  }

  lemma HandleReply(s: Sys, req: Request, ttl: int, d: Draws)
    requires Identities.Keyed(s.db) && AdminsOk(s.db.admins)
    ensures var e := Handle(s, req, ttl, d);
            e.reply.Ok? ==> ReplyFits(s.db, e.db, req, ttl, d, e.reply.value)
  {
    match req {
      case Login(_, _) =>
      case Enroll(_) =>
      case Administer(cookie, csrf, op) =>
        var auth := AuthenticateAdmin(s.db, cookie, csrf, IsRead(op), d.now);
        if auth.Ok? { AdminReply(s, auth.value, req, ttl, d); }
      case WriteSecret(header, verb, path, body) => WriteReply(s, header, verb, path, body, d);
      case ReadSecret(header, verb, path, metadata) => SecretReply(s.db, s.key, GET, path, metadata, NoValue, d);
    }
  }

  // ---- every row over a run ----

  // The request of this event was answered with success.
  ghost predicate Succeeds(r: Run, i: nat)
    requires i < |r.events| == |r.replies|
  {
    r.events[i].Request? && r.replies[i].Ok?
  }

  // At every step of a run each row follows the requests answered with success,
  // and at every other step all records stay.
  lemma RowsStep(r: Run, i: nat, id: string, h: Digest, name: string)
    requires IsRun(r) && i < |r.events|
    ensures var db, db', ev := r.states[i].db, r.states[i + 1].db, r.events[i];
            if Succeeds(r, i)
            then RowsFollow(db, db', ev.req, r.ttl, ev.draws, r.replies[i].value, id, h, name)
            else db' == db
  {
    RunOk(r, i);
    assert StepAt(r, i);
    var ev := r.events[i];
    if ev.Request? && ev.fate == Completed {
      HandleRows(r.states[i], ev.req, r.ttl, ev.draws, id, h, name);
    }
  }

  lemma RepliesFit(r: Run, i: nat)
    requires IsRun(r) && i < |r.events| && Succeeds(r, i)
    ensures var ev := r.events[i];
            && ReplyFits(r.states[i].db, r.states[i + 1].db, ev.req, r.ttl, ev.draws, r.replies[i].value)
            && FreshDraws(r.states[i], ev.draws)
  {
    RunOk(r, i);
    assert StepAt(r, i);
    HandleReply(r.states[i], r.events[i].req, r.ttl, r.events[i].draws);
  }

  // ---- secrets ----

  // The value this request is to put at the path.
  function Put(req: Request, path: string): Option<string> {
    match req
    case WriteSecret(_, _, p, Value(text)) => if p == path then Some(text) else None
    case Administer(_, _, SecretAt(verb, p, Value(text))) =>
      if p == path && (verb == POST || verb == PUT) then Some(text) else None
    case _ => None
  }

  predicate Deletes(req: Request, path: string) {
    req.Administer? && req.op.SecretAt? && req.op.verb == DELETE && req.op.path == path
  }

  // The record holds this value, sealed under this key for its own path.
  ghost predicate Seals(row: Option<Secret>, dek: Bytes, path: string, value: string) {
    && row.Some? && !row.value.deleted && row.value.ciphertext.Some?
    && var box := row.value.ciphertext.value; box.key == dek && box.aad == path && box.plain == value
  }

  // A value that is not there already takes the next revision, deleted or not,
  // and is sealed anew; the creation time is that of the very first.
  ghost function SecretAfter(row: Option<Secret>, req: Request, d: Draws, dek: Bytes, path: string): Option<Secret> {
    var value := Put(req, path);
    if Deletes(req, path) && row.Some? then
      Some(row.value.(deleted := true, ciphertext := None, updated := d.now))
    else if value.None? || Seals(row, dek, path, value.value) then row
    else
      var box := Sealing.Sealed(dek, d.nonce, value.value, path);
      var revision := if row.Some? then row.value.revision + 1 else 1;
      var created := if row.Some? && row.value.created.Some? then row.value.created else Some(d.now);
      Some(Secret(path, revision, created, d.now, Some(box), "AES-256-GCM", false))
  }

  lemma StoreElsewhere(db: Db, dek: Bytes, p: string, body: Body, d: Draws, path: string)
    requires p != path
    ensures Row(StoreCall(db, dek, p, body, d).db.secrets, path) == Row(db.secrets, path)
  {
    StoreWrites(db, dek, p, body, d);
  }

  // A store leaves the table alone or replaces the record.
  lemma StoreHere(db: Db, dek: Bytes, value: string, d: Draws, path: string)
    requires SecretsOk(db, dek) && dek != []
    ensures StoreCall(db, dek, path, Value(value), d).db.secrets ==
            if Seals(Row(db.secrets, path), dek, path, value) then db.secrets
            else db.secrets[path := Written(RecordAt(db, path), path, Sealing.Sealed(dek, d.nonce, value, path), d.now)]
  {
    Refinement.LiveDecrypts(db, dek, path);
    SealsIff(db, dek, path, value);
    StoreOpened(db, dek, value, d, path);
  }

  lemma StoreOpened(db: Db, dek: Bytes, value: string, d: Draws, path: string)
    requires dek != [] && (Live(db, path) ==> Sealing.Decrypt(dek, path, RecordAt(db, path).ciphertext).Ok?)
    ensures StoreCall(db, dek, path, Value(value), d).db.secrets ==
            if Live(db, path) && Sealing.Decrypt(dek, path, RecordAt(db, path).ciphertext) == Ok(value) then db.secrets
            else db.secrets[path := Written(RecordAt(db, path), path, Sealing.Sealed(dek, d.nonce, value, path), d.now)]
  {
    assert Sealing.Encrypt(dek, path, value, d.nonce) == Ok(Sealing.Sealed(dek, d.nonce, value, path));
  }

  lemma WrittenIsAfter(db: Db, dek: Bytes, value: string, req: Request, d: Draws, path: string)
    requires !Deletes(req, path) && Put(req, path) == Some(value)
    requires !Seals(Row(db.secrets, path), dek, path, value)
    ensures SecretAfter(Row(db.secrets, path), req, d, dek, path) ==
            Some(Written(RecordAt(db, path), path, Sealing.Sealed(dek, d.nonce, value, path), d.now))
  {
  }

  lemma SealsIff(db: Db, dek: Bytes, path: string, value: string)
    requires SecretsOk(db, dek) && dek != []
    ensures Seals(Row(db.secrets, path), dek, path, value) <==>
              Live(db, path) && Sealing.Decrypt(dek, path, RecordAt(db, path).ciphertext) == Ok(value)
  {
  }

  lemma StoreRow(db: Db, dek: Bytes, p: string, body: Body, req: Request, d: Draws, path: string)
    requires SecretsOk(db, dek) && dek != []
    requires !Deletes(req, path) && Put(req, path) == if p == path && body.Value? then Some(body.text) else None
    ensures var o := StoreCall(db, dek, p, body, d);
            o.reply.Ok? ==> Row(o.db.secrets, path) == SecretAfter(Row(db.secrets, path), req, d, dek, path)
  {
    if p != path {
      StoreElsewhere(db, dek, p, body, d, path);
    } else if body.Value? {
      StoreHere(db, dek, body.text, d, path);
      if !Seals(Row(db.secrets, path), dek, path, body.text) {
        WrittenIsAfter(db, dek, body.text, req, d, path);
      }
    }
  }

  lemma SecretAtRow(s: Sys, dek: Bytes, op: AdminOp, req: Request, d: Draws, path: string)
    requires SecretsOk(s.db, dek) && dek != [] && (s.key == [] || s.key == dek)
    requires op.SecretAt? && req.Administer? && req.op == op
    ensures var o := SecretCall(s.db, s.key, op.verb, op.path, false, op.body, d);
            o.reply.Ok? ==> Row(o.db.secrets, path) == SecretAfter(Row(s.db.secrets, path), req, d, dek, path)
  {
    if s.key != [] && (op.verb == POST || op.verb == PUT) {
      StoreRow(s.db, dek, op.path, op.body, req, d, path);
    }
  }

  lemma WriteRow(s: Sys, dek: Bytes, req: Request, d: Draws, path: string)
    requires SecretsOk(s.db, dek) && dek != [] && (s.key == [] || s.key == dek)
    requires req.WriteSecret?
    ensures var o := WriteCall(s.db, s.key, req.header, req.verb, req.path, req.body, d);
            o.reply.Ok? ==> Row(o.db.secrets, path) == SecretAfter(Row(s.db.secrets, path), req, d, dek, path)
  {
    if s.key != [] {
      StoreRow(s.db, dek, req.path, req.body, req, d, path);
    }
  }

  lemma HandleSecretRow(s: Sys, dek: Bytes, req: Request, ttl: int, d: Draws, path: string)
    requires SecretsOk(s.db, dek) && dek != [] && (s.key == [] || s.key == dek)
    ensures var e := Handle(s, req, ttl, d);
            Row(e.db.secrets, path) ==
            if e.reply.Ok? then SecretAfter(Row(s.db.secrets, path), req, d, dek, path) else Row(s.db.secrets, path)
  {
    HandleFrame(s, req, ttl, d);
    match req {
      case WriteSecret(_, _, _, _) => WriteRow(s, dek, req, d, path);
      case Administer(cookie, csrf, op) =>
        if op.SecretAt? && AuthenticateAdmin(s.db, cookie, csrf, IsRead(op), d.now).Ok? {
          SecretAtRow(s, dek, op, req, d, path);
        }
      case _ =>
    }
  }

  // The records of secrets follow the requests answered with success as well.
  lemma SecretsStep(r: Run, i: nat, path: string)
    requires IsRun(r) && i < |r.events|
    ensures var row, row' := Row(r.states[i].db.secrets, path), Row(r.states[i + 1].db.secrets, path);
            row' == if Succeeds(r, i) then SecretAfter(row, r.events[i].req, r.events[i].draws, r.dek, path) else row
  {
    RunOk(r, i);
    assert StepAt(r, i);
    var ev := r.events[i];
    if ev.Request? && ev.fate == Completed {
      HandleSecretRow(r.states[i], r.dek, ev.req, r.ttl, ev.draws, path);
    }
  }
}
