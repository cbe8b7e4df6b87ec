// The running server: requests performed statement by statement inside a
// transaction, with a vault and a limiter in memory. Any statement may fail,
// and so may the commit and the audit write after it.
module Server {
  import opened Base
  import opened Records
  import opened Service
  import opened Invariant
  import Sealing
  import Limiter
  import Paths

  // One open transaction. `left` counts the statements until the store fails;
  // None is a store that works.
  class Tx {
    var db: Db
    var left: Option<nat>
    var broken: bool

    constructor (db: Db, left: Option<nat>)
      ensures this.db == db && this.left == left && !broken
    {
      this.db, this.left, broken := db, left, false;
    }

    // A Get or List.
    method Read() returns (ok: bool)
      requires !broken
      modifies this
      ensures ok == !broken && db == old(db) && left.None? == old(left).None?
      ensures broken ==> left.Some?
    {
      broken := left == Some(0);
      if left.Some? && !broken {
        left := Some(left.value - 1);
      }
      ok := !broken;
    }

    // A Put or Delete.
    method Write(next: Db) returns (ok: bool)
      requires !broken
      modifies this
      ensures ok == !broken && db == (if ok then next else old(db)) && left.None? == old(left).None?
      ensures broken ==> left.Some?
    {
      ok := Read();
      if ok {
        db := next;
      }
    }
  }

  // A call inside a transaction computes the outcome, or the store failed and
  // it reports an error.
  ghost predicate Follows(broken: bool, r: Result<Reply, Error>, db: Db, o: Outcome) {
    if broken then r.Err? else r == o.reply && (r.Ok? ==> db == o.db)
  }

  // The rows of a table, each exactly once, in some order.
  method Rows<K(==), V>(table: map<K, V>) returns (rows: seq<V>)
    ensures forall row :: row in rows ==> exists k :: k in table && table[k] == row
    ensures forall k :: k in table ==> table[k] in rows
  {
    rows := [];
    var keys := table.Keys;
    while keys != {}
      invariant keys <= table.Keys
      invariant forall row :: row in rows ==> exists k :: k in table && table[k] == row
      invariant forall k :: k in table && k !in keys ==> table[k] in rows
      decreases |keys|
    {
      var k :| k in keys;
      rows := rows + [table[k]];
      keys := keys - {k};
    }
  }

  // ---- authentication ----

  method AuthenticateAgentTx(tx: Tx, header: string) returns (r: Result<Agent, Error>)
    requires !tx.broken
    modifies tx
    ensures tx.db == old(tx.db) && (tx.broken ==> tx.left.Some?) && tx.left.None? == old(tx.left).None?
    ensures if tx.broken then r.Err? else r == AuthenticateAgent(tx.db, header)
  {
    var token := TrimPrefix(header, "Bearer ");
    if token == "" || token == header {
      return Err(Unauthenticated);
    }
    var h := Digest(token);
    var ok := tx.Read();
    if !ok || h !in tx.db.credentials {
      return Err(Unauthenticated);
    }
    var id := tx.db.credentials[h];
    ok := tx.Read();
    if !ok || id !in tx.db.agents || tx.db.agents[id].revoked || tx.db.agents[id].hash != Some(h) {
      return Err(Unauthenticated);
    }
    r := Ok(tx.db.agents[id]);
  }

  method AuthenticateWriterTx(tx: Tx, header: string) returns (r: Result<Writer, Error>)
    requires !tx.broken
    modifies tx
    ensures tx.db == old(tx.db) && (tx.broken ==> tx.left.Some?) && tx.left.None? == old(tx.left).None?
    ensures if tx.broken then r.Err? else r == AuthenticateWriter(tx.db, header)
  {
    var token := TrimPrefix(header, "Bearer ");
    if token == "" || token == header {
      return Err(Unauthenticated);
    }
    var h := Digest(token);
    var ok := tx.Read();
    if !ok || h !in tx.db.writerTokens {
      return Err(Unauthenticated);
    }
    var id := tx.db.writerTokens[h];
    ok := tx.Read();
    if !ok || id !in tx.db.writers || tx.db.writers[id].revoked || tx.db.writers[id].hash != h {
      return Err(Unauthenticated);
    }
    r := Ok(tx.db.writers[id]);
  }

  method AuthenticateAdminTx(tx: Tx, cookie: Option<string>, csrf: string, read: bool, now: int)
    returns (r: Result<Session, Error>)
    requires !tx.broken
    modifies tx
    ensures tx.db == old(tx.db) && (tx.broken ==> tx.left.Some?) && tx.left.None? == old(tx.left).None?
    ensures if tx.broken then r.Err? else r == AuthenticateAdmin(tx.db, cookie, csrf, read, now)
  {
    if cookie.None? {
      return Err(Unauthenticated);
    }
    var h := Digest(cookie.value);
    var ok := tx.Read();
    if !ok || h !in tx.db.sessions || now >= tx.db.sessions[h].expires {
      return Err(Unauthenticated);
    }
    var s := tx.db.sessions[h];
    ok := tx.Read();
    if !ok || s.admin !in tx.db.admins {
      return Err(Unauthenticated);
    }
    if !read && csrf != s.csrf {
      return Err(Forbidden);
    }
    r := Ok(s);
  }

  // ---- identities ----

  method LoginTx(tx: Tx, name: string, password: string, ttl: int, d: Draws) returns (r: Result<Reply, Error>)
    requires !tx.broken
    modifies tx
    ensures Follows(tx.broken, r, tx.db, LoginCall(old(tx.db), name, password, ttl, d))
    ensures (tx.broken ==> tx.left.Some?) && tx.left.None? == old(tx.left).None?
  {
    var ok := tx.Read();
    if !ok || name !in tx.db.admins || tx.db.admins[name].password != Bcrypt(password) {
      return Err(Unauthenticated);
    }
    var session := Session(Digest(d.token), tx.db.admins[name].name, d.csrf, d.now + ttl);
    ok := tx.Write(tx.db.(sessions := tx.db.sessions[Digest(d.token) := session]));
    r := if ok then Ok(LoggedIn(session, d.token)) else Err(Internal);
  }

  method EnrollTx(tx: Tx, token: string, d: Draws) returns (r: Result<Reply, Error>)
    requires !tx.broken
    modifies tx
    ensures Follows(tx.broken, r, tx.db, EnrollCall(old(tx.db), token, d))
    ensures (tx.broken ==> tx.left.Some?) && tx.left.None? == old(tx.left).None?
  {
    var h := Digest(token);
    var ok := tx.Read();
    if !ok || h !in tx.db.enrollment || tx.db.enrollment[h].used || d.now >= tx.db.enrollment[h].expires {
      return Err(Unauthenticated);
    }
    var en := tx.db.enrollment[h];
    ok := tx.Read();
    if !ok || en.agentId !in tx.db.agents || tx.db.agents[en.agentId].revoked || tx.db.agents[en.agentId].hash.Some? {
      return Err(Unauthenticated);
    }
    var a := tx.db.agents[en.agentId].(hash := Some(Digest(d.token)));
    en := en.(used := true);
    ok := tx.Write(tx.db.(agents := tx.db.agents[a.id := a]));
    if !ok { return Err(Internal); }
    ok := tx.Write(tx.db.(credentials := tx.db.credentials[a.hash.value := a.id]));
    if !ok { return Err(Internal); }
    ok := tx.Write(tx.db.(enrollment := tx.db.enrollment[en.hash := en]));
    if !ok { return Err(Internal); }
    r := Ok(Enrolled(a.id, d.token));
  }

  method DeleteSessions(tx: Tx, name: string) returns (ok: bool)
    requires !tx.broken
    requires forall h :: h in tx.db.sessions ==> tx.db.sessions[h].hash == h
    modifies tx
    ensures ok == !tx.broken && (ok ==> tx.db == WithoutSessionsOf(old(tx.db), name))
    ensures (tx.broken ==> tx.left.Some?) && tx.left.None? == old(tx.left).None?
  {
    ghost var before := tx.db;
    ok := tx.Read();
    if !ok { return; }
    var rows := Rows(tx.db.sessions);
    for i := 0 to |rows|
      invariant ok && !tx.broken && tx.left.None? == old(tx.left).None?
      invariant tx.db == before.(sessions := tx.db.sessions)
      invariant forall h :: h in tx.db.sessions <==>
                  h in before.sessions && forall j :: 0 <= j < i && rows[j].hash == h ==> rows[j].admin != name
      invariant forall h :: h in tx.db.sessions ==> tx.db.sessions[h] == before.sessions[h]
    {
      if rows[i].admin == name {
        ok := tx.Write(tx.db.(sessions := tx.db.sessions - {rows[i].hash}));
        if !ok { return; }
      }
    }
    forall h | h in before.sessions
      ensures h in tx.db.sessions <==> before.sessions[h].admin != name
    {
      var j :| 0 <= j < |rows| && rows[j] == before.sessions[h];
      assert rows[j].hash == h;
      forall i | 0 <= i < |rows| && rows[i].hash == h ensures rows[i] == before.sessions[h] {
        assert rows[i] in rows;
      }
    }
    assert tx.db.sessions == WithoutSessionsOf(before, name).sessions;
  }

  // Enrollment tokens first, then the credential, then the agent.
  method DeleteAgent(tx: Tx, id: string) returns (r: Result<Reply, Error>)
    requires !tx.broken
    requires forall h :: h in tx.db.enrollment ==> tx.db.enrollment[h].hash == h
    modifies tx
    ensures Follows(tx.broken, r, tx.db, PurgeAgentCall(old(tx.db), id))
    ensures (tx.broken ==> tx.left.Some?) && tx.left.None? == old(tx.left).None?
  {
    ghost var before := tx.db;
    var ok := tx.Read();
    if !ok { return Err(Internal); }
    if id !in tx.db.agents { return Err(NotFound); }
    var agent := tx.db.agents[id];
    ok := tx.Read();
    if !ok { return Err(Internal); }
    var rows := Rows(tx.db.enrollment);
    for i := 0 to |rows|
      invariant !tx.broken && tx.left.None? == old(tx.left).None?
      invariant tx.db == before.(enrollment := tx.db.enrollment)
      invariant forall h :: h in tx.db.enrollment <==>
                  h in before.enrollment && forall j :: 0 <= j < i && rows[j].hash == h ==> rows[j].agentId != id
      invariant forall h :: h in tx.db.enrollment ==> tx.db.enrollment[h] == before.enrollment[h]
    {
      if rows[i].agentId == id {
        ok := tx.Write(tx.db.(enrollment := tx.db.enrollment - {rows[i].hash}));
        if !ok { return Err(Internal); }
      }
    }
    forall h | h in before.enrollment
      ensures h in tx.db.enrollment <==> before.enrollment[h].agentId != id
    {
      var j :| 0 <= j < |rows| && rows[j] == before.enrollment[h];
      assert rows[j].hash == h;
      forall i | 0 <= i < |rows| && rows[i].hash == h ensures rows[i] == before.enrollment[h] {
        assert rows[i] in rows;
      }
    }
    assert tx.db.enrollment == WithoutAgent(before, id).enrollment;
    if agent.hash.Some? {
      ok := tx.Write(tx.db.(credentials := tx.db.credentials - {agent.hash.value}));
      if !ok { return Err(Internal); }
    }
    ok := tx.Write(tx.db.(agents := tx.db.agents - {id}));
    r := if ok then Ok(Done) else Err(Internal);
  }

  method DeleteEnrollmentTx(tx: Tx, id: string) returns (r: Result<Reply, Error>)
    requires !tx.broken
    requires EnrollmentIdsOk(tx.db.enrollment)
    requires forall h :: h in tx.db.enrollment ==> tx.db.enrollment[h].hash == h
    modifies tx
    ensures Follows(tx.broken, r, tx.db, DeleteEnrollmentCall(old(tx.db), id))
    ensures (tx.broken ==> tx.left.Some?) && tx.left.None? == old(tx.left).None?
  {
    var ok := tx.Read();
    if !ok { return Err(Internal); }
    var rows := Rows(tx.db.enrollment);
    for i := 0 to |rows|
      invariant !tx.broken && tx.left.None? == old(tx.left).None? && tx.db == old(tx.db)
      invariant forall j :: 0 <= j < i ==> rows[j].id != id
    {
      if rows[i].id == id {
        var next := tx.db.(enrollment := tx.db.enrollment - {rows[i].hash});
        assert rows[i] in rows;
        assert next.enrollment == WithoutEnrollment(tx.db, id).enrollment;
        ok := tx.Write(next);
        return if ok then Ok(Done) else Err(Internal);
      }
    }
    forall h | h in tx.db.enrollment ensures tx.db.enrollment[h].id != id {
      assert tx.db.enrollment[h] in rows;
    }
    r := Err(NotFound);
  }

  method CreateAgentTx(tx: Tx, name: string, paths: seq<string>, d: Draws) returns (r: Result<Reply, Error>)
    requires !tx.broken
    modifies tx
    ensures Follows(tx.broken, r, tx.db, CreateAgentCall(old(tx.db), name, paths, d))
    ensures (tx.broken ==> tx.left.Some?) && tx.left.None? == old(tx.left).None?
  {
    if name == "" || !Paths.ValidateRules(paths) {
      return Err(BadRequest);
    }
    var a := Agent(d.id, name, paths, None, false, d.now);
    var ok := tx.Write(tx.db.(agents := tx.db.agents[a.id := a]));
    r := if ok then Ok(AgentView(a)) else Err(Internal);
  }

  // PUT with new paths, or DELETE, which revokes.
  method EditAgentTx(tx: Tx, id: string, paths: Option<seq<string>>) returns (r: Result<Reply, Error>)
    requires !tx.broken
    modifies tx
    ensures Follows(tx.broken, r, tx.db,
                    if paths.None? then RevokeAgentCall(old(tx.db), id)
                    else SetAgentPathsCall(old(tx.db), id, paths.value))
    ensures (tx.broken ==> tx.left.Some?) && tx.left.None? == old(tx.left).None?
  {
    var ok := tx.Read();
    if !ok { return Err(Internal); }
    if id !in tx.db.agents { return Err(NotFound); }
    var a := tx.db.agents[id];
    if paths.None? {
      a := a.(revoked := true);
      if a.hash.Some? {
        ok := tx.Write(tx.db.(credentials := tx.db.credentials - {a.hash.value}));
        if !ok { return Err(Internal); }
      }
    } else {
      if !Paths.ValidateRules(paths.value) {
        return Err(BadRequest);
      }
      a := a.(paths := paths.value);
    }
    ok := tx.Write(tx.db.(agents := tx.db.agents[a.id := a]));
    r := if ok then Ok(AgentView(a.(hash := None))) else Err(Internal);
  }

  method CreateEnrollmentTx(tx: Tx, agentId: string, ttl: int, d: Draws) returns (r: Result<Reply, Error>)
    requires !tx.broken
    modifies tx
    ensures Follows(tx.broken, r, tx.db, CreateEnrollmentCall(old(tx.db), agentId, ttl, d))
    ensures (tx.broken ==> tx.left.Some?) && tx.left.None? == old(tx.left).None?
  {
    if ttl < 1 || ttl > 86400 {
      return Err(BadRequest);
    }
    var ok := tx.Read();
    if !ok { return Err(Internal); }
    if agentId !in tx.db.agents { return Err(NotFound); }
    var a := tx.db.agents[agentId];
    if a.revoked || a.hash.Some? {
      return Err(BadRequest);
    }
    var en := Enrollment(d.id, a.id, Digest(d.token), d.now + ttl * SECOND, false);
    ok := tx.Write(tx.db.(enrollment := tx.db.enrollment[en.hash := en]));
    r := if ok then Ok(Issued(en.id, en.agentId, d.token, en.expires)) else Err(Internal);
  }

  method SetAdministratorTx(tx: Tx, name: string, password: string) returns (r: Result<Reply, Error>)
    requires !tx.broken
    requires forall h :: h in tx.db.sessions ==> tx.db.sessions[h].hash == h
    modifies tx
    ensures Follows(tx.broken, r, tx.db, SetAdministratorCall(old(tx.db), name, password))
    ensures (tx.broken ==> tx.left.Some?) && tx.left.None? == old(tx.left).None?
  {
    if name == "" || Utf8Len(password) < MIN_PASSWORD || Utf8Len(password) > MAX_PASSWORD {
      return Err(BadRequest);
    }
    var ok := tx.Write(tx.db.(admins := tx.db.admins[name := Admin(name, Bcrypt(password))]));
    if !ok { return Err(Internal); }
    ok := DeleteSessions(tx, name);
    r := if ok then Ok(Done) else Err(Internal);
  }

  method DeleteAdministratorTx(tx: Tx, session: Session, name: string) returns (r: Result<Reply, Error>)
    requires !tx.broken
    requires forall h :: h in tx.db.sessions ==> tx.db.sessions[h].hash == h
    modifies tx
    ensures Follows(tx.broken, r, tx.db, DeleteAdministratorCall(old(tx.db), session, name))
    ensures (tx.broken ==> tx.left.Some?) && tx.left.None? == old(tx.left).None?
  {
    if name == session.admin {
      return Err(BadRequest);
    }
    var ok := tx.Write(tx.db.(admins := tx.db.admins - {name}));
    if !ok { return Err(Internal); }
    ok := DeleteSessions(tx, name);
    r := if ok then Ok(Done) else Err(Internal);
  }

  // Creating, editing and revoking write credentials.
  method ManageWriteCredentials(tx: Tx, op: AdminOp, d: Draws) returns (r: Result<Reply, Error>)
    requires !tx.broken
    requires op.CreateWriter? || op.EditWriter? || op.RevokeWriter?
    modifies tx
    ensures Follows(tx.broken, r, tx.db,
                    match op
                    case CreateWriter(name, paths, allow) => CreateWriterCall(old(tx.db), name, paths, allow, d)
                    case EditWriter(id, paths, allow) => EditWriterCall(old(tx.db), id, paths, allow)
                    case RevokeWriter(id) => RevokeWriterCall(old(tx.db), id))
    ensures (tx.broken ==> tx.left.Some?) && tx.left.None? == old(tx.left).None?
  {
    if op.CreateWriter? {
      if Blank(op.name) || !Paths.ValidateRules(op.paths) {
        return Err(BadRequest);
      }
      var c := Writer(op.allowCreate, d.id, op.name, op.paths, Digest(d.token), false, d.now);
      var ok := tx.Write(tx.db.(writers := tx.db.writers[c.id := c]));
      if !ok { return Err(Internal); }
      ok := tx.Write(tx.db.(writerTokens := tx.db.writerTokens[c.hash := c.id]));
      if !ok { return Err(Internal); }
      return Ok(WriterIssued(c.id, d.token));
    }
    var ok := tx.Read();
    if !ok { return Err(Internal); }
    if op.writerId !in tx.db.writers { return Err(NotFound); }
    var c := tx.db.writers[op.writerId];
    if op.EditWriter? {
      if op.newPaths.Some? {
        if !Paths.ValidateRules(op.newPaths.value) {
          return Err(BadRequest);
        }
        c := c.(paths := op.newPaths.value);
      }
      if op.newAllowCreate.Some? {
        c := c.(allowCreate := op.newAllowCreate.value);
      }
    } else {
      c := c.(revoked := true);
      ok := tx.Write(tx.db.(writerTokens := tx.db.writerTokens - {c.hash}));
      if !ok { return Err(Internal); }
    }
    ok := tx.Write(tx.db.(writers := tx.db.writers[c.id := c]));
    r := if ok then Ok(ViewOf(c)) else Err(Internal);
  }

  // ---- secrets ----

  method SecretTx(tx: Tx, key: Bytes, verb: Verb, path: string, metadata: bool, body: Body, d: Draws)
    returns (r: Result<Reply, Error>)
    requires !tx.broken
    modifies tx
    ensures Follows(tx.broken, r, tx.db, SecretCall(old(tx.db), key, verb, path, metadata, body, d))
    ensures (tx.broken ==> tx.left.Some?) && tx.left.None? == old(tx.left).None?
  {
    if Paths.Normalize(path).Err? { return Err(BadRequest); }
    if key == [] { return Err(Locked); }
    var ok := tx.Read();
    if !ok { return Err(Internal); }
    var record := RecordAt(tx.db, path);
    var exists' := path in tx.db.secrets && !record.deleted;
    match verb {
      case GET =>
        if !exists' { return Err(NotFound); }
        if metadata { return Ok(SecretView(record.(ciphertext := None))); }
        var value := Sealing.Decrypt(key, path, record.ciphertext);
        if value.Err? { return Err(value.error); }
        return Ok(ValueView(value.value, path, record.revision, record.created, record.updated));
      case DELETE =>
        if !exists' { return Err(NotFound); }
        record := record.(deleted := true, ciphertext := None, updated := d.now);
        ok := tx.Write(tx.db.(secrets := tx.db.secrets[path := record]));
        return if ok then Ok(Done) else Err(Internal);
      case HEAD => return Err(MethodNotAllowed);
      case OTHER => return Err(MethodNotAllowed);
      case _ =>
    }
    if verb == POST && exists' { return Err(Conflict); }
    if verb == PUT && !exists' { return Err(NotFound); }
    if !body.Value? { return Err(BadRequest); }
    var changed := true;
    if exists' {
      var current := Sealing.Decrypt(key, path, record.ciphertext);
      if current.Err? { return Err(current.error); }
      changed := current.value != body.text;
    }
    if changed {
      var encrypted := Sealing.Encrypt(key, path, body.text, d.nonce);
      assert encrypted.Ok?; // the vault was seen unlocked above
      if record.created.None? {
        record := record.(created := Some(d.now));
      }
      record := record.(path := path, revision := record.revision + 1, updated := d.now);
      record := record.(ciphertext := Some(encrypted.value), algorithm := ALGORITHM, deleted := false);
      ok := tx.Write(tx.db.(secrets := tx.db.secrets[path := record]));
      if !ok { return Err(Internal); }
    }
    r := Ok(SecretView(record.(ciphertext := None)));
  }

  method WriteSecretTx(tx: Tx, key: Bytes, header: string, verb: Verb, path: string, body: Body, d: Draws)
    returns (r: Result<Reply, Error>)
    requires !tx.broken
    modifies tx
    ensures Follows(tx.broken, r, tx.db, WriteCall(old(tx.db), key, header, verb, path, body, d))
    ensures (tx.broken ==> tx.left.Some?) && tx.left.None? == old(tx.left).None?
  {
    var c := AuthenticateWriterTx(tx, header);
    if c.Err? { return Err(c.error); }
    if Paths.Normalize(path).Err? { return Err(BadRequest); }
    if !Paths.Allowed(path, c.value.paths) { return Err(Forbidden); }
    if verb != POST { return Err(MethodNotAllowed); }
    var update := PUT;
    if c.value.allowCreate {
      var ok := tx.Read();
      if !ok { return Err(Internal); }
      if path !in tx.db.secrets || tx.db.secrets[path].deleted {
        update := POST;
      }
    }
    r := SecretTx(tx, key, update, path, false, body, d);
  }

  method ReadSecretTx(tx: Tx, key: Bytes, header: string, verb: Verb, path: string, metadata: bool, d: Draws)
    returns (r: Result<Reply, Error>)
    requires !tx.broken
    modifies tx
    ensures Follows(tx.broken, r, tx.db, AgentCall(old(tx.db), key, header, verb, path, metadata, d))
    ensures (tx.broken ==> tx.left.Some?) && tx.left.None? == old(tx.left).None?
  {
    var a := AuthenticateAgentTx(tx, header);
    if a.Err? { return Err(a.error); }
    if Paths.Normalize(path).Err? { return Err(BadRequest); }
    if !Paths.Allowed(path, a.value.paths) { return Err(Forbidden); }
    if verb != GET { return Err(Forbidden); }
    r := SecretTx(tx, key, GET, path, metadata, NoValue, d);
  }

  // Setup refuses a store that has an envelope already.
  method SetupTx(tx: Tx, name: string, password: string, master: string, dek: Bytes, d: Draws) returns (ok: bool)
    requires !tx.broken
    modifies tx
    ensures !tx.broken ==> ok == SetupCall(old(tx.db), name, password, master, dek, d).Ok?
    ensures if ok then SetupCall(old(tx.db), name, password, master, dek, d) == Ok(tx.db) else true
    ensures tx.broken ==> !ok
  {
    if Blank(name) || Utf8Len(password) < MIN_PASSWORD || Utf8Len(password) > MAX_PASSWORD {
      return false;
    }
    var en := Sealing.Wrap(master, dek, d.salt, d.nonce);
    if en.None? { return false; }
    ok := tx.Read();
    if !ok { return; }
    if tx.db.envelope.Some? { return false; }
    ok := tx.Write(tx.db.(envelope := Some(en.value)));
    if !ok { return; }
    ok := tx.Write(tx.db.(admins := tx.db.admins[name := Admin(name, Bcrypt(password))]));
  }

  // ---- the server object ----

  class Server {
    var db: Db
    const vault: Sealing.Vault
    const limiter: Limiter.Limiter
    const ttl: int
    ghost var drawn: set<string>
    ghost var dek: Bytes
    ghost var master: string

    ghost function View(): Sys
      reads this, vault, vault.key, limiter
    {
      Sys(db, vault.Key(), limiter.View(), drawn)
    }

    ghost predicate Valid()
      reads this, vault, vault.key, limiter
    {
      Inv(View(), dek, master)
    }

    // Setup on an empty store; the vault starts locked.
    constructor (name: string, password: string, master: string, dek: Bytes, d: Draws, ttl: int)
      requires dek != [] && SetupCall(EMPTY_DB, name, password, master, dek, d).Ok?
      ensures Valid() && vault.Key() == [] && this.ttl == ttl && this.dek == dek && this.master == master
      ensures db == SetupCall(EMPTY_DB, name, password, master, dek, d).value
      ensures fresh(vault) && fresh(vault.key) && fresh(limiter)
    {
      db := SetupCall(EMPTY_DB, name, password, master, dek, d).value;
      vault := new Sealing.Vault();
      limiter := new Limiter.Limiter();
      this.ttl, drawn, this.dek, this.master := ttl, {}, dek, master;
      new;
      SetupEstablishesInv(name, password, master, dek, d, {});
    }

    // A new process over the same store: locked, with a fresh limiter.
    constructor Restarted(previous: Server)
      requires previous.Valid()
      ensures Valid() && View() == Next(previous.View(), previous.ttl, Restart)
      ensures ttl == previous.ttl && dek == previous.dek && master == previous.master
      ensures fresh(vault) && fresh(vault.key) && fresh(limiter)
    {
      db := previous.db;
      vault := new Sealing.Vault();
      limiter := new Limiter.Limiter();
      ttl, drawn, dek, master := previous.ttl, previous.drawn, previous.dek, previous.master;
      new;
      NextKeepsInv(previous.View(), previous.ttl, Restart, dek, master);
    }

    method Records(tx: Tx, session: Session, cookie: string, op: AdminOp, d: Draws) returns (r: Result<Reply, Error>)
      requires !tx.broken && IdentityOk(tx.db, drawn)
      requires !op.Unlock? && !op.Lock? && !op.ChangeMaster?
      modifies tx
      ensures Follows(tx.broken, r, tx.db, RecordsCall(old(View()).(db := old(tx.db)), session, cookie, op, d))
      ensures (tx.broken ==> tx.left.Some?) && tx.left.None? == old(tx.left).None?
    {
      match op {
        case Logout =>
          var ok := tx.Write(tx.db.(sessions := tx.db.sessions - {Digest(cookie)}));
          r := if ok then Ok(Done) else Err(Internal);
        case CreateAgent(name, paths) => r := CreateAgentTx(tx, name, paths, d);
        case SetAgentPaths(id, paths) => r := EditAgentTx(tx, id, Some(paths));
        case RevokeAgent(id) => r := EditAgentTx(tx, id, None);
        case PurgeAgent(id) => r := DeleteAgent(tx, id);
        case CreateEnrollment(id, seconds) => r := CreateEnrollmentTx(tx, id, seconds, d);
        case DeleteEnrollment(id) => r := DeleteEnrollmentTx(tx, id);
        case SetAdministrator(name, password) => r := SetAdministratorTx(tx, name, password);
        case DeleteAdministrator(name) => r := DeleteAdministratorTx(tx, session, name);
        case SecretAt(verb, path, body) => r := SecretTx(tx, vault.key[..], verb, path, false, body, d);
        case CreateWriter(_, _, _) => r := ManageWriteCredentials(tx, op, d);
        case EditWriter(_, _, _) => r := ManageWriteCredentials(tx, op, d);
        case RevokeWriter(_) => r := ManageWriteCredentials(tx, op, d);
      }
    }

    // What a request has done before the commit: everything, or an error came
    // from the store and the memory is as before or as after.
    ghost predicate Routed(broken: bool, r: Result<Reply, Error>, txDb: Db, e: Effect,
                           key: Bytes, limiter: Limiter.State, oldKey: Bytes, oldLimiter: Limiter.State)
    {
      if broken then
        r.Err? && (key == oldKey || key == e.key) && (limiter == oldLimiter || limiter == e.limiter)
      else
        r == e.reply && (r.Ok? ==> txDb == e.db) && key == e.key && limiter == e.limiter
    }

    method Administrate(tx: Tx, session: Session, cookie: string, op: AdminOp, d: Draws)
      returns (r: Result<Reply, Error>)
      requires !tx.broken && tx.db == db && IdentityOk(tx.db, drawn)
      modifies tx, vault, vault.key, limiter
      ensures Routed(tx.broken, r, tx.db, AdminCall(old(View()), session, cookie, op, d),
                     vault.Key(), limiter.View(), old(vault.Key()), old(limiter.View()))
      ensures (tx.broken ==> tx.left.Some?) && tx.left.None? == old(tx.left).None?
      ensures vault.key == old(vault.key) || fresh(vault.key)
    {
      if op.Unlock? {
        var pass := limiter.Limit(d.call);
        if !pass { return Err(TooMany); }
        var ok := tx.Read();
        if !ok { return Err(Internal); }
        if tx.db.envelope.None? { return Err(NotFound); }
        ok := vault.Unlock(op.master, tx.db.envelope.value);
        return if ok then Ok(KeyState(false)) else Err(Unauthenticated);
      } else if op.Lock? {
        vault.Lock();
        return Ok(KeyState(true));
      } else if op.ChangeMaster? {
        var pass := limiter.Limit(d.call);
        if !pass { return Err(TooMany); }
        var ok := tx.Read();
        if !ok { return Err(Internal); }
        if tx.db.envelope.None? { return Err(NotFound); }
        var en := Sealing.Rewrap(op.current, op.next, tx.db.envelope.value, d.salt, d.nonce);
        if en.None? { return Err(BadRequest); }
        ok := tx.Write(tx.db.(envelope := Some(en.value)));
        return if ok then Ok(Done) else Err(Internal);
      } else {
        r := Records(tx, session, cookie, op, d);
      }
    }

    method Route(tx: Tx, req: Request, d: Draws) returns (r: Result<Reply, Error>)
      requires !tx.broken && tx.db == db && IdentityOk(tx.db, drawn)
      modifies tx, vault, vault.key, limiter
      ensures Routed(tx.broken, r, tx.db, Handle(old(View()), req, ttl, d),
                     vault.Key(), limiter.View(), old(vault.Key()), old(limiter.View()))
      ensures (tx.broken ==> tx.left.Some?) && tx.left.None? == old(tx.left).None?
      ensures vault.key == old(vault.key) || fresh(vault.key)
    {
      match req {
        case Login(name, password) =>
          var pass := limiter.Limit(d.call);
          if !pass { return Err(TooMany); }
          r := LoginTx(tx, name, password, ttl, d);
        case Enroll(token) =>
          var pass := limiter.Limit(d.call);
          if !pass { return Err(TooMany); }
          r := EnrollTx(tx, token, d);
        case Administer(cookie, csrf, op) =>
          var session := AuthenticateAdminTx(tx, cookie, csrf, IsRead(op), d.now);
          if session.Err? { return Err(session.error); }
          r := Administrate(tx, session.value, cookie.value, op, d);
        case WriteSecret(header, verb, path, body) =>
          r := WriteSecretTx(tx, vault.key[..], header, verb, path, body, d);
        case ReadSecret(header, verb, path, metadata) =>
          r := ReadSecretTx(tx, vault.key[..], header, verb, path, metadata, d);
      }
    }

    // Whether it commits or aborts, that is one step of the specification.
    lemma Settled(before: Sys, req: Request, d: Draws, broken: bool, commits: bool, r: Result<Reply, Error>,
                  txDb: Db, key: Bytes, limiter: Limiter.State, fate: Fate, after: Db)
      requires Routed(broken, r, txDb, Handle(before, req, ttl, d), key, limiter, before.key, before.limiter)
      requires fate == if broken || (r.Ok? && !commits)
                       then Aborted(key != before.key, limiter != before.limiter) else Completed
      requires after == if fate == Completed && r.Ok? then txDb else before.db
      ensures Next(before, ttl, Request(req, d, fate)) ==
              Sys(after, key, limiter, before.drawn + {d.id, d.token, d.csrf})
      ensures fate == Completed ==> r == Handle(before, req, ttl, d).reply
    {
      HandleFrame(before, req, ttl, d);
    }

    // The transaction, and the memory it leaves behind.
    method Execute(req: Request, d: Draws, left: Option<nat>, commits: bool)
      returns (r: Result<Reply, Error>, fate: Fate)
      requires IdentityOk(db, drawn)
      modifies this`db, vault, vault.key, limiter
      ensures Sys(db, vault.Key(), limiter.View(), drawn + {d.id, d.token, d.csrf}) ==
              Next(old(View()), ttl, Request(req, d, fate))
      ensures left.None? && commits ==> fate == Completed
      ensures if fate == Completed then r == Handle(old(View()), req, ttl, d).reply else r.Err?
      ensures vault.key == old(vault.key) || fresh(vault.key)
    {
      ghost var before := View();
      var key, window := vault.Key(), limiter.View();
      var tx := new Tx(db, left);
      r := Route(tx, req, d);
      ghost var result := r;
      if tx.broken || (r.Ok? && !commits) {
        r := Err(Internal);
        fate := Aborted(vault.Key() != key, limiter.View() != window);
      } else {
        fate := Completed;
        if r.Ok? {
          db := tx.db;
        }
      }
      Settled(before, req, d, tx.broken, commits, result, tx.db, vault.Key(), limiter.View(), fate, db);
    }

    // One request up to the end of its transaction.
    method Transact(req: Request, d: Draws, left: Option<nat>, commits: bool)
      returns (r: Result<Reply, Error>, fate: Fate)
      requires Valid() && FreshDraws(View(), d)
      modifies this, vault, vault.key, limiter
      ensures Valid() && dek == old(dek)
      ensures View() == Next(old(View()), ttl, Request(req, d, fate))
      ensures master == MasterAfter(old(View()), ttl, Request(req, d, fate), old(master))
      ensures left.None? && commits ==> fate == Completed
      ensures if fate == Completed then r == Handle(old(View()), req, ttl, d).reply else r.Err?
      ensures vault.key == old(vault.key) || fresh(vault.key)
    {
      ghost var before := View();
      r, fate := Execute(req, d, left, commits);
      drawn := drawn + {d.id, d.token, d.csrf};
      master := MasterAfter(before, ttl, Request(req, d, fate), master);
      NextKeepsInv(before, ttl, Request(req, d, fate), dek, old(master));
    }

    // One request from end to end. The reply is the one the specification
    // gives, or an error; the state is one specified step further either way.
    // An error does not mean that nothing was committed: the audit record is
    // written in a second transaction.
    method Serve(req: Request, d: Draws, left: Option<nat>, commits: bool, audits: bool)
      returns (r: Result<Reply, Error>, fate: Fate)
      requires Valid() && FreshDraws(View(), d)
      modifies this, vault, vault.key, limiter
      ensures Valid() && dek == old(dek)
      ensures View() == Next(old(View()), ttl, Request(req, d, fate))
      ensures master == MasterAfter(old(View()), ttl, Request(req, d, fate), old(master))
      ensures left.None? && commits ==> fate == Completed
      ensures fate == Completed && audits ==> r == Handle(old(View()), req, ttl, d).reply
      ensures fate != Completed || !audits ==> r.Err?
      ensures vault.key == old(vault.key) || fresh(vault.key)
    {
      r, fate := Transact(req, d, left, commits);
      if !audits {
        r := Err(Internal);
      }
    }
  }
}
