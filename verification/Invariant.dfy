// What every reachable server state satisfies.
module Invariant {
  import opened Base
  import opened Records
  import opened Service
  import Sealing
  import Limiter
  import Paths

  type Agents = map<string, Agent>
  type Writers = map<string, Writer>
  type Enrollments = map<Digest, Enrollment>
  type Index = map<Digest, string>

  // Agents sit under their own ids, and every stored digest was drawn here.
  ghost predicate AgentsOk(agents: Agents, drawn: set<string>) {
    forall id :: id in agents ==>
      && agents[id].id == id
      && id in drawn
      && (agents[id].hash.Some? ==> agents[id].hash.value.token in drawn)
  }

  // The credential index and the agents' own hashes agree, both ways.
  ghost predicate CredentialsOk(agents: Agents, credentials: Index) {
    && (forall h :: h in credentials ==>
          && credentials[h] in agents
          && !agents[credentials[h]].revoked
          && agents[credentials[h]].hash == Some(h))
    && (forall id :: id in agents && agents[id].hash.Some? && !agents[id].revoked ==>
          && agents[id].hash.value in credentials
          && credentials[agents[id].hash.value] == id)
  }

  // Enrollment tokens sit under their own hash, name an agent that exists, and
  // are used only if that agent holds a credential.
  ghost predicate EnrollmentOk(enrollment: Enrollments, agents: Agents, drawn: set<string>) {
    forall h :: h in enrollment ==>
      && enrollment[h].hash == h
      && h.token in drawn
      && enrollment[h].id in drawn
      && enrollment[h].agentId in agents
      && (enrollment[h].used ==> agents[enrollment[h].agentId].hash.Some?)
  }

  ghost predicate EnrollmentIdsOk(enrollment: Enrollments) {
    forall h1, h2 :: h1 in enrollment && h2 in enrollment && enrollment[h1].id == enrollment[h2].id ==> h1 == h2
  }

  ghost predicate WritersOk(writers: Writers, drawn: set<string>) {
    forall id :: id in writers ==>
      writers[id].id == id && id in drawn && writers[id].hash.token in drawn
  }

  ghost predicate WriterTokensOk(writers: Writers, tokens: Index) {
    && (forall id :: id in writers && !writers[id].revoked ==>
          writers[id].hash in tokens && tokens[writers[id].hash] == id)
    && (forall h :: h in tokens ==>
          && tokens[h] in writers
          && !writers[tokens[h]].revoked
          && writers[tokens[h]].hash == h)
  }

  // Two identities never share a token, and an enrollment token is nobody's
  // runtime credential, even counting revoked identities.
  ghost predicate AgentHashesOk(agents: Agents) {
    forall a, b :: a in agents && b in agents && agents[a].hash.Some? && agents[a].hash == agents[b].hash ==> a == b
  }

  ghost predicate WriterHashesOk(writers: Writers) {
    forall v, w :: v in writers && w in writers && writers[v].hash == writers[w].hash ==> v == w
  }

  ghost predicate AgentsApart(agents: Agents, writers: Writers) {
    forall a, w :: a in agents && w in writers ==> agents[a].hash != Some(writers[w].hash)
  }

  ghost predicate TokensApart(agents: Agents, writers: Writers, enrollment: Enrollments) {
    && (forall a :: a in agents && agents[a].hash.Some? ==> agents[a].hash.value !in enrollment)
    && (forall w :: w in writers ==> writers[w].hash !in enrollment)
  }

  ghost predicate AdminsOk(admins: map<string, Admin>) {
    && admins.Keys != {}
    && (forall n :: n in admins ==> admins[n].name == n)
  }

  ghost predicate SessionsOk(sessions: map<Digest, Session>, admins: map<string, Admin>, drawn: set<string>) {
    forall h :: h in sessions ==>
      && sessions[h].hash == h
      && h.token in drawn
      && sessions[h].admin in admins
  }

  ghost predicate IdentityOk(db: Db, drawn: set<string>) {
    && AgentsOk(db.agents, drawn) && AgentHashesOk(db.agents)
    && CredentialsOk(db.agents, db.credentials)
    && EnrollmentOk(db.enrollment, db.agents, drawn) && EnrollmentIdsOk(db.enrollment)
    && WritersOk(db.writers, drawn) && WriterHashesOk(db.writers)
    && WriterTokensOk(db.writers, db.writerTokens)
    && AgentsApart(db.agents, db.writers) && TokensApart(db.agents, db.writers, db.enrollment)
    && AdminsOk(db.admins) && SessionsOk(db.sessions, db.admins, drawn)
  }

  // Every live record decrypts under the data key with its own path, and no
  // tombstone keeps a ciphertext.
  ghost predicate SecretsOk(db: Db, dek: Bytes) {
    forall p :: p in db.secrets ==>
      var r := db.secrets[p];
      && Paths.Normalize(p).Ok?
      && r.path == p
      && r.revision >= 1
      && (r.deleted <==> r.ciphertext.None?)
      && (!r.deleted ==> r.ciphertext.value.key == dek && r.ciphertext.value.aad == p)
  }

  // The vault is locked or holds the data key, which the stored envelope hides
  // under exactly the current master passphrase.
  ghost predicate KeyOk(s: Sys, dek: Bytes, master: string) {
    && dek != []
    && (s.key == [] || s.key == dek)
    && s.db.envelope.Some?
    && Sealing.Hides(s.db.envelope.value, dek, master)
  }

  ghost predicate Inv(s: Sys, dek: Bytes, master: string) {
    IdentityOk(s.db, s.drawn) && SecretsOk(s.db, dek) && KeyOk(s, dek, master)
  }

  // ---- what each operation does to the identities ----

  lemma DrawnGrows(db: Db, drawn: set<string>, more: set<string>)
    requires IdentityOk(db, drawn)
    ensures IdentityOk(db, drawn + more)
  {
  }

  lemma Widen(db: Db, drawn: set<string>, all: set<string>)
    requires IdentityOk(db, drawn) && drawn <= all
    ensures IdentityOk(db, all)
  {
    DrawnGrows(db, drawn, all);
    assert drawn + all == all;
  }

  // Giving an agent its one credential: every table that mentions it follows.
  lemma GrantCredential(db: Db, drawn: set<string>, id: string, runtime: Digest, agents: Agents)
    requires IdentityOk(db, drawn) && runtime.token in drawn
    requires id in db.agents && db.agents[id].hash.None? && !db.agents[id].revoked
    requires runtime !in db.enrollment
    requires forall a :: a in db.agents ==> db.agents[a].hash != Some(runtime)
    requires forall w :: w in db.writers ==> db.writers[w].hash != runtime
    requires agents == db.agents[id := db.agents[id].(hash := Some(runtime))]
    ensures AgentsOk(agents, drawn) && AgentHashesOk(agents)
    ensures CredentialsOk(agents, db.credentials[runtime := id])
    ensures EnrollmentOk(db.enrollment, agents, drawn)
    ensures AgentsApart(agents, db.writers) && TokensApart(agents, db.writers, db.enrollment)
  {
    assert runtime !in db.credentials;
    GrantIndex(db.agents, db.credentials, id, runtime);
  }

  lemma GrantIndex(agents: Agents, credentials: Index, id: string, runtime: Digest)
    requires CredentialsOk(agents, credentials) && runtime !in credentials
    requires id in agents && agents[id].hash.None? && !agents[id].revoked
    requires forall a :: a in agents ==> agents[a].hash != Some(runtime)
    ensures CredentialsOk(agents[id := agents[id].(hash := Some(runtime))], credentials[runtime := id])
  {
  }

  lemma MarkUsed(enrollment: Enrollments, agents: Agents, writers: Writers, drawn: set<string>, h: Digest)
    requires EnrollmentOk(enrollment, agents, drawn) && EnrollmentIdsOk(enrollment)
    requires TokensApart(agents, writers, enrollment)
    requires h in enrollment && agents[enrollment[h].agentId].hash.Some?
    ensures var enrollment' := enrollment[h := enrollment[h].(used := true)];
            && EnrollmentOk(enrollment', agents, drawn) && EnrollmentIdsOk(enrollment')
            && TokensApart(agents, writers, enrollment')
  {
  }

  lemma FreshDigest(db: Db, drawn: set<string>, token: string)
    requires IdentityOk(db, drawn) && token !in drawn
    ensures Digest(token) !in db.enrollment
    ensures forall a :: a in db.agents ==> db.agents[a].hash != Some(Digest(token))
    ensures forall w :: w in db.writers ==> db.writers[w].hash != Digest(token)
  {
  }

  lemma EnrollKeepsIdentity(db: Db, drawn: set<string>, token: string, d: Draws)
    requires IdentityOk(db, drawn) && d.token !in drawn
    ensures IdentityOk(EnrollCall(db, token, d).db, drawn + {d.token})
  {
    FreshDigest(db, drawn, d.token);
    Widen(db, drawn, drawn + {d.token});
    if EnrollCall(db, token, d).reply.Ok? {
      var h := Digest(token);
      var id := db.enrollment[h].agentId;
      var runtime := Digest(d.token);
      var agents := db.agents[id := db.agents[id].(hash := Some(runtime))];
      GrantCredential(db, drawn + {d.token}, id, runtime, agents);
      MarkUsed(db.enrollment, agents, db.writers, drawn + {d.token}, h);
    }
  }

  lemma WithoutAgentKeepsIdentity(db: Db, drawn: set<string>, id: string)
    requires IdentityOk(db, drawn) && id in db.agents
    ensures IdentityOk(WithoutAgent(db, id), drawn)
  {
    var db' := WithoutAgent(db, id);
    WithoutAgentIndex(db.agents, db.credentials, id);
    WithoutAgentRows(db.agents, db.writers, db.enrollment, drawn, id);
  }

  lemma WithoutAgentIndex(agents: Agents, credentials: Index, id: string)
    requires CredentialsOk(agents, credentials) && AgentHashesOk(agents) && id in agents
    ensures var hash := agents[id].hash;
            CredentialsOk(agents - {id}, if hash.Some? then credentials - {hash.value} else credentials)
  {
  }

  lemma WithoutAgentRows(agents: Agents, writers: Writers, enrollment: Enrollments, drawn: set<string>, id: string)
    requires EnrollmentOk(enrollment, agents, drawn) && EnrollmentIdsOk(enrollment)
    requires TokensApart(agents, writers, enrollment)
    ensures var rows := map h | h in enrollment && enrollment[h].agentId != id :: enrollment[h];
            && EnrollmentOk(rows, agents - {id}, drawn) && EnrollmentIdsOk(rows)
            && TokensApart(agents - {id}, writers, rows)
  {
  }

  lemma RevokeAgentKeepsIdentity(db: Db, drawn: set<string>, id: string)
    requires IdentityOk(db, drawn)
    ensures IdentityOk(RevokeAgentCall(db, id).db, drawn)
  {
    if id in db.agents {
      var db' := RevokeAgentCall(db, id).db;
      assert db'.agents == db.agents[id := db.agents[id].(revoked := true)];
      assert CredentialsOk(db'.agents, db'.credentials);
    }
  }

  lemma AddAgent(db: Db, drawn: set<string>, a: Agent)
    requires IdentityOk(db, drawn)
    requires a.id in drawn && a.id !in db.agents && a.hash.None?
    ensures IdentityOk(db.(agents := db.agents[a.id := a]), drawn)
  {
  }

  lemma CreateAgentKeepsIdentity(db: Db, drawn: set<string>, name: string, paths: seq<string>, d: Draws)
    requires IdentityOk(db, drawn) && d.id !in drawn
    ensures IdentityOk(CreateAgentCall(db, name, paths, d).db, drawn + {d.id})
  {
    assert d.id !in db.agents;
    Widen(db, drawn, drawn + {d.id});
    AddAgent(db, drawn + {d.id}, Agent(d.id, name, paths, None, false, d.now));
  }

  lemma RepathAgent(db: Db, drawn: set<string>, id: string, paths: seq<string>)
    requires IdentityOk(db, drawn) && id in db.agents
    ensures IdentityOk(db.(agents := db.agents[id := db.agents[id].(paths := paths)]), drawn)
  {
    var agents := db.agents[id := db.agents[id].(paths := paths)];
    assert CredentialsOk(agents, db.credentials);
  }

  lemma SetAgentPathsKeepsIdentity(db: Db, drawn: set<string>, id: string, paths: seq<string>)
    requires IdentityOk(db, drawn)
    ensures IdentityOk(SetAgentPathsCall(db, id, paths).db, drawn)
  {
    if id in db.agents {
      RepathAgent(db, drawn, id, paths);
    }
  }

  lemma CreateEnrollmentKeepsIdentity(db: Db, drawn: set<string>, id: string, ttl: int, d: Draws)
    requires IdentityOk(db, drawn) && d.id !in drawn && d.token !in drawn
    ensures IdentityOk(CreateEnrollmentCall(db, id, ttl, d).db, drawn + {d.id, d.token})
  {
    DrawnGrows(db, drawn, {d.id, d.token});
    assert Digest(d.token) !in db.enrollment;
  }

  lemma DeleteEnrollmentKeepsIdentity(db: Db, drawn: set<string>, id: string)
    requires IdentityOk(db, drawn)
    ensures IdentityOk(DeleteEnrollmentCall(db, id).db, drawn)
  {
  }

  lemma AddWriter(db: Db, drawn: set<string>, c: Writer)
    requires IdentityOk(db, drawn)
    requires c.id in drawn && c.hash.token in drawn && c.id !in db.writers && !c.revoked
    requires c.hash !in db.enrollment
    requires forall a :: a in db.agents ==> db.agents[a].hash != Some(c.hash)
    requires forall w :: w in db.writers ==> db.writers[w].hash != c.hash
    ensures IdentityOk(db.(writers := db.writers[c.id := c], writerTokens := db.writerTokens[c.hash := c.id]), drawn)
  {
    assert c.hash !in db.writerTokens;
    assert WriterTokensOk(db.writers[c.id := c], db.writerTokens[c.hash := c.id]);
  }

  lemma CreateWriterKeepsIdentity(db: Db, drawn: set<string>, name: string, paths: seq<string>, allow: bool, d: Draws)
    requires IdentityOk(db, drawn) && d.id !in drawn && d.token !in drawn
    ensures IdentityOk(CreateWriterCall(db, name, paths, allow, d).db, drawn + {d.id, d.token})
  {
    FreshDigest(db, drawn, d.token);
    assert d.id !in db.writers;
    Widen(db, drawn, drawn + {d.id, d.token});
    AddWriter(db, drawn + {d.id, d.token}, Writer(allow, d.id, name, paths, Digest(d.token), false, d.now));
  }

  lemma ReviseWriter(db: Db, drawn: set<string>, id: string, paths: seq<string>, allow: bool)
    requires IdentityOk(db, drawn) && id in db.writers
    ensures IdentityOk(db.(writers := db.writers[id := db.writers[id].(paths := paths, allowCreate := allow)]), drawn)
  {
    var writers := db.writers[id := db.writers[id].(paths := paths, allowCreate := allow)];
    assert WriterTokensOk(writers, db.writerTokens);
  }

  lemma EditWriterKeepsIdentity(db: Db, drawn: set<string>, id: string, paths: Option<seq<string>>, allow: Option<bool>)
    requires IdentityOk(db, drawn)
    ensures IdentityOk(EditWriterCall(db, id, paths, allow).db, drawn)
  {
    if id in db.writers {
      ReviseWriter(db, drawn, id, if paths.Some? then paths.value else db.writers[id].paths,
                 if allow.Some? then allow.value else db.writers[id].allowCreate);
    }
  }

  lemma DropWriterToken(writers: Writers, tokens: Index, id: string)
    requires WriterTokensOk(writers, tokens) && WriterHashesOk(writers) && id in writers
    ensures WriterTokensOk(writers[id := writers[id].(revoked := true)], tokens - {writers[id].hash})
  {
  }

  lemma MarkWriter(db: Db, drawn: set<string>, id: string)
    requires IdentityOk(db, drawn) && id in db.writers
    ensures var writers := db.writers[id := db.writers[id].(revoked := true)];
            && WritersOk(writers, drawn) && WriterHashesOk(writers)
            && AgentsApart(db.agents, writers) && TokensApart(db.agents, writers, db.enrollment)
  {
  }

  lemma RevokeWriterKeepsIdentity(db: Db, drawn: set<string>, id: string)
    requires IdentityOk(db, drawn)
    ensures IdentityOk(RevokeWriterCall(db, id).db, drawn)
  {
    if id in db.writers {
      DropWriterToken(db.writers, db.writerTokens, id);
      MarkWriter(db, drawn, id);
    }
  }

  lemma SetAdmin(db: Db, drawn: set<string>, admin: Admin)
    requires IdentityOk(db, drawn)
    ensures IdentityOk(WithoutSessionsOf(db.(admins := db.admins[admin.name := admin]), admin.name), drawn)
  {
    assert admin.name in db.admins[admin.name := admin].Keys;
  }

  lemma SetAdministratorKeepsIdentity(db: Db, drawn: set<string>, name: string, password: string)
    requires IdentityOk(db, drawn)
    ensures IdentityOk(SetAdministratorCall(db, name, password).db, drawn)
  {
    SetAdmin(db, drawn, Admin(name, Bcrypt(password)));
  }

  // Whoever deletes an administrator is another one, so one always remains.
  lemma DeleteAdministratorKeepsIdentity(db: Db, drawn: set<string>, session: Session, name: string)
    requires IdentityOk(db, drawn) && session.admin in db.admins
    ensures IdentityOk(DeleteAdministratorCall(db, session, name).db, drawn)
  {
    if name != session.admin {
      assert session.admin in (db.admins - {name}).Keys;
    }
  }

  lemma LoginKeepsIdentity(db: Db, drawn: set<string>, name: string, password: string, ttl: int, d: Draws)
    requires IdentityOk(db, drawn)
    ensures IdentityOk(LoginCall(db, name, password, ttl, d).db, drawn + {d.token})
  {
    DrawnGrows(db, drawn, {d.token});
    var o := LoginCall(db, name, password, ttl, d);
    if o.reply.Ok? {
      var s := Session(Digest(d.token), db.admins[name].name, d.csrf, d.now + ttl);
      AddSession(db, drawn + {d.token}, s);
      assert o.db == db.(sessions := db.sessions[s.hash := s]);
    } else {
      assert o.db == db;
    }
  }

  lemma AddSession(db: Db, drawn: set<string>, s: Session)
    requires IdentityOk(db, drawn) && s.hash.token in drawn && s.admin in db.admins
    ensures IdentityOk(db.(sessions := db.sessions[s.hash := s]), drawn)
  {
  }

  // The secrets table is the only one the secret operations touch.
  lemma SecretFrame(db: Db, key: Bytes, verb: Verb, path: string, metadata: bool, body: Body, d: Draws)
    ensures var db' := SecretCall(db, key, verb, path, metadata, body, d).db;
            db' == db.(secrets := db'.secrets)
    ensures var o := SecretCall(db, key, verb, path, metadata, body, d);
            o.reply.Err? ==> o.db == db
  {
  }

  lemma SameIdentities(db: Db, db': Db, drawn: set<string>)
    requires IdentityOk(db, drawn) && db' == db.(secrets := db'.secrets, envelope := db'.envelope)
    ensures IdentityOk(db', drawn)
  {
  }

  // The operations on records, by the tables they are about.
  predicate OnAgents(op: AdminOp) {
    op.CreateAgent? || op.SetAgentPaths? || op.RevokeAgent? || op.PurgeAgent?
  }

  predicate OnWriters(op: AdminOp) {
    op.CreateWriter? || op.EditWriter? || op.RevokeWriter?
  }

  predicate OnKeys(op: AdminOp) {
    op.Unlock? || op.Lock? || op.ChangeMaster?
  }

  lemma AgentRecordsKeepIdentity(s: Sys, session: Session, cookie: string, op: AdminOp, d: Draws, drawn: set<string>)
    requires IdentityOk(s.db, s.drawn) && FreshDraws(s, d) && OnAgents(op)
    requires drawn == s.drawn + {d.id, d.token, d.csrf}
    ensures IdentityOk(RecordsCall(s, session, cookie, op, d).db, drawn)
  {
    var db := s.db;
    match op {
      case CreateAgent(name, paths) =>
        CreateAgentKeepsIdentity(db, s.drawn, name, paths, d);
        Widen(CreateAgentCall(db, name, paths, d).db, s.drawn + {d.id}, drawn);
      case SetAgentPaths(id, paths) =>
        SetAgentPathsKeepsIdentity(db, s.drawn, id, paths);
        Widen(SetAgentPathsCall(db, id, paths).db, s.drawn, drawn);
      case RevokeAgent(id) =>
        RevokeAgentKeepsIdentity(db, s.drawn, id);
        Widen(RevokeAgentCall(db, id).db, s.drawn, drawn);
      case PurgeAgent(id) =>
        if id in db.agents { WithoutAgentKeepsIdentity(db, s.drawn, id); }
        Widen(PurgeAgentCall(db, id).db, s.drawn, drawn);
    }
  }

  lemma WriterRecordsKeepIdentity(s: Sys, session: Session, cookie: string, op: AdminOp, d: Draws, drawn: set<string>)
    requires IdentityOk(s.db, s.drawn) && FreshDraws(s, d) && OnWriters(op)
    requires drawn == s.drawn + {d.id, d.token, d.csrf}
    ensures IdentityOk(RecordsCall(s, session, cookie, op, d).db, drawn)
  {
    var db := s.db;
    match op {
      case CreateWriter(name, paths, allow) =>
        CreateWriterKeepsIdentity(db, s.drawn, name, paths, allow, d);
        Widen(CreateWriterCall(db, name, paths, allow, d).db, s.drawn + {d.id, d.token}, drawn);
      case EditWriter(id, paths, allow) =>
        EditWriterKeepsIdentity(db, s.drawn, id, paths, allow);
        Widen(EditWriterCall(db, id, paths, allow).db, s.drawn, drawn);
      case RevokeWriter(id) =>
        RevokeWriterKeepsIdentity(db, s.drawn, id);
        Widen(RevokeWriterCall(db, id).db, s.drawn, drawn);
    }
  }

  lemma OtherRecordsKeepIdentity(s: Sys, session: Session, cookie: string, op: AdminOp, d: Draws, drawn: set<string>)
    requires IdentityOk(s.db, s.drawn) && FreshDraws(s, d) && session.admin in s.db.admins
    requires !OnAgents(op) && !OnWriters(op) && !OnKeys(op) && !op.SecretAt?
    requires drawn == s.drawn + {d.id, d.token, d.csrf}
    ensures IdentityOk(RecordsCall(s, session, cookie, op, d).db, drawn)
  {
    var db := s.db;
    match op {
      case Logout =>
        DrawnGrows(db, s.drawn, drawn);
        Widen(db, s.drawn, drawn);
      case CreateEnrollment(id, ttl) =>
        CreateEnrollmentKeepsIdentity(db, s.drawn, id, ttl, d);
        Widen(CreateEnrollmentCall(db, id, ttl, d).db, s.drawn + {d.id, d.token}, drawn);
      case DeleteEnrollment(id) =>
        DeleteEnrollmentKeepsIdentity(db, s.drawn, id);
        Widen(DeleteEnrollmentCall(db, id).db, s.drawn, drawn);
      case SetAdministrator(name, password) =>
        SetAdministratorKeepsIdentity(db, s.drawn, name, password);
        Widen(SetAdministratorCall(db, name, password).db, s.drawn, drawn);
      case DeleteAdministrator(name) =>
        DeleteAdministratorKeepsIdentity(db, s.drawn, session, name);
        Widen(DeleteAdministratorCall(db, session, name).db, s.drawn, drawn);
    }
  }

  // Key operations leave all records alone but the envelope.
  lemma KeyOperationsFrame(s: Sys, session: Session, cookie: string, op: AdminOp, d: Draws)
    requires OnKeys(op)
    ensures var db' := AdminCall(s, session, cookie, op, d).db;
            db' == s.db.(envelope := db'.envelope)
  {
    match op {
      case Unlock(master) => LimitedFrame(s, d, UnlockCall(s, master));
      case Lock =>
      case ChangeMaster(current, next) => LimitedFrame(s, d, Plainly(s, ChangeMasterCall(s.db, current, next, d)));
    }
  }

  lemma LimitedFrame(s: Sys, d: Draws, e: Effect)
    requires e.db == s.db.(envelope := e.db.envelope)
    ensures Limited(s, d, e).db == s.db.(envelope := Limited(s, d, e).db.envelope)
  {
  }

  lemma SecretAtFrame(s: Sys, session: Session, cookie: string, op: AdminOp, d: Draws)
    requires op.SecretAt?
    ensures var db' := AdminCall(s, session, cookie, op, d).db;
            db' == s.db.(secrets := db'.secrets)
  {
    SecretFrame(s.db, s.key, op.verb, op.path, false, op.body, d);
  }

  lemma AdminCallKeepsIdentity(s: Sys, session: Session, cookie: string, op: AdminOp, d: Draws, drawn: set<string>)
    requires IdentityOk(s.db, s.drawn) && FreshDraws(s, d) && session.admin in s.db.admins
    requires drawn == s.drawn + {d.id, d.token, d.csrf}
    ensures IdentityOk(AdminCall(s, session, cookie, op, d).db, drawn)
  {
    if OnKeys(op) || op.SecretAt? {
      if op.SecretAt? {
        SecretAtFrame(s, session, cookie, op, d);
      } else {
        KeyOperationsFrame(s, session, cookie, op, d);
      }
      Widen(s.db, s.drawn, drawn);
      SameIdentities(s.db, AdminCall(s, session, cookie, op, d).db, drawn);
    } else if OnAgents(op) {
      AgentRecordsKeepIdentity(s, session, cookie, op, d, drawn);
    } else if OnWriters(op) {
      WriterRecordsKeepIdentity(s, session, cookie, op, d, drawn);
    } else {
      OtherRecordsKeepIdentity(s, session, cookie, op, d, drawn);
    }
  }

  lemma WriteFrame(s: Sys, header: string, verb: Verb, path: string, body: Body, d: Draws)
    ensures var db' := WriteCall(s.db, s.key, header, verb, path, body, d).db;
            db' == s.db.(secrets := db'.secrets)
  {
    var auth := AuthenticateWriter(s.db, header);
    if auth.Ok? {
      SecretFrame(s.db, s.key, if auth.value.allowCreate && !Live(s.db, path) then POST else PUT, path, false, body, d);
    }
  }

  lemma HandleKeepsIdentity(s: Sys, req: Request, ttl: int, d: Draws)
    requires IdentityOk(s.db, s.drawn) && FreshDraws(s, d)
    ensures IdentityOk(Handle(s, req, ttl, d).db, s.drawn + {d.id, d.token, d.csrf})
  {
    var drawn := s.drawn + {d.id, d.token, d.csrf};
    var db' := Handle(s, req, ttl, d).db;
    Widen(s.db, s.drawn, drawn);
    match req {
      case Login(name, password) =>
        LoginKeepsIdentity(s.db, s.drawn, name, password, ttl, d);
        Widen(LoginCall(s.db, name, password, ttl, d).db, s.drawn + {d.token}, drawn);
      case Enroll(token) =>
        EnrollKeepsIdentity(s.db, s.drawn, token, d);
        Widen(EnrollCall(s.db, token, d).db, s.drawn + {d.token}, drawn);
      case Administer(cookie, csrf, op) =>
        var auth := AuthenticateAdmin(s.db, cookie, csrf, IsRead(op), d.now);
        if auth.Ok? {
          AdminCallKeepsIdentity(s, auth.value, cookie.value, op, d, drawn);
        }
      case WriteSecret(header, verb, path, body) =>
        WriteFrame(s, header, verb, path, body, d);
        SameIdentities(s.db, db', drawn);
      case ReadSecret(header, verb, path, metadata) =>
        ReadsChangeNothing(s, header, verb, path, metadata, d);
    }
  }

  // An agent's request leaves the whole server as it was.
  lemma ReadsChangeNothing(s: Sys, header: string, verb: Verb, path: string, metadata: bool, d: Draws)
    ensures var e := Plainly(s, AgentCall(s.db, s.key, header, verb, path, metadata, d));
            e.db == s.db && e.key == s.key && e.limiter == s.limiter
  {
  }

  // ---- secrets and keys ----

  lemma SecretCallKeepsSecrets(db: Db, key: Bytes, dek: Bytes, verb: Verb, path: string,
                               metadata: bool, body: Body, d: Draws)
    requires SecretsOk(db, dek) && (key == [] || key == dek)
    ensures SecretsOk(SecretCall(db, key, verb, path, metadata, body, d).db, dek)
  {
  }

  // The passphrase that opens the envelope after a step.
  function MasterAfter(s: Sys, ttl: int, ev: Event, master: string): string {
    if ev.Request? && ev.fate == Completed && ev.req.Administer? && ev.req.op.ChangeMaster?
       && Handle(s, ev.req, ttl, ev.draws).reply.Ok? then
      ev.req.op.next
    else
      master
  }

  // Only the operations on secrets touch the secrets, and only a change of
  // master touches the envelope.
  lemma HandleFrame(s: Sys, req: Request, ttl: int, d: Draws)
    ensures var e := Handle(s, req, ttl, d);
            && (e.reply.Err? ==> e.db == s.db && e.key == s.key)
            && (!(req.WriteSecret? || (req.Administer? && req.op.SecretAt?)) ==> e.db.secrets == s.db.secrets)
            && (!(req.Administer? && req.op.ChangeMaster?) ==> e.db.envelope == s.db.envelope)
            && (!(req.Administer? && (req.op.Lock? || req.op.Unlock?)) ==> e.key == s.key)
  {
    match req {
      case Login(_, _) =>
      case Enroll(_) =>
      case Administer(cookie, csrf, op) =>
        var auth := AuthenticateAdmin(s.db, cookie, csrf, IsRead(op), d.now);
        if auth.Ok? {
          AdminFrame(s, auth.value, cookie.value, op, d);
        }
      case WriteSecret(header, verb, path, body) =>
        var auth := AuthenticateWriter(s.db, header);
        if auth.Ok? {
          var verb := if auth.value.allowCreate && !Live(s.db, path) then POST else PUT;
          SecretFrame(s.db, s.key, verb, path, false, body, d);
        }
      case ReadSecret(header, verb, path, metadata) =>
        ReadsChangeNothing(s, header, verb, path, metadata, d);
    }
  }

  lemma AdminFrame(s: Sys, session: Session, cookie: string, op: AdminOp, d: Draws)
    ensures var e := AdminCall(s, session, cookie, op, d);
            && (e.reply.Err? ==> e.db == s.db && e.key == s.key)
            && (!op.SecretAt? ==> e.db.secrets == s.db.secrets)
            && (!op.ChangeMaster? ==> e.db.envelope == s.db.envelope)
            && (!op.Lock? && !op.Unlock? ==> e.key == s.key)
  {
    match op {
      case SecretAt(verb, path, body) => SecretFrame(s.db, s.key, verb, path, false, body, d);
      case _ =>
    }
  }

  lemma HandleKeepsSecrets(s: Sys, req: Request, ttl: int, d: Draws, dek: Bytes, master: string)
    requires SecretsOk(s.db, dek) && KeyOk(s, dek, master)
    ensures SecretsOk(Handle(s, req, ttl, d).db, dek)
  {
    HandleFrame(s, req, ttl, d);
    match req
    case WriteSecret(header, verb, path, body) =>
      var auth := AuthenticateWriter(s.db, header);
      if auth.Ok? {
        var verb := if auth.value.allowCreate && !Live(s.db, path) then POST else PUT;
        SecretCallKeepsSecrets(s.db, s.key, dek, verb, path, false, body, d);
      }
    case Administer(cookie, csrf, op) =>
      if op.SecretAt? {
        SecretCallKeepsSecrets(s.db, s.key, dek, op.verb, op.path, false, op.body, d);
      }
    case _ =>
  }

  lemma HandleKeepsKey(s: Sys, req: Request, ttl: int, d: Draws, dek: Bytes, master: string)
    requires KeyOk(s, dek, master)
    ensures var e := Handle(s, req, ttl, d);
            && (e.key == [] || e.key == dek)
            && e.db.envelope.Some?
            && Sealing.Hides(e.db.envelope.value, dek, MasterAfter(s, ttl, Request(req, d, Completed), master))
  {
    HandleFrame(s, req, ttl, d);
    if req.Administer? {
      match req.op
      case ChangeMaster(current, next) =>
        Sealing.RewrapKeepsKey(current, next, s.db.envelope.value, dek, master, d.salt, d.nonce);
      case Unlock(attempt) =>
        if Sealing.Unwrap(attempt, s.db.envelope.value).Some? {
          assert attempt == master;
        }
      case _ =>
    }
  }

  // Every step of a set-up server keeps the whole invariant, whether it
  // commits or aborts, and however far it got before it aborted.
  lemma NextKeepsInv(s: Sys, ttl: int, ev: Event, dek: Bytes, master: string)
    requires Inv(s, dek, master) && Possible(s, ev)
    ensures Inv(Next(s, ttl, ev), dek, MasterAfter(s, ttl, ev, master))
  {
    match ev
    case Request(req, d, fate) =>
      HandleKeepsIdentity(s, req, ttl, d);
      HandleKeepsSecrets(s, req, ttl, d, dek, master);
      HandleKeepsKey(s, req, ttl, d, dek, master);
      DrawnGrows(s.db, s.drawn, {d.id, d.token, d.csrf});
    case Restart =>
    case Setup(_, _, _, _, _) =>
  }

  // Setup on an empty store reaches the invariant, with a locked vault.
  lemma SetupEstablishesInv(name: string, password: string, master: string, dek: Bytes, d: Draws, drawn: set<string>)
    requires dek != [] && SetupCall(EMPTY_DB, name, password, master, dek, d).Ok?
    ensures Inv(Sys(SetupCall(EMPTY_DB, name, password, master, dek, d).value, [], Limiter.FRESH, drawn), dek, master)
  {
    var db := SetupCall(EMPTY_DB, name, password, master, dek, d).value;
    Sealing.WrapHides(master, dek, d.salt, d.nonce);
    assert name in db.admins.Keys;
  }
}
