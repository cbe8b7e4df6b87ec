// Agents, writers, enrollment tokens, administrators and sessions over whole
// runs of the server.
module Identities {
  import opened Base
  import opened Records
  import opened Service
  import opened Invariant
  import opened Runs
  import Sealing

  // ---- authentication agrees with a scan of the identities ----

  ghost predicate HoldsToken(a: Agent, header: string) {
    BearerToken(header).Some? && a.hash == Some(Digest(BearerToken(header).value)) && !a.revoked
  }

  ghost predicate WriterHoldsToken(c: Writer, header: string) {
    BearerToken(header).Some? && c.hash == Digest(BearerToken(header).value) && !c.revoked
  }

  // The index lookup accepts exactly the token of an unrevoked agent, and
  // returns that agent, of which there is only one.
  lemma AgentIndexIsScan(db: Db, drawn: set<string>, header: string)
    requires IdentityOk(db, drawn)
    ensures AuthenticateAgent(db, header).Ok? <==> exists id :: id in db.agents && HoldsToken(db.agents[id], header)
    ensures forall id :: id in db.agents && HoldsToken(db.agents[id], header) ==>
              AuthenticateAgent(db, header) == Ok(db.agents[id])
  {
    var auth := AuthenticateAgent(db, header);
    if auth.Ok? {
      var id := db.credentials[Digest(BearerToken(header).value)];
      assert id in db.agents && HoldsToken(db.agents[id], header);
    }
  }

  lemma WriterIndexIsScan(db: Db, drawn: set<string>, header: string)
    requires IdentityOk(db, drawn)
    ensures AuthenticateWriter(db, header).Ok? <==>
              exists id :: id in db.writers && WriterHoldsToken(db.writers[id], header)
    ensures forall id :: id in db.writers && WriterHoldsToken(db.writers[id], header) ==>
              AuthenticateWriter(db, header) == Ok(db.writers[id])
  {
    var auth := AuthenticateWriter(db, header);
    if auth.Ok? {
      var id := db.writerTokens[Digest(BearerToken(header).value)];
      assert id in db.writers && WriterHoldsToken(db.writers[id], header);
    }
  }

  // One header is never both an agent and a writer, and an enrollment token
  // that is still stored is neither.
  lemma NamespacesDisjoint(db: Db, drawn: set<string>, header: string)
    requires IdentityOk(db, drawn)
    ensures AuthenticateAgent(db, header).Err? || AuthenticateWriter(db, header).Err?
    ensures BearerToken(header).Some? && Digest(BearerToken(header).value) in db.enrollment ==>
              AuthenticateAgent(db, header).Err? && AuthenticateWriter(db, header).Err?
    ensures db.credentials.Keys !! db.writerTokens.Keys
  {
  }

  // In every reachable state, therefore.
  lemma IndexesAgreeInRuns(r: Run, i: nat, header: string)
    requires IsRun(r) && i < |r.states|
    ensures var db := r.states[i].db;
            && (AuthenticateAgent(db, header).Ok? <==>
                  exists id :: id in db.agents && HoldsToken(db.agents[id], header))
            && (AuthenticateWriter(db, header).Ok? <==>
                  exists id :: id in db.writers && WriterHoldsToken(db.writers[id], header))
            && (AuthenticateAgent(db, header).Err? || AuthenticateWriter(db, header).Err?)
            && db.credentials.Keys !! db.writerTokens.Keys
  {
    RunOk(r, i);
    var db, drawn := r.states[i].db, r.states[i].drawn;
    AgentIndexIsScan(db, drawn, header);
    WriterIndexIsScan(db, drawn, header);
    NamespacesDisjoint(db, drawn, header);
  }

  // ---- purging ----

  // A purge removes every enrollment and credential record of the agent and
  // leaves every other record of every kind as it was.
  lemma PurgeFrame(db: Db, drawn: set<string>, id: string)
    requires IdentityOk(db, drawn) && id in db.agents
    ensures var db' := PurgeAgentCall(db, id).db;
            && db'.agents == db.agents - {id}
            && db'.enrollment == (map h | h in db.enrollment && db.enrollment[h].agentId != id :: db.enrollment[h])
            && db'.credentials == (map h | h in db.credentials && db.credentials[h] != id :: db.credentials[h])
            && db'.(agents := db.agents, enrollment := db.enrollment, credentials := db.credentials) == db
  {
    var db' := PurgeAgentCall(db, id).db;
    var kept := map h | h in db.credentials && db.credentials[h] != id :: db.credentials[h];
    assert db'.credentials.Keys == kept.Keys;
    assert db'.credentials == kept;
  }

  // ---- properties that, once true, stay true ----

  // The agent can never be given a credential again.
  ghost predicate AgentSpent(s: Sys, id: string) {
    id in s.drawn && (id in s.db.agents ==> s.db.agents[id].hash.Some?)
  }

  // The enrollment token can never be redeemed again.
  ghost predicate TokenSpent(s: Sys, h: Digest) {
    h.token in s.drawn && (h in s.db.enrollment ==> s.db.enrollment[h].used)
  }

  ghost predicate AgentGone(s: Sys, id: string) {
    id in s.drawn && (id in s.db.agents ==> s.db.agents[id].revoked)
  }

  ghost predicate WriterGone(s: Sys, id: string) {
    id in s.drawn && (id in s.db.writers ==> s.db.writers[id].revoked)
  }

  ghost predicate TokenDead(s: Sys, h: Digest) {
    h.token in s.drawn && h !in s.db.credentials && h !in s.db.writerTokens
  }

  // How one request may move the identity tables: rows other than the freshly
  // drawn ones were there before, and nothing is undone.
  ghost predicate AgentRowsMove(agents: Agents, agents': Agents, fresh': string) {
    forall id :: id in agents' && id != fresh' ==>
      && id in agents
      && (agents[id].hash.Some? ==> agents'[id].hash == agents[id].hash)
      && (agents[id].revoked ==> agents'[id].revoked)
  }

  ghost predicate WriterRowsMove(writers: Writers, writers': Writers, fresh': string) {
    forall id :: id in writers' && id != fresh' ==>
      id in writers && (writers[id].revoked ==> writers'[id].revoked)
  }

  ghost predicate EnrollmentRowsMove(rows: Enrollments, rows': Enrollments, fresh': Digest) {
    forall h :: h in rows' && h != fresh' ==> h in rows && (rows[h].used ==> rows'[h].used)
  }

  ghost predicate IndexMoves(index: Index, index': Index, fresh': Digest) {
    forall h :: h in index' && h != fresh' ==> h in index
  }

  ghost predicate IdentitiesMove(db: Db, db': Db, d: Draws) {
    && AgentRowsMove(db.agents, db'.agents, d.id)
    && WriterRowsMove(db.writers, db'.writers, d.id)
    && EnrollmentRowsMove(db.enrollment, db'.enrollment, Digest(d.token))
    && IndexMoves(db.credentials, db'.credentials, Digest(d.token))
    && IndexMoves(db.writerTokens, db'.writerTokens, Digest(d.token))
  }

  ghost predicate Keyed(db: Db) {
    && (forall id :: id in db.agents ==> db.agents[id].id == id)
    && (forall id :: id in db.writers ==> db.writers[id].id == id)
    && (forall h :: h in db.enrollment ==> db.enrollment[h].hash == h)
  }

  lemma Unmoved(db: Db, d: Draws)
    ensures IdentitiesMove(db, db, d)
  {
  }

  lemma AgentRowMoves(db: Db, a: Agent, d: Draws)
    requires a.id in db.agents ==>
               && (db.agents[a.id].hash.Some? ==> a.hash == db.agents[a.id].hash)
               && (db.agents[a.id].revoked ==> a.revoked)
    requires a.id in db.agents || a.id == d.id
    ensures AgentRowsMove(db.agents, db.agents[a.id := a], d.id)
  {
  }

  lemma WriterRowMoves(db: Db, c: Writer, d: Draws)
    requires c.id in db.writers ==> db.writers[c.id].revoked ==> c.revoked
    requires c.id in db.writers || c.id == d.id
    ensures WriterRowsMove(db.writers, db.writers[c.id := c], d.id)
  {
  }

  lemma CreateAgentMoves(db: Db, name: string, paths: seq<string>, d: Draws)
    requires Keyed(db) && d.id !in db.agents
    ensures IdentitiesMove(db, CreateAgentCall(db, name, paths, d).db, d)
  {
    Unmoved(db, d);
    AgentRowMoves(db, Agent(d.id, name, paths, None, false, d.now), d);
  }

  lemma SetAgentPathsMoves(db: Db, id: string, paths: seq<string>, d: Draws)
    requires Keyed(db)
    ensures IdentitiesMove(db, SetAgentPathsCall(db, id, paths).db, d)
  {
    Unmoved(db, d);
    if id in db.agents {
      AgentRowMoves(db, db.agents[id].(paths := paths), d);
    }
  }

  lemma RevokeAgentMoves(db: Db, id: string, d: Draws)
    requires Keyed(db)
    ensures IdentitiesMove(db, RevokeAgentCall(db, id).db, d)
  {
    Unmoved(db, d);
    if id in db.agents {
      AgentRowMoves(db, db.agents[id].(revoked := true), d);
    }
  }

  lemma PurgeAgentMoves(db: Db, id: string, d: Draws)
    ensures IdentitiesMove(db, PurgeAgentCall(db, id).db, d)
  {
    Unmoved(db, d);
  }

  lemma CreateWriterMoves(db: Db, name: string, paths: seq<string>, allow: bool, d: Draws)
    requires Keyed(db) && d.id !in db.writers
    ensures IdentitiesMove(db, CreateWriterCall(db, name, paths, allow, d).db, d)
  {
    Unmoved(db, d);
    WriterRowMoves(db, Writer(allow, d.id, name, paths, Digest(d.token), false, d.now), d);
  }

  lemma EditWriterMoves(db: Db, id: string, paths: Option<seq<string>>, allow: Option<bool>, d: Draws)
    requires Keyed(db)
    ensures IdentitiesMove(db, EditWriterCall(db, id, paths, allow).db, d)
  {
    Unmoved(db, d);
    if id in db.writers {
      var c := db.writers[id];
      WriterRowMoves(db, c.(paths := if paths.Some? then paths.value else c.paths,
                            allowCreate := if allow.Some? then allow.value else c.allowCreate), d);
    }
  }

  lemma RevokeWriterMoves(db: Db, id: string, d: Draws)
    requires Keyed(db)
    ensures IdentitiesMove(db, RevokeWriterCall(db, id).db, d)
  {
    Unmoved(db, d);
    if id in db.writers {
      WriterRowMoves(db, db.writers[id].(revoked := true), d);
    }
  }

  lemma CreateEnrollmentMoves(db: Db, id: string, ttl: int, d: Draws)
    requires Keyed(db)
    ensures IdentitiesMove(db, CreateEnrollmentCall(db, id, ttl, d).db, d)
  {
    Unmoved(db, d);
  }

  lemma DeleteEnrollmentMoves(db: Db, id: string, d: Draws)
    ensures IdentitiesMove(db, DeleteEnrollmentCall(db, id).db, d)
  {
    Unmoved(db, d);
  }

  lemma EnrollMoves(db: Db, token: string, d: Draws)
    requires Keyed(db)
    ensures IdentitiesMove(db, EnrollCall(db, token, d).db, d)
  {
    Unmoved(db, d);
    if EnrollCall(db, token, d).reply.Ok? {
      AgentRowMoves(db, db.agents[db.enrollment[Digest(token)].agentId].(hash := Some(Digest(d.token))), d);
    }
  }

  lemma AgentRecordsMove(s: Sys, session: Session, cookie: string, op: AdminOp, d: Draws)
    requires Keyed(s.db) && d.id !in s.db.agents && OnAgents(op)
    ensures IdentitiesMove(s.db, RecordsCall(s, session, cookie, op, d).db, d)
  {
    match op {
      case CreateAgent(name, paths) => CreateAgentMoves(s.db, name, paths, d);
      case SetAgentPaths(id, paths) => SetAgentPathsMoves(s.db, id, paths, d);
      case RevokeAgent(id) => RevokeAgentMoves(s.db, id, d);
      case PurgeAgent(id) => PurgeAgentMoves(s.db, id, d);
    }
  }

  lemma WriterRecordsMove(s: Sys, session: Session, cookie: string, op: AdminOp, d: Draws)
    requires Keyed(s.db) && d.id !in s.db.writers && OnWriters(op)
    ensures IdentitiesMove(s.db, RecordsCall(s, session, cookie, op, d).db, d)
  {
    match op {
      case CreateWriter(name, paths, allow) => CreateWriterMoves(s.db, name, paths, allow, d);
      case EditWriter(id, paths, allow) => EditWriterMoves(s.db, id, paths, allow, d);
      case RevokeWriter(id) => RevokeWriterMoves(s.db, id, d);
    }
  }

  lemma OtherRecordsMove(s: Sys, session: Session, cookie: string, op: AdminOp, d: Draws)
    requires Keyed(s.db) && !OnAgents(op) && !OnWriters(op) && !OnKeys(op)
    ensures IdentitiesMove(s.db, RecordsCall(s, session, cookie, op, d).db, d)
  {
    match op {
      case CreateEnrollment(id, ttl) => CreateEnrollmentMoves(s.db, id, ttl, d);
      case DeleteEnrollment(id) => DeleteEnrollmentMoves(s.db, id, d);
      case SecretAt(verb, path, body) =>
        SecretFrame(s.db, s.key, verb, path, false, body, d);
        Unmoved(s.db, d);
      case _ => Unmoved(s.db, d);
    }
  }

  lemma AdminCallMoves(s: Sys, session: Session, cookie: string, op: AdminOp, d: Draws)
    requires Keyed(s.db) && d.id !in s.db.agents && d.id !in s.db.writers
    ensures IdentitiesMove(s.db, AdminCall(s, session, cookie, op, d).db, d)
  {
    if OnKeys(op) {
      Unmoved(s.db, d);
    } else if OnAgents(op) {
      AgentRecordsMove(s, session, cookie, op, d);
    } else if OnWriters(op) {
      WriterRecordsMove(s, session, cookie, op, d);
    } else {
      OtherRecordsMove(s, session, cookie, op, d);
    }
  }

  lemma HandleMoves(s: Sys, req: Request, ttl: int, d: Draws)
    requires Keyed(s.db) && d.id !in s.db.agents && d.id !in s.db.writers
    ensures IdentitiesMove(s.db, Handle(s, req, ttl, d).db, d)
  {
    Unmoved(s.db, d);
    match req {
      case Login(_, _) =>
      case Enroll(token) => EnrollMoves(s.db, token, d);
      case Administer(cookie, csrf, op) =>
        var auth := AuthenticateAdmin(s.db, cookie, csrf, IsRead(op), d.now);
        if auth.Ok? {
          AdminCallMoves(s, auth.value, cookie.value, op, d);
        }
      case WriteSecret(header, verb, path, body) => WriteFrame(s, header, verb, path, body, d);
      case ReadSecret(header, verb, path, metadata) => ReadsChangeNothing(s, header, verb, path, metadata, d);
    }
  }

  lemma NextKeepsFacts(s: Sys, ttl: int, ev: Event, id: string, h: Digest)
    requires IdentityOk(s.db, s.drawn) && Possible(s, ev)
    ensures var s' := Next(s, ttl, ev);
            && (AgentSpent(s, id) ==> AgentSpent(s', id))
            && (TokenSpent(s, h) ==> TokenSpent(s', h))
            && (AgentGone(s, id) ==> AgentGone(s', id))
            && (WriterGone(s, id) ==> WriterGone(s', id))
            && (TokenDead(s, h) ==> TokenDead(s', h))
  {
    if ev.Request? && ev.fate == Completed {
      HandleMoves(s, ev.req, ttl, ev.draws);
      assert h.token in s.drawn ==> h != Digest(ev.draws.token);
    }
  }

  lemma FactsStep(r: Run, i: nat, id: string, h: Digest)
    requires IsRun(r) && i < |r.events|
    ensures AgentSpent(r.states[i], id) ==> AgentSpent(r.states[i + 1], id)
    ensures TokenSpent(r.states[i], h) ==> TokenSpent(r.states[i + 1], h)
    ensures AgentGone(r.states[i], id) ==> AgentGone(r.states[i + 1], id)
    ensures WriterGone(r.states[i], id) ==> WriterGone(r.states[i + 1], id)
    ensures TokenDead(r.states[i], h) ==> TokenDead(r.states[i + 1], h)
  {
    RunOk(r, i);
    assert StepAt(r, i);
    NextKeepsFacts(r.states[i], r.ttl, r.events[i], id, h);
  }

  lemma {:induction false} FactsStay(r: Run, i: nat, j: nat, id: string, h: Digest)
    requires IsRun(r) && i <= j < |r.states|
    ensures AgentSpent(r.states[i], id) ==> AgentSpent(r.states[j], id)
    ensures TokenSpent(r.states[i], h) ==> TokenSpent(r.states[j], h)
    ensures AgentGone(r.states[i], id) ==> AgentGone(r.states[j], id)
    ensures WriterGone(r.states[i], id) ==> WriterGone(r.states[j], id)
    ensures TokenDead(r.states[i], h) ==> TokenDead(r.states[j], h)
  {
    if i < j {
      FactsStay(r, i, j - 1, id, h);
      FactsStep(r, j - 1, id, h);
    }
  }

  // ---- enrollment ----

  // Event i redeems the token for the agent.
  ghost predicate Redeems(r: Run, i: nat, token: string, id: string)
    requires IsRun(r) && i < |r.events|
  {
    && r.events[i].Request? && r.events[i].req == Enroll(token)
    && r.replies[i].Ok? && r.replies[i].value.Enrolled? && r.replies[i].value.id == id
  }

  // What a redemption meant before and means afterwards.
  lemma RedemptionStep(r: Run, i: nat, token: string, id: string)
    requires IsRun(r) && i < |r.events| && Redeems(r, i, token, id)
    ensures var s, s' := r.states[i], r.states[i + 1];
            && !AgentSpent(s, id) && !TokenSpent(s, Digest(token))
            && Digest(token) in s.db.enrollment && s.db.enrollment[Digest(token)].agentId == id
            && r.events[i].draws.now < s.db.enrollment[Digest(token)].expires
            && AgentSpent(s', id) && TokenSpent(s', Digest(token))
            && !(id in s.db.agents && s.db.agents[id].revoked) && id in s.db.agents
  {
    RunOk(r, i);
    assert StepAt(r, i);
    RunOk(r, i + 1);
  }

  // However many tokens are issued, an agent is enrolled at most once and a
  // token is redeemed at most once in a run.
  lemma RedeemedOnce(r: Run, i: nat, j: nat, token1: string, id1: string, token2: string, id2: string)
    requires IsRun(r) && i < j < |r.events|
    requires Redeems(r, i, token1, id1) && Redeems(r, j, token2, id2)
    ensures token1 != token2 && id1 != id2
  {
    RedemptionStep(r, i, token1, id1);
    RedemptionStep(r, j, token2, id2);
    FactsStay(r, i + 1, j, id1, Digest(token1));
  }

  // Event k issued this enrollment record.
  ghost predicate Issues(r: Run, k: nat, en: Enrollment)
    requires IsRun(r) && k < |r.events|
  {
    && r.events[k].Request?
    && r.replies[k] == Ok(Issued(en.id, en.agentId, en.hash.token, en.expires))
    && r.events[k].req.Administer? && r.events[k].req.op.CreateEnrollment?
    && r.events[k].req.op.agentId == en.agentId
    && en.expires == r.events[k].draws.now + r.events[k].req.op.ttl * SECOND
    && 1 <= r.events[k].req.op.ttl <= 86400
  }

  // Enrollment records only come from issuance, and afterwards only get used.
  ghost predicate Sourced(db: Db, e: Effect, req: Request, d: Draws, h: Digest)
    requires h in e.db.enrollment
  {
    var en := e.db.enrollment[h];
    || (h in db.enrollment && db.enrollment[h].(used := en.used) == en)
    || (&& req.Administer? && req.op.CreateEnrollment? && req.op.agentId == en.agentId
        && e.reply == Ok(Issued(en.id, en.agentId, h.token, en.expires)) && en.hash == h && !en.used
        && en.expires == d.now + req.op.ttl * SECOND && 1 <= req.op.ttl <= 86400)
  }

  lemma EnrollmentTableFrame(s: Sys, session: Session, cookie: string, op: AdminOp, d: Draws)
    requires !op.CreateEnrollment? && !op.DeleteEnrollment? && !op.PurgeAgent?
    ensures AdminCall(s, session, cookie, op, d).db.enrollment == s.db.enrollment
  {
    match op {
      case SecretAt(verb, path, body) => SecretFrame(s.db, s.key, verb, path, false, body, d);
      case _ =>
    }
  }

  lemma AdminCallSources(s: Sys, session: Session, cookie: string, req: Request, d: Draws, h: Digest)
    requires Keyed(s.db) && req.Administer?
    requires h in AdminCall(s, session, cookie, req.op, d).db.enrollment
    ensures Sourced(s.db, AdminCall(s, session, cookie, req.op, d), req, d, h)
  {
    match req.op {
      case CreateEnrollment(_, _) =>
      case DeleteEnrollment(_) =>
      case PurgeAgent(_) =>
      case _ => EnrollmentTableFrame(s, session, cookie, req.op, d);
    }
  }

  lemma EnrollmentSources(s: Sys, req: Request, ttl: int, d: Draws, h: Digest)
    requires Keyed(s.db)
    requires h in Handle(s, req, ttl, d).db.enrollment
    ensures Sourced(s.db, Handle(s, req, ttl, d), req, d, h)
  {
    match req {
      case Login(_, _) =>
      case Enroll(_) =>
      case Administer(cookie, csrf, op) =>
        var auth := AuthenticateAdmin(s.db, cookie, csrf, IsRead(op), d.now);
        if auth.Ok? {
          AdminCallSources(s, auth.value, cookie.value, req, d, h);
        }
      case WriteSecret(header, verb, path, body) => WriteFrame(s, header, verb, path, body, d);
      case ReadSecret(header, verb, path, metadata) => ReadsChangeNothing(s, header, verb, path, metadata, d);
    }
  }

  lemma EnrollmentStep(r: Run, i: nat, h: Digest) returns (isNew: bool)
    requires IsRun(r) && i < |r.events| && h in r.states[i + 1].db.enrollment
    ensures var en := r.states[i + 1].db.enrollment[h];
            if isNew then en.hash == h && Issues(r, i, en.(used := false))
               else h in r.states[i].db.enrollment && r.states[i].db.enrollment[h].(used := false) == en.(used := false)
  {
    RunOk(r, i);
    assert StepAt(r, i);
    isNew := false;
    var ev := r.events[i];
    if ev.Request? && ev.fate == Completed {
      EnrollmentSources(r.states[i], ev.req, r.ttl, ev.draws, h);
      var en := r.states[i + 1].db.enrollment[h];
      isNew := !(h in r.states[i].db.enrollment && r.states[i].db.enrollment[h].(used := en.used) == en);
    }
  }

  lemma {:induction false} EnrollmentOrigin(r: Run, i: nat, h: Digest) returns (k: nat)
    requires IsRun(r) && i < |r.states| && h in r.states[i].db.enrollment
    ensures k < i && r.states[i].db.enrollment[h].hash == h
    ensures Issues(r, k, r.states[i].db.enrollment[h].(used := false))
  {
    assert i > 0;
    var isNew := EnrollmentStep(r, i - 1, h);
    k := i - 1;
    if !isNew {
      k := EnrollmentOrigin(r, i - 1, h);
    }
  }

  // A redemption goes back to one earlier issuance for the same agent, and
  // comes strictly before the expiry fixed there.
  lemma RedemptionWasIssued(r: Run, i: nat, token: string, id: string) returns (k: nat)
    requires IsRun(r) && i < |r.events| && Redeems(r, i, token, id)
    ensures k < i && r.events[k].Request? && r.events[k].req.Administer? && r.events[k].req.op.CreateEnrollment?
    ensures r.events[k].req.op.agentId == id
    ensures r.replies[k].Ok? && r.replies[k].value.Issued? && r.replies[k].value.token == token
    ensures r.events[i].draws.now < r.events[k].draws.now + r.events[k].req.op.ttl * SECOND
  {
    RedemptionStep(r, i, token, id);
    k := EnrollmentOrigin(r, i, Digest(token));
  }

  // ---- revocation ----

  // The event completes a revocation or purge of the agent.
  ghost predicate DisablesAgent(r: Run, i: nat, id: string)
    requires IsRun(r) && i < |r.events|
  {
    && r.events[i].Request? && r.replies[i].Ok?
    && r.events[i].req.Administer?
    && (r.events[i].req.op == RevokeAgent(id) || r.events[i].req.op == PurgeAgent(id))
  }

  lemma DisableStep(r: Run, i: nat, id: string)
    requires IsRun(r) && i < |r.events| && DisablesAgent(r, i, id)
    ensures id in r.states[i].db.agents && AgentGone(r.states[i + 1], id)
    ensures r.states[i].db.agents[id].hash.Some? ==> TokenDead(r.states[i + 1], r.states[i].db.agents[id].hash.value)
  {
    RunOk(r, i);
    assert StepAt(r, i);
  }

  lemma GoneNeverAuthenticates(s: Sys, id: string, h: Digest, header: string)
    requires IdentityOk(s.db, s.drawn)
    ensures AgentGone(s, id) && AuthenticateAgent(s.db, header).Ok? ==> AuthenticateAgent(s.db, header).value.id != id
    ensures WriterGone(s, id) && AuthenticateWriter(s.db, header).Ok? ==>
              AuthenticateWriter(s.db, header).value.id != id
    ensures TokenDead(s, h) && BearerToken(header) == Some(h.token) ==>
              AuthenticateAgent(s.db, header).Err? && AuthenticateWriter(s.db, header).Err?
  {
  }

  lemma AgentStaysGone(r: Run, i: nat, j: nat, id: string)
    requires IsRun(r) && i < j < |r.states| && DisablesAgent(r, i, id)
    ensures id in r.states[i].db.agents && AgentGone(r.states[j], id)
    ensures r.states[i].db.agents[id].hash.Some? ==> TokenDead(r.states[j], r.states[i].db.agents[id].hash.value)
  {
    DisableStep(r, i, id);
    var hash := r.states[i].db.agents[id].hash;
    FactsStay(r, i + 1, j, id, if hash.Some? then hash.value else Digest(""));
  }

  // Once revoked or purged, an agent authenticates never again: no header is
  // taken for it, and the token it held is taken for nobody, whatever else
  // happens in between.
  lemma RevocationIsPermanent(r: Run, i: nat, j: nat, id: string, header: string)
    requires IsRun(r) && i < j < |r.states| && DisablesAgent(r, i, id)
    ensures id in r.states[i].db.agents
    ensures var auth := AuthenticateAgent(r.states[j].db, header); auth.Ok? ==> auth.value.id != id
    ensures HoldsHash(r.states[i].db.agents[id], header) ==>
              AuthenticateAgent(r.states[j].db, header).Err? && AuthenticateWriter(r.states[j].db, header).Err?
  {
    AgentStaysGone(r, i, j, id);
    RunOk(r, j);
    var hash := r.states[i].db.agents[id].hash;
    GoneNeverAuthenticates(r.states[j], id, if hash.Some? then hash.value else Digest(""), header);
  }

  // Nor does any enrollment token revive it.
  lemma NoRevival(r: Run, i: nat, j: nat, id: string, token: string)
    requires IsRun(r) && i < j < |r.events| && DisablesAgent(r, i, id)
    ensures !Redeems(r, j, token, id)
  {
    DisableStep(r, i, id);
    FactsStay(r, i + 1, j, id, Digest(token));
    if Redeems(r, j, token, id) {
      RedemptionStep(r, j, token, id);
    }
  }

  ghost predicate HoldsHash(a: Agent, header: string) {
    BearerToken(header).Some? && a.hash == Some(Digest(BearerToken(header).value))
  }

  ghost predicate DisablesWriter(r: Run, i: nat, id: string)
    requires IsRun(r) && i < |r.events|
  {
    && r.events[i].Request? && r.events[i].req.Administer? && r.events[i].req.op == RevokeWriter(id)
    && r.replies[i].Ok?
  }

  lemma DisableWriterStep(r: Run, i: nat, id: string)
    requires IsRun(r) && i < |r.events| && DisablesWriter(r, i, id)
    ensures id in r.states[i].db.writers && WriterGone(r.states[i + 1], id)
    ensures TokenDead(r.states[i + 1], r.states[i].db.writers[id].hash)
  {
    RunOk(r, i);
    assert StepAt(r, i);
  }

  lemma WriterRevocationIsPermanent(r: Run, i: nat, j: nat, id: string, header: string)
    requires IsRun(r) && i < j < |r.states| && DisablesWriter(r, i, id)
    ensures id in r.states[i].db.writers
    ensures var auth := AuthenticateWriter(r.states[j].db, header); auth.Ok? ==> auth.value.id != id
    ensures BearerToken(header) == Some(r.states[i].db.writers[id].hash.token) ==>
              AuthenticateAgent(r.states[j].db, header).Err? && AuthenticateWriter(r.states[j].db, header).Err?
  {
    DisableWriterStep(r, i, id);
    FactsStay(r, i + 1, j, id, r.states[i].db.writers[id].hash);
    RunOk(r, j);
    GoneNeverAuthenticates(r.states[j], id, r.states[i].db.writers[id].hash, header);
  }

  // ---- administrators and sessions ----

  ghost predicate ChangesPassword(r: Run, i: nat, name: string)
    requires IsRun(r) && i < |r.events|
  {
    r.events[i].Request? && Touches(r.events[i].req, r.replies[i], name)
  }

  // The event is the login that opened the session.
  ghost predicate Opens(r: Run, k: nat, s: Session)
    requires IsRun(r) && k < |r.events|
  {
    && r.events[k].Request? && r.events[k].req.Login? && r.replies[k] == Ok(LoggedIn(s, s.hash.token))
    && s.admin == r.events[k].req.name && s.expires == r.events[k].draws.now + r.ttl
  }

  // The session was there before, and its administrator is as before.
  ghost predicate Kept(db: Db, db': Db, h: Digest) {
    && h in db'.sessions && h in db.sessions && db'.sessions[h] == db.sessions[h]
    && SameAdmin(db.admins, db'.admins, db.sessions[h].admin)
  }

  ghost predicate SameAdmin(admins: map<string, Admin>, admins': map<string, Admin>, name: string) {
    name in admins && name in admins' && admins[name] == admins'[name]
  }

  // The request completes a change or a removal of the administrator.
  ghost predicate Touches(req: Request, reply: Result<Reply, Error>, name: string) {
    && reply.Ok? && req.Administer?
    && ((req.op.SetAdministrator? && req.op.name == name) || req.op == DeleteAdministrator(name))
  }

  lemma AdminTablesFrame(s: Sys, session: Session, cookie: string, op: AdminOp, d: Draws)
    requires !op.Logout? && !op.SetAdministrator? && !op.DeleteAdministrator?
    ensures AdminCall(s, session, cookie, op, d).db.sessions == s.db.sessions
    ensures AdminCall(s, session, cookie, op, d).db.admins == s.db.admins
  {
    match op {
      case SecretAt(verb, path, body) => SecretFrame(s.db, s.key, verb, path, false, body, d);
      case _ =>
    }
  }

  lemma SetDropsSessions(db: Db, drawn: set<string>, name: string, password: string, h: Digest)
    requires SessionsOk(db.sessions, db.admins, drawn)
    requires h in SetAdministratorCall(db, name, password).db.sessions
    ensures Kept(db, SetAdministratorCall(db, name, password).db, h)
    ensures SetAdministratorCall(db, name, password).reply.Ok? ==> db.sessions[h].admin != name
  {
    if SetAdministratorCall(db, name, password).reply.Ok? {
      var db1 := db.(admins := db.admins[name := Admin(name, Bcrypt(password))]);
      DroppedSessions(db1, name, h);
    }
  }

  lemma DroppedSessions(db: Db, name: string, h: Digest)
    requires h in WithoutSessionsOf(db, name).sessions
    ensures h in db.sessions && db.sessions[h].admin != name
    ensures WithoutSessionsOf(db, name).sessions[h] == db.sessions[h]
    ensures WithoutSessionsOf(db, name).admins == db.admins
  {
  }

  lemma DeleteDropsSessions(db: Db, drawn: set<string>, session: Session, name: string, h: Digest)
    requires SessionsOk(db.sessions, db.admins, drawn)
    requires h in DeleteAdministratorCall(db, session, name).db.sessions
    ensures Kept(db, DeleteAdministratorCall(db, session, name).db, h)
    ensures DeleteAdministratorCall(db, session, name).reply.Ok? ==> db.sessions[h].admin != name
  {
    if DeleteAdministratorCall(db, session, name).reply.Ok? {
      DroppedSessions(db.(admins := db.admins - {name}), name, h);
    }
  }

  lemma AdminCallSessions(s: Sys, session: Session, cookie: string, op: AdminOp, d: Draws, h: Digest)
    requires SessionsOk(s.db.sessions, s.db.admins, s.drawn)
    requires h in AdminCall(s, session, cookie, op, d).db.sessions
    ensures Kept(s.db, AdminCall(s, session, cookie, op, d).db, h)
    ensures (op.SetAdministrator? || op.DeleteAdministrator?) && AdminCall(s, session, cookie, op, d).reply.Ok? ==>
              op.name != s.db.sessions[h].admin
  {
    match op {
      case Logout =>
      case SetAdministrator(name, password) => SetDropsSessions(s.db, s.drawn, name, password, h);
      case DeleteAdministrator(name) => DeleteDropsSessions(s.db, s.drawn, session, name, h);
      case _ => AdminTablesFrame(s, session, cookie, op, d);
    }
  }

  lemma LoginSessions(db: Db, drawn: set<string>, name: string, password: string, ttl: int, d: Draws, h: Digest)
    requires SessionsOk(db.sessions, db.admins, drawn) && AdminsOk(db.admins)
    requires h in LoginCall(db, name, password, ttl, d).db.sessions
    ensures var o := LoginCall(db, name, password, ttl, d);
            && o.db.admins == db.admins
            && (o.db.sessions[h].admin in db.admins)
            && ((o.reply == Ok(LoggedIn(o.db.sessions[h], h.token))
                 && o.db.sessions[h].admin == name && o.db.sessions[h].expires == d.now + ttl
                 && db.admins[o.db.sessions[h].admin].password == Bcrypt(password))
                || Kept(db, o.db, h))
  {
    var o := LoginCall(db, name, password, ttl, d);
    if o.reply.Ok? && h == Digest(d.token) {
      assert o.db.sessions[h] == Session(h, db.admins[name].name, d.csrf, d.now + ttl);
    } else {
      assert Kept(db, o.db, h);
    }
  }

  // A session after a request was just opened with its administrator's
  // password, or was there before and that administrator has not been touched.
  ghost predicate SessionSourced(db: Db, e: Effect, req: Request, h: Digest, expires: int)
    requires h in e.db.sessions
  {
    var x := e.db.sessions[h];
    || (&& SameAdmin(db.admins, e.db.admins, x.admin)
        && req.Login? && e.reply == Ok(LoggedIn(x, h.token)) && x.admin == req.name && x.expires == expires
        && db.admins[x.admin].password == Bcrypt(req.password))
    || (Kept(db, e.db, h) && !Touches(req, e.reply, x.admin))
  }

  lemma LoginSources(s: Sys, name: string, password: string, ttl: int, d: Draws, h: Digest)
    requires SessionsOk(s.db.sessions, s.db.admins, s.drawn) && AdminsOk(s.db.admins)
    requires h in Handle(s, Login(name, password), ttl, d).db.sessions
    ensures SessionSourced(s.db, Handle(s, Login(name, password), ttl, d), Login(name, password), h, d.now + ttl)
  {
    if Handle(s, Login(name, password), ttl, d).reply.Ok? {
      LoginSessions(s.db, s.drawn, name, password, ttl, d, h);
    }
  }

  lemma AdministerSources(s: Sys, req: Request, ttl: int, d: Draws, h: Digest)
    requires SessionsOk(s.db.sessions, s.db.admins, s.drawn) && req.Administer?
    requires h in Handle(s, req, ttl, d).db.sessions
    ensures SessionSourced(s.db, Handle(s, req, ttl, d), req, h, d.now + ttl)
  {
    var auth := AuthenticateAdmin(s.db, req.cookie, req.csrf, IsRead(req.op), d.now);
    if auth.Ok? {
      AdminCallSessions(s, auth.value, req.cookie.value, req.op, d, h);
    }
  }

  lemma SessionSources(s: Sys, req: Request, ttl: int, d: Draws, h: Digest)
    requires SessionsOk(s.db.sessions, s.db.admins, s.drawn) && AdminsOk(s.db.admins)
    requires h in Handle(s, req, ttl, d).db.sessions
    ensures SessionSourced(s.db, Handle(s, req, ttl, d), req, h, d.now + ttl)
  {
    match req {
      case Login(name, password) => LoginSources(s, name, password, ttl, d, h);
      case Enroll(_) =>
      case Administer(_, _, _) => AdministerSources(s, req, ttl, d, h);
      case WriteSecret(header, verb, path, body) => WriteFrame(s, header, verb, path, body, d);
      case ReadSecret(header, verb, path, metadata) => ReadsChangeNothing(s, header, verb, path, metadata, d);
    }
  }

  // The same over one step of a run.
  lemma SessionStep(r: Run, i: nat, h: Digest) returns (isNew: bool)
    requires IsRun(r) && i < |r.events| && h in r.states[i + 1].db.sessions
    ensures var db, db' := r.states[i].db, r.states[i + 1].db;
            var x := db'.sessions[h];
            && SameAdmin(db.admins, db'.admins, x.admin)
            && if isNew then Opens(r, i, x) && db.admins[x.admin].password == Bcrypt(r.events[i].req.password)
               else Kept(db, db', h) && !ChangesPassword(r, i, x.admin)
  {
    RunOk(r, i);
    RunOk(r, i + 1);
    assert StepAt(r, i);
    var ev, x := r.events[i], r.states[i + 1].db.sessions[h];
    isNew := false;
    if ev.Request? && ev.fate == Completed {
      SessionSources(r.states[i], ev.req, r.ttl, ev.draws, h);
      isNew := ev.req.Login? && r.replies[i] == Ok(LoggedIn(x, h.token))
                && x.admin == ev.req.name && x.expires == ev.draws.now + r.ttl
                && r.states[i].db.admins[x.admin].password == Bcrypt(ev.req.password);
    }
  }

  // A stored session was opened by a login with the password its administrator
  // still has, and no password change or deletion of that administrator has
  // completed since, not even one that put the same password back.
  lemma {:induction false} SessionOrigin(r: Run, i: nat, h: Digest) returns (k: nat)
    requires IsRun(r) && i < |r.states| && h in r.states[i].db.sessions
    ensures var s := r.states[i].db.sessions[h];
            && k < i && Opens(r, k, s)
            && s.admin in r.states[i].db.admins
            && r.states[i].db.admins[s.admin].password == Bcrypt(r.events[k].req.password)
            && forall m :: k < m < i ==> !ChangesPassword(r, m, s.admin)
  {
    assert i > 0;
    var isNew := SessionStep(r, i - 1, h);
    k := i - 1;
    if !isNew {
      k := SessionOrigin(r, i - 1, h);
      var name := r.states[i].db.sessions[h].admin;
      forall m | k < m < i ensures !ChangesPassword(r, m, name) {
        assert m < i - 1 || m == i - 1;
      }
    }
  }

  // There is always somebody to administer the server.
  lemma AnAdministratorRemains(r: Run, i: nat)
    requires IsRun(r) && i < |r.states|
    ensures exists name :: name in r.states[i].db.admins
  {
    RunOk(r, i);
    var name :| name in r.states[i].db.admins.Keys;
    assert name in r.states[i].db.admins;
  }

  // Every enrollment record in a reachable state names an agent that exists and
  // sits under its own hash; a used one names an agent that holds a credential.
  lemma EnrollmentReferences(r: Run, i: nat, h: Digest)
    requires IsRun(r) && i < |r.states| && h in r.states[i].db.enrollment
    ensures var db := r.states[i].db;
            && db.enrollment[h].hash == h
            && db.enrollment[h].agentId in db.agents
            && (db.enrollment[h].used ==> db.agents[db.enrollment[h].agentId].hash.Some?)
  {
    RunOk(r, i);
  }
}
