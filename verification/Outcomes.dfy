// What each request comes to at a moment of a run: exactly when it succeeds, and
// with which error it is refused otherwise.
module Outcomes {
  import opened Base
  import opened Records
  import opened Service
  import opened Invariant
  import opened Runs
  import opened Ledger
  import opened Standing
  import Access
  import Limiter
  import Refinement
  import Sealing
  import Paths

  // ---- administrators ----

  ghost predicate GoodRules(rules: seq<string>) {
    forall rule :: rule in rules ==> Paths.PlainRule(rule)
  }

  ghost predicate GoodPassword(password: string) {
    12 <= Utf8Len(password) <= 72
  }

  // Some character is not white space.
  ghost predicate GoodName(name: string) {
    exists c :: c in name && c !in Paths.BLANKS
  }

  // What the operation needs of its arguments and of the records, the caller
  // being let through; `self` is the caller.
  ghost predicate Feasible(db: Db, key: Bytes, self: string, op: AdminOp) {
    match op
    case CreateAgent(name, paths) => name != "" && GoodRules(paths)
    case SetAgentPaths(id, paths) => id in db.agents && GoodRules(paths)
    case RevokeAgent(id) => id in db.agents
    case PurgeAgent(id) => id in db.agents
    case CreateEnrollment(id, ttl) =>
      1 <= ttl <= 86400 && id in db.agents && !db.agents[id].revoked && db.agents[id].hash.None?
    case DeleteEnrollment(x) => exists h :: h in db.enrollment && db.enrollment[h].id == x
    case SetAdministrator(name, password) => name != "" && GoodPassword(password)
    case DeleteAdministrator(name) => name != self
    case CreateWriter(name, paths, _) => GoodName(name) && GoodRules(paths)
    case EditWriter(id, paths, _) => id in db.writers && (paths.Some? ==> GoodRules(paths.value))
    case RevokeWriter(id) => id in db.writers
    case SecretAt(verb, path, body) =>
      && Paths.PlainPath(path) && key != []
      && (match verb
          case GET => Live(db, path)
          case POST => !Live(db, path) && body.Value?
          case PUT => Live(db, path) && body.Value?
          case DELETE => Live(db, path)
          case _ => false)
    case _ => true
  }

  lemma NameIff(name: string)
    ensures Blank(name) <==> !GoodName(name)
  {
    forall c ensures Paths.IsSpace(c) <==> c in Paths.BLANKS {
      Paths.BlanksAre(c);
    }
  }

  lemma SecretFeasible(db: Db, key: Bytes, dek: Bytes, self: string, op: AdminOp, d: Draws)
    requires SecretsOk(db, dek) && dek != [] && (key == [] || key == dek) && op.SecretAt?
    ensures SecretCall(db, key, op.verb, op.path, false, op.body, d).reply.Ok? <==> Feasible(db, key, self, op)
  {
    Paths.NormalizeIff(op.path);
    Access.ReadingSucceedsIff(db, key, dek, op.path, false, d);
    if op.verb == POST || op.verb == PUT {
      Access.StoringSucceedsIff(db, key, dek, op.verb, op.path, op.body, d);
    }
  }

  lemma AgentsFeasible(s: Sys, session: Session, cookie: string, op: AdminOp, d: Draws)
    requires OnAgents(op)
    ensures RecordsCall(s, session, cookie, op, d).reply.Ok? <==> Feasible(s.db, s.key, session.admin, op)
  {
    if op.CreateAgent? || op.SetAgentPaths? {
      Paths.ValidateRulesIff(op.paths);
    }
  }

  lemma WritersFeasible(s: Sys, session: Session, cookie: string, op: AdminOp, d: Draws)
    requires OnWriters(op)
    ensures RecordsCall(s, session, cookie, op, d).reply.Ok? <==> Feasible(s.db, s.key, session.admin, op)
  {
    match op {
      case CreateWriter(name, paths, _) =>
        NameIff(name);
        Paths.ValidateRulesIff(paths);
      case EditWriter(_, paths, _) => if paths.Some? { Paths.ValidateRulesIff(paths.value); }
      case RevokeWriter(_) =>
    }
  }

  lemma RecordsFeasible(s: Sys, session: Session, cookie: string, op: AdminOp, d: Draws, dek: Bytes)
    requires SecretsOk(s.db, dek) && dek != [] && (s.key == [] || s.key == dek) && !OnKeys(op)
    ensures RecordsCall(s, session, cookie, op, d).reply.Ok? <==> Feasible(s.db, s.key, session.admin, op)
  {
    if OnAgents(op) {
      AgentsFeasible(s, session, cookie, op, d);
    } else if OnWriters(op) {
      WritersFeasible(s, session, cookie, op, d);
    } else if op.SecretAt? {
      SecretFeasible(s.db, s.key, dek, session.admin, op, d);
    }
  }

  // What an operation on the key needs.
  ghost predicate Unlocks(r: Run, i: nat, op: AdminOp)
    requires IsRun(r) && i < |r.events| && r.events[i].Request?
  {
    match op
    case Unlock(attempt) =>
      Limiter.Accepts(r.states[i].limiter, r.events[i].draws.call) && attempt == MasterAt(r, i)
    case ChangeMaster(current, next) =>
      && Limiter.Accepts(r.states[i].limiter, r.events[i].draws.call)
      && current == MasterAt(r, i) && Utf8Len(next) >= 16
    case _ => true
  }

  // The session that lets this request of an administrator through.
  ghost predicate Admits(r: Run, i: nat, s: Session)
    requires IsRun(r) && i < |r.events| && r.events[i].Request? && r.events[i].req.Administer?
  {
    var Administer(cookie, csrf, op) := r.events[i].req;
    && cookie == Some(s.hash.token) && Since(Logins(r, s), Endings(r, s), i)
    && r.events[i].draws.now < s.expires
    && (csrf == s.csrf || (op.SecretAt? && (op.verb == GET || op.verb == HEAD)))
  }

  lemma AdmitsIff(r: Run, i: nat, s: Session)
    requires IsRun(r) && i < |r.events| && r.events[i].Request? && r.events[i].req.Administer?
    ensures var ev := r.events[i];
            Admits(r, i, s) <==>
              AuthenticateAdmin(r.states[i].db, ev.req.cookie, ev.req.csrf, IsRead(ev.req.op), ev.draws.now) == Ok(s)
  {
    RunOk(r, i);
    SessionIff(r, i, s);
  }

  lemma AdministerReply(r: Run, i: nat, s: Session)
    requires IsRun(r) && i < |r.events| && r.events[i].Request? && r.events[i].req.Administer?
    requires r.events[i].fate == Completed && Admits(r, i, s)
    ensures var db, op := r.states[i].db, r.events[i].req.op;
            r.replies[i].Ok? <==> Feasible(db, r.states[i].key, s.admin, op) && Unlocks(r, i, op)
  {
    RunOk(r, i);
    assert StepAt(r, i);
    AdmitsIff(r, i, s);
    var ev := r.events[i];
    if OnKeys(ev.req.op) {
      VaultStep(r, i);
    } else {
      RecordsFeasible(r.states[i], s, ev.req.cookie.value, ev.req.op, ev.draws, r.dek);
    }
  }

  // A request of an administrator that completes succeeds exactly if a session
  // lets it through, and the operation has what it needs.
  lemma AdministerSucceedsIff(r: Run, i: nat)
    requires IsRun(r) && i < |r.events| && r.events[i].Request? && r.events[i].req.Administer?
    requires r.events[i].fate == Completed
    ensures var db, op := r.states[i].db, r.events[i].req.op;
            r.replies[i].Ok? <==>
              exists s :: Admits(r, i, s) && Feasible(db, r.states[i].key, s.admin, op) && Unlocks(r, i, op)
  {
    var s, ev := r.states[i], r.events[i];
    var auth := AuthenticateAdmin(s.db, ev.req.cookie, ev.req.csrf, IsRead(ev.req.op), ev.draws.now);
    forall x ensures Admits(r, i, x) <==> auth == Ok(x) {
      AdmitsIff(r, i, x);
    }
    if auth.Ok? {
      AdministerReply(r, i, auth.value);
    } else {
      assert StepAt(r, i);
    }
  }

  // ---- agents ----

  // The header presents the token of an enrollment of this agent that stands.
  ghost predicate IsAgent(r: Run, i: nat, header: string, id: string)
    requires IsRun(r)
  {
    exists token :: header == "Bearer " + token && Since(Enrollings(r, id, token), Disablings(r, id), i)
  }

  ghost predicate IsWriter(r: Run, i: nat, header: string, id: string)
    requires IsRun(r)
  {
    exists token :: header == "Bearer " + token && Since(Creations(r, id, token), Revocations(r, id), i)
  }

  // The answer to an agent's request, the order of the checks included.
  ghost predicate AnswersAgent(s: Sys, rules: seq<string>, verb: Verb, path: string, metadata: bool,
                               reply: Result<Reply, Error>) {
    if !Paths.PlainPath(path) then reply == Err(BadRequest)
    else if !Paths.Grants(rules, path) || verb != GET then reply == Err(Forbidden)
    else if s.key == [] then reply == Err(Locked)
    else if !Live(s.db, path) then reply == Err(NotFound)
    else reply.Ok? && if metadata then ShowsRecord(s.db.secrets, path, reply.value)
                      else ShowsContent(s.db.secrets, path, reply.value)
  }

  lemma AgentAnswer(s: Sys, dek: Bytes, header: string, verb: Verb, path: string, metadata: bool, d: Draws)
    requires SecretsOk(s.db, dek) && dek != [] && (s.key == [] || s.key == dek)
    ensures var auth := AuthenticateAgent(s.db, header);
            var reply := AgentCall(s.db, s.key, header, verb, path, metadata, d).reply;
            if auth.Err? then reply == Err(Unauthenticated)
            else AnswersAgent(s, auth.value.paths, verb, path, metadata, reply)
  {
    var auth := AuthenticateAgent(s.db, header);
    if auth.Ok? {
      Paths.NormalizeIff(path);
      Paths.AllowedIff(path, auth.value.paths);
      Refinement.LiveDecrypts(s.db, dek, path);
    }
  }

  // Every request of an agent that completes is answered so: nobody's header is
  // not authenticated, and an agent's gets what its rules, the vault and the
  // store allow.
  lemma ReadOutcome(r: Run, i: nat)
    requires IsRun(r) && i < |r.events| && r.events[i].Request? && r.events[i].req.ReadSecret?
    requires r.events[i].fate == Completed
    ensures var ReadSecret(header, verb, path, metadata) := r.events[i].req;
            && ((forall id :: !IsAgent(r, i, header, id)) ==> r.replies[i] == Err(Unauthenticated))
            && forall id :: IsAgent(r, i, header, id) ==>
                 id in r.states[i].db.agents
                 && AnswersAgent(r.states[i], r.states[i].db.agents[id].paths, verb, path, metadata, r.replies[i])
  {
    RunOk(r, i);
    assert StepAt(r, i);
    var s := r.states[i];
    var ReadSecret(header, verb, path, metadata) := r.events[i].req;
    AgentAnswer(s, r.dek, header, verb, path, metadata, r.events[i].draws);
    var auth := AuthenticateAgent(s.db, header);
    forall id ensures IsAgent(r, i, header, id) <==> auth.Ok? && auth.value.id == id {
      AgentTokenIff(r, i, header, id);
    }
    assert auth.Ok? ==> IsAgent(r, i, header, auth.value.id);
  }

  // What a read shows, told from the history alone: the value v exactly if the
  // header is that of an agent whose rules grant the path, the vault is open, and
  // v was written there with success and not replaced or deleted since.
  lemma ReadShowsIff(r: Run, i: nat, value: string)
    requires IsRun(r) && i < |r.events| && r.events[i].Request? && r.events[i].req.ReadSecret?
    requires r.events[i].fate == Completed && r.events[i].req.verb == GET && !r.events[i].req.metadata
    ensures var ReadSecret(header, _, path, _) := r.events[i].req;
            (r.replies[i].Ok? && r.replies[i].value.ValueView? && r.replies[i].value.value == value) <==>
              && Paths.PlainPath(path) && r.states[i].key != []
              && Since(Writings(r, path, value), Replacings(r, path, value), i)
              && exists id :: IsAgent(r, i, header, id) && id in r.states[i].db.agents
                              && Paths.Grants(r.states[i].db.agents[id].paths, path)
  {
    RunOk(r, i);
    ReadOutcome(r, i);
    var path := r.events[i].req.path;
    ValueIff(r, i, path, value);
    var record := Row(r.states[i].db.secrets, path);
    assert Live(r.states[i].db, path) ==> Seals(record, r.dek, path, record.value.ciphertext.value.plain);
  }

  // ---- writers ----

  ghost predicate AnswersWriter(s: Sys, c: Writer, verb: Verb, path: string, body: Body, reply: Result<Reply, Error>) {
    if !Paths.PlainPath(path) then reply == Err(BadRequest)
    else if !Paths.Grants(c.paths, path) then reply == Err(Forbidden)
    else if verb != POST then reply == Err(MethodNotAllowed)
    else if s.key == [] then reply == Err(Locked)
    else if !Live(s.db, path) && !c.allowCreate then reply == Err(NotFound)
    else if !body.Value? then reply == Err(BadRequest)
    else reply.Ok?
  }

  lemma WriterAnswer(s: Sys, dek: Bytes, header: string, verb: Verb, path: string, body: Body, d: Draws)
    requires SecretsOk(s.db, dek) && dek != [] && (s.key == [] || s.key == dek)
    ensures var auth := AuthenticateWriter(s.db, header);
            var reply := WriteCall(s.db, s.key, header, verb, path, body, d).reply;
            if auth.Err? then reply == Err(Unauthenticated)
            else AnswersWriter(s, auth.value, verb, path, body, reply)
  {
    var auth := AuthenticateWriter(s.db, header);
    if auth.Ok? {
      Paths.NormalizeIff(path);
      Paths.AllowedIff(path, auth.value.paths);
      Refinement.LiveDecrypts(s.db, dek, path);
    }
  }

  // The same for writers. That a write answered with success is what the secret
  // then holds is the business of ValueIff.
  lemma WriteOutcome(r: Run, i: nat)
    requires IsRun(r) && i < |r.events| && r.events[i].Request? && r.events[i].req.WriteSecret?
    requires r.events[i].fate == Completed
    ensures var WriteSecret(header, verb, path, body) := r.events[i].req;
            && ((forall id :: !IsWriter(r, i, header, id)) ==> r.replies[i] == Err(Unauthenticated))
            && forall id :: IsWriter(r, i, header, id) ==>
                 id in r.states[i].db.writers
                 && AnswersWriter(r.states[i], r.states[i].db.writers[id], verb, path, body, r.replies[i])
  {
    RunOk(r, i);
    assert StepAt(r, i);
    var s := r.states[i];
    var WriteSecret(header, verb, path, body) := r.events[i].req;
    WriterAnswer(s, r.dek, header, verb, path, body, r.events[i].draws);
    var auth := AuthenticateWriter(s.db, header);
    forall id ensures IsWriter(r, i, header, id) <==> auth.Ok? && auth.value.id == id {
      WriterTokenIff(r, i, header, id);
    }
    assert auth.Ok? ==> IsWriter(r, i, header, auth.value.id);
  }

  // ---- setup ----

  // Setup succeeds exactly on an installation that does not exist yet, with a
  // name, a password and a passphrase of sufficient length. The administrator
  // then has that password, and that passphrase alone opens the envelope.
  lemma SetupSucceedsIff(db: Db, name: string, password: string, master: string, dek: Bytes, d: Draws)
    ensures var o := SetupCall(db, name, password, master, dek, d);
            && (o.Ok? <==> GoodName(name) && GoodPassword(password) && Utf8Len(master) >= 16 && db.envelope.None?)
            && (o.Ok? ==>
                  && o.value == db.(envelope := o.value.envelope, admins := o.value.admins)
                  && o.value.admins == db.admins[name := Admin(name, Bcrypt(password))]
                  && o.value.envelope.Some? && Sealing.Hides(o.value.envelope.value, dek, master))
  {
    NameIff(name);
    Sealing.WrapHides(master, dek, d.salt, d.nonce);
  }
}
