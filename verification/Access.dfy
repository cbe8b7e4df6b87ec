// Who gets through, over whole runs of the server: the exact conditions under
// which an agent reads, a writer writes and an administrator acts, and where
// the permissions they are held to come from.
module Access {
  import opened Base
  import opened Records
  import opened Service
  import opened Invariant
  import opened Runs
  import opened Identities
  import Paths
  import Refinement
  import PlainStore

  // Some rule of the list grants the path, component by component.
  ghost predicate Granted(path: string, rules: seq<string>) {
    exists rule :: rule in rules && Paths.Covers(Paths.Meaning(rule), Paths.Split(path))
  }

  ghost predicate MayRead(db: Db, header: string, path: string) {
    exists id :: id in db.agents && HoldsToken(db.agents[id], header) && Granted(path, db.agents[id].paths)
  }

  // A writer may create only where its credential says so.
  ghost predicate MayWrite(db: Db, header: string, path: string) {
    exists id :: id in db.writers && WriterHoldsToken(db.writers[id], header) && Granted(path, db.writers[id].paths)
                 && (Live(db, path) || db.writers[id].allowCreate)
  }

  lemma AllowedIsGranted(path: string, rules: seq<string>)
    ensures Paths.Allowed(path, rules) <==> Paths.Normalize(path).Ok? && Granted(path, rules)
  {
    Paths.AllowedByComponents(path, rules);
  }

  lemma MayReadIs(db: Db, drawn: set<string>, header: string, path: string)
    requires IdentityOk(db, drawn) && Paths.Normalize(path).Ok?
    ensures var auth := AuthenticateAgent(db, header);
            MayRead(db, header, path) <==> auth.Ok? && Paths.Allowed(path, auth.value.paths)
  {
    AgentIndexIsScan(db, drawn, header);
    var auth := AuthenticateAgent(db, header);
    if auth.Ok? {
      AllowedIsGranted(path, auth.value.paths);
    }
  }

  lemma MayWriteIs(db: Db, drawn: set<string>, header: string, path: string)
    requires IdentityOk(db, drawn) && Paths.Normalize(path).Ok?
    ensures var auth := AuthenticateWriter(db, header);
            MayWrite(db, header, path) <==>
              auth.Ok? && Paths.Allowed(path, auth.value.paths) && (Live(db, path) || auth.value.allowCreate)
  {
    WriterIndexIsScan(db, drawn, header);
    var auth := AuthenticateWriter(db, header);
    if auth.Ok? {
      AllowedIsGranted(path, auth.value.paths);
    }
  }

  // At any moment of a run a read by bearer token succeeds exactly if the token
  // is that of an unrevoked agent, one of that agent's rules covers the path,
  // the vault is unlocked and the secret is there.
  lemma ReadSucceedsIff(r: Run, i: nat, header: string, verb: Verb, path: string, metadata: bool, d: Draws)
    requires IsRun(r) && i < |r.states|
    ensures var s := r.states[i];
            AgentCall(s.db, s.key, header, verb, path, metadata, d).reply.Ok? <==>
              && Paths.Normalize(path).Ok? && MayRead(s.db, header, path)
              && verb == GET && s.key != [] && Live(s.db, path)
  {
    RunOk(r, i);
    var s := r.states[i];
    if Paths.Normalize(path).Ok? {
      MayReadIs(s.db, s.drawn, header, path);
      ReadingSucceedsIff(s.db, s.key, r.dek, path, metadata, d);
    }
  }

  lemma ReadingSucceedsIff(db: Db, key: Bytes, dek: Bytes, path: string, metadata: bool, d: Draws)
    requires SecretsOk(db, dek) && dek != [] && (key == [] || key == dek)
    ensures SecretCall(db, key, GET, path, metadata, NoValue, d).reply.Ok? <==>
              Paths.Normalize(path).Ok? && key != [] && Live(db, path)
  {
    Refinement.LiveDecrypts(db, dek, path);
  }

  lemma StoringSucceedsIff(db: Db, key: Bytes, dek: Bytes, verb: Verb, path: string, body: Body, d: Draws)
    requires SecretsOk(db, dek) && (key == [] || key == dek) && (verb == POST || verb == PUT)
    ensures SecretCall(db, key, verb, path, false, body, d).reply.Ok? <==>
              Paths.Normalize(path).Ok? && key != [] && body.Value? && (Live(db, path) <==> verb == PUT)
  {
    if key != [] {
      Refinement.LiveDecrypts(db, dek, path);
    }
  }

  // And a write by bearer token exactly if the token is that of an unrevoked
  // writer whose rules cover the path, and the secret is there or the writer
  // may create it.
  lemma WriteSucceedsIff(r: Run, i: nat, header: string, verb: Verb, path: string, body: Body, d: Draws)
    requires IsRun(r) && i < |r.states|
    ensures var s := r.states[i];
            WriteCall(s.db, s.key, header, verb, path, body, d).reply.Ok? <==>
              && Paths.Normalize(path).Ok? && MayWrite(s.db, header, path)
              && verb == POST && s.key != [] && body.Value?
  {
    RunOk(r, i);
    var s := r.states[i];
    if Paths.Normalize(path).Ok? {
      MayWriteIs(s.db, s.drawn, header, path);
      StoringSucceedsIff(s.db, s.key, r.dek, POST, path, body, d);
      StoringSucceedsIff(s.db, s.key, r.dek, PUT, path, body, d);
    }
  }

  // ---- where permissions come from ----

  // The rules a completed request gives this agent, if any.
  function RulesSet(req: Request, reply: Result<Reply, Error>, id: string): Option<seq<string>> {
    if reply.Err? || !req.Administer? then None
    else
      match req.op
      case CreateAgent(_, paths) => if reply.value.AgentView? && reply.value.agent.id == id then Some(paths) else None
      case SetAgentPaths(agentId, paths) => if agentId == id then Some(paths) else None
      case _ => None
  }

  // The rules, and the right to create, that it gives this writer.
  function WriterRulesSet(req: Request, reply: Result<Reply, Error>, id: string): Option<seq<string>> {
    if reply.Err? || !req.Administer? then None
    else
      match req.op
      case CreateWriter(_, paths, _) => if reply.value.WriterIssued? && reply.value.id == id then Some(paths) else None
      case EditWriter(writerId, newPaths, _) => if writerId == id then newPaths else None
      case _ => None
  }

  function CreationSet(req: Request, reply: Result<Reply, Error>, id: string): Option<bool> {
    if reply.Err? || !req.Administer? then None
    else
      match req.op
      case CreateWriter(_, _, allow) => if reply.value.WriterIssued? && reply.value.id == id then Some(allow) else None
      case EditWriter(writerId, _, newAllowCreate) => if writerId == id then newAllowCreate else None
      case _ => None
  }

  // An agent's rules after a request are those it gives, or as before.
  ghost predicate AgentFollows(agents: Agents, agents': Agents, set': Option<seq<string>>, id: string) {
    id in agents' ==>
      && (set'.None? ==> id in agents)
      && agents'[id].paths == if set'.Some? then set'.value else agents[id].paths
  }

  ghost predicate WriterFollows(writers: Writers, writers': Writers,
                                rules: Option<seq<string>>, allow: Option<bool>, id: string) {
    id in writers' ==>
      && (rules.None? || allow.None? ==> id in writers)
      && writers'[id].paths == (if rules.Some? then rules.value else writers[id].paths)
      && writers'[id].allowCreate == if allow.Some? then allow.value else writers[id].allowCreate
  }

  ghost predicate PermissionsFollow(db: Db, e: Effect, req: Request, id: string) {
    && AgentFollows(db.agents, e.db.agents, RulesSet(req, e.reply, id), id)
    && WriterFollows(db.writers, e.db.writers, WriterRulesSet(req, e.reply, id), CreationSet(req, e.reply, id), id)
  }

  lemma OtherRecordsFrame(s: Sys, session: Session, cookie: string, op: AdminOp, d: Draws)
    requires || op.Logout? || op.CreateEnrollment? || op.DeleteEnrollment?
             || op.SetAdministrator? || op.DeleteAdministrator?
    ensures RecordsCall(s, session, cookie, op, d).db.agents == s.db.agents
    ensures RecordsCall(s, session, cookie, op, d).db.writers == s.db.writers
  {
  }

  lemma OtherCallsFrame(s: Sys, session: Session, cookie: string, op: AdminOp, d: Draws)
    requires !op.CreateAgent? && !op.SetAgentPaths? && !op.RevokeAgent? && !op.PurgeAgent?
    requires !op.CreateWriter? && !op.EditWriter? && !op.RevokeWriter?
    ensures AdminCall(s, session, cookie, op, d).db.agents == s.db.agents
    ensures AdminCall(s, session, cookie, op, d).db.writers == s.db.writers
  {
    match op {
      case Unlock(_) =>
      case Lock =>
      case ChangeMaster(_, _) =>
      case SecretAt(verb, path, body) => SecretFrame(s.db, s.key, verb, path, false, body, d);
      case _ => OtherRecordsFrame(s, session, cookie, op, d);
    }
  }

  lemma AgentCallsFollow(s: Sys, session: Session, cookie: string, req: Request, d: Draws, id: string)
    requires Keyed(s.db) && req.Administer?
    requires req.op.CreateAgent? || req.op.SetAgentPaths? || req.op.RevokeAgent? || req.op.PurgeAgent?
    ensures PermissionsFollow(s.db, AdminCall(s, session, cookie, req.op, d), req, id)
  {
    match req.op {
      case CreateAgent(_, _) =>
      case SetAgentPaths(_, _) =>
      case RevokeAgent(_) =>
      case PurgeAgent(_) =>
    }
  }

  lemma WriterPut(writers: Writers, c: Writer, paths: Option<seq<string>>, allow: Option<bool>, id: string)
    requires c.id in writers
    requires c.paths == if paths.Some? then paths.value else writers[c.id].paths
    requires c.allowCreate == if allow.Some? then allow.value else writers[c.id].allowCreate
    ensures var mine := c.id == id;
            WriterFollows(writers, writers[c.id := c], if mine then paths else None, if mine then allow else None, id)
  {
  }

  lemma EditedWriter(db: Db, writerId: string, paths: Option<seq<string>>, allow: Option<bool>, id: string)
    requires Keyed(db)
    ensures var o := EditWriterCall(db, writerId, paths, allow);
            var mine := o.reply.Ok? && writerId == id;
            && o.db.agents == db.agents
            && WriterFollows(db.writers, o.db.writers, if mine then paths else None, if mine then allow else None, id)
  {
    var o := EditWriterCall(db, writerId, paths, allow);
    if o.reply.Ok? {
      var c := db.writers[writerId];
      WriterPut(db.writers, c.(paths := if paths.Some? then paths.value else c.paths,
                               allowCreate := if allow.Some? then allow.value else c.allowCreate), paths, allow, id);
    }
  }

  lemma RevokedWriter(db: Db, writerId: string, id: string)
    requires Keyed(db)
    ensures var o := RevokeWriterCall(db, writerId);
            o.db.agents == db.agents && WriterFollows(db.writers, o.db.writers, None, None, id)
  {
    if writerId in db.writers {
      WriterPut(db.writers, db.writers[writerId].(revoked := true), None, None, id);
    }
  }

  lemma WriterCallsFollow(s: Sys, session: Session, cookie: string, req: Request, d: Draws, id: string)
    requires Keyed(s.db) && req.Administer?
    requires req.op.CreateWriter? || req.op.EditWriter? || req.op.RevokeWriter?
    ensures PermissionsFollow(s.db, AdminCall(s, session, cookie, req.op, d), req, id)
  {
    match req.op {
      case CreateWriter(_, _, _) =>
      case EditWriter(writerId, paths, allow) => EditedWriter(s.db, writerId, paths, allow, id);
      case RevokeWriter(writerId) => RevokedWriter(s.db, writerId, id);
    }
  }

  lemma AdminCallFollows(s: Sys, session: Session, cookie: string, req: Request, d: Draws, id: string)
    requires Keyed(s.db) && req.Administer?
    ensures PermissionsFollow(s.db, AdminCall(s, session, cookie, req.op, d), req, id)
  {
    if req.op.CreateAgent? || req.op.SetAgentPaths? || req.op.RevokeAgent? || req.op.PurgeAgent? {
      AgentCallsFollow(s, session, cookie, req, d, id);
    } else if req.op.CreateWriter? || req.op.EditWriter? || req.op.RevokeWriter? {
      WriterCallsFollow(s, session, cookie, req, d, id);
    } else {
      OtherCallsFrame(s, session, cookie, req.op, d);
    }
  }

  lemma EnrollKeepsRules(db: Db, token: string, d: Draws, id: string)
    requires Keyed(db) && id in EnrollCall(db, token, d).db.agents
    requires forall h :: h in db.enrollment ==> db.enrollment[h].agentId in db.agents
    ensures id in db.agents && EnrollCall(db, token, d).db.agents[id].paths == db.agents[id].paths
    ensures EnrollCall(db, token, d).db.writers == db.writers
  {
  }

  lemma AdministerFollows(s: Sys, req: Request, ttl: int, d: Draws, id: string)
    requires Keyed(s.db) && req.Administer?
    ensures PermissionsFollow(s.db, Handle(s, req, ttl, d), req, id)
  {
    var auth := AuthenticateAdmin(s.db, req.cookie, req.csrf, IsRead(req.op), d.now);
    if auth.Ok? { AdminCallFollows(s, auth.value, req.cookie.value, req, d, id); }
  }

  lemma HandleFollows(s: Sys, req: Request, ttl: int, d: Draws, id: string)
    requires IdentityOk(s.db, s.drawn)
    ensures PermissionsFollow(s.db, Handle(s, req, ttl, d), req, id)
  {
    match req {
      case Login(_, _) => UntouchedFollows(s.db, Handle(s, req, ttl, d), req, id);
      case Enroll(_) => EnrollFollows(s, req, ttl, d, id);
      case Administer(_, _, _) => AdministerFollows(s, req, ttl, d, id);
      case WriteSecret(header, verb, path, body) =>
        WriteFrame(s, header, verb, path, body, d);
        UntouchedFollows(s.db, Handle(s, req, ttl, d), req, id);
      case ReadSecret(header, verb, path, metadata) =>
        ReadsChangeNothing(s, header, verb, path, metadata, d);
        UntouchedFollows(s.db, Handle(s, req, ttl, d), req, id);
    }
  }

  lemma EnrollFollows(s: Sys, req: Request, ttl: int, d: Draws, id: string)
    requires IdentityOk(s.db, s.drawn) && req.Enroll?
    ensures PermissionsFollow(s.db, Handle(s, req, ttl, d), req, id)
  {
    if id in EnrollCall(s.db, req.token, d).db.agents {
      EnrollKeepsRules(s.db, req.token, d, id);
    }
  }

  lemma UntouchedFollows(db: Db, e: Effect, req: Request, id: string)
    requires !req.Administer? && e.db.agents == db.agents && e.db.writers == db.writers
    ensures PermissionsFollow(db, e, req, id)
  {
  }

  // The same of an event of a run.
  function RulesSetAt(r: Run, i: nat, id: string): Option<seq<string>>
    requires i < |r.events| == |r.replies|
  {
    if r.events[i].Request? then RulesSet(r.events[i].req, r.replies[i], id) else None
  }

  function WriterRulesSetAt(r: Run, i: nat, id: string): Option<seq<string>>
    requires i < |r.events| == |r.replies|
  {
    if r.events[i].Request? then WriterRulesSet(r.events[i].req, r.replies[i], id) else None
  }

  function CreationSetAt(r: Run, i: nat, id: string): Option<bool>
    requires i < |r.events| == |r.replies|
  {
    if r.events[i].Request? then CreationSet(r.events[i].req, r.replies[i], id) else None
  }

  lemma PermissionsStep(r: Run, i: nat, id: string)
    requires IsRun(r) && i < |r.events|
    ensures AgentFollows(r.states[i].db.agents, r.states[i + 1].db.agents, RulesSetAt(r, i, id), id)
    ensures WriterFollows(r.states[i].db.writers, r.states[i + 1].db.writers,
                          WriterRulesSetAt(r, i, id), CreationSetAt(r, i, id), id)
  {
    RunOk(r, i);
    assert StepAt(r, i);
    var ev := r.events[i];
    if ev.Request? && ev.fate == Completed {
      HandleFollows(r.states[i], ev.req, r.ttl, ev.draws, id);
    }
  }

  // The rules an agent is held to are those of the latest completed creation or
  // change, and no other request of whatever kind has altered them.
  lemma {:induction false} RulesOrigin(r: Run, i: nat, id: string) returns (k: nat)
    requires IsRun(r) && i < |r.states| && id in r.states[i].db.agents
    ensures k < i && RulesSetAt(r, k, id) == Some(r.states[i].db.agents[id].paths)
    ensures forall m :: k < m < i ==> RulesSetAt(r, m, id).None?
  {
    assert i > 0;
    PermissionsStep(r, i - 1, id);
    k := i - 1;
    if RulesSetAt(r, i - 1, id).None? {
      k := RulesOrigin(r, i - 1, id);
    }
  }

  // So are a writer's, and its right to create is that of the latest request
  // that mentioned it: an edit that omits one leaves it alone.
  lemma {:induction false} WriterRulesOrigin(r: Run, i: nat, id: string) returns (k: nat)
    requires IsRun(r) && i < |r.states| && id in r.states[i].db.writers
    ensures k < i && WriterRulesSetAt(r, k, id) == Some(r.states[i].db.writers[id].paths)
    ensures forall m :: k < m < i ==> WriterRulesSetAt(r, m, id).None?
  {
    assert i > 0;
    PermissionsStep(r, i - 1, id);
    k := i - 1;
    if WriterRulesSetAt(r, i - 1, id).None? {
      k := WriterRulesOrigin(r, i - 1, id);
    }
  }

  lemma {:induction false} CreationOrigin(r: Run, i: nat, id: string) returns (k: nat)
    requires IsRun(r) && i < |r.states| && id in r.states[i].db.writers
    ensures k < i && CreationSetAt(r, k, id) == Some(r.states[i].db.writers[id].allowCreate)
    ensures forall m :: k < m < i ==> CreationSetAt(r, m, id).None?
  {
    assert i > 0;
    PermissionsStep(r, i - 1, id);
    k := i - 1;
    if CreationSetAt(r, i - 1, id).None? {
      k := CreationOrigin(r, i - 1, id);
    }
  }

  // ---- administrators ----

  // A completed administrative request was sent with the cookie of a login that
  // used the password its administrator has to this day, within the session's
  // time, and with the session's own token unless it only read.
  lemma AdministrationNeedsLogin(r: Run, i: nat) returns (k: nat, s: Session)
    requires IsRun(r) && i < |r.events| && r.events[i].Request? && r.events[i].req.Administer? && r.replies[i].Ok?
    ensures r.events[i].req.cookie == Some(s.hash.token) && r.events[i].draws.now < s.expires
    ensures IsRead(r.events[i].req.op) || r.events[i].req.csrf == s.csrf
    ensures k < i && Opens(r, k, s) && s.admin in r.states[i].db.admins
    ensures r.states[i].db.admins[s.admin].password == Bcrypt(r.events[k].req.password)
    ensures forall m :: k < m < i ==> !ChangesPassword(r, m, s.admin)
  {
    RunOk(r, i);
    assert StepAt(r, i);
    var ev := r.events[i];
    var h := Digest(ev.req.cookie.value);
    s := r.states[i].db.sessions[h];
    k := SessionOrigin(r, i, h);
  }

  lemma SessionGoneStep(r: Run, i: nat, h: Digest)
    requires IsRun(r) && i < |r.events|
    requires h.token in r.states[i].drawn && h !in r.states[i].db.sessions
    ensures h.token in r.states[i + 1].drawn && h !in r.states[i + 1].db.sessions
  {
    assert StepAt(r, i);
    if h in r.states[i + 1].db.sessions {
      var isNew := SessionStep(r, i, h);
      FreshCookie(r, i, h);
    }
  }

  lemma {:induction false} SessionGoneStays(r: Run, i: nat, j: nat, h: Digest)
    requires IsRun(r) && i <= j < |r.states|
    requires h.token in r.states[i].drawn && h !in r.states[i].db.sessions
    ensures h.token in r.states[j].drawn && h !in r.states[j].db.sessions
  {
    if i < j {
      SessionGoneStays(r, i, j - 1, h);
      SessionGoneStep(r, j - 1, h);
    }
  }

  lemma FreshCookie(r: Run, i: nat, h: Digest)
    requires IsRun(r) && i < |r.events| && r.events[i].Request? && r.events[i].req.Login?
    requires r.replies[i].Ok? && r.replies[i].value.LoggedIn? && r.replies[i].value.cookie == h.token
    ensures h.token !in r.states[i].drawn
  {
    assert StepAt(r, i);
  }

  // Whoever has logged out is out: no later request with that cookie succeeds.
  lemma LogoutIsPermanent(r: Run, i: nat, j: nat)
    requires IsRun(r) && i < j < |r.events|
    requires r.events[i].Request? && r.events[i].req.Administer? && r.events[i].req.op.Logout? && r.replies[i].Ok?
    requires r.events[j].Request? && r.events[j].req.Administer? && r.events[j].req.cookie == r.events[i].req.cookie
    ensures r.replies[j].Err?
  {
    RunOk(r, i);
    assert StepAt(r, i);
    var h := Digest(r.events[i].req.cookie.value);
    SessionGoneStays(r, i + 1, j, h);
    assert StepAt(r, j);
  }

  // The password a completed request gives this administrator, if any.
  function PasswordSetAt(r: Run, i: nat, name: string): Option<string>
    requires i < |r.events| == |r.replies|
  {
    var ev := r.events[i];
    if ev.Request? && ev.req.Administer? && ev.req.op.SetAdministrator? && ev.req.op.name == name && r.replies[i].Ok?
    then Some(ev.req.op.password) else None
  }

  ghost predicate PasswordFollows(admins: map<string, Admin>, admins': map<string, Admin>,
                                  name: string, set': Option<string>) {
    name in admins' ==>
      if set'.Some? then admins'[name].password == Bcrypt(set'.value)
      else name in admins && admins'[name].password == admins[name].password
  }

  lemma AdminsFrame(s: Sys, session: Session, cookie: string, op: AdminOp, d: Draws)
    requires !op.SetAdministrator? && !op.DeleteAdministrator?
    ensures AdminCall(s, session, cookie, op, d).db.admins == s.db.admins
  {
    if !op.Logout? {
      AdminTablesFrame(s, session, cookie, op, d);
    }
  }

  lemma HandlePasswords(s: Sys, req: Request, ttl: int, d: Draws, name: string)
    ensures var e := Handle(s, req, ttl, d);
            var mine := req.Administer? && req.op.SetAdministrator? && req.op.name == name && e.reply.Ok?;
            PasswordFollows(s.db.admins, e.db.admins, name, if mine then Some(req.op.password) else None)
  {
    match req {
      case Login(_, _) =>
      case Enroll(_) =>
      case Administer(cookie, csrf, op) =>
        var auth := AuthenticateAdmin(s.db, cookie, csrf, IsRead(op), d.now);
        if auth.Ok? && !op.SetAdministrator? && !op.DeleteAdministrator? {
          AdminsFrame(s, auth.value, cookie.value, op, d);
        }
      case WriteSecret(header, verb, path, body) => WriteFrame(s, header, verb, path, body, d);
      case ReadSecret(header, verb, path, metadata) => ReadsChangeNothing(s, header, verb, path, metadata, d);
    }
  }

  lemma PasswordStep(r: Run, i: nat, name: string)
    requires IsRun(r) && i < |r.events|
    ensures PasswordFollows(r.states[i].db.admins, r.states[i + 1].db.admins, name, PasswordSetAt(r, i, name))
  {
    RunOk(r, i);
    assert StepAt(r, i);
    var ev := r.events[i];
    if ev.Request? && ev.fate == Completed {
      HandlePasswords(r.states[i], ev.req, r.ttl, ev.draws, name);
    }
  }

  // An administrator's password is the one last set for that name, or has been
  // the same since setup.
  lemma {:induction false} PasswordOrigin(r: Run, i: nat, name: string) returns (k: Option<nat>)
    requires IsRun(r) && i < |r.states| && name in r.states[i].db.admins
    ensures if k.Some?
            then k.value < i && PasswordSetAt(r, k.value, name).Some?
                 && r.states[i].db.admins[name].password == Bcrypt(PasswordSetAt(r, k.value, name).value)
            else && name in r.states[0].db.admins
                 && r.states[i].db.admins[name].password == r.states[0].db.admins[name].password
    ensures forall m :: (if k.Some? then k.value + 1 else 0) <= m < i ==> PasswordSetAt(r, m, name).None?
  {
    k := None;
    if i > 0 {
      PasswordStep(r, i - 1, name);
      if PasswordSetAt(r, i - 1, name).Some? {
        k := Some(i - 1);
      } else {
        k := PasswordOrigin(r, i - 1, name);
      }
    }
  }

  // ---- what replies withhold ----

  // No ciphertext, no hash of an agent's credential, and no token or session
  // but the one drawn for this very request.
  ghost predicate Withholds(reply: Result<Reply, Error>, d: Draws) {
    reply.Ok? ==>
      match reply.value
      case SecretView(record) => record.ciphertext.None?
      case AgentView(agent) => agent.hash.None?
      case LoggedIn(session, cookie) => cookie == d.token && session.hash == Digest(cookie)
      case Enrolled(_, token) => token == d.token
      case Issued(_, _, token, _) => token == d.token
      case WriterIssued(_, token) => token == d.token
      case _ => true
  }

  predicate AsksForValue(req: Request) {
    (req.ReadSecret? && !req.metadata) || (req.Administer? && req.op.SecretAt? && req.op.verb == GET)
  }

  ghost predicate ShowsValue(reply: Result<Reply, Error>) {
    reply.Ok? && reply.value.ValueView?
  }

  lemma SecretCallWithholds(db: Db, key: Bytes, verb: Verb, path: string, metadata: bool, body: Body, d: Draws)
    ensures var reply := SecretCall(db, key, verb, path, metadata, body, d).reply;
            Withholds(reply, d) && (ShowsValue(reply) ==> verb == GET && !metadata)
  {
  }

  lemma RecordsWithhold(s: Sys, session: Session, cookie: string, op: AdminOp, d: Draws)
    requires !op.Unlock? && !op.Lock? && !op.ChangeMaster?
    ensures var reply := RecordsCall(s, session, cookie, op, d).reply;
            Withholds(reply, d) && (ShowsValue(reply) ==> op.SecretAt? && op.verb == GET)
  {
    match op {
      case SecretAt(verb, path, body) => SecretCallWithholds(s.db, s.key, verb, path, false, body, d);
      case _ =>
    }
  }

  lemma AdminCallWithholds(s: Sys, session: Session, cookie: string, op: AdminOp, d: Draws)
    ensures var reply := AdminCall(s, session, cookie, op, d).reply;
            Withholds(reply, d) && (ShowsValue(reply) ==> op.SecretAt? && op.verb == GET)
  {
    if !op.Unlock? && !op.Lock? && !op.ChangeMaster? {
      RecordsWithhold(s, session, cookie, op, d);
    }
  }

  lemma WriteCallWithholds(db: Db, key: Bytes, header: string, verb: Verb, path: string, body: Body, d: Draws)
    ensures var reply := WriteCall(db, key, header, verb, path, body, d).reply;
            Withholds(reply, d) && !ShowsValue(reply)
  {
    var auth := AuthenticateWriter(db, header);
    if auth.Ok? {
      var verb := if auth.value.allowCreate && !Live(db, path) then POST else PUT;
      SecretCallWithholds(db, key, verb, path, false, body, d);
    }
  }

  lemma AgentCallWithholds(db: Db, key: Bytes, header: string, verb: Verb, path: string, metadata: bool, d: Draws)
    ensures var reply := AgentCall(db, key, header, verb, path, metadata, d).reply;
            Withholds(reply, d) && (ShowsValue(reply) ==> !metadata)
  {
    SecretCallWithholds(db, key, GET, path, metadata, NoValue, d);
  }

  // Whatever the request, its reply carries no ciphertext, no hash of an agent's
  // credential and nobody else's token, and a value is shown only to one who
  // asked to read it: never to a writer, never with metadata.
  lemma RepliesWithhold(s: Sys, req: Request, ttl: int, d: Draws)
    ensures var reply := Handle(s, req, ttl, d).reply;
            && Withholds(reply, d)
            && (ShowsValue(reply) ==> AsksForValue(req))
  {
    match req {
      case Login(_, _) =>
      case Enroll(_) =>
      case Administer(cookie, csrf, op) =>
        var auth := AuthenticateAdmin(s.db, cookie, csrf, IsRead(op), d.now);
        if auth.Ok? { AdminCallWithholds(s, auth.value, cookie.value, op, d); }
      case WriteSecret(header, verb, path, body) => WriteCallWithholds(s.db, s.key, header, verb, path, body, d);
      case ReadSecret(header, verb, path, metadata) => AgentCallWithholds(s.db, s.key, header, verb, path, metadata, d);
    }
  }

  // ---- what a read returns ----

  // A reply that shows a value answers a read of that path by somebody who is
  // let through.
  lemma ValueCommand(s: Sys, ttl: int, ev: Event)
    requires ShowsValue(ReplyTo(s, ttl, ev))
    ensures var c := Refinement.CommandOf(s, ev);
            c.Some? && c.value.verb == GET && !c.value.metadata && c.value.path == ReplyTo(s, ttl, ev).value.path
  {
    RepliesWithhold(s, ev.req, ttl, ev.draws);
    if ev.req.Administer? {
      assert AuthenticateAdmin(s.db, ev.req.cookie, ev.req.csrf, true, ev.draws.now).Ok?;
    }
  }

  // Whatever value a reply shows, at whatever moment of a run: some earlier
  // completed write put exactly it there, was answered with the very revision
  // the reply shows, and nothing has touched the path since.
  lemma ReadReturnsLastWrite(r: Run, i: nat) returns (k: nat)
    requires IsRun(r) && i < |r.events| && ShowsValue(r.replies[i])
    ensures k < i && Refinement.CommandOf(r.states[k], r.events[k]).Some?
    ensures var c, shown := Refinement.CommandOf(r.states[k], r.events[k]).value, r.replies[i].value;
            && c.path == shown.path && (c.verb == POST || c.verb == PUT) && c.body == Value(shown.value)
            && Refinement.Seen(r.replies[k]) == Ok(PlainStore.AtRevision(shown.revision))
            && forall j: nat :: k < j <= i ==>
                 PlainStore.CellAt(PlainAt(r, j), shown.path) == PlainStore.Cell(shown.revision, Some(shown.value))
  {
    assert StepAt(r, i);
    ValueCommand(r.states[i], r.ttl, r.events[i]);
    CallsAnswerAsPlainMap(r, i);
    var c := Refinement.CommandOf(r.states[i], r.events[i]).value;
    PlainStore.ReadReturnsCell(PlainAt(r, i), r.states[i].key == [], c);
    k := ReadsLastWrite(r, i, c.path);
  }
}
