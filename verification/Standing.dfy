// What is good at a moment of a run, told from the history of requests and
// replies alone: sessions, passwords, tokens, enrollments and values. Each
// statement goes both ways.
module Standing {
  import opened Base
  import opened Records
  import opened Service
  import opened Invariant
  import opened Runs
  import opened Ledger
  import Identities
  import Access
  import Limiter
  import Refinement
  import Paths

  // Some event before number i was of the first kind, and none between it and
  // number i was of the second.
  ghost predicate Since(starts: nat -> bool, ends: nat -> bool, i: nat) {
    exists k: nat :: k < i && starts(k) && forall j: nat :: k < j < i ==> !ends(j)
  }

  ghost predicate Never(ends: nat -> bool, i: nat) {
    forall j: nat :: j < i ==> !ends(j)
  }

  lemma SinceStep(starts: nat -> bool, ends: nat -> bool, i: nat)
    ensures Since(starts, ends, i + 1) <==> starts(i) || (Since(starts, ends, i) && !ends(i))
    ensures Never(ends, i + 1) <==> Never(ends, i) && !ends(i)
  {
    if Since(starts, ends, i + 1) && !starts(i) {
      var k: nat :| k < i + 1 && starts(k) && forall j: nat :: k < j < i + 1 ==> !ends(j);
      assert k < i && starts(k) && forall j: nat :: k < j < i ==> !ends(j);
    }
    if Since(starts, ends, i) && !ends(i) {
      var k: nat :| k < i && starts(k) && forall j: nat :: k < j < i ==> !ends(j);
      assert k < i + 1 && starts(k) && forall j: nat :: k < j < i + 1 ==> !ends(j);
    }
    if starts(i) {
      assert i < i + 1 && starts(i) && forall j: nat :: i < j < i + 1 ==> !ends(j);
    }
  }

  // ---- the kinds of events ----

  // The event is an administrative operation answered with success.
  ghost predicate Did(r: Run, k: nat, op: AdminOp)
    requires |r.events| == |r.replies|
  {
    k < |r.events| && Succeeds(r, k) && r.events[k].req.Administer? && r.events[k].req.op == op
  }

  // The login that opened this session.
  ghost predicate LogsIn(r: Run, k: nat, s: Session)
    requires |r.events| == |r.replies|
  {
    && k < |r.events| && Succeeds(r, k) && r.events[k].req.Login? && r.events[k].req.name == s.admin
    && r.replies[k].value == LoggedIn(s, s.hash.token) && s.expires == r.events[k].draws.now + r.ttl
  }

  // A change or a removal of this administrator.
  ghost predicate Touches(r: Run, k: nat, name: string)
    requires |r.events| == |r.replies|
  {
    && k < |r.events| && Succeeds(r, k) && r.events[k].req.Administer?
    && var op := r.events[k].req.op;
       (op.SetAdministrator? && op.name == name) || op == DeleteAdministrator(name)
  }

  // A logout of this session, or a change or removal of its administrator.
  ghost predicate Ends(r: Run, k: nat, s: Session)
    requires |r.events| == |r.replies|
  {
    (Did(r, k, Logout) && r.events[k].req.cookie == Some(s.hash.token)) || Touches(r, k, s.admin)
  }

  // The enrollment that gave this agent this token.
  ghost predicate Enrolls(r: Run, k: nat, id: string, token: string)
    requires |r.events| == |r.replies|
  {
    k < |r.events| && Succeeds(r, k) && r.events[k].req.Enroll? && r.replies[k].value == Enrolled(id, token)
  }

  ghost predicate Disables(r: Run, k: nat, id: string)
    requires |r.events| == |r.replies|
  {
    Did(r, k, RevokeAgent(id)) || Did(r, k, PurgeAgent(id))
  }

  // The creation of this writer, with this token.
  ghost predicate CreatesWriter(r: Run, k: nat, id: string, token: string)
    requires |r.events| == |r.replies|
  {
    && k < |r.events| && Succeeds(r, k) && r.events[k].req.Administer? && r.events[k].req.op.CreateWriter?
    && r.replies[k].value == WriterIssued(id, token)
  }

  // The issuance of this enrollment token.
  ghost predicate Issues(r: Run, k: nat, en: Enrollment)
    requires |r.events| == |r.replies|
  {
    && k < |r.events| && Succeeds(r, k) && r.events[k].req.Administer? && r.events[k].req.op.CreateEnrollment?
    && r.replies[k].value == Issued(en.id, en.agentId, en.hash.token, en.expires) && !en.used
    && en.expires == r.events[k].draws.now + r.events[k].req.op.ttl * 1_000_000_000
  }

  // The token or its agent is redeemed, the agent revoked or purged, or the
  // token deleted.
  ghost predicate Spoils(r: Run, k: nat, en: Enrollment)
    requires |r.events| == |r.replies|
  {
    || (k < |r.events| && Succeeds(r, k) && r.events[k].req == Enroll(en.hash.token))
    || (k < |r.events| && Succeeds(r, k) && r.events[k].req.Enroll?
        && r.replies[k].value.Enrolled? && r.replies[k].value.id == en.agentId)
    || Disables(r, k, en.agentId)
    || Did(r, k, DeleteEnrollment(en.id))
  }

  // A write of this value to this path, answered with success.
  ghost predicate Writes(r: Run, k: nat, path: string, value: string)
    requires |r.events| == |r.replies|
  {
    k < |r.events| && Succeeds(r, k) && Put(r.events[k].req, path) == Some(value)
  }

  // A write of another value, or a deletion.
  ghost predicate Replaces(r: Run, k: nat, path: string, value: string)
    requires |r.events| == |r.replies|
  {
    && k < |r.events| && Succeeds(r, k)
    && (Deletes(r.events[k].req, path)
        || (Put(r.events[k].req, path).Some? && Put(r.events[k].req, path) != Some(value)))
  }

  // ---- sessions ----

  ghost function Logins(r: Run, s: Session): nat -> bool
    requires |r.events| == |r.replies|
  {
    (k: nat) => LogsIn(r, k, s)
  }

  ghost function Endings(r: Run, s: Session): nat -> bool
    requires |r.events| == |r.replies|
  {
    (k: nat) => Ends(r, k, s)
  }

  lemma LoginTurn(r: Run, i: nat, s: Session)
    requires IsRun(r) && i < |r.events| && Succeeds(r, i) && r.events[i].req.Login?
    ensures Row(r.states[i + 1].db.sessions, s.hash) == Some(s) <==>
              LogsIn(r, i, s) || Row(r.states[i].db.sessions, s.hash) == Some(s)
  {
    RunOk(r, i);
    RowsStep(r, i, "", s.hash, "");
    RepliesFit(r, i);
  }

  lemma SessionTurn(r: Run, i: nat, s: Session)
    requires IsRun(r) && i < |r.events|
    ensures Row(r.states[i + 1].db.sessions, s.hash) == Some(s) <==>
              LogsIn(r, i, s) || (Row(r.states[i].db.sessions, s.hash) == Some(s) && !Ends(r, i, s))
  {
    if Succeeds(r, i) && r.events[i].req.Login? {
      LoginTurn(r, i, s);
    } else {
      RowsStep(r, i, "", s.hash, "");
    }
  }

  // A session is stored exactly if some login opened it, and since then neither
  // was it logged out nor its administrator changed or removed.
  lemma {:induction false} SessionIff(r: Run, i: nat, s: Session)
    requires IsRun(r) && i < |r.states|
    ensures Row(r.states[i].db.sessions, s.hash) == Some(s) <==> Since(Logins(r, s), Endings(r, s), i)
  {
    if i > 0 {
      SessionIff(r, i - 1, s);
      SessionTurn(r, i - 1, s);
      SinceStep(Logins(r, s), Endings(r, s), i - 1);
    }
  }

  // A cookie lets an administrator through exactly if such a session stands, its
  // time is not over, and the request only reads or brings the session's token.
  lemma SessionAdmits(r: Run, i: nat, cookie: Option<string>, csrf: string, read: bool, now: int)
    requires IsRun(r) && i < |r.states|
    ensures AuthenticateAdmin(r.states[i].db, cookie, csrf, read, now).Ok? <==>
              cookie.Some? && exists s: Session ::
                && s.hash == Digest(cookie.value) && Since(Logins(r, s), Endings(r, s), i)
                && now < s.expires && (read || csrf == s.csrf)
    ensures forall s: Session :: AuthenticateAdmin(r.states[i].db, cookie, csrf, read, now) == Ok(s) ==>
              Since(Logins(r, s), Endings(r, s), i)
  {
    RunOk(r, i);
    var db := r.states[i].db;
    if cookie.Some? {
      var h := Digest(cookie.value);
      if h in db.sessions {
        SessionIff(r, i, db.sessions[h]);
        assert db.sessions[h].hash == h;
      }
      forall s: Session | s.hash == h && Since(Logins(r, s), Endings(r, s), i) ensures Row(db.sessions, h) == Some(s) {
        SessionIff(r, i, s);
      }
    }
  }

  // ---- passwords ----

  ghost function Settings(r: Run, name: string, password: string): nat -> bool
    requires |r.events| == |r.replies|
  {
    (k: nat) => Did(r, k, SetAdministrator(name, password))
  }

  ghost function Touchings(r: Run, name: string): nat -> bool
    requires |r.events| == |r.replies|
  {
    (k: nat) => Touches(r, k, name)
  }

  // The password of this administrator was set last to this, or is that of the
  // setup.
  ghost predicate PasswordStands(r: Run, i: nat, name: string, password: string)
    requires IsRun(r)
  {
    || Since(Settings(r, name, password), Touchings(r, name), i)
    || (Row(r.states[0].db.admins, name) == Some(Admin(name, Bcrypt(password))) && Never(Touchings(r, name), i))
  }

  lemma PasswordTurn(r: Run, i: nat, name: string, password: string)
    requires IsRun(r) && i < |r.events|
    ensures var admin := Some(Admin(name, Bcrypt(password)));
            Row(r.states[i + 1].db.admins, name) == admin <==>
              || Did(r, i, SetAdministrator(name, password))
              || (Row(r.states[i].db.admins, name) == admin && !Touches(r, i, name))
  {
    RowsStep(r, i, "", Digest(""), name);
  }

  lemma {:induction false} PasswordIff(r: Run, i: nat, name: string, password: string)
    requires IsRun(r) && i < |r.states|
    ensures Row(r.states[i].db.admins, name) == Some(Admin(name, Bcrypt(password))) <==>
              PasswordStands(r, i, name, password)
  {
    if i > 0 {
      PasswordIff(r, i - 1, name, password);
      PasswordTurn(r, i - 1, name, password);
      SinceStep(Settings(r, name, password), Touchings(r, name), i - 1);
    }
  }

  // A login that completes succeeds exactly if the limiter lets it pass and the
  // password stands.
  lemma LoginSucceedsIff(r: Run, i: nat)
    requires IsRun(r) && i < |r.events| && r.events[i].Request? && r.events[i].req.Login?
    requires r.events[i].fate == Completed
    ensures var Login(name, password) := r.events[i].req;
            r.replies[i].Ok? <==>
              Limiter.Accepts(r.states[i].limiter, r.events[i].draws.call) && PasswordStands(r, i, name, password)
  {
    RunOk(r, i);
    assert StepAt(r, i);
    PasswordIff(r, i, r.events[i].req.name, r.events[i].req.password);
  }

  // ---- agents' tokens ----

  ghost function Enrollings(r: Run, id: string, token: string): nat -> bool
    requires |r.events| == |r.replies|
  {
    (k: nat) => Enrolls(r, k, id, token)
  }

  ghost function Disablings(r: Run, id: string): nat -> bool
    requires |r.events| == |r.replies|
  {
    (k: nat) => Disables(r, k, id)
  }

  // An agent that is there, not revoked, and holds this token.
  ghost predicate Holds(row: Option<Agent>, token: string) {
    row.Some? && !row.value.revoked && row.value.hash == Some(Digest(token))
  }

  lemma EnrollTurn(r: Run, i: nat, id: string, token: string)
    requires IsRun(r) && i < |r.events| && Succeeds(r, i) && r.events[i].req.Enroll?
    ensures Holds(Row(r.states[i + 1].db.agents, id), token) <==>
              Enrolls(r, i, id, token) || Holds(Row(r.states[i].db.agents, id), token)
  {
    RunOk(r, i);
    RowsStep(r, i, id, Digest(""), "");
    RepliesFit(r, i);
    Identities.RedemptionStep(r, i, r.events[i].req.token, r.replies[i].value.id);
  }

  lemma TokenTurn(r: Run, i: nat, id: string, token: string)
    requires IsRun(r) && i < |r.events|
    ensures Holds(Row(r.states[i + 1].db.agents, id), token) <==>
              Enrolls(r, i, id, token) || (Holds(Row(r.states[i].db.agents, id), token) && !Disables(r, i, id))
  {
    if Succeeds(r, i) && r.events[i].req.Enroll? {
      EnrollTurn(r, i, id, token);
    } else {
      AgentFacts(r, i, id);
      if Succeeds(r, i) {
        TokenRow(Row(r.states[i].db.agents, id), r.events[i].req, r.events[i].draws, r.replies[i].value, id, token);
      }
    }
  }

  // What a step makes of the agent's row, which is not that of a new agent.
  lemma AgentFacts(r: Run, i: nat, id: string)
    requires IsRun(r) && i < |r.events|
    ensures var row, ev := Row(r.states[i].db.agents, id), r.events[i];
            && (row.Some? && Succeeds(r, i) ==> ev.draws.id != id)
            && Row(r.states[i + 1].db.agents, id) ==
               if Succeeds(r, i) then AgentAfter(row, ev.req, ev.draws, r.replies[i].value, id) else row
  {
    RunOk(r, i);
    RowsStep(r, i, id, Digest(""), "");
    if Succeeds(r, i) {
      RepliesFit(r, i);
    }
  }

  lemma TokenRow(row: Option<Agent>, req: Request, d: Draws, reply: Reply, id: string, token: string)
    requires !req.Enroll? && (row.Some? ==> d.id != id)
    ensures Holds(AgentAfter(row, req, d, reply, id), token) <==>
              && Holds(row, token)
              && !(req.Administer? && (req.op == RevokeAgent(id) || req.op == PurgeAgent(id)))
  {
  }

  lemma {:induction false} TokenIff(r: Run, i: nat, id: string, token: string)
    requires IsRun(r) && i < |r.states|
    ensures Holds(Row(r.states[i].db.agents, id), token) <==> Since(Enrollings(r, id, token), Disablings(r, id), i)
  {
    if i > 0 {
      TokenIff(r, i - 1, id, token);
      TokenTurn(r, i - 1, id, token);
      SinceStep(Enrollings(r, id, token), Disablings(r, id), i - 1);
    }
  }

  // A header is taken for an agent exactly if it presents the token of an
  // enrollment of that agent which was not revoked or purged since.
  lemma AgentTokenIff(r: Run, i: nat, header: string, id: string)
    requires IsRun(r) && i < |r.states|
    ensures var auth := AuthenticateAgent(r.states[i].db, header);
            (auth.Ok? && auth.value.id == id) <==>
              exists token :: header == "Bearer " + token && Since(Enrollings(r, id, token), Disablings(r, id), i)
  {
    RunOk(r, i);
    var db := r.states[i].db;
    Identities.AgentIndexIsScan(db, r.states[i].drawn, header);
    forall token ensures Holds(Row(db.agents, id), token) <==> Since(Enrollings(r, id, token), Disablings(r, id), i) {
      TokenIff(r, i, id, token);
    }
    TokensNotEmpty(r, i, id);
    forall token | token != "" ensures BearerToken(header) == Some(token) <==> header == "Bearer " + token {
      BearerIs(header, token);
    }
  }

  // No agent was ever given the empty token.
  lemma TokensNotEmpty(r: Run, i: nat, id: string)
    requires IsRun(r) && i < |r.states|
    ensures !Since(Enrollings(r, id, ""), Disablings(r, id), i)
  {
    if k: nat :| k < i && Enrolls(r, k, id, "") {
      RepliesFit(r, k);
    }
  }

  // ---- writers' tokens ----

  ghost function Creations(r: Run, id: string, token: string): nat -> bool
    requires |r.events| == |r.replies|
  {
    (k: nat) => CreatesWriter(r, k, id, token)
  }

  ghost function Revocations(r: Run, id: string): nat -> bool
    requires |r.events| == |r.replies|
  {
    (k: nat) => Did(r, k, RevokeWriter(id))
  }

  ghost predicate WriterHolds(row: Option<Writer>, token: string) {
    row.Some? && !row.value.revoked && row.value.hash == Digest(token)
  }

  lemma WriterTurn(r: Run, i: nat, id: string, token: string)
    requires IsRun(r) && i < |r.events|
    ensures WriterHolds(Row(r.states[i + 1].db.writers, id), token) <==>
              || CreatesWriter(r, i, id, token)
              || (WriterHolds(Row(r.states[i].db.writers, id), token) && !Did(r, i, RevokeWriter(id)))
  {
    WriterFacts(r, i, id);
    if Succeeds(r, i) {
      WriterRow(Row(r.states[i].db.writers, id), r.events[i].req, r.events[i].draws, id, token);
    }
  }

  lemma WriterFacts(r: Run, i: nat, id: string)
    requires IsRun(r) && i < |r.events|
    ensures var row, ev := Row(r.states[i].db.writers, id), r.events[i];
            && (row.Some? && Succeeds(r, i) ==> ev.draws.id != id)
            && (Succeeds(r, i) && ev.req.Administer? && ev.req.op.CreateWriter? ==>
                  r.replies[i].value == WriterIssued(ev.draws.id, ev.draws.token))
            && Row(r.states[i + 1].db.writers, id) ==
               if Succeeds(r, i) then WriterAfter(row, ev.req, ev.draws, id) else row
  {
    RunOk(r, i);
    RowsStep(r, i, id, Digest(""), "");
    if Succeeds(r, i) {
      RepliesFit(r, i);
    }
  }

  lemma WriterRow(row: Option<Writer>, req: Request, d: Draws, id: string, token: string)
    requires row.Some? ==> d.id != id
    ensures WriterHolds(WriterAfter(row, req, d, id), token) <==>
              || (req.Administer? && req.op.CreateWriter? && id == d.id && token == d.token)
              || (WriterHolds(row, token) && !(req.Administer? && req.op == RevokeWriter(id)))
  {
  }

  lemma {:induction false} WriterIff(r: Run, i: nat, id: string, token: string)
    requires IsRun(r) && i < |r.states|
    ensures WriterHolds(Row(r.states[i].db.writers, id), token) <==>
              Since(Creations(r, id, token), Revocations(r, id), i)
  {
    if i > 0 {
      WriterIff(r, i - 1, id, token);
      WriterTurn(r, i - 1, id, token);
      SinceStep(Creations(r, id, token), Revocations(r, id), i - 1);
    }
  }

  // A header is taken for a writer exactly if it presents the token of that
  // writer's creation and it was not revoked since.
  lemma WriterTokenIff(r: Run, i: nat, header: string, id: string)
    requires IsRun(r) && i < |r.states|
    ensures var auth := AuthenticateWriter(r.states[i].db, header);
            (auth.Ok? && auth.value.id == id) <==>
              exists token :: header == "Bearer " + token && Since(Creations(r, id, token), Revocations(r, id), i)
  {
    RunOk(r, i);
    var db := r.states[i].db;
    Identities.WriterIndexIsScan(db, r.states[i].drawn, header);
    forall token
      ensures WriterHolds(Row(db.writers, id), token) <==> Since(Creations(r, id, token), Revocations(r, id), i)
    {
      WriterIff(r, i, id, token);
    }
    WriterTokensNotEmpty(r, i, id);
    forall token | token != "" ensures BearerToken(header) == Some(token) <==> header == "Bearer " + token {
      BearerIs(header, token);
    }
  }

  lemma WriterTokensNotEmpty(r: Run, i: nat, id: string)
    requires IsRun(r) && i < |r.states|
    ensures !Since(Creations(r, id, ""), Revocations(r, id), i)
  {
    if k: nat :| k < i && CreatesWriter(r, k, id, "") {
      RepliesFit(r, k);
    }
  }

  // ---- enrollment ----

  ghost function Issuances(r: Run, en: Enrollment): nat -> bool
    requires |r.events| == |r.replies|
  {
    (k: nat) => Issues(r, k, en)
  }

  ghost function Spoilings(r: Run, en: Enrollment): nat -> bool
    requires |r.events| == |r.replies|
  {
    (k: nat) => Spoils(r, k, en)
  }

  // The token is stored unused, for an agent that is there, not revoked, and
  // has no credential yet.
  ghost predicate Open(row: Option<Enrollment>, agent: Option<Agent>, en: Enrollment) {
    && row == Some(en) && !en.used
    && agent.Some? && !agent.value.revoked && agent.value.hash.None?
  }

  ghost predicate OpenAt(r: Run, i: nat, en: Enrollment)
    requires i < |r.states|
  {
    Open(Row(r.states[i].db.enrollment, en.hash), Row(r.states[i].db.agents, en.agentId), en)
  }

  // What a step makes of the two rows. Neither is that of a new token or agent.
  lemma OpenFacts(r: Run, i: nat, en: Enrollment)
    requires IsRun(r) && i < |r.events|
    ensures var row, ev := Row(r.states[i].db.enrollment, en.hash), r.events[i];
            && (row.Some? && Succeeds(r, i) ==> Digest(ev.draws.token) != en.hash)
            && Row(r.states[i + 1].db.enrollment, en.hash) ==
               if Succeeds(r, i) then EnrollmentAfter(row, ev.req, ev.draws, en.hash) else row
  {
    RunOk(r, i);
    RowsStep(r, i, "", en.hash, "");
    if Succeeds(r, i) {
      RepliesFit(r, i);
    }
  }

  // Issuing a token opens it: the agent was looked up.
  lemma IssueFacts(r: Run, i: nat)
    requires IsRun(r) && i < |r.events| && Succeeds(r, i)
    requires r.events[i].req.Administer? && r.events[i].req.op.CreateEnrollment?
    ensures var op, d := r.events[i].req.op, r.events[i].draws;
            && r.replies[i].value == Issued(d.id, op.agentId, d.token, d.now + op.ttl * 1_000_000_000)
            && 1 <= op.ttl <= 86400 && op.agentId in r.states[i].db.agents
            && !r.states[i].db.agents[op.agentId].revoked && r.states[i].db.agents[op.agentId].hash.None?
  {
    RunOk(r, i);
    RepliesFit(r, i);
    assert StepAt(r, i);
    var s, op := r.states[i], r.events[i].req.op;
    assert CreateEnrollmentCall(s.db, op.agentId, op.ttl, r.events[i].draws).reply.Ok?;
  }

  // A redemption takes an open token.
  lemma RedeemFacts(r: Run, i: nat)
    requires IsRun(r) && i < |r.events| && Succeeds(r, i) && r.events[i].req.Enroll?
    ensures var db, h := r.states[i].db, Digest(r.events[i].req.token);
            && h in db.enrollment && !db.enrollment[h].used && db.enrollment[h].agentId in db.agents
            && db.agents[db.enrollment[h].agentId].hash.None?
            && r.replies[i].value == Enrolled(db.enrollment[h].agentId, r.events[i].draws.token)
  {
    RunOk(r, i);
    RepliesFit(r, i);
    assert StepAt(r, i);
    assert EnrollCall(r.states[i].db, r.events[i].req.token, r.events[i].draws).reply.Ok?;
  }

  lemma RedeemTurn(r: Run, i: nat, en: Enrollment)
    requires IsRun(r) && i < |r.events| && Succeeds(r, i) && r.events[i].req.Enroll?
    ensures OpenAt(r, i + 1, en) <==> OpenAt(r, i, en) && !Spoils(r, i, en)
  {
    OpenFacts(r, i, en);
    AgentFacts(r, i, en.agentId);
    RedeemFacts(r, i);
  }

  lemma IssueTurn(r: Run, i: nat, en: Enrollment)
    requires IsRun(r) && i < |r.events| && Succeeds(r, i)
    requires r.events[i].req.Administer? && r.events[i].req.op.CreateEnrollment?
    ensures OpenAt(r, i + 1, en) <==> Issues(r, i, en) || OpenAt(r, i, en)
  {
    OpenFacts(r, i, en);
    AgentFacts(r, i, en.agentId);
    IssueFacts(r, i);
  }

  // Requests that neither issue nor redeem.
  lemma OpenRows(row: Option<Enrollment>, agent: Option<Agent>, req: Request, d: Draws, reply: Reply, en: Enrollment)
    requires !req.Enroll? && !(req.Administer? && req.op.CreateEnrollment?) && (agent.Some? ==> d.id != en.agentId)
    requires row == Some(en) ==> agent.Some?
    ensures Open(EnrollmentAfter(row, req, d, en.hash), AgentAfter(agent, req, d, reply, en.agentId), en) <==>
              && Open(row, agent, en)
              && !(req.Administer? && (req.op == RevokeAgent(en.agentId) || req.op == PurgeAgent(en.agentId)
                                       || req.op == DeleteEnrollment(en.id)))
  {
  }

  lemma OpenTurn(r: Run, i: nat, en: Enrollment)
    requires IsRun(r) && i < |r.events|
    ensures OpenAt(r, i + 1, en) <==> Issues(r, i, en) || (OpenAt(r, i, en) && !Spoils(r, i, en))
  {
    var ev := r.events[i];
    if Succeeds(r, i) && ev.req.Enroll? {
      RedeemTurn(r, i, en);
    } else if Succeeds(r, i) && ev.req.Administer? && ev.req.op.CreateEnrollment? {
      IssueTurn(r, i, en);
    } else {
      OpenFacts(r, i, en);
      AgentFacts(r, i, en.agentId);
      if Succeeds(r, i) {
        if Row(r.states[i].db.enrollment, en.hash) == Some(en) {
          TokenHasAgent(r, i, en);
        }
        OpenRows(Row(r.states[i].db.enrollment, en.hash), Row(r.states[i].db.agents, en.agentId),
                 ev.req, ev.draws, r.replies[i].value, en);
      }
    }
  }

  lemma TokenHasAgent(r: Run, i: nat, en: Enrollment)
    requires IsRun(r) && i < |r.states| && Row(r.states[i].db.enrollment, en.hash) == Some(en)
    ensures en.agentId in r.states[i].db.agents
  {
    RunOk(r, i);
  }

  lemma {:induction false} OpenIff(r: Run, i: nat, en: Enrollment)
    requires IsRun(r) && i < |r.states|
    ensures OpenAt(r, i, en) <==> Since(Issuances(r, en), Spoilings(r, en), i)
  {
    if i > 0 {
      OpenIff(r, i - 1, en);
      OpenTurn(r, i - 1, en);
      SinceStep(Issuances(r, en), Spoilings(r, en), i - 1);
    }
  }

  // An enrollment that completes succeeds exactly if the limiter lets it pass,
  // the token was issued, its time is not over, and since then neither it nor
  // its agent was redeemed, the agent not revoked or purged, and the token not
  // deleted.
  lemma EnrollSucceedsIff(r: Run, i: nat)
    requires IsRun(r) && i < |r.events| && r.events[i].Request? && r.events[i].req.Enroll?
    requires r.events[i].fate == Completed
    ensures var ev := r.events[i];
            r.replies[i].Ok? <==>
              && Limiter.Accepts(r.states[i].limiter, ev.draws.call)
              && exists en: Enrollment :: en.hash == Digest(ev.req.token) && ev.draws.now < en.expires
                   && Since(Issuances(r, en), Spoilings(r, en), i)
  {
    RunOk(r, i);
    assert StepAt(r, i);
    var s, ev := r.states[i], r.events[i];
    var h := Digest(ev.req.token);
    if h in s.db.enrollment {
      OpenIff(r, i, s.db.enrollment[h]);
      assert s.db.enrollment[h].hash == h;
    }
    forall en: Enrollment | en.hash == h && Since(Issuances(r, en), Spoilings(r, en), i) ensures OpenAt(r, i, en) {
      OpenIff(r, i, en);
    }
  }

  // ---- values ----

  ghost function Writings(r: Run, path: string, value: string): nat -> bool
    requires |r.events| == |r.replies|
  {
    (k: nat) => Writes(r, k, path, value)
  }

  ghost function Replacings(r: Run, path: string, value: string): nat -> bool
    requires |r.events| == |r.replies|
  {
    (k: nat) => Replaces(r, k, path, value)
  }

  lemma ValueTurn(r: Run, i: nat, path: string, value: string)
    requires IsRun(r) && i < |r.events|
    ensures Seals(Row(r.states[i + 1].db.secrets, path), r.dek, path, value) <==>
              || Writes(r, i, path, value)
              || (Seals(Row(r.states[i].db.secrets, path), r.dek, path, value) && !Replaces(r, i, path, value))
  {
    SecretsStep(r, i, path);
  }

  // A secret holds a value exactly if that was written, with success, and since
  // then nothing else was, nor was it deleted.
  lemma {:induction false} ValueIff(r: Run, i: nat, path: string, value: string)
    requires IsRun(r) && i < |r.states|
    ensures Seals(Row(r.states[i].db.secrets, path), r.dek, path, value) <==>
              Since(Writings(r, path, value), Replacings(r, path, value), i)
  {
    if i > 0 {
      ValueIff(r, i - 1, path, value);
      ValueTurn(r, i - 1, path, value);
      SinceStep(Writings(r, path, value), Replacings(r, path, value), i - 1);
    }
  }

  // ---- times and revisions ----

  // The creation time of a secret is that of the write, answered with success,
  // before which there was no record of it.
  lemma {:induction false} CreatedIs(r: Run, i: nat, path: string) returns (k: nat)
    requires IsRun(r) && i < |r.states| && path in r.states[i].db.secrets
    ensures k < i && path !in r.states[k].db.secrets && exists value :: Writes(r, k, path, value)
    ensures r.states[i].db.secrets[path].created == Some(r.events[k].draws.now)
  {
    assert i > 0;
    SecretsStep(r, i - 1, path);
    if path in r.states[i - 1].db.secrets {
      k := CreatedIs(r, i - 1, path);
    } else {
      k := i - 1;
      assert Writes(r, k, path, Put(r.events[k].req, path).value);
    }
  }

  // Its other time is that of the last write or deletion that changed it.
  lemma {:induction false} UpdatedIs(r: Run, i: nat, path: string) returns (k: nat)
    requires IsRun(r) && i < |r.states| && path in r.states[i].db.secrets
    ensures k < i && Succeeds(r, k) && (Deletes(r.events[k].req, path) || Put(r.events[k].req, path).Some?)
    ensures r.states[i].db.secrets[path].updated == r.events[k].draws.now
    ensures Row(r.states[k].db.secrets, path) != Row(r.states[i].db.secrets, path)
    ensures forall j: nat :: k < j <= i ==> Row(r.states[j].db.secrets, path) == Row(r.states[i].db.secrets, path)
  {
    assert i > 0;
    SecretsStep(r, i - 1, path);
    if Row(r.states[i - 1].db.secrets, path) == Row(r.states[i].db.secrets, path) {
      k := UpdatedIs(r, i - 1, path);
    } else {
      k := i - 1;
    }
  }

  // The event makes the secret hold what it did not hold.
  ghost predicate Renews(r: Run, k: nat, path: string)
    requires IsRun(r)
  {
    exists value ::
      Writes(r, k, path, value) && !Since(Writings(r, path, value), Replacings(r, path, value), k)
  }

  ghost function Renewals(r: Run, i: nat, path: string): nat
    requires IsRun(r) && i < |r.states|
  {
    if i == 0 then 0 else Renewals(r, i - 1, path) + if Renews(r, i - 1, path) then 1 else 0
  }

  lemma RenewsIff(r: Run, i: nat, path: string)
    requires IsRun(r) && i < |r.events|
    ensures Renews(r, i, path) <==>
              && Succeeds(r, i) && Put(r.events[i].req, path).Some?
              && !Seals(Row(r.states[i].db.secrets, path), r.dek, path, Put(r.events[i].req, path).value)
  {
    if Succeeds(r, i) && Put(r.events[i].req, path).Some? {
      var value := Put(r.events[i].req, path).value;
      ValueIff(r, i, path, value);
      assert Writes(r, i, path, value);
    }
  }

  // A revision counts how often that happened.
  lemma {:induction false} RevisionCounts(r: Run, i: nat, path: string)
    requires IsRun(r) && i < |r.states|
    ensures var row := Row(r.states[i].db.secrets, path);
            (if row.Some? then row.value.revision else 0) == Renewals(r, i, path)
  {
    if i > 0 {
      RevisionCounts(r, i - 1, path);
      SecretsStep(r, i - 1, path);
      RenewsIff(r, i - 1, path);
    }
  }

  // ---- guessing ----

  // The event gets as far as the limiter.
  ghost predicate Guesses(r: Run, k: nat)
    requires IsRun(r) && k < |r.events|
  {
    var s, ev := r.states[k], r.events[k];
    && ev.Request? && (ev.fate.Completed? || ev.fate.limiterChanged)
    && match ev.req
       case Login(_, _) => true
       case Enroll(_) => true
       case Administer(cookie, csrf, op) =>
         (op.Unlock? || op.ChangeMaster?) && AuthenticateAdmin(s.db, cookie, csrf, false, ev.draws.now).Ok?
       case _ => false
  }

  // The calls of the limiter at events i to before j.
  ghost function Guesswork(r: Run, i: nat, j: nat): seq<Limiter.Call>
    requires IsRun(r) && i <= j <= |r.events|
    decreases j - i
  {
    if i == j then []
    else Guesswork(r, i, j - 1) + if Guesses(r, j - 1) then [r.events[j - 1].draws.call] else []
  }

  // How many of them the limiter let pass.
  ghost function Passed(r: Run, i: nat, j: nat): nat
    requires IsRun(r) && i <= j <= |r.events|
    decreases j - i
  {
    if i == j then 0
    else
      var passes := Guesses(r, j - 1) && Limiter.Accepts(r.states[j - 1].limiter, r.events[j - 1].draws.call);
      Passed(r, i, j - 1) + if passes then 1 else 0
  }

  lemma LimiterTurn(r: Run, k: nat)
    requires IsRun(r) && k < |r.events| && !r.events[k].Restart?
    ensures r.states[k + 1].limiter ==
            if Guesses(r, k) then Limiter.Next(r.states[k].limiter, r.events[k].draws.call) else r.states[k].limiter
  {
    RunOk(r, k);
    assert StepAt(r, k);
  }

  lemma {:induction false} LimiterFollows(r: Run, i: nat, j: nat)
    requires IsRun(r) && i <= j <= |r.events| && forall k :: i <= k < j ==> !r.events[k].Restart?
    ensures r.states[j].limiter == Limiter.After(r.states[i].limiter, Guesswork(r, i, j))
    ensures Passed(r, i, j) == Limiter.Accepted(r.states[i].limiter, Guesswork(r, i, j))
    decreases j - i
  {
    if i < j {
      LimiterFollows(r, i, j - 1);
      LimiterTurn(r, j - 1);
      if Guesses(r, j - 1) {
        var c := r.events[j - 1].draws.call;
        Limiter.AfterLast(r.states[i].limiter, Guesswork(r, i, j - 1), c);
        Limiter.AcceptedConcat(r.states[i].limiter, Guesswork(r, i, j - 1), [c]);
      } else {
        assert Guesswork(r, i, j) == Guesswork(r, i, j - 1);
      }
    }
  }

  lemma {:induction false} GuessworkConcat(r: Run, h: nat, i: nat, j: nat)
    requires IsRun(r) && h <= i <= j <= |r.events|
    ensures Guesswork(r, h, j) == Guesswork(r, h, i) + Guesswork(r, i, j)
    decreases j - i
  {
    if i < j {
      GuessworkConcat(r, h, i, j - 1);
    }
  }

  // While the process lives, from its start at state h on: however logins,
  // enrollments, unlocks and rotations come, those in any stretch of the run that
  // begin within a closed minute pass the limiter sixty times at most.
  lemma GuessesAreBounded(r: Run, h: nat, i: nat, j: nat)
    requires IsRun(r) && h <= i <= j <= |r.events| && r.states[h].limiter == Limiter.FRESH
    requires forall k :: h <= k < j ==> !r.events[k].Restart?
    requires Limiter.Ordered(Guesswork(r, h, j))
    requires var calls := Guesswork(r, i, j);
             calls != [] ==> calls[|calls| - 1].since <= calls[0].now + 60_000_000_000
    ensures Passed(r, i, j) <= 60
  {
    GuessworkConcat(r, h, i, j);
    LimiterFollows(r, h, i);
    LimiterFollows(r, i, j);
    if Guesswork(r, i, j) != [] {
      Limiter.MinuteBound(Guesswork(r, h, i), Guesswork(r, i, j));
    }
  }
}
