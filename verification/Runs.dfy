// Claims about whole runs of the server: any sequence of requests, aborted
// transactions, restarts and repeated setups.
module Runs {
  import opened Base
  import opened Records
  import opened Service
  import opened Invariant
  import opened PlainStore
  import opened Refinement
  import Sealing
  import Limiter
  import Paths

  // A run of a freshly set-up server.
  datatype Run = Run(
    states: seq<Sys>, events: seq<Event>, replies: seq<Result<Reply, Error>>, ttl: int, dek: Bytes, master: string)

  ghost predicate Installed(s: Sys, dek: Bytes, master: string) {
    && Inv(s, dek, master)
    && s.key == []
    && s.db == EMPTY_DB.(envelope := s.db.envelope, admins := s.db.admins)
  }

  ghost predicate StepAt(r: Run, i: nat)
    requires i < |r.events| < |r.states| && |r.replies| == |r.events|
  {
    && Possible(r.states[i], r.events[i]) && r.states[i + 1] == Next(r.states[i], r.ttl, r.events[i])
    && r.replies[i] == ReplyTo(r.states[i], r.ttl, r.events[i])
  }

  ghost predicate IsRun(r: Run) {
    && |r.states| == |r.events| + 1 == |r.replies| + 1
    && Installed(r.states[0], r.dek, r.master)
    && forall i: nat {:trigger StepAt(r, i)} :: i < |r.events| ==> StepAt(r, i)
  }

  // Setup on an empty store is where every run begins.
  lemma SetupStartsARun(name: string, password: string, master: string, dek: Bytes, d: Draws, ttl: int)
    requires dek != [] && SetupCall(EMPTY_DB, name, password, master, dek, d).Ok?
    ensures var s := Sys(SetupCall(EMPTY_DB, name, password, master, dek, d).value, [], Limiter.FRESH, {});
            IsRun(Run([s], [], [], ttl, dek, master))
  {
    SetupEstablishesInv(name, password, master, dek, d, {});
  }

  // The passphrase last committed before state i.
  ghost function MasterAt(r: Run, i: nat): string
    requires IsRun(r) && i < |r.states|
  {
    if i == 0 then r.master else MasterAfter(r.states[i - 1], r.ttl, r.events[i - 1], MasterAt(r, i - 1))
  }

  lemma {:induction false} RunInv(r: Run, i: nat)
    requires IsRun(r) && i < |r.states|
    ensures Inv(r.states[i], r.dek, MasterAt(r, i))
  {
    if i > 0 {
      RunInv(r, i - 1);
      assert StepAt(r, i - 1);
      NextKeepsInv(r.states[i - 1], r.ttl, r.events[i - 1], r.dek, MasterAt(r, i - 1));
    }
  }

  // The part of it that no passphrase is needed to state.
  lemma RunOk(r: Run, i: nat)
    requires IsRun(r) && i < |r.states|
    ensures IdentityOk(r.states[i].db, r.states[i].drawn)
    ensures SecretsOk(r.states[i].db, r.dek) && r.dek != [] && (r.states[i].key == [] || r.states[i].key == r.dek)
    ensures r.states[i].db.envelope.Some?
  {
    RunInv(r, i);
  }

  // ---- one data key for life ----

  // At any moment the vault is locked or holds the key made at setup, and a
  // passphrase opens the stored envelope exactly if it is the last committed
  // one. It yields that same key.
  lemma OneKeyForLife(r: Run, i: nat, attempt: string)
    requires IsRun(r) && i < |r.states|
    ensures r.states[i].key == [] || r.states[i].key == r.dek
    ensures r.states[i].db.envelope.Some?
    ensures Sealing.Unwrap(attempt, r.states[i].db.envelope.value) ==
            if attempt == MasterAt(r, i) then Some(r.dek) else None
  {
    RunInv(r, i);
  }

  // What the caller of this event must be, and the limiter must say, for it to
  // reach the vault.
  ghost predicate Admitted(r: Run, i: nat)
    requires i < |r.events| < |r.states|
  {
    var s, ev := r.states[i], r.events[i];
    && ev.Request? && ev.req.Administer?
    && AuthenticateAdmin(s.db, ev.req.cookie, ev.req.csrf, IsRead(ev.req.op), ev.draws.now).Ok?
    && (ev.req.op.Unlock? || ev.req.op.ChangeMaster? ==> Limiter.Accepts(s.limiter, ev.draws.call))
  }

  // An admitted unlock succeeds with exactly the last committed passphrase and
  // then opens the vault; an admitted rotation with exactly that and a new one
  // of sufficient length; a lock always. Others leave the vault alone.
  lemma VaultStep(r: Run, i: nat)
    requires IsRun(r) && i < |r.events| && r.events[i].Request? && r.events[i].fate == Completed
    ensures var s, s', ev, reply := r.states[i], r.states[i + 1], r.events[i], r.replies[i];
            var op := if ev.req.Administer? && Admitted(r, i) then ev.req.op else Logout;
            match op
            case Unlock(attempt) =>
              (reply.Ok? <==> attempt == MasterAt(r, i)) && s'.key == if reply.Ok? then r.dek else s.key
            case Lock => reply.Ok? && s'.key == []
            case ChangeMaster(current, next) =>
              && (reply.Ok? <==> current == MasterAt(r, i) && Utf8Len(next) >= 16)
              && MasterAt(r, i + 1) == (if reply.Ok? then next else MasterAt(r, i)) && s'.key == s.key
            case _ => s'.key == s.key && MasterAt(r, i + 1) == MasterAt(r, i)
  {
    RunInv(r, i);
    assert StepAt(r, i);
    var s, ev := r.states[i], r.events[i];
    HandleFrame(s, ev.req, r.ttl, ev.draws);
    if ev.req.Administer? && ev.req.op.ChangeMaster? {
      Sealing.RewrapKeepsKey(ev.req.op.current, ev.req.op.next, s.db.envelope.value, r.dek, MasterAt(r, i),
                             ev.draws.salt, ev.draws.nonce);
    }
  }

  // Neither rotation nor locking nor a restart rewrites a secret.
  lemma KeyManagementKeepsCiphertexts(s: Sys, ttl: int, ev: Event)
    requires s.db.envelope.Some?
    requires ev.Request? ==> ev.req.Administer? && (ev.req.op.ChangeMaster? || ev.req.op.Lock? || ev.req.op.Unlock?)
    ensures Next(s, ttl, ev).db.secrets == s.db.secrets
    ensures ev.Restart? ==> Next(s, ttl, ev).key == []
  {
    if ev.Request? {
      HandleFrame(s, ev.req, ttl, ev.draws);
    }
  }

  // ---- the plain map over a run ----

  // What the plain map holds after the commands of the first i events.
  ghost function PlainAt(r: Run, i: nat): Plain
    requires IsRun(r) && i < |r.states|
  {
    if i == 0 then map[]
    else PlainNext(PlainAt(r, i - 1), r.states[i - 1].key == [], CommandOf(r.states[i - 1], r.events[i - 1]))
  }

  lemma StepRefines(r: Run, i: nat)
    requires IsRun(r) && i < |r.events|
    ensures Abs(r.states[i + 1].db) ==
            PlainNext(Abs(r.states[i].db), r.states[i].key == [], CommandOf(r.states[i], r.events[i]))
  {
    RunOk(r, i);
    assert StepAt(r, i);
    NextRefines(r.states[i], r.ttl, r.events[i], r.dek);
  }

  lemma {:induction false} RunRefines(r: Run, i: nat)
    requires IsRun(r) && i < |r.states|
    ensures Abs(r.states[i].db) == PlainAt(r, i)
  {
    if i > 0 {
      RunRefines(r, i - 1);
      StepRefines(r, i - 1);
    }
  }

  // Every call on a secret that completes, by whomever and after whatever
  // history, is answered as the plain map would answer it.
  lemma CallsAnswerAsPlainMap(r: Run, i: nat)
    requires IsRun(r) && i < |r.events| && CommandOf(r.states[i], r.events[i]).Some?
    ensures Seen(r.replies[i]) ==
            PlainStore.Run(PlainAt(r, i), r.states[i].key == [], CommandOf(r.states[i], r.events[i]).value).0
  {
    RunRefines(r, i);
    RunOk(r, i);
    assert StepAt(r, i);
    NextRefines(r.states[i], r.ttl, r.events[i], r.dek);
  }

  // A value that is read is the one put there by the latest command that
  // changed the path: some earlier completed write stored exactly it, at the
  // revision read, and nothing has touched the path since.
  lemma {:induction false} ReadsLastWrite(r: Run, i: nat, path: string) returns (k: nat)
    requires IsRun(r) && i < |r.states| && IsLive(PlainAt(r, i), path)
    ensures k < i && CommandOf(r.states[k], r.events[k]).Some?
    ensures var c := CommandOf(r.states[k], r.events[k]).value;
            && c.path == path && (c.verb == POST || c.verb == PUT) && c.body.Value?
            && PlainAt(r, i)[path].value == Some(c.body.text)
            && Seen(r.replies[k]) == Ok(AtRevision(PlainAt(r, i)[path].revision))
    ensures forall j: nat :: k < j <= i ==> CellAt(PlainAt(r, j), path) == CellAt(PlainAt(r, i), path)
  {
    assert i > 0;
    if CellAt(PlainAt(r, i), path) != CellAt(PlainAt(r, i - 1), path) {
      k := i - 1;
      ChangedByWrite(r, k, path);
    } else {
      k := ReadsLastWrite(r, i - 1, path);
    }
  }

  lemma ChangedByWrite(r: Run, k: nat, path: string)
    requires IsRun(r) && k < |r.events| && IsLive(PlainAt(r, k + 1), path)
    requires CellAt(PlainAt(r, k + 1), path) != CellAt(PlainAt(r, k), path)
    ensures CommandOf(r.states[k], r.events[k]).Some?
    ensures var c := CommandOf(r.states[k], r.events[k]).value;
            && c.path == path && (c.verb == POST || c.verb == PUT) && c.body.Value?
            && PlainAt(r, k + 1)[path].value == Some(c.body.text)
            && Seen(r.replies[k]) == Ok(AtRevision(PlainAt(r, k + 1)[path].revision))
  {
    CallsAnswerAsPlainMap(r, k);
    LiveChangeIsPut(PlainAt(r, k), r.states[k].key == [], CommandOf(r.states[k], r.events[k]).value, path);
  }

  // ---- a revision pins a value ----

  // A live cell ranks just below its own tombstone, and that below the next
  // live cell.
  function Rank(s: Secret): nat {
    2 * s.revision + if s.deleted then 1 else 0
  }

  // The record moves up in rank or stays as it is, and keeps its creation time.
  ghost predicate Moved(before: map<string, Secret>, after: map<string, Secret>, path: string)
    requires path in before
  {
    && path in after && Rank(before[path]) <= Rank(after[path])
    && (Rank(before[path]) == Rank(after[path]) ==> after[path] == before[path])
    && (before[path].created.Some? ==> after[path].created == before[path].created)
  }

  // A store rewrites nothing or one record, which it raises.
  lemma StoreWrites(db: Db, key: Bytes, p: string, body: Body, d: Draws)
    ensures var secrets := StoreCall(db, key, p, body, d).db.secrets;
            || secrets == db.secrets
            || exists box :: secrets == db.secrets[p := Written(RecordAt(db, p), p, box, d.now)]
  {
    if StoreCall(db, key, p, body, d).reply.Ok? {
      match Sealing.Encrypt(key, p, body.text, d.nonce) {
        case Ok(box) => assert StoreCall(db, key, p, body, d).db == db
          || StoreCall(db, key, p, body, d).db.secrets == db.secrets[p := Written(RecordAt(db, p), p, box, d.now)];
        case Err(_) =>
      }
    }
  }

  lemma StoreMoves(db: Db, key: Bytes, p: string, body: Body, d: Draws, path: string)
    requires path in db.secrets
    ensures Moved(db.secrets, StoreCall(db, key, p, body, d).db.secrets, path)
  {
    StoreWrites(db, key, p, body, d);
  }

  lemma RemoveMoves(db: Db, p: string, d: Draws, path: string)
    requires path in db.secrets
    ensures Moved(db.secrets, RemoveCall(db, p, d).db.secrets, path)
  {
  }

  lemma SecretCallMoves(db: Db, key: Bytes, verb: Verb, p: string, metadata: bool, body: Body, d: Draws, path: string)
    requires path in db.secrets
    ensures Moved(db.secrets, SecretCall(db, key, verb, p, metadata, body, d).db.secrets, path)
  {
    match verb {
      case POST => StoreMoves(db, key, p, body, d, path);
      case PUT => StoreMoves(db, key, p, body, d, path);
      case DELETE => RemoveMoves(db, p, d, path);
      case _ =>
    }
  }

  lemma WriteMoves(s: Sys, header: string, verb: Verb, p: string, body: Body, d: Draws, path: string)
    requires path in s.db.secrets
    ensures Moved(s.db.secrets, WriteCall(s.db, s.key, header, verb, p, body, d).db.secrets, path)
  {
    var auth := AuthenticateWriter(s.db, header);
    if auth.Ok? {
      var stored := if auth.value.allowCreate && !Live(s.db, p) then POST else PUT;
      SecretCallMoves(s.db, s.key, stored, p, false, body, d, path);
    }
  }

  lemma RecordMoves(s: Sys, ttl: int, ev: Event, path: string)
    requires path in s.db.secrets
    ensures Moved(s.db.secrets, Next(s, ttl, ev).db.secrets, path)
  {
    if ev.Request? && ev.fate == Completed {
      HandleFrame(s, ev.req, ttl, ev.draws);
      match ev.req {
        case WriteSecret(header, verb, p, body) =>
          WriteMoves(s, header, verb, p, body, ev.draws, path);
        case Administer(_, _, op) =>
          if op.SecretAt? {
            SecretCallMoves(s.db, s.key, op.verb, op.path, false, op.body, ev.draws, path);
          }
        case _ =>
      }
    }
  }

  lemma RankStep(r: Run, i: nat, path: string)
    requires IsRun(r) && i < |r.events| && path in r.states[i].db.secrets
    ensures Moved(r.states[i].db.secrets, r.states[i + 1].db.secrets, path)
  {
    assert StepAt(r, i);
    RecordMoves(r.states[i], r.ttl, r.events[i], path);
  }

  lemma {:induction false} RankRises(r: Run, i: nat, j: nat, path: string)
    requires IsRun(r) && i <= j < |r.states| && path in r.states[i].db.secrets
    ensures path in r.states[j].db.secrets
    ensures Rank(r.states[i].db.secrets[path]) <= Rank(r.states[j].db.secrets[path])
  {
    if i < j {
      RankRises(r, i, j - 1, path);
      RankStep(r, j - 1, path);
    }
  }

  // Overwritten, deleted or recreated, a secret keeps the time of its creation.
  lemma {:induction false} CreatedStays(r: Run, i: nat, j: nat, path: string)
    requires IsRun(r) && i <= j < |r.states|
    requires path in r.states[i].db.secrets && r.states[i].db.secrets[path].created.Some?
    ensures path in r.states[j].db.secrets
    ensures r.states[j].db.secrets[path].created == r.states[i].db.secrets[path].created
  {
    if i < j {
      CreatedStays(r, i, j - 1, path);
      RankStep(r, j - 1, path);
    }
  }

  // Two moments at which a path is live with the same revision hold the very
  // same record, ciphertext included, and so does every moment in between.
  lemma {:induction false} RevisionPinsValue(r: Run, i: nat, j: nat, path: string)
    requires IsRun(r) && i <= j < |r.states|
    requires Live(r.states[i].db, path) && Live(r.states[j].db, path)
    requires r.states[i].db.secrets[path].revision == r.states[j].db.secrets[path].revision
    ensures forall k :: i <= k <= j ==>
              path in r.states[k].db.secrets && r.states[k].db.secrets[path] == r.states[i].db.secrets[path]
    decreases j - i
  {
    if i < j {
      RankStep(r, i, path);
      RankRises(r, i + 1, j, path);
      RevisionPinsValue(r, i + 1, j, path);
    }
  }
}
