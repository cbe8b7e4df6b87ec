// The encrypted, versioned store refines the plain one.
module Refinement {
  import opened Base
  import opened Records
  import opened Service
  import opened Invariant
  import opened PlainStore
  import Sealing
  import Paths

  // ---- the abstraction ----

  function AbsCell(r: Secret): Cell {
    Cell(r.revision, if r.deleted || r.ciphertext.None? then None else Some(r.ciphertext.value.plain))
  }

  function Abs(db: Db): Plain {
    map p | p in db.secrets :: AbsCell(db.secrets[p])
  }

  function Seen(reply: Result<Reply, Error>): Result<Answer, Error> {
    match reply
    case Ok(SecretView(r)) => Ok(AtRevision(r.revision))
    case Ok(ValueView(value, _, revision, _, _)) => Ok(Content(value, revision))
    case Ok(_) => Ok(Removed)
    case Err(e) => Err(e)
  }

  // A live record always decrypts under the unlocked vault, with its own path.
  lemma LiveDecrypts(db: Db, dek: Bytes, path: string)
    requires SecretsOk(db, dek) && dek != []
    ensures Live(db, path) <==> IsLive(Abs(db), path)
    ensures Live(db, path) ==>
              Sealing.Decrypt(dek, path, db.secrets[path].ciphertext) == Ok(Abs(db)[path].value.value)
  {
  }

  lemma AbsUpdate(db: Db, path: string, r: Secret)
    ensures Abs(db.(secrets := db.secrets[path := r])) == Abs(db)[path := AbsCell(r)]
  {
  }

  // One call on the encrypted store is one call on the plain one: same answer,
  // error cases included, and same map afterwards.
  lemma SecretCallRefines(db: Db, key: Bytes, dek: Bytes, c: Command, d: Draws)
    requires SecretsOk(db, dek) && dek != [] && (key == [] || key == dek)
    ensures var o := SecretCall(db, key, c.verb, c.path, c.metadata, c.body, d);
            (Seen(o.reply), Abs(o.db)) == Run(Abs(db), key == [], c)
  {
    LiveDecrypts(db, dek, c.path);
    if Paths.Normalize(c.path).Ok? && key != [] {
      match c.verb {
        case POST => if !Live(db, c.path) { StoreRefines(db, dek, c, d); }
        case PUT => if Live(db, c.path) { StoreRefines(db, dek, c, d); }
        case DELETE =>
          if Live(db, c.path) {
            AbsUpdate(db, c.path, db.secrets[c.path].(deleted := true, ciphertext := None, updated := d.now));
          }
        case _ =>
      }
    }
  }

  lemma StoreRefines(db: Db, dek: Bytes, c: Command, d: Draws)
    requires SecretsOk(db, dek) && dek != []
    ensures var o := StoreCall(db, dek, c.path, c.body, d);
            (Seen(o.reply), Abs(o.db)) == Put(Abs(db), c)
  {
    LiveDecrypts(db, dek, c.path);
    if c.body.Value? {
      var box := Sealing.Sealed(dek, d.nonce, c.body.text, c.path);
      AbsUpdate(db, c.path, Written(RecordAt(db, c.path), c.path, box, d.now));
    }
  }

  // ---- commands behind a request ----

  // The command a completed request runs: none if its caller is not
  // authenticated or not authorized. A writer's POST is an update, or a
  // creation when it may create and the plain map has nothing live there.
  function CommandOf(s: Sys, ev: Event): Option<Command> {
    if !ev.Request? || ev.fate != Completed then None
    else
      match ev.req
      case Administer(cookie, csrf, SecretAt(verb, path, body)) =>
        if AuthenticateAdmin(s.db, cookie, csrf, verb == GET || verb == HEAD, ev.draws.now).Ok?
        then Some(Command(verb, path, false, body)) else None
      case WriteSecret(header, verb, path, body) =>
        var auth := AuthenticateWriter(s.db, header);
        if auth.Err? || Paths.Normalize(path).Err? || !Paths.Allowed(path, auth.value.paths) || verb != POST then None
        else Some(Command(if auth.value.allowCreate && !IsLive(Abs(s.db), path) then POST else PUT, path, false, body))
      case ReadSecret(header, verb, path, metadata) =>
        var auth := AuthenticateAgent(s.db, header);
        if auth.Err? || Paths.Normalize(path).Err? || !Paths.Allowed(path, auth.value.paths) || verb != GET then None
        else Some(Command(GET, path, metadata, NoValue))
      case _ => None
  }

  lemma WriteRefines(s: Sys, dek: Bytes, ttl: int, ev: Event)
    requires SecretsOk(s.db, dek) && dek != [] && (s.key == [] || s.key == dek)
    requires ev.Request? && ev.req.WriteSecret? && ev.fate == Completed
    ensures Refines(s, ttl, ev)
  {
    WriteIsCommand(s, dek, ev);
    if CommandOf(s, ev).Some? {
      SecretCallRefines(s.db, s.key, dek, CommandOf(s, ev).value, ev.draws);
    }
  }

  // What a writer's request comes to.
  lemma WriteIsCommand(s: Sys, dek: Bytes, ev: Event)
    requires SecretsOk(s.db, dek) && dek != []
    requires ev.Request? && ev.req.WriteSecret? && ev.fate == Completed
    ensures var o := WriteCall(s.db, s.key, ev.req.header, ev.req.verb, ev.req.path, ev.req.body, ev.draws);
            if CommandOf(s, ev).None? then o.db == s.db
            else var c := CommandOf(s, ev).value;
                 o == SecretCall(s.db, s.key, c.verb, c.path, c.metadata, c.body, ev.draws)
  {
    LiveDecrypts(s.db, dek, ev.req.path);
  }

  lemma ReadRefines(s: Sys, dek: Bytes, ttl: int, ev: Event)
    requires SecretsOk(s.db, dek) && dek != [] && (s.key == [] || s.key == dek)
    requires ev.Request? && ev.req.ReadSecret? && ev.fate == Completed
    ensures Refines(s, ttl, ev)
  {
    var ReadSecret(header, verb, path, metadata) := ev.req;
    if CommandOf(s, ev).Some? {
      SecretCallRefines(s.db, s.key, dek, CommandOf(s, ev).value, ev.draws);
    }
  }

  lemma AdministerRefines(s: Sys, dek: Bytes, ttl: int, ev: Event)
    requires SecretsOk(s.db, dek) && dek != [] && (s.key == [] || s.key == dek)
    requires ev.Request? && ev.req.Administer? && ev.req.op.SecretAt? && ev.fate == Completed
    ensures Refines(s, ttl, ev)
  {
    if CommandOf(s, ev).Some? {
      SecretCallRefines(s.db, s.key, dek, CommandOf(s, ev).value, ev.draws);
    }
  }

  ghost predicate Refines(s: Sys, ttl: int, ev: Event) {
    var c := CommandOf(s, ev);
    && Abs(Next(s, ttl, ev).db) == PlainNext(Abs(s.db), s.key == [], c)
    && (c.Some? ==> Seen(ReplyTo(s, ttl, ev)) == Run(Abs(s.db), s.key == [], c.value).0)
  }

  // Requests that are not about secrets.
  lemma OtherRefines(s: Sys, ttl: int, ev: Event)
    requires ev.Request? && ev.fate == Completed && !ev.req.WriteSecret? && !ev.req.ReadSecret?
    requires ev.req.Administer? ==> !ev.req.op.SecretAt?
    ensures Refines(s, ttl, ev)
  {
    HandleFrame(s, ev.req, ttl, ev.draws);
  }

  // Every step of the server, of whatever kind, is a step of the plain map, and
  // a completed call on a secret gets the plain map's answer.
  lemma NextRefines(s: Sys, ttl: int, ev: Event, dek: Bytes)
    requires SecretsOk(s.db, dek) && dek != [] && (s.key == [] || s.key == dek)
    ensures Refines(s, ttl, ev)
  {
    if ev.Request? && ev.fate == Completed {
      match ev.req {
        case WriteSecret(_, _, _, _) => WriteRefines(s, dek, ttl, ev);
        case ReadSecret(_, _, _, _) => ReadRefines(s, dek, ttl, ev);
        case Administer(_, _, op) =>
          if op.SecretAt? { AdministerRefines(s, dek, ttl, ev); } else { OtherRefines(s, ttl, ev); }
        case _ => OtherRefines(s, ttl, ev);
      }
    }
  }
}
