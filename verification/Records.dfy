// The records the server keeps, one table for each kind.
module Records {
  import opened Base
  import Sealing

  // security.Hash, taken to be injective.
  datatype Digest = Digest(token: string)

  // bcrypt of a password.
  datatype PasswordHash = Bcrypt(password: string)

  datatype Secret = Secret(
    path: string, revision: nat, created: Option<int>, updated: int,
    ciphertext: Option<Sealing.Ciphertext>, algorithm: string, deleted: bool)

  const NO_SECRET: Secret := Secret("", 0, None, 0, None, "", false)

  datatype Agent = Agent(
    id: string, name: string, paths: seq<string>, hash: Option<Digest>, revoked: bool, created: int)

  datatype Enrollment = Enrollment(id: string, agentId: string, hash: Digest, expires: int, used: bool)

  datatype Writer = Writer(
    allowCreate: bool, id: string, name: string, paths: seq<string>, hash: Digest, revoked: bool, created: int)

  datatype Admin = Admin(name: string, password: PasswordHash)

  datatype Session = Session(hash: Digest, admin: string, csrf: string, expires: int)

  datatype Db = Db(
    secrets: map<string, Secret>,
    agents: map<string, Agent>,
    enrollment: map<Digest, Enrollment>,
    credentials: map<Digest, string>,
    writers: map<string, Writer>,
    writerTokens: map<Digest, string>,
    admins: map<string, Admin>,
    sessions: map<Digest, Session>,
    envelope: Option<Sealing.Envelope>)

  const EMPTY_DB: Db := Db(map[], map[], map[], map[], map[], map[], map[], map[], None)

  // The value of the Authorization header, minus the scheme.
  function BearerToken(header: string): Option<string> {
    var token := TrimPrefix(header, "Bearer ");
    if token == "" || token == header then None else Some(token)
  }

  // A header presents a token exactly if it is the scheme, one space and it.
  lemma BearerIs(header: string, token: string)
    ensures BearerToken(header) == Some(token) <==> token != "" && header == "Bearer " + token
  {
    if BearerToken(header) == Some(token) {
      assert HasPrefix(header, "Bearer ");
    }
  }
}
