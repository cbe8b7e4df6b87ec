// The secret store as a plain map from paths to values with revision numbers:
// no keys, no ciphertext, no nonces.
module PlainStore {
  import opened Base
  import opened Service
  import Paths

  // A tombstone keeps its revision and has no value.
  datatype Cell = Cell(revision: nat, value: Option<string>)

  type Plain = map<string, Cell>

  datatype Command = Command(verb: Verb, path: string, metadata: bool, body: Body)

  datatype Answer = Removed | AtRevision(revision: nat) | Content(value: string, revision: nat)

  predicate IsLive(m: Plain, path: string) {
    path in m && m[path].value.Some?
  }

  function RevisionAt(m: Plain, path: string): nat {
    if path in m then m[path].revision else 0
  }

  function Run(m: Plain, locked: bool, c: Command): (Result<Answer, Error>, Plain) {
    var live := IsLive(m, c.path);
    if Paths.Normalize(c.path).Err? then (Err(BadRequest), m)
    else if locked then (Err(Locked), m)
    else
      match c.verb
      case GET =>
        if !live then (Err(NotFound), m)
        else if c.metadata then (Ok(AtRevision(m[c.path].revision)), m)
        else (Ok(Content(m[c.path].value.value, m[c.path].revision)), m)
      case POST => if live then (Err(Conflict), m) else Put(m, c)
      case PUT => if !live then (Err(NotFound), m) else Put(m, c)
      case DELETE => if !live then (Err(NotFound), m) else (Ok(Removed), m[c.path := Cell(m[c.path].revision, None)])
      case _ => (Err(MethodNotAllowed), m)
  }

  // Writing the value already there changes nothing; any other write takes the
  // next revision of the path, tombstone or not.
  function Put(m: Plain, c: Command): (Result<Answer, Error>, Plain) {
    if !c.body.Value? then (Err(BadRequest), m)
    else if IsLive(m, c.path) && m[c.path].value == Some(c.body.text) then (Ok(AtRevision(m[c.path].revision)), m)
    else
      var r := RevisionAt(m, c.path) + 1;
      (Ok(AtRevision(r)), m[c.path := Cell(r, Some(c.body.text))])
  }

  function PlainNext(m: Plain, locked: bool, c: Option<Command>): Plain {
    if c.None? then m else Run(m, locked, c.value).1
  }

  // Revisions move by at most one, up, and exactly on a write that makes the
  // path hold something it did not hold.
  lemma RevisionRisesIff(m: Plain, locked: bool, c: Command, path: string)
    ensures var (answer, m') := Run(m, locked, c);
            && RevisionAt(m, path) <= RevisionAt(m', path) <= RevisionAt(m, path) + 1
            && (RevisionAt(m', path) == RevisionAt(m, path) + 1 <==>
                  && answer.Ok? && c.path == path && (c.verb == POST || c.verb == PUT)
                  && !(IsLive(m, path) && m[path].value == Some(c.body.text)))
            && (c.path != path ==> (path in m <==> path in m') && (path in m ==> m'[path] == m[path]))
  {
  }

  // A reading that succeeds shows what is live.
  lemma ReadReturnsCell(m: Plain, locked: bool, c: Command)
    ensures var (answer, m') := Run(m, locked, c);
            answer.Ok? && answer.value.Content? ==>
              m' == m && c.path in m && m[c.path] == Cell(answer.value.revision, Some(answer.value.value))
  {
  }

  function CellAt(m: Plain, p: string): Cell {
    if p in m then m[p] else Cell(0, None)
  }

  // Moves of one cell: it stays, it takes a value at the next revision, or it
  // dies at its own.
  ghost predicate Moves(c: Cell, c': Cell) {
    || c' == c
    || (c'.revision == c.revision + 1 && c'.value.Some? && c'.value != c.value)
    || (c.value.Some? && c' == Cell(c.revision, None))
  }

  ghost predicate Advances(m: Plain, m': Plain) {
    forall p :: Moves(CellAt(m, p), CellAt(m', p))
  }

  // A cell that has changed and is live was just put there.
  lemma LiveChangeIsPut(m: Plain, locked: bool, c: Command, path: string)
    requires var m' := Run(m, locked, c).1; IsLive(m', path) && CellAt(m', path) != CellAt(m, path)
    ensures c.path == path && (c.verb == POST || c.verb == PUT) && c.body.Value?
    ensures var (answer, m') := Run(m, locked, c);
            m'[path].value == Some(c.body.text) && answer == Ok(AtRevision(m'[path].revision))
  {
  }

  lemma PlainAdvances(m: Plain, locked: bool, c: Option<Command>)
    ensures Advances(m, PlainNext(m, locked, c))
  {
  }
}
