// The agent as a transition system: one small step for every effect a poll
// has, with the process free to die between any two, the server free to serve
// others, and outsiders free to edit files. Joint.dfy puts the real server in.
module Agent {
  import opened Base
  import opened PlainStore

  datatype Definition = Definition(
    path: string, template: string, destination: string,
    owner: string, group: string, mode: string, command: seq<string>, timeout: string)

  // The hash over the definition's JSON, a NUL, and the template source: JSON
  // text contains no NUL, so the pair can be read back.
  datatype Fingerprint = NoFingerprint | Of(d: Definition, source: string)

  datatype OutputHash = NoHash | HashOf(content: string)

  // One journal entry.
  datatype Applied = Applied(revision: nat, fingerprint: Fingerprint, outputHash: OutputHash, pending: bool)

  const NEVER: Applied := Applied(0, NoFingerprint, NoHash, false)

  type Journal = map<string, Applied>

  function Entry(j: Journal, name: string): Applied {
    if name in j then j[name] else NEVER
  }

  // What can be at a destination path, if anything.
  datatype Node = Regular(content: string, mode: nat, uid: int, gid: int) | Irregular

  // The host: templates are rendered by a function of their inputs, and names
  // of users and groups resolve the same way throughout.
  datatype Config = Config(
    render: (string, string, string, nat) -> Option<string>,
    owner: string -> Option<int>, group: string -> Option<int>,
    uid: int, gid: int) // of the agent process

  datatype Attributes = Attributes(mode: nat, uid: int, gid: int)

  const DEFAULT_MODE: nat := 0x180 // 0600

  function OctalValue(s: string): Option<nat> {
    if s == "" then Some(0)
    else
      var high, c := OctalValue(s[..|s| - 1]), s[|s| - 1];
      if high.None? || c < '0' || c > '7' then None else Some(8 * high.value + (c as int - '0' as int))
  }

  function ParseMode(s: string): Option<nat> {
    if s == "" then Some(DEFAULT_MODE)
    else
      var n := OctalValue(s);
      if n.None? || n.value > 0x1FF then None else n
  }

  function AttributesOf(cfg: Config, d: Definition): Option<Attributes> {
    var mode, uid, gid := ParseMode(d.mode), cfg.owner(d.owner), cfg.group(d.group);
    if mode.None? || uid.None? || gid.None? then None else Some(Attributes(mode.value, uid.value, gid.value))
  }

  predicate HasAttributes(n: Node, a: Attributes) {
    n.Regular? && n.mode == a.mode && (a.uid == -1 || n.uid == a.uid) && (a.gid == -1 || n.gid == a.gid)
  }

  // The file that AtomicWrite leaves on success.
  function Written(cfg: Config, data: string, a: Attributes): Node {
    Regular(data, a.mode, if a.uid == -1 then cfg.uid else a.uid, if a.gid == -1 then cfg.gid else a.gid)
  }

  // The bytes a definition deploys for one version of its secret.
  function Output(cfg: Config, d: Definition, source: string, value: string, revision: nat): Option<string> {
    if d.template == "" then Some(value) else cfg.render(source, value, d.path, revision)
  }

  // ---- what the server answers ----

  // The server as one agent sees it: the store, and the paths it is served,
  // which depends on its credential, its permissions and the lock.
  datatype View = View(store: Plain, granted: set<string>)

  function Metadata(server: View, path: string): Option<nat> {
    if path in server.granted && IsLive(server.store, path) then Some(server.store[path].revision) else None
  }

  datatype Version = Version(path: string, revision: nat, value: string)

  function Download(server: View, path: string): Option<Version> {
    if path in server.granted && IsLive(server.store, path)
    then Some(Version(path, server.store[path].revision, server.store[path].value.value)) else None
  }

  function ValueNow(server: View, path: string): string {
    if IsLive(server.store, path) then server.store[path].value.value else ""
  }

  // ---- the joint state ----

  datatype Job = Job(name: string, d: Definition, source: string)

  // A hook that ran to success: what it was for, what was at the destination
  // when it started, and whether that was undisturbed since the agent had
  // published or compared it.
  datatype HookRun = HookRun(
    name: string, fingerprint: Fingerprint, revision: nat, started: Option<Node>, undisturbed: bool)

  // Where the agent is in syncOne. `asOf` is the value behind the revision that
  // the metadata request returned, and `editsAt` counts the outside edits of
  // the destination when the agent last knew its content.
  datatype Pc =
    | Dead
    | Idle
    | Asking(job: Job)
    | Stating(job: Job, revision: nat, asOf: string, attrs: Attributes)
    | Reading(job: Job, revision: nat, asOf: string, attrs: Attributes, attrsOk: bool)
    | Comparing(job: Job, revision: nat, asOf: string, attrs: Attributes, content: Option<string>, editsAt: nat)
    | Fetching(job: Job, attrs: Attributes)
    | Writing(job: Job, attrs: Attributes, revision: nat, data: string)
    | Recording(job: Job, revision: nat, data: string, editsAt: nat)
    | Saving(job: Job, before: Applied, editsAt: nat)
    | Launching(job: Job, editsAt: nat)
    | Running(job: Job, run: HookRun)
    | Completing(job: Job)

  datatype World = World(
    server: View,
    files: map<string, Node>,
    disk: Journal, // the saved journal
    mem: Journal,  // the process's journal
    pc: Pc,
    // history, which no step consults
    edits: multiset<string>,
    issued: set<Version>,
    hooks: multiset<HookRun>)

  function At(files: map<string, Node>, path: string): Option<Node> {
    if path in files then Some(files[path]) else None
  }

  // Every version live in the store.
  function LiveVersions(m: Plain): set<Version> {
    set p | p in m && m[p].value.Some? :: Version(p, m[p].revision, m[p].value.value)
  }

  // ---- the steps ----

  datatype Step =
    | Begin(job: Job)                          // a template was read, if there is one
    | GiveUp                                   // any error return
    | Meta
    | Stat
    | ReadBack
    | Skip                                     // no download, nothing to do
    | Retry                                    // no download, but the hook is pending
    | Proceed                                  // download
    | Fetch
    | Publish(ok: bool)                        // AtomicWrite got past its rename
    | Record
    | Save(published: bool, ok: bool)
    | Launch
    | Finish                                   // the hook exits successfully
    | Crash
    | Start                                    // a new process reads the saved journal
    | Serve(locked: bool, c: Option<Command>, granted: set<string>) // the server does something else
    | Edit(path: string, node: Option<Node>)   // somebody edits a file

  predicate Matches(e: Applied, job: Job, revision: nat, content: Option<string>) {
    && e.revision == revision
    && e.fingerprint == Of(job.d, job.source)
    && content.Some? && HashOf(content.value) == e.outputHash
  }

  predicate Fails(pc: Pc) {
    pc.Asking? || pc.Fetching? || pc.Writing? || pc.Running?
  }

  predicate Enabled(cfg: Config, w: World, s: Step) {
    match s
    case Begin(job) => w.pc.Idle? && (job.d.template == "" ==> job.source == "")
    case GiveUp => Fails(w.pc)
    case Meta => w.pc.Asking? && Metadata(w.server, w.pc.job.d.path).Some?
                 && Metadata(w.server, w.pc.job.d.path).value >= 1
                 && AttributesOf(cfg, w.pc.job.d).Some?
    case Stat => w.pc.Stating?
    case ReadBack => w.pc.Reading?
    case Skip => w.pc.Comparing? && Matches(Entry(w.mem, w.pc.job.name), w.pc.job, w.pc.revision, w.pc.content)
                 && (!Entry(w.mem, w.pc.job.name).pending || w.pc.job.d.command == [])
    case Retry => w.pc.Comparing? && Matches(Entry(w.mem, w.pc.job.name), w.pc.job, w.pc.revision, w.pc.content)
                  && Entry(w.mem, w.pc.job.name).pending && w.pc.job.d.command != []
    case Proceed => w.pc.Comparing? && !Matches(Entry(w.mem, w.pc.job.name), w.pc.job, w.pc.revision, w.pc.content)
    case Fetch =>
      && w.pc.Fetching?
      && var v := Download(w.server, w.pc.job.d.path);
         && v.Some? && v.value.revision >= 1
         && Output(cfg, w.pc.job.d, w.pc.job.source, v.value.value, v.value.revision).Some?
    case Publish(_) => w.pc.Writing? && At(w.files, w.pc.job.d.destination) != Some(Irregular)
    case Record => w.pc.Recording?
    case Save(published, ok) => (w.pc.Saving? || w.pc.Completing?) && (ok ==> published)
    case Launch => w.pc.Launching?
    case Finish => w.pc.Running? && w.pc.job.name in w.mem
    case Crash => !w.pc.Dead?
    case Start => w.pc.Dead?
    case Serve(_, _, _) => true
    case Edit(_, _) => true
  }

  // The fields of the entry for a completed download.
  function NewEntry(job: Job, revision: nat, data: string): Applied {
    Applied(revision, Of(job.d, job.source), HashOf(data), job.d.command != [])
  }

  function Do(cfg: Config, w: World, s: Step): World
    requires Enabled(cfg, w, s)
  {
    match s
    case Begin(job) => w.(pc := Asking(job))
    case GiveUp => w.(pc := Idle)
    case Meta =>
      var job := w.pc.job;
      w.(pc := Stating(job, Metadata(w.server, job.d.path).value,
                       ValueNow(w.server, job.d.path), AttributesOf(cfg, job.d).value))
    case Stat =>
      var n := At(w.files, w.pc.job.d.destination);
      w.(pc := Reading(w.pc.job, w.pc.revision, w.pc.asOf, w.pc.attrs, n.Some? && HasAttributes(n.value, w.pc.attrs)))
    case ReadBack =>
      // Only a regular file with the right attributes is worth comparing.
      var n := At(w.files, w.pc.job.d.destination);
      var content := if w.pc.attrsOk && n.Some? && n.value.Regular? then Some(n.value.content) else None;
      w.(pc := Comparing(w.pc.job, w.pc.revision, w.pc.asOf, w.pc.attrs, content, w.edits[w.pc.job.d.destination]))
    case Skip => w.(pc := Idle)
    case Retry => w.(pc := Launching(w.pc.job, w.pc.editsAt))
    case Proceed => w.(pc := Fetching(w.pc.job, w.pc.attrs))
    case Fetch =>
      var job := w.pc.job;
      var v := Download(w.server, job.d.path).value;
      w.(pc := Writing(job, w.pc.attrs, v.revision, Output(cfg, job.d, job.source, v.value, v.revision).value))
    case Publish(ok) =>
      var job := w.pc.job;
      w.(files := w.files[job.d.destination := Written(cfg, w.pc.data, w.pc.attrs)],
         pc := if ok then Recording(job, w.pc.revision, w.pc.data, w.edits[job.d.destination]) else Idle)
    case Record =>
      var job := w.pc.job;
      w.(mem := w.mem[job.name := NewEntry(job, w.pc.revision, w.pc.data)],
         pc := Saving(job, Entry(w.mem, job.name), w.pc.editsAt))
    case Save(published, ok) =>
      var job := w.pc.job;
      var disk := if published then w.mem else w.disk;
      if w.pc.Saving? then
        w.(disk := disk,
           mem := if ok then w.mem else w.mem[job.name := w.pc.before],
           pc := if ok && job.d.command != [] then Launching(job, w.pc.editsAt) else Idle)
      else
        w.(disk := disk,
           mem := if ok then w.mem else w.mem[job.name := Entry(w.mem, job.name).(pending := true)],
           pc := Idle)
    case Launch =>
      var job := w.pc.job;
      w.(pc := Running(job, HookRun(job.name, Of(job.d, job.source), Entry(w.mem, job.name).revision,
                                    At(w.files, job.d.destination), w.edits[job.d.destination] == w.pc.editsAt)))
    case Finish =>
      w.(hooks := w.hooks + multiset{w.pc.run},
         mem := w.mem[w.pc.job.name := w.mem[w.pc.job.name].(pending := false)],
         pc := Completing(w.pc.job))
    case Crash => w.(mem := map[], pc := Dead)
    case Start => w.(mem := w.disk, pc := Idle)
    case Serve(locked, c, granted) =>
      var store := PlainNext(w.server.store, locked, c);
      w.(server := View(store, granted), issued := w.issued + LiveVersions(store))
    case Edit(path, node) =>
      w.(files := if node.Some? then w.files[path := node.value] else w.files - {path},
         edits := w.edits + multiset{path})
  }
}
