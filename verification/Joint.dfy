// The real server and the agent in one run: any interleaving of requests of
// others, aborted transactions and restarts on one side with polls, crashes and
// file edits on the other.
module Joint {
  import opened Base
  import opened PlainStore
  import opened Agent
  import opened Deployment
  import opened AgentSafety
  import Convergence
  import Refinement
  import Invariant
  import Paths
  import Records
  import Service

  // What an agent with this Authorization header may see of the server now.
  predicate Serves(s: Service.Sys, header: string, path: string) {
    Service.AgentCall(s.db, s.key, header, Service.GET, path, true, NO_DRAWS).reply.Ok?
  }

  const NO_DRAWS := Service.Draws("", "", "", 0, 0, Service.Limiter.Call(0, 0), 0)

  function Granted(s: Service.Sys, header: string): set<string> {
    set path | path in s.db.secrets && Serves(s, header, path)
  }

  function ViewOf(s: Service.Sys, header: string): View {
    View(Refinement.Abs(s.db), Granted(s, header))
  }

  ghost predicate ServerOk(s: Service.Sys) {
    exists dek, master :: Invariant.Inv(s, dek, master)
  }

  // Whoever may see the metadata may have the value, and both requests are
  // answered with what is live in the store.
  lemma RequestsSeeTheView(s: Service.Sys, header: string, path: string, d: Service.Draws)
    requires ServerOk(s)
    ensures var view := ViewOf(s, header);
            var meta := Refinement.Seen(Service.AgentCall(s.db, s.key, header, Service.GET, path, true, d).reply);
            var value := Refinement.Seen(Service.AgentCall(s.db, s.key, header, Service.GET, path, false, d).reply);
            && (meta.Ok? <==> Metadata(view, path).Some?) && (value.Ok? <==> Download(view, path).Some?)
            && (meta.Ok? ==> meta.value == AtRevision(Metadata(view, path).value))
            && (value.Ok? ==>
                  value.value == Content(Download(view, path).value.value, Download(view, path).value.revision))
  {
    RequestRefines(s, header, path, true, d);
    RequestRefines(s, header, path, true, NO_DRAWS);
    RequestRefines(s, header, path, false, d);
    if IsLive(Refinement.Abs(s.db), path) {
      LiveIsGranted(s, header, path);
    }
  }

  // A request of an agent that is let through is a read of the plain store.
  lemma RequestRefines(s: Service.Sys, header: string, path: string, metadata: bool, d: Service.Draws)
    requires ServerOk(s)
    ensures var reply := Refinement.Seen(Service.AgentCall(s.db, s.key, header, Service.GET, path, metadata, d).reply);
            if Admits(s, header, path)
            then reply == PlainStore.Run(Refinement.Abs(s.db), s.key == [],
                                         Command(Service.GET, path, metadata, Service.NoValue)).0
            else reply.Err?
  {
    var dek, master :| Invariant.Inv(s, dek, master);
    Refinement.SecretCallRefines(s.db, s.key, dek, Command(Service.GET, path, metadata, Service.NoValue), d);
  }

  predicate Admits(s: Service.Sys, header: string, path: string) {
    var auth := Service.AuthenticateAgent(s.db, header);
    auth.Ok? && Paths.Normalize(path).Ok? && Paths.Allowed(path, auth.value.paths)
  }

  lemma LiveIsGranted(s: Service.Sys, header: string, path: string)
    requires IsLive(Refinement.Abs(s.db), path)
    ensures path in Granted(s, header) <==> Serves(s, header, path)
  {
  }

  datatype State = State(sys: Service.Sys, w: World)

  datatype Move = Local(s: Step) | Remote(ev: Service.Event)

  datatype Run = Run(states: seq<State>, moves: seq<Move>, header: string, ttl: int)

  // The agent and the files move by themselves, or the server does, and the
  // agent's view and the record of versions follow.
  ghost predicate MoveAt(cfg: Config, r: Run, i: nat)
    requires i < |r.moves| < |r.states|
  {
    var State(sys, w), State(sys', w') := r.states[i], r.states[i + 1];
    match r.moves[i]
    case Local(s) => !s.Serve? && Enabled(cfg, w, s) && w' == Do(cfg, w, s) && sys' == sys
    case Remote(ev) =>
      && Service.Possible(sys, ev) && sys' == Service.Next(sys, r.ttl, ev)
      && w' == w.(server := ViewOf(sys', r.header), issued := w.issued + LiveVersions(Refinement.Abs(sys'.db)))
  }

  ghost predicate IsRun(cfg: Config, r: Run) {
    && |r.states| == |r.moves| + 1
    && ServerOk(r.states[0].sys) && Initial(r.states[0].w)
    && r.states[0].w.server == ViewOf(r.states[0].sys, r.header)
    && forall i: nat {:trigger MoveAt(cfg, r, i)} :: i < |r.moves| ==> MoveAt(cfg, r, i)
  }

  // The step of the transition system behind a move.
  function StepOf(r: Run, i: nat): Step
    requires i < |r.moves| < |r.states|
  {
    match r.moves[i]
    case Local(s) => s
    case Remote(ev) =>
      Serve(r.states[i].sys.key == [], Refinement.CommandOf(r.states[i].sys, ev), r.states[i + 1].w.server.granted)
  }

  lemma RemoteStep(sys: Service.Sys, ttl: int, ev: Service.Event)
    requires ServerOk(sys) && Service.Possible(sys, ev)
    ensures ServerOk(Service.Next(sys, ttl, ev))
    ensures Refinement.Abs(Service.Next(sys, ttl, ev).db) ==
            PlainNext(Refinement.Abs(sys.db), sys.key == [], Refinement.CommandOf(sys, ev))
  {
    var dek, master :| Invariant.Inv(sys, dek, master);
    Invariant.NextKeepsInv(sys, ttl, ev, dek, master);
    Refinement.NextRefines(sys, ttl, ev, dek);
  }

  lemma RemoteIsServe(cfg: Config, w: World, sys: Service.Sys, ttl: int, header: string,
                      ev: Service.Event, granted: set<string>)
    requires ServerOk(sys) && Service.Possible(sys, ev) && w.server.store == Refinement.Abs(sys.db)
    requires granted == Granted(Service.Next(sys, ttl, ev), header)
    ensures var sys' := Service.Next(sys, ttl, ev);
            var w' := w.(server := ViewOf(sys', header), issued := w.issued + LiveVersions(Refinement.Abs(sys'.db)));
            && ServerOk(sys')
            && w' == Do(cfg, w, Serve(sys.key == [], Refinement.CommandOf(sys, ev), granted))
  {
    RemoteStep(sys, ttl, ev);
  }

  // The server is sound and the agent's side shows its present state.
  ghost predicate InStep(s: State, header: string) {
    ServerOk(s.sys) && s.w.server == ViewOf(s.sys, header)
  }

  lemma LocalKeepsServer(cfg: Config, w: World, s: Step)
    requires Enabled(cfg, w, s) && !s.Serve?
    ensures Do(cfg, w, s).server == w.server
  {
  }

  lemma MoveIsStep(cfg: Config, r: Run, i: nat)
    requires i < |r.moves| < |r.states| && MoveAt(cfg, r, i) && InStep(r.states[i], r.header)
    ensures InStep(r.states[i + 1], r.header)
    ensures var s := StepOf(r, i);
            Enabled(cfg, r.states[i].w, s) && r.states[i + 1].w == Do(cfg, r.states[i].w, s)
  {
    var State(sys, w) := r.states[i];
    match r.moves[i] {
      case Local(s) => LocalKeepsServer(cfg, w, s);
      case Remote(ev) => RemoteIsServe(cfg, w, sys, r.ttl, r.header, ev, r.states[i + 1].w.server.granted);
    }
  }

  lemma {:induction false} ViewStays(cfg: Config, r: Run, i: nat)
    requires IsRun(cfg, r) && i < |r.states|
    ensures InStep(r.states[i], r.header)
  {
    if i > 0 {
      ViewStays(cfg, r, i - 1);
      assert MoveAt(cfg, r, i - 1);
      MoveIsStep(cfg, r, i - 1);
    }
  }

  function Worlds(states: seq<State>): seq<World> {
    seq(|states|, i requires 0 <= i < |states| => states[i].w)
  }

  function Steps(r: Run): seq<Step>
    requires |r.states| == |r.moves| + 1
  {
    seq(|r.moves|, i requires 0 <= i < |r.moves| => StepOf(r, i))
  }

  lemma JointStep(cfg: Config, r: Run, i: nat)
    requires IsRun(cfg, r) && i < |r.moves|
    ensures Enabled(cfg, r.states[i].w, StepOf(r, i)) && r.states[i + 1].w == Do(cfg, r.states[i].w, StepOf(r, i))
  {
    ViewStays(cfg, r, i);
    assert MoveAt(cfg, r, i);
    MoveIsStep(cfg, r, i);
  }

  // A joint run is a run of the transition system: everything proved of those
  // holds with the real server in it.
  lemma JointRunIsAgentRun(cfg: Config, r: Run)
    requires IsRun(cfg, r)
    ensures AgentSafety.IsRun(cfg, AgentSafety.Run(Worlds(r.states), Steps(r)))
  {
    var a := AgentSafety.Run(Worlds(r.states), Steps(r));
    forall i: nat | i < |a.steps| ensures AgentSafety.StepAt(cfg, a, i) {
      JointStep(cfg, r, i);
    }
  }

  // The version of a secret that the server holds encrypted.
  function Stored(db: Records.Db, path: string): Option<Version> {
    if Service.Live(db, path) && db.secrets[path].ciphertext.Some?
    then Some(Version(path, db.secrets[path].revision, db.secrets[path].ciphertext.value.plain)) else None
  }

  lemma StoredIsAbstract(s: Service.Sys, path: string)
    requires IsLive(Refinement.Abs(s.db), path)
    ensures Stored(s.db, path).Some? && Service.Live(s.db, path)
    ensures Refinement.Abs(s.db)[path] == Cell(Stored(s.db, path).value.revision, Some(Stored(s.db, path).value.value))
  {
  }

  // Whom the server serves sees what it holds.
  lemma ServedIsStored(s: Service.Sys, header: string, path: string)
    requires ServerOk(s)
    ensures Serves(s, header, path) <==> Metadata(ViewOf(s, header), path).Some?
    ensures Serves(s, header, path) ==>
              Stored(s.db, path).Some? && Download(ViewOf(s, header), path) == Stored(s.db, path)
  {
    RequestsSeeTheView(s, header, path, NO_DRAWS);
    if Metadata(ViewOf(s, header), path).Some? {
      StoredIsAbstract(s, path);
    }
  }

  // What a definition is to deploy of what the server holds.
  function Rendering(cfg: Config, job: Job, v: Version): Option<string> {
    Output(cfg, job.d, job.source, v.value, v.revision)
  }

  // End to end: when a poll takes the exit without a download, then within that
  // poll it had asked the server for the metadata, examined the destination and
  // read it, in this order, and what it read and compared was the rendering of
  // the value that the server, at that request, served it and held encrypted
  // under its revision, in a file with the configured mode and owner.
  lemma SkipIsSoundEndToEnd(cfg: Config, r: Run, i: nat) returns (m: nat, a: nat, k: nat)
    requires IsRun(cfg, r) && i < |r.moves| && (r.moves[i] == Local(Skip) || r.moves[i] == Local(Retry))
    ensures r.states[i].w.pc.Comparing? && m < a < k < i
    ensures r.moves[m] == Local(Meta) && r.moves[a] == Local(Stat) && r.moves[k] == Local(ReadBack)
    ensures r.states[m].w.pc == Asking(r.states[i].w.pc.job)
    ensures forall n: nat :: m < n <= i ==>
              Asked(r.states[n].w.pc) && r.states[n].w.pc.job == r.states[i].w.pc.job
    ensures var job, sys := r.states[i].w.pc.job, r.states[m].sys;
            && Serves(sys, r.header, job.d.path) && Stored(sys.db, job.d.path).Some?
            && var output := Rendering(cfg, job, Stored(sys.db, job.d.path).value);
               && output.Some? && r.states[i].w.pc.content == output
               && IsContent(At(r.states[k].w.files, job.d.destination), output.value)
               && var v := Stored(sys.db, job.d.path).value;
                  Renders(cfg, job.d, job.source, v.value, v.revision, output.value)
    ensures var job := r.states[i].w.pc.job;
            var n := At(r.states[a].w.files, job.d.destination);
            n.Some? && FileFits(cfg, job.d, n.value)
  {
    JointRunIsAgentRun(cfg, r);
    var run := AgentSafety.Run(Worlds(r.states), Steps(r));
    assert run.steps[i] == StepOf(r, i);
    m, a, k := SkipIsSound(cfg, run, i);
    ViewStays(cfg, r, m);
    LocalStep(r, m);
    LocalStep(r, a);
    LocalStep(r, k);
    OnePoll(cfg, r, m, i);
    ServedIsStored(r.states[m].sys, r.header, r.states[i].w.pc.job.d.path);
  }

  lemma LocalStep(r: Run, n: nat)
    requires |r.states| == |r.moves| + 1 && n < |r.moves| && !Steps(r)[n].Serve?
    ensures r.moves[n] == Local(Steps(r)[n]) && Worlds(r.states)[n] == r.states[n].w
  {
  }

  lemma OnePoll(cfg: Config, r: Run, m: nat, i: nat)
    requires |r.states| == |r.moves| + 1 && m < i < |r.states| && Asked(r.states[i].w.pc)
    requires SamePoll(AgentSafety.Run(Worlds(r.states), Steps(r)), m, i, r.states[i].w.pc.job)
    ensures forall n: nat :: m < n <= i ==>
              Asked(r.states[n].w.pc) && r.states[n].w.pc.job == r.states[i].w.pc.job
  {
    forall n: nat | m < n <= i
      ensures Asked(r.states[n].w.pc) && r.states[n].w.pc.job == r.states[i].w.pc.job
    {
      assert Worlds(r.states)[n] == r.states[n].w;
    }
  }

  // The server serves the secret, and a file rendered from what it holds may be
  // put at the destination.
  ghost predicate Deployable(cfg: Config, s: State, header: string, job: Job) {
    && Serves(s.sys, header, job.d.path) && Stored(s.sys.db, job.d.path).Some?
    && var v := Stored(s.sys.db, job.d.path).value;
       && (exists content :: Renders(cfg, job.d, job.source, v.value, v.revision, content))
       && (exists mode :: ModeIs(job.d.mode, mode)) && cfg.owner(job.d.owner).Some? && cfg.group(job.d.group).Some?
       && (job.d.destination in s.w.files ==> s.w.files[job.d.destination].Regular?)
  }

  // The destination holds what the server holds, or what the template's text
  // renders to for it, in a file with the configured mode and owner.
  ghost predicate Delivered(cfg: Config, sys: Service.Sys, files: map<string, Node>, job: Job) {
    && Stored(sys.db, job.d.path).Some?
    && var v := Stored(sys.db, job.d.path).value;
       InPlace(cfg, files, job, v.value, v.revision)
  }

  lemma DeployableCanDeploy(cfg: Config, s: State, header: string, job: Job)
    requires InStep(s, header)
    ensures Deployable(cfg, s, header, job) <==> Convergence.CanDeploy(cfg, s.w, job)
  {
    ServedIsStored(s.sys, header, job.d.path);
    if Serves(s.sys, header, job.d.path) {
      var v, cell := Stored(s.sys.db, job.d.path).value, s.w.server.store[job.d.path];
      assert v.revision == cell.revision && v.value == cell.value.value;
    }
  }

  lemma CurrentIsDelivered(cfg: Config, s: State, header: string, w: World, job: Job)
    requires InStep(s, header) && w.server == s.w.server && Convergence.Current(cfg, w, job)
    ensures Delivered(cfg, s.sys, w.files, job)
  {
    ServedIsStored(s.sys, header, job.d.path);
  }

  // End to end: from every idle moment of agent and real server together, one
  // poll in which nothing fails delivers every definition, and the next one
  // downloads, writes and runs nothing.
  lemma PollDelivers(cfg: Config, r: Run, i: nat, jobs: seq<Job>)
    requires IsRun(cfg, r) && i < |r.states| && r.states[i].w.pc.Idle?
    requires Convergence.Distinct(jobs)
    requires forall k :: 0 <= k < |jobs| ==> Deployable(cfg, r.states[i], r.header, jobs[k])
    ensures var first := Convergence.CleanSync(cfg, r.states[i].w, jobs);
            && first.ok
            && (forall k :: 0 <= k < |jobs| ==> Delivered(cfg, r.states[i].sys, first.w.files, jobs[k]))
            && Convergence.CleanSync(cfg, first.w, jobs) == Convergence.Nothing(first.w)
  {
    JointRunIsAgentRun(cfg, r);
    var run := AgentSafety.Run(Worlds(r.states), Steps(r));
    assert run.states[i] == r.states[i].w;
    ViewStays(cfg, r, i);
    forall k | 0 <= k < |jobs| ensures Convergence.CanDeploy(cfg, run.states[i], jobs[k]) {
      DeployableCanDeploy(cfg, r.states[i], r.header, jobs[k]);
    }
    Convergence.SyncIsConvergentAndIdempotent(cfg, run, i, jobs);
    Convergence.ServerUntouched(cfg, run.states[i], jobs);
    var first := Convergence.CleanSync(cfg, r.states[i].w, jobs);
    forall k | 0 <= k < |jobs| ensures Delivered(cfg, r.states[i].sys, first.w.files, jobs[k]) {
      CurrentIsDelivered(cfg, r.states[i], r.header, first.w, jobs[k]);
    }
  }
}
