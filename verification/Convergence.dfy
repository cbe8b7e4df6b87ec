// A poll in which nothing fails and nobody interferes: it brings every
// destination and journal entry up to date, a second one does nothing, and the
// order in which the definitions are visited does not matter.
module Convergence {
  import opened Base
  import opened Agent
  import opened Deployment
  import opened AgentSafety
  import opened PlainStore

  // The world after a poll, whether it succeeded, whether it downloaded a value
  // (as it must to write one) or saved the journal, and the hooks it ran.
  datatype Poll = Poll(w: World, ok: bool, downloaded: bool, saved: bool, ran: multiset<HookRun>)

  function Failed(w: World, downloaded: bool): Poll {
    Poll(w, false, downloaded, false, multiset{})
  }

  function Nothing(w: World): Poll {
    Poll(w, true, false, false, multiset{})
  }

  // The hook runs on the file there is, and the journal records that it did.
  function Hooked(w: World, job: Job, e: Applied, downloaded: bool): Poll {
    var run := HookRun(job.name, Of(job.d, job.source), e.revision, At(w.files, job.d.destination), true);
    var mem := w.mem[job.name := e.(pending := false)];
    Poll(w.(mem := mem, disk := mem, hooks := w.hooks + multiset{run}), true, downloaded, true, multiset{run})
  }

  // What the agent sees at the destination before it decides.
  function Seen(w: World, job: Job, a: Attributes): Option<string> {
    var n := At(w.files, job.d.destination);
    if n.Some? && HasAttributes(n.value, a) then Some(n.value.content) else None
  }

  function Deployed(cfg: Config, w: World, job: Job, a: Attributes, v: Version, data: string): Poll {
    var e := NewEntry(job, v.revision, data);
    var mem := w.mem[job.name := e];
    var w' := w.(files := w.files[job.d.destination := Written(cfg, data, a)], mem := mem, disk := mem);
    if job.d.command == [] then Poll(w', true, true, true, multiset{}) else Hooked(w', job, e, true)
  }

  function Replaced(cfg: Config, w: World, job: Job, a: Attributes, v: Option<Version>): Poll {
    if v.None? || v.value.revision < 1 then Failed(w, false)
    else
      var data := Output(cfg, job.d, job.source, v.value.value, v.value.revision);
      if data.None? || At(w.files, job.d.destination) == Some(Irregular) then Failed(w, true)
      else Deployed(cfg, w, job, a, v.value, data.value)
  }

  // One definition, given what the server answers to its two requests.
  function CleanWith(cfg: Config, w: World, job: Job, attrs: Option<Attributes>,
                     revision: Option<nat>, v: Option<Version>): Poll {
    if revision.None? || revision.value < 1 || attrs.None? then Failed(w, false)
    else
      var e := Entry(w.mem, job.name);
      if Matches(e, job, revision.value, Seen(w, job, attrs.value)) then
        if e.pending && job.d.command != [] then Hooked(w, job, e, false) else Nothing(w)
      else Replaced(cfg, w, job, attrs.value, v)
  }

  // One definition, without faults.
  function CleanOne(cfg: Config, w: World, job: Job): Poll {
    CleanWith(cfg, w, job, AttributesOf(cfg, job.d), Metadata(w.server, job.d.path),
              Download(w.server, job.d.path))
  }

  function CleanSync(cfg: Config, w: World, jobs: seq<Job>): Poll
    decreases |jobs|
  {
    if jobs == [] then Nothing(w)
    else
      var p := CleanOne(cfg, w, jobs[0]);
      var q := CleanSync(cfg, p.w, jobs[1..]);
      Poll(q.w, p.ok && q.ok, p.downloaded || q.downloaded, p.saved || q.saved, p.ran + q.ran)
  }

  // Definitions come with distinct names and, as checked on loading, distinct
  // destinations.
  ghost predicate Distinct(jobs: seq<Job>) {
    forall i, j :: 0 <= i < j < |jobs| ==>
      jobs[i].name != jobs[j].name && jobs[i].d.destination != jobs[j].d.destination
  }

  // ---- what one job touches ----

  // Two worlds look alike to a job.
  ghost predicate Alike(w: World, w': World, job: Job) {
    && w.server == w'.server
    && At(w.files, job.d.destination) == At(w'.files, job.d.destination)
    && (job.name in w.mem <==> job.name in w'.mem)
    && Entry(w.mem, job.name) == Entry(w'.mem, job.name)
  }

  // A poll of a job leaves everything but its own destination and entry alone;
  // it saves the journal or changes nothing at all.
  ghost predicate Framed(w: World, job: Job, p: Poll) {
    && p.w == w.(files := p.w.files, mem := p.w.mem, disk := p.w.disk, hooks := w.hooks + p.ran)
    && (forall d :: d != job.d.destination ==> At(p.w.files, d) == At(w.files, d))
    && (forall n :: n != job.name ==> (n in p.w.mem <==> n in w.mem) && Entry(p.w.mem, n) == Entry(w.mem, n))
    && (if p.saved then p.w.disk == p.w.mem else p.w == w && p.ran == multiset{})
    && (p.downloaded && p.ok ==> p.saved)
  }

  lemma HookedFramed(w: World, job: Job, e: Applied, downloaded: bool)
    ensures Framed(w, job, Hooked(w, job, e, downloaded))
  {
  }

  lemma DeployedFramed(cfg: Config, w: World, job: Job, a: Attributes, v: Version, data: string)
    ensures Framed(w, job, Deployed(cfg, w, job, a, v, data))
  {
    var e := NewEntry(job, v.revision, data);
    var mem := w.mem[job.name := e];
    var w' := w.(files := w.files[job.d.destination := Written(cfg, data, a)], mem := mem, disk := mem);
    HookedFramed(w', job, e, true);
  }

  // All that a poll of one definition can come to.
  lemma CleanCases(cfg: Config, w: World, job: Job, attrs: Option<Attributes>, revision: Option<nat>,
                   v: Option<Version>) returns (data: string)
    ensures var p := CleanWith(cfg, w, job, attrs, revision, v);
            || p == Failed(w, false) || p == Failed(w, true) || p == Nothing(w)
            || p == Hooked(w, job, Entry(w.mem, job.name), false)
            || (attrs.Some? && v.Some? && p == Deployed(cfg, w, job, attrs.value, v.value, data))
  {
    data := "";
    if v.Some? && Output(cfg, job.d, job.source, v.value.value, v.value.revision).Some? {
      data := Output(cfg, job.d, job.source, v.value.value, v.value.revision).value;
    }
  }

  lemma OneJobWith(cfg: Config, w: World, job: Job, attrs: Option<Attributes>,
                   revision: Option<nat>, v: Option<Version>)
    ensures Framed(w, job, CleanWith(cfg, w, job, attrs, revision, v))
  {
    var data := CleanCases(cfg, w, job, attrs, revision, v);
    HookedFramed(w, job, Entry(w.mem, job.name), false);
    if attrs.Some? && v.Some? {
      DeployedFramed(cfg, w, job, attrs.value, v.value, data);
    }
    assert Framed(w, job, Failed(w, false)) && Framed(w, job, Failed(w, true)) && Framed(w, job, Nothing(w));
  }

  lemma OneJob(cfg: Config, w: World, job: Job)
    ensures Framed(w, job, CleanOne(cfg, w, job))
  {
    OneJobWith(cfg, w, job, AttributesOf(cfg, job.d), Metadata(w.server, job.d.path),
               Download(w.server, job.d.path));
  }

  ghost predicate SameEffect(p: Poll, p': Poll, job: Job) {
    p.ok == p'.ok && p.downloaded == p'.downloaded && p.saved == p'.saved && p.ran == p'.ran && Alike(p.w, p'.w, job)
  }

  lemma HookedLocally(w: World, w': World, job: Job, e: Applied, downloaded: bool)
    requires Alike(w, w', job)
    ensures SameEffect(Hooked(w, job, e, downloaded), Hooked(w', job, e, downloaded), job)
  {
  }

  lemma ReplacedLocally(cfg: Config, w: World, w': World, job: Job, a: Attributes, v: Option<Version>)
    requires Alike(w, w', job)
    ensures SameEffect(Replaced(cfg, w, job, a, v), Replaced(cfg, w', job, a, v), job)
  {
  }

  // Its effect depends only on what it looks at.
  lemma LocalityWith(cfg: Config, w: World, w': World, job: Job, attrs: Option<Attributes>,
                     revision: Option<nat>, v: Option<Version>)
    requires Alike(w, w', job)
    ensures SameEffect(CleanWith(cfg, w, job, attrs, revision, v), CleanWith(cfg, w', job, attrs, revision, v), job)
  {
    HookedLocally(w, w', job, Entry(w.mem, job.name), false);
    if attrs.Some? {
      ReplacedLocally(cfg, w, w', job, attrs.value, v);
    }
  }

  lemma Locality(cfg: Config, w: World, w': World, job: Job)
    requires Alike(w, w', job)
    ensures SameEffect(CleanOne(cfg, w, job), CleanOne(cfg, w', job), job)
  {
    LocalityWith(cfg, w, w', job, AttributesOf(cfg, job.d), Metadata(w.server, job.d.path),
                 Download(w.server, job.d.path));
  }

  // ---- convergence ----

  // A poll of this job can succeed: the server grants the secret, the
  // attributes resolve, it renders, and a file may be put there.
  ghost predicate Ready(cfg: Config, w: World, job: Job) {
    && Metadata(w.server, job.d.path).Some?
    && AttributesOf(cfg, job.d).Some?
    && Output(cfg, job.d, job.source, ValueNow(w.server, job.d.path), Metadata(w.server, job.d.path).value).Some?
    && At(w.files, job.d.destination) != Some(Irregular)
  }

  ghost predicate UpToDate(w: World, job: Job, a: Attributes, revision: nat, output: string) {
    && Seen(w, job, a) == Some(output)
    && job.name in w.mem && w.mem[job.name] == Applied(revision, Of(job.d, job.source), HashOf(output), false)
  }

  // The destination is the rendering of the value now in the store, with the
  // configured mode and owner, and the entry says so.
  ghost predicate Converged(cfg: Config, w: World, job: Job) {
    && Ready(cfg, w, job)
    && var revision := Metadata(w.server, job.d.path).value;
       var output := Output(cfg, job.d, job.source, ValueNow(w.server, job.d.path), revision).value;
       UpToDate(w, job, AttributesOf(cfg, job.d).value, revision, output)
  }

  // The same two, said of the definition, the store and the file alone: the
  // secret is served and live, mode and names resolve, a template renders, and
  // nothing but a file is in the way.
  ghost predicate CanDeploy(cfg: Config, w: World, job: Job) {
    && job.d.path in w.server.granted && IsLive(w.server.store, job.d.path)
    && var cell := w.server.store[job.d.path];
       && (exists content :: Renders(cfg, job.d, job.source, cell.value.value, cell.revision, content))
       && (exists mode :: ModeIs(job.d.mode, mode)) && cfg.owner(job.d.owner).Some? && cfg.group(job.d.group).Some?
       && (job.d.destination in w.files ==> w.files[job.d.destination].Regular?)
  }

  ghost predicate Current(cfg: Config, w: World, job: Job) {
    && job.d.path in w.server.granted && IsLive(w.server.store, job.d.path)
    && var cell := w.server.store[job.d.path];
       && InPlace(cfg, w.files, job, cell.value.value, cell.revision)
       && job.name in w.mem
       && var content := w.files[job.d.destination].content;
          w.mem[job.name] == Applied(cell.revision, Of(job.d, job.source), HashOf(content), false)
  }

  lemma AttributesResolve(cfg: Config, d: Definition)
    ensures AttributesOf(cfg, d).Some? <==>
              (exists mode :: ModeIs(d.mode, mode)) && cfg.owner(d.owner).Some? && cfg.group(d.group).Some?
  {
    if ParseMode(d.mode).Some? {
      ModeIff(d.mode, ParseMode(d.mode).value);
    } else {
      forall mode ensures !ModeIs(d.mode, mode) {
        ModeIff(d.mode, mode);
      }
    }
  }

  lemma ReadyIff(cfg: Config, w: World, job: Job)
    ensures Ready(cfg, w, job) <==> CanDeploy(cfg, w, job)
  {
    AttributesResolve(cfg, job.d);
    if Metadata(w.server, job.d.path).Some? {
      var cell := w.server.store[job.d.path];
      var output := Output(cfg, job.d, job.source, cell.value.value, cell.revision);
      forall content
        ensures output == Some(content) <==> Renders(cfg, job.d, job.source, cell.value.value, cell.revision, content)
      {
        OutputIff(cfg, job.d, job.source, cell.value.value, cell.revision, content);
      }
      assert output.Some? ==> output == Some(output.value);
    }
  }

  lemma ConvergedIff(cfg: Config, w: World, job: Job)
    ensures Converged(cfg, w, job) <==> Current(cfg, w, job)
  {
    var n := At(w.files, job.d.destination);
    if n.Some? && n.value.Regular? && Metadata(w.server, job.d.path).Some? {
      var cell := w.server.store[job.d.path];
      FileFitsIff(cfg, job.d, n.value);
      OutputIff(cfg, job.d, job.source, cell.value.value, cell.revision, n.value.content);
    }
  }

  // Live secrets have positive revisions.
  ghost predicate Served(w: World) {
    forall p :: IsLive(w.server.store, p) ==> w.server.store[p].revision >= 1
  }

  lemma InvServed(w: World)
    requires IssuedOk(w.issued, w.server.store)
    ensures Served(w)
  {
    forall p | IsLive(w.server.store, p) ensures w.server.store[p].revision >= 1 {
      assert Version(p, w.server.store[p].revision, w.server.store[p].value.value) in LiveVersions(w.server.store);
    }
  }

  // The journal entry of the job may be relied on.
  ghost predicate Sound(cfg: Config, w: World, job: Job) {
    && IssuedOk(w.issued, w.server.store)
    && EntryOk(cfg, w.issued, w.hooks, job.name, Entry(w.mem, job.name))
  }

  // An entry that matches is the one of the current version, and a poll can
  // succeed.
  lemma MatchIsCurrent(cfg: Config, w: World, job: Job)
    requires Sound(cfg, w, job) && Metadata(w.server, job.d.path).Some? && AttributesOf(cfg, job.d).Some?
    requires Matches(Entry(w.mem, job.name), job, Metadata(w.server, job.d.path).value,
                     Seen(w, job, AttributesOf(cfg, job.d).value))
    ensures Ready(cfg, w, job) && job.name in w.mem
    ensures Output(cfg, job.d, job.source, ValueNow(w.server, job.d.path), Metadata(w.server, job.d.path).value) ==
            Seen(w, job, AttributesOf(cfg, job.d).value)
  {
    var e := Entry(w.mem, job.name);
    var value :| Version(job.d.path, e.revision, value) in w.issued
                 && Output(cfg, job.d, job.source, value, e.revision) == Some(e.outputHash.content);
    assert Version(job.d.path, e.revision, ValueNow(w.server, job.d.path)) in LiveVersions(w.server.store);
  }

  lemma CleanWithConverges(cfg: Config, w: World, job: Job, a: Attributes, v: Version, output: string)
    requires v.revision >= 1 && Output(cfg, job.d, job.source, v.value, v.revision) == Some(output)
    requires At(w.files, job.d.destination) != Some(Irregular)
    requires Matches(Entry(w.mem, job.name), job, v.revision, Seen(w, job, a)) ==>
               Seen(w, job, a) == Some(output) && job.name in w.mem && (w.mem[job.name].pending ==> job.d.command != [])
    ensures var p := CleanWith(cfg, w, job, Some(a), Some(v.revision), Some(v));
            p.ok && UpToDate(p.w, job, a, v.revision, output)
  {
  }

  lemma CleanOneConverges(cfg: Config, w: World, job: Job)
    requires Sound(cfg, w, job) && Ready(cfg, w, job)
    ensures CleanOne(cfg, w, job).ok && Converged(cfg, CleanOne(cfg, w, job).w, job)
  {
    OneJob(cfg, w, job);
    var v, attrs := Download(w.server, job.d.path).value, AttributesOf(cfg, job.d).value;
    if Matches(Entry(w.mem, job.name), job, v.revision, Seen(w, job, attrs)) {
      MatchIsCurrent(cfg, w, job);
    }
    CleanWithConverges(cfg, w, job, attrs, v, Output(cfg, job.d, job.source, v.value, v.revision).value);
  }

  lemma ConvergedIsFixed(cfg: Config, w: World, job: Job)
    requires Served(w) && Converged(cfg, w, job)
    ensures CleanOne(cfg, w, job) == Nothing(w)
  {
  }

  // A poll of a definition succeeds exactly if it can; it then changes anything
  // at all, and runs the hook if there is one, exactly if the definition had not
  // yet converged.
  lemma EffectIff(cfg: Config, w: World, job: Job)
    requires Sound(cfg, w, job)
    ensures var p := CleanOne(cfg, w, job);
            && (p.ok <==> Ready(cfg, w, job))
            && (p.saved <==> Ready(cfg, w, job) && !Converged(cfg, w, job))
            && (p.ran != multiset{} <==> p.saved && job.d.command != [])
  {
    var revision, attrs := Metadata(w.server, job.d.path), AttributesOf(cfg, job.d);
    InvServed(w);
    if revision.Some? && attrs.Some? {
      if Matches(Entry(w.mem, job.name), job, revision.value, Seen(w, job, attrs.value)) {
        MatchIsCurrent(cfg, w, job);
      } else {
        ReplacedIff(cfg, w, job, attrs.value);
      }
    }
  }

  lemma ReplacedIff(cfg: Config, w: World, job: Job, a: Attributes)
    requires Served(w) && Metadata(w.server, job.d.path).Some? && AttributesOf(cfg, job.d) == Some(a)
    ensures var p := Replaced(cfg, w, job, a, Download(w.server, job.d.path));
            && (p.ok <==> Ready(cfg, w, job)) && (p.saved <==> p.ok)
            && (p.ran != multiset{} <==> p.saved && job.d.command != [])
  {
  }

  // What one definition without faults comes to, said of the file there is
  // afterwards: if the secret can be deployed, the file is what it is to be, and
  // a new one belongs to whom it is to; otherwise nothing is changed.
  lemma CleanOneDeploys(cfg: Config, w: World, job: Job)
    requires Sound(cfg, w, job)
    ensures var p := CleanOne(cfg, w, job);
            if CanDeploy(cfg, w, job) then
              && p.ok && Current(cfg, p.w, job)
              && (p.w.files != w.files ==> FileMade(cfg, job.d, p.w.files[job.d.destination]))
            else !p.ok && p.w == w
  {
    var p := CleanOne(cfg, w, job);
    ReadyIff(cfg, w, job);
    EffectIff(cfg, w, job);
    OneJob(cfg, w, job);
    if CanDeploy(cfg, w, job) {
      CleanOneConverges(cfg, w, job);
      ConvergedIff(cfg, p.w, job);
      if p.w.files != w.files {
        WrittenIsMade(cfg, job.d, p.w.files[job.d.destination].content, AttributesOf(cfg, job.d).value);
      }
    }
  }

  // Other jobs are neither disturbed nor helped.
  lemma OthersUndisturbed(cfg: Config, w: World, job: Job, other: Job)
    requires job.name != other.name && job.d.destination != other.d.destination
    ensures Alike(w, CleanOne(cfg, w, job).w, other)
    ensures Sound(cfg, w, other) ==> Sound(cfg, CleanOne(cfg, w, job).w, other)
    ensures Ready(cfg, w, other) ==> Ready(cfg, CleanOne(cfg, w, job).w, other)
    ensures Converged(cfg, w, other) ==> Converged(cfg, CleanOne(cfg, w, job).w, other)
  {
    var w' := CleanOne(cfg, w, job).w;
    OneJob(cfg, w, job);
    if Sound(cfg, w, other) {
      EntryStaysOk(cfg, w.issued, w.issued, w.hooks, w'.hooks, other.name, Entry(w.mem, other.name));
    }
  }

  lemma {:induction false} StaysConverged(cfg: Config, w: World, jobs: seq<Job>, job: Job)
    requires Converged(cfg, w, job)
    requires forall i :: 0 <= i < |jobs| ==> jobs[i].name != job.name && jobs[i].d.destination != job.d.destination
    ensures Converged(cfg, CleanSync(cfg, w, jobs).w, job)
    decreases |jobs|
  {
    if jobs != [] {
      OthersUndisturbed(cfg, w, jobs[0], job);
      StaysConverged(cfg, CleanOne(cfg, w, jobs[0]).w, jobs[1..], job);
    }
  }

  lemma {:induction false} ServerUntouched(cfg: Config, w: World, jobs: seq<Job>)
    ensures CleanSync(cfg, w, jobs).w.server == w.server
    decreases |jobs|
  {
    if jobs != [] {
      OneJob(cfg, w, jobs[0]);
      ServerUntouched(cfg, CleanOne(cfg, w, jobs[0]).w, jobs[1..]);
    }
  }

  lemma {:induction false} SyncConverges(cfg: Config, w: World, jobs: seq<Job>)
    requires Distinct(jobs)
    requires forall i :: 0 <= i < |jobs| ==> Sound(cfg, w, jobs[i]) && Ready(cfg, w, jobs[i])
    ensures CleanSync(cfg, w, jobs).ok
    ensures forall i :: 0 <= i < |jobs| ==> Converged(cfg, CleanSync(cfg, w, jobs).w, jobs[i])
    decreases |jobs|
  {
    if jobs != [] {
      var w', rest := CleanOne(cfg, w, jobs[0]).w, jobs[1..];
      CleanOneConverges(cfg, w, jobs[0]);
      forall i | 0 <= i < |rest| ensures Sound(cfg, w', rest[i]) && Ready(cfg, w', rest[i]) {
        assert rest[i] == jobs[i + 1];
        OthersUndisturbed(cfg, w, jobs[0], rest[i]);
      }
      SyncConverges(cfg, w', rest);
      StaysConverged(cfg, w', rest, jobs[0]);
      forall i | 0 <= i < |jobs| ensures Converged(cfg, CleanSync(cfg, w, jobs).w, jobs[i]) {
        if i > 0 { assert jobs[i] == rest[i - 1]; }
      }
    }
  }

  lemma {:induction false} FixedSync(cfg: Config, w: World, jobs: seq<Job>)
    requires Served(w)
    requires forall i :: 0 <= i < |jobs| ==> Converged(cfg, w, jobs[i])
    ensures CleanSync(cfg, w, jobs) == Nothing(w)
    decreases |jobs|
  {
    if jobs != [] {
      ConvergedIsFixed(cfg, w, jobs[0]);
      FixedSync(cfg, w, jobs[1..]);
    }
  }

  lemma InvSound(cfg: Config, w: World, job: Job)
    requires AgentSafety.Inv(cfg, w)
    ensures Sound(cfg, w, job)
  {
  }

  // From every state the joint system can reach, whatever crashes, failed saves
  // and edits brought it there and however far memory and disk have drifted
  // apart, one clean Sync puts every definition right, and the next one
  // downloads nothing, writes nothing and runs nothing.
  lemma SyncIsConvergentAndIdempotent(cfg: Config, r: AgentSafety.Run, i: nat, jobs: seq<Job>)
    requires IsRun(cfg, r) && i < |r.states| && r.states[i].pc.Idle?
    requires Distinct(jobs) && forall k :: 0 <= k < |jobs| ==> CanDeploy(cfg, r.states[i], jobs[k])
    ensures var first := CleanSync(cfg, r.states[i], jobs);
            && first.ok
            && (forall k :: 0 <= k < |jobs| ==> Current(cfg, first.w, jobs[k]))
            && CleanSync(cfg, first.w, jobs) == Nothing(first.w)
  {
    RunInv(cfg, r, i);
    var w := r.states[i];
    InvServed(w);
    forall k | 0 <= k < |jobs| ensures Sound(cfg, w, jobs[k]) && Ready(cfg, w, jobs[k]) {
      InvSound(cfg, w, jobs[k]);
      ReadyIff(cfg, w, jobs[k]);
    }
    SyncConverges(cfg, w, jobs);
    var first := CleanSync(cfg, w, jobs);
    forall k | 0 <= k < |jobs| ensures Current(cfg, first.w, jobs[k]) {
      ConvergedIff(cfg, first.w, jobs[k]);
    }
    ServerUntouched(cfg, w, jobs);
    FixedSync(cfg, first.w, jobs);
  }

  // ---- order ----

  // The effect of every job on one and the same world.
  type Effects = Job -> Poll

  function HookSum(f: Effects, jobs: seq<Job>): multiset<HookRun> {
    if jobs == [] then multiset{} else f(jobs[0]).ran + HookSum(f, jobs[1..])
  }

  ghost predicate AnySaves(f: Effects, jobs: seq<Job>) {
    exists job :: job in jobs && f(job).saved
  }

  ghost predicate AnyDownloads(f: Effects, jobs: seq<Job>) {
    exists job :: job in jobs && f(job).downloaded
  }

  ghost predicate AllOk(f: Effects, jobs: seq<Job>) {
    forall job :: job in jobs ==> f(job).ok
  }

  // What a whole Sync reports, without reference to the order of the jobs.
  ghost predicate Reported(f: Effects, jobs: seq<Job>, p: Poll) {
    && p.ok == AllOk(f, jobs) && p.downloaded == AnyDownloads(f, jobs)
    && p.saved == AnySaves(f, jobs) && p.ran == HookSum(f, jobs)
  }

  ghost predicate SameEffects(f: Effects, f': Effects, jobs: seq<Job>) {
    forall job :: job in jobs ==> SameEffect(f(job), f'(job), job)
  }

  function Destinations(jobs: seq<Job>): set<string> {
    set job | job in jobs :: job.d.destination
  }

  function Names(jobs: seq<Job>): set<string> {
    set job | job in jobs :: job.name
  }

  ghost predicate FilesOutside(w: World, w': World, destinations: set<string>) {
    forall d :: d !in destinations ==> At(w'.files, d) == At(w.files, d)
  }

  ghost predicate EntriesOutside(w: World, w': World, names: set<string>) {
    forall n :: n !in names ==> (n in w'.mem <==> n in w.mem) && Entry(w'.mem, n) == Entry(w.mem, n)
  }

  ghost predicate JobsAlike(f: Effects, jobs: seq<Job>, w': World) {
    forall job :: job in jobs ==> Alike(f(job).w, w', job)
  }

  // A whole Sync, described without reference to the order of the jobs.
  ghost predicate Described(f: Effects, w: World, jobs: seq<Job>, w': World) {
    && w' == w.(files := w'.files, mem := w'.mem, disk := w'.disk, hooks := w.hooks + HookSum(f, jobs))
    && JobsAlike(f, jobs, w')
    && FilesOutside(w, w', Destinations(jobs))
    && EntriesOutside(w, w', Names(jobs))
    && (if AnySaves(f, jobs) then w'.disk == w'.mem else w'.disk == w.disk && w'.mem == w.mem)
  }

  lemma {:induction false} SameSums(f: Effects, f': Effects, jobs: seq<Job>)
    requires SameEffects(f, f', jobs)
    ensures HookSum(f, jobs) == HookSum(f', jobs)
    ensures AnySaves(f, jobs) == AnySaves(f', jobs)
  {
    if jobs != [] {
      SameSums(f, f', jobs[1..]);
    }
  }

  lemma OutsideStep(w: World, w1: World, w': World, job: Job, rest: seq<Job>)
    requires FilesOutside(w, w1, {job.d.destination}) && FilesOutside(w1, w', Destinations(rest))
    requires EntriesOutside(w, w1, {job.name}) && EntriesOutside(w1, w', Names(rest))
    ensures FilesOutside(w, w', Destinations([job] + rest))
    ensures EntriesOutside(w, w', Names([job] + rest))
  {
    var jobs := [job] + rest;
    assert job in jobs && forall other :: other in rest ==> other in jobs;
    forall d | d !in Destinations(jobs) ensures At(w'.files, d) == At(w.files, d) {
      assert d !in Destinations(rest) && d != job.d.destination;
    }
    forall n | n !in Names(jobs) ensures (n in w'.mem <==> n in w.mem) && Entry(w'.mem, n) == Entry(w.mem, n) {
      assert n !in Names(rest) && n != job.name;
    }
  }

  lemma JobsAlikeStep(f: Effects, f': Effects, w': World, job: Job, rest: seq<Job>)
    requires JobsAlike(f', rest, w') && SameEffects(f, f', rest) && Alike(f(job).w, w', job)
    ensures JobsAlike(f, [job] + rest, w')
  {
    forall other | other in [job] + rest ensures Alike(f(other).w, w', other) {
      if other in rest {
        assert SameEffect(f(other), f'(other), other);
      }
    }
  }

  lemma DescribedStep(f: Effects, f': Effects, w: World, job: Job, rest: seq<Job>, w': World)
    requires Framed(w, job, f(job)) && Described(f', f(job).w, rest, w') && SameEffects(f, f', rest)
    requires job.d.destination !in Destinations(rest) && job.name !in Names(rest)
    ensures Described(f, w, [job] + rest, w')
  {
    var jobs, w1 := [job] + rest, f(job).w;
    SameSums(f, f', rest);
    assert jobs[1..] == rest;
    assert w.hooks + f(job).ran + HookSum(f, rest) == w.hooks + HookSum(f, jobs);
    assert Alike(w1, w', job);
    JobsAlikeStep(f, f', w', job, rest);
    OutsideStep(w, w1, w', job, rest);
    assert AnySaves(f, jobs) <==> f(job).saved || AnySaves(f, rest);
  }

  function EffectsOn(cfg: Config, w: World): Effects {
    job => CleanOne(cfg, w, job)
  }

  lemma FirstApart(jobs: seq<Job>, other: Job)
    requires jobs != [] && Distinct(jobs) && other in jobs[1..]
    ensures other.name != jobs[0].name && other.d.destination != jobs[0].d.destination
  {
    var i :| 0 <= i < |jobs[1..]| && jobs[1..][i] == other;
    assert jobs[i + 1] == other;
  }

  lemma EffectsLocal(cfg: Config, w: World, jobs: seq<Job>)
    requires jobs != [] && Distinct(jobs)
    ensures var w1 := CleanOne(cfg, w, jobs[0]).w;
            SameEffects(EffectsOn(cfg, w), EffectsOn(cfg, w1), jobs[1..])
  {
    OneJob(cfg, w, jobs[0]);
    forall other | other in jobs[1..]
      ensures SameEffect(CleanOne(cfg, w, other), CleanOne(cfg, CleanOne(cfg, w, jobs[0]).w, other), other)
    {
      FirstApart(jobs, other);
      Locality(cfg, w, CleanOne(cfg, w, jobs[0]).w, other);
    }
  }

  lemma ReportedStep(f: Effects, f': Effects, job: Job, rest: seq<Job>, q: Poll)
    requires SameEffects(f, f', rest) && Reported(f', rest, q)
    ensures var p := f(job);
            Reported(f, [job] + rest,
                     Poll(q.w, p.ok && q.ok, p.downloaded || q.downloaded, p.saved || q.saved, p.ran + q.ran))
  {
    SameSums(f, f', rest);
    var jobs := [job] + rest;
    assert jobs[1..] == rest && job in jobs;
    assert forall other :: other in jobs <==> other == job || other in rest;
    assert forall other :: other in rest ==> SameEffect(f(other), f'(other), other);
  }

  lemma {:induction false} SyncDescribed(cfg: Config, w: World, jobs: seq<Job>)
    requires Distinct(jobs)
    ensures Described(EffectsOn(cfg, w), w, jobs, CleanSync(cfg, w, jobs).w)
    ensures Reported(EffectsOn(cfg, w), jobs, CleanSync(cfg, w, jobs))
    decreases |jobs|
  {
    var f := EffectsOn(cfg, w);
    if jobs == [] {
      assert w.hooks + HookSum(f, jobs) == w.hooks;
    } else {
      var job, rest := jobs[0], jobs[1..];
      var w1 := CleanOne(cfg, w, job).w;
      var f' := EffectsOn(cfg, w1);
      assert jobs == [job] + rest;
      OneJob(cfg, w, job);
      SyncDescribed(cfg, w1, rest);
      EffectsLocal(cfg, w, jobs);
      forall other | other in rest ensures other.name != job.name && other.d.destination != job.d.destination {
        FirstApart(jobs, other);
      }
      DescribedStep(f, f', w, job, rest, CleanSync(cfg, w1, rest).w);
      ReportedStep(f, f', job, rest, CleanSync(cfg, w1, rest));
    }
  }

  lemma {:induction false} HookSumWithout(f: Effects, jobs: seq<Job>, i: nat)
    requires i < |jobs|
    ensures HookSum(f, jobs) == f(jobs[i]).ran + HookSum(f, jobs[..i] + jobs[i + 1..])
  {
    if i > 0 {
      HookSumWithout(f, jobs[1..], i - 1);
      var without := jobs[..i] + jobs[i + 1..];
      assert without[1..] == jobs[1..][..i - 1] + jobs[1..][i..];
    } else {
      assert jobs[..0] + jobs[1..] == jobs[1..];
    }
  }

  lemma RemoveFirst<T>(a: seq<T>, b: seq<T>) returns (i: nat)
    requires a != [] && multiset(a) == multiset(b)
    ensures i < |b| && b[i] == a[0] && multiset(a[1..]) == multiset(b[..i] + b[i + 1..])
  {
    assert a[0] in multiset(a);
    i :| i < |b| && b[i] == a[0];
    assert a == [a[0]] + a[1..];
    assert b == b[..i] + [b[i]] + b[i + 1..];
    assert multiset(b) == multiset(b[..i] + b[i + 1..]) + multiset{b[i]};
    assert multiset(a) == multiset{a[0]} + multiset(a[1..]);
    assert multiset(a[1..]) == multiset(a) - multiset{a[0]};
  }

  lemma {:induction false} HookSumOfPermutation(f: Effects, a: seq<Job>, b: seq<Job>)
    requires multiset(a) == multiset(b)
    ensures HookSum(f, a) == HookSum(f, b)
    decreases |a|
  {
    if a == [] {
      assert |multiset(b)| == 0;
    } else {
      var i := RemoveFirst(a, b);
      HookSumWithout(f, b, i);
      HookSumOfPermutation(f, a[1..], b[..i] + b[i + 1..]);
    }
  }

  lemma SameFiles(a: map<string, Node>, b: map<string, Node>)
    requires forall d :: At(a, d) == At(b, d)
    ensures a == b
  {
    forall d ensures d in a <==> d in b {
      assert At(a, d) == At(b, d);
    }
    forall d | d in a ensures a[d] == b[d] {
      assert At(a, d) == At(b, d);
    }
  }

  lemma SameJournal(a: Journal, b: Journal)
    requires forall n :: (n in a <==> n in b) && Entry(a, n) == Entry(b, n)
    ensures a == b
  {
    forall n | n in a ensures a[n] == b[n] {
      assert Entry(a, n) == Entry(b, n);
    }
  }

  lemma UniqueFiles(f: Effects, w: World, jobs: seq<Job>, w1: World, w2: World)
    requires JobsAlike(f, jobs, w1) && JobsAlike(f, jobs, w2)
    requires FilesOutside(w, w1, Destinations(jobs)) && FilesOutside(w, w2, Destinations(jobs))
    ensures w1.files == w2.files
  {
    forall d ensures At(w1.files, d) == At(w2.files, d) {
      if d in Destinations(jobs) {
        var job :| job in jobs && job.d.destination == d;
        assert Alike(f(job).w, w1, job) && Alike(f(job).w, w2, job);
      }
    }
    SameFiles(w1.files, w2.files);
  }

  lemma UniqueJournal(f: Effects, w: World, jobs: seq<Job>, w1: World, w2: World)
    requires JobsAlike(f, jobs, w1) && JobsAlike(f, jobs, w2)
    requires EntriesOutside(w, w1, Names(jobs)) && EntriesOutside(w, w2, Names(jobs))
    ensures w1.mem == w2.mem
  {
    forall n ensures (n in w1.mem <==> n in w2.mem) && Entry(w1.mem, n) == Entry(w2.mem, n) {
      if n in Names(jobs) {
        var job :| job in jobs && job.name == n;
        assert Alike(f(job).w, w1, job) && Alike(f(job).w, w2, job);
      }
    }
    SameJournal(w1.mem, w2.mem);
  }

  lemma DescribedIsUnique(f: Effects, w: World, a: seq<Job>, b: seq<Job>, w1: World, w2: World)
    requires multiset(a) == multiset(b)
    requires Described(f, w, a, w1) && Described(f, w, b, w2)
    ensures w1 == w2
  {
    assert forall job :: job in a <==> job in multiset(a);
    assert forall job :: job in b <==> job in multiset(b);
    assert Destinations(a) == Destinations(b) && Names(a) == Names(b);
    HookSumOfPermutation(f, a, b);
    UniqueFiles(f, w, a, w1, w2);
    UniqueJournal(f, w, a, w1, w2);
    assert AnySaves(f, a) == AnySaves(f, b);
  }

  lemma ReportedIsUnique(f: Effects, a: seq<Job>, b: seq<Job>, p: Poll, q: Poll)
    requires multiset(a) == multiset(b) && Reported(f, a, p) && Reported(f, b, q)
    ensures p.ok == q.ok && p.downloaded == q.downloaded && p.saved == q.saved && p.ran == q.ran
  {
    assert forall job :: job in a <==> job in multiset(a);
    assert forall job :: job in b <==> job in multiset(b);
    HookSumOfPermutation(f, a, b);
  }

  // Definitions are visited in the random order of a map's keys. The files, the
  // journals, the hooks that ran and what is reported come out the same for
  // every order, whether or not the definitions can be deployed.
  lemma OrderDoesNotMatter(cfg: Config, w: World, a: seq<Job>, b: seq<Job>)
    requires Distinct(a) && Distinct(b) && multiset(a) == multiset(b)
    ensures CleanSync(cfg, w, a) == CleanSync(cfg, w, b)
  {
    var f := EffectsOn(cfg, w);
    SyncDescribed(cfg, w, a);
    SyncDescribed(cfg, w, b);
    DescribedIsUnique(f, w, a, b, CleanSync(cfg, w, a).w, CleanSync(cfg, w, b).w);
    ReportedIsUnique(f, a, b, CleanSync(cfg, w, a), CleanSync(cfg, w, b));
  }

  // ---- the saved journal ----

  // Convergence is about the process's own journal. The saved one agrees with
  // it afterwards exactly if it did before or some definition was ready and had
  // not yet converged.
  lemma DiskCurrentIff(cfg: Config, w: World, jobs: seq<Job>)
    requires Distinct(jobs) && forall job :: job in jobs ==> Sound(cfg, w, job)
    ensures var p := CleanSync(cfg, w, jobs);
            p.w.disk == p.w.mem <==>
              w.disk == w.mem || exists job :: job in jobs && Ready(cfg, w, job) && !Converged(cfg, w, job)
  {
    var f := EffectsOn(cfg, w);
    SyncDescribed(cfg, w, jobs);
    forall job | job in jobs ensures f(job).saved <==> Ready(cfg, w, job) && !Converged(cfg, w, job) {
      EffectIff(cfg, w, job);
    }
  }

  // How they come apart: a file at an unchanged revision was repaired, and the
  // save that records the repair fails after its rename. The process goes back
  // to the old entry, which is right; the disk keeps the new one, whose hook is
  // pending; and no later clean poll saves anything.
  lemma FailedSaveLeavesDiskAhead(cfg: Config, w: World)
    requires AgentSafety.Inv(cfg, w) && w.pc.Saving? && w.pc.job.d.command != []
    requires w.pc.before == w.mem[w.pc.job.name].(pending := false)
    requires var w' := Do(cfg, w, Save(true, false)); Converged(cfg, w', w.pc.job)
    ensures var w', name := Do(cfg, w, Save(true, false)), w.pc.job.name;
            && name in w'.mem && !w'.mem[name].pending
            && name in w'.disk && w'.disk[name] == w'.mem[name].(pending := true)
            && CleanSync(cfg, w', [w.pc.job]) == Nothing(w')
  {
    InvServed(w);
    FixedSync(cfg, Do(cfg, w, Save(true, false)), [w.pc.job]);
  }

  // ---- a poll that stops between publishing and its hook ----

  // Every way in which a poll can stop after the rename of the destination
  // without starting the hook: the write reports an error nevertheless, the
  // journal cannot be saved, or the process dies at any point. `journalled` says
  // whether a failing save got past its own rename.
  datatype Ending =
    | FlushFails
    | FlushFailsAndDies
    | DiesRecording
    | DiesSaving
    | SaveFails(journalled: bool)
    | SaveFailsAndDies(journalled: bool)
    | DiesLaunching

  const REBOOT: seq<Step> := [Crash, Start]

  function StepsOf(e: Ending): seq<Step> {
    match e
    case FlushFails => [Publish(false)]
    case FlushFailsAndDies => [Publish(false)] + REBOOT
    case DiesRecording => [Publish(true)] + REBOOT
    case DiesSaving => [Publish(true), Record] + REBOOT
    case SaveFails(journalled) => [Publish(true), Record, Save(journalled, false)]
    case SaveFailsAndDies(journalled) => [Publish(true), Record, Save(journalled, false)] + REBOOT
    case DiesLaunching => [Publish(true), Record, Save(true, true)] + REBOOT
  }

  predicate Dies(e: Ending) {
    !e.FlushFails? && !e.SaveFails?
  }

  predicate Journalled(e: Ending) {
    e.DiesLaunching? || ((e.SaveFails? || e.SaveFailsAndDies?) && e.journalled)
  }

  // The world in which the next poll begins.
  function Stopped(cfg: Config, w: World, e: Ending): World
    requires w.pc.Writing?
  {
    var job := w.pc.job;
    var files := w.files[job.d.destination := Written(cfg, w.pc.data, w.pc.attrs)];
    var recorded := w.mem[job.name := NewEntry(job, w.pc.revision, w.pc.data)];
    var disk := if Journalled(e) then recorded else w.disk;
    var mem := if Dies(e) then disk else if e.FlushFails? then w.mem else w.mem[job.name := Entry(w.mem, job.name)];
    w.(files := files, mem := mem, disk := disk, pc := Idle)
  }

  // The entry which that poll consults: the saved one after a death, and
  // otherwise the one in memory, which a failed save has put back.
  function Consulted(w: World, e: Ending): Applied
    requires w.pc.Writing?
  {
    if !Dies(e) then Entry(w.mem, w.pc.job.name)
    else if Journalled(e) then NewEntry(w.pc.job, w.pc.revision, w.pc.data)
    else Entry(w.disk, w.pc.job.name)
  }

  lemma WrittenIsCurrent(cfg: Config, w: World)
    requires AgentSafety.Inv(cfg, w) && w.pc.Writing?
    requires Metadata(w.server, w.pc.job.d.path) == Some(w.pc.revision)
    ensures var job := w.pc.job;
            Output(cfg, job.d, job.source, ValueNow(w.server, job.d.path), w.pc.revision) == Some(w.pc.data)
  {
    var job := w.pc.job;
    var value :| Version(job.d.path, w.pc.revision, value) in w.issued
                 && Output(cfg, job.d, job.source, value, w.pc.revision) == Some(w.pc.data);
    assert Version(job.d.path, w.pc.revision, ValueNow(w.server, job.d.path)) in LiveVersions(w.server.store);
  }

  lemma StoppedIsSound(cfg: Config, w: World, e: Ending)
    requires AgentSafety.Inv(cfg, w) && w.pc.Writing?
    requires e.DiesLaunching? ==> w.pc.job.d.command != []
    ensures Entry(Stopped(cfg, w, e).mem, w.pc.job.name) == Consulted(w, e)
    ensures Sound(cfg, Stopped(cfg, w, e), w.pc.job)
  {
  }

  // A poll has renamed its output over the destination and then stops, in
  // whatever way, before it starts the hook; the secret stays as it is. The next
  // poll succeeds, and it leaves the hook out exactly if there is none or the
  // entry it consults is already the one of this very output with its hook done.
  // So the repetition is certain when the revision, the definition or the output
  // changed; but a repair of a file that had merely drifted loses its hook, in a
  // crash and without one.
  lemma StoppedBeforeHook(cfg: Config, w: World, e: Ending)
    requires AgentSafety.Inv(cfg, w) && w.pc.Writing?
    requires Metadata(w.server, w.pc.job.d.path) == Some(w.pc.revision)
    requires e.DiesLaunching? ==> w.pc.job.d.command != []
    ensures var job, w' := w.pc.job, Stopped(cfg, w, e);
            && CleanOne(cfg, w', job).ok && Converged(cfg, CleanOne(cfg, w', job).w, job)
            && (CleanOne(cfg, w', job).ran == multiset{} <==>
                  || job.d.command == []
                  || Consulted(w, e) == Applied(w.pc.revision, Of(job.d, job.source), HashOf(w.pc.data), false))
  {
    var job, w' := w.pc.job, Stopped(cfg, w, e);
    WrittenIsCurrent(cfg, w);
    StoppedIsSound(cfg, w, e);
    assert At(w'.files, job.d.destination) == Some(Written(cfg, w.pc.data, w.pc.attrs));
    CleanOneConverges(cfg, w', job);
    EffectIff(cfg, w', job);
    assert Consulted(w, e) != NEVER && !Consulted(w, e).pending ==> job.name in w'.mem;
  }

  // ---- a run that loses its hook ----

  function Last(r: AgentSafety.Run): World
    requires r.states != []
  {
    r.states[|r.states| - 1]
  }

  lemma Grow(cfg: Config, r: AgentSafety.Run, s: Step) returns (r': AgentSafety.Run)
    requires IsRun(cfg, r) && Enabled(cfg, Last(r), s)
    ensures IsRun(cfg, r') && r'.states[0] == r.states[0] && r'.steps == r.steps + [s]
    ensures Last(r') == Do(cfg, Last(r), s)
  {
    RunGrows(cfg, r, s);
    r' := AgentSafety.Run(r.states + [Do(cfg, Last(r), s)], r.steps + [s]);
  }

  // What a poll of a job does up to its comparison.
  const LOOK: seq<Step> := [Meta, Stat, ReadBack]

  lemma Look(cfg: Config, r: AgentSafety.Run, job: Job) returns (r': AgentSafety.Run)
    requires IsRun(cfg, r) && Last(r).pc.Idle? && Ready(cfg, Last(r), job)
    requires job.d.template == "" ==> job.source == ""
    ensures IsRun(cfg, r') && r'.states[0] == r.states[0] && r'.steps == r.steps + [Begin(job)] + LOOK
    ensures var w, a := Last(r), AttributesOf(cfg, job.d).value;
            Last(r') == w.(pc := Comparing(job, Metadata(w.server, job.d.path).value, ValueNow(w.server, job.d.path), a,
                                           Seen(w, job, a), w.edits[job.d.destination]))
  {
    RunInv(cfg, r, |r.states| - 1);
    InvServed(Last(r));
    r' := Grow(cfg, r, Begin(job));
    r' := Grow(cfg, r', Meta);
    r' := Grow(cfg, r', Stat);
    r' := Grow(cfg, r', ReadBack);
  }

  const FETCH: seq<Step> := [Proceed, Fetch]

  lemma FetchNew(cfg: Config, r: AgentSafety.Run, job: Job) returns (r': AgentSafety.Run)
    requires IsRun(cfg, r) && Last(r).pc.Comparing? && Last(r).pc.job == job && Ready(cfg, Last(r), job)
    requires !Matches(Entry(Last(r).mem, job.name), job, Last(r).pc.revision, Last(r).pc.content)
    ensures IsRun(cfg, r') && r'.states[0] == r.states[0] && r'.steps == r.steps + FETCH
    ensures var w, v := Last(r), Download(Last(r).server, job.d.path).value;
            Last(r') == w.(pc := Writing(job, w.pc.attrs, v.revision,
                                         Output(cfg, job.d, job.source, v.value, v.revision).value))
  {
    RunInv(cfg, r, |r.states| - 1);
    InvServed(Last(r));
    r' := Grow(cfg, r, Proceed);
    r' := Grow(cfg, r', Fetch);
  }

  lemma Reboot(cfg: Config, r: AgentSafety.Run) returns (r': AgentSafety.Run)
    requires IsRun(cfg, r) && !Last(r).pc.Dead?
    ensures IsRun(cfg, r') && r'.states[0] == r.states[0] && r'.steps == r.steps + REBOOT
    ensures Last(r') == Last(r).(mem := Last(r).disk, pc := Idle)
  {
    r' := Grow(cfg, r, Crash);
    r' := Grow(cfg, r', Start);
  }

  const SAVE: seq<Step> := [Publish(true), Record, Save(true, true)]

  // Publishing and recording, up to a save that goes well or not.
  lemma PublishAndSave(cfg: Config, r: AgentSafety.Run, journalled: bool, ok: bool) returns (r': AgentSafety.Run)
    requires IsRun(cfg, r) && Last(r).pc.Writing? && At(Last(r).files, Last(r).pc.job.d.destination) != Some(Irregular)
    requires ok ==> journalled
    ensures IsRun(cfg, r') && r'.states[0] == r.states[0]
    ensures r'.steps == r.steps + [Publish(true), Record, Save(journalled, ok)]
    ensures var w, job := Last(r), Last(r).pc.job;
            var recorded := w.mem[job.name := NewEntry(job, w.pc.revision, w.pc.data)];
            Last(r') == w.(files := w.files[job.d.destination := Written(cfg, w.pc.data, w.pc.attrs)],
                           mem := if ok then recorded else recorded[job.name := Entry(w.mem, job.name)],
                           disk := if journalled then recorded else w.disk,
                           pc := if ok && job.d.command != [] then Launching(job, w.edits[job.d.destination]) else Idle)
  {
    r' := Grow(cfg, r, Publish(true));
    r' := Grow(cfg, r', Record);
    r' := Grow(cfg, r', Save(journalled, ok));
  }

  lemma PublishOnly(cfg: Config, r: AgentSafety.Run, ok: bool) returns (r': AgentSafety.Run)
    requires IsRun(cfg, r) && Last(r).pc.Writing? && At(Last(r).files, Last(r).pc.job.d.destination) != Some(Irregular)
    ensures IsRun(cfg, r') && r'.states[0] == r.states[0] && r'.steps == r.steps + [Publish(ok)]
    ensures var w, job := Last(r), Last(r).pc.job;
            Last(r') == w.(files := w.files[job.d.destination := Written(cfg, w.pc.data, w.pc.attrs)],
                           pc := if !ok then Idle
                                 else Recording(job, w.pc.revision, w.pc.data, w.edits[job.d.destination]))
  {
    r' := Grow(cfg, r, Publish(ok));
  }

  lemma EndingWithoutSave(cfg: Config, r: AgentSafety.Run, e: Ending) returns (r': AgentSafety.Run)
    requires IsRun(cfg, r) && Last(r).pc.Writing? && At(Last(r).files, Last(r).pc.job.d.destination) != Some(Irregular)
    requires e.FlushFails? || e.FlushFailsAndDies? || e.DiesRecording? || e.DiesSaving?
    ensures IsRun(cfg, r') && r'.states[0] == r.states[0]
    ensures r'.steps == r.steps + StepsOf(e) && Last(r') == Stopped(cfg, Last(r), e)
  {
    r' := PublishOnly(cfg, r, !e.FlushFails? && !e.FlushFailsAndDies?);
    if e.DiesSaving? {
      r' := Grow(cfg, r', Record);
    }
    if !e.FlushFails? {
      r' := Reboot(cfg, r');
    }
  }

  // Each ending is what its steps lead to.
  lemma EndingIsReached(cfg: Config, r: AgentSafety.Run, e: Ending) returns (r': AgentSafety.Run)
    requires IsRun(cfg, r) && Last(r).pc.Writing? && At(Last(r).files, Last(r).pc.job.d.destination) != Some(Irregular)
    requires e.DiesLaunching? ==> Last(r).pc.job.d.command != []
    ensures IsRun(cfg, r') && r'.states[0] == r.states[0]
    ensures r'.steps == r.steps + StepsOf(e) && Last(r') == Stopped(cfg, Last(r), e)
  {
    match e {
      case SaveFails(journalled) =>
        r' := PublishAndSave(cfg, r, journalled, false);
      case SaveFailsAndDies(journalled) =>
        r' := PublishAndSave(cfg, r, journalled, false);
        r' := Reboot(cfg, r');
      case DiesLaunching =>
        r' := PublishAndSave(cfg, r, true, true);
        r' := Reboot(cfg, r');
      case _ =>
        r' := EndingWithoutSave(cfg, r, e);
    }
  }

  const HOOK: seq<Step> := [Launch, Finish, Save(true, true)]

  lemma RunHook(cfg: Config, r: AgentSafety.Run) returns (r': AgentSafety.Run)
    requires IsRun(cfg, r) && Last(r).pc.Launching? && Last(r).pc.job.name in Last(r).mem
    ensures IsRun(cfg, r') && r'.states[0] == r.states[0] && r'.steps == r.steps + HOOK
    ensures var w, name := Last(r), Last(r).pc.job.name;
            var mem := w.mem[name := w.mem[name].(pending := false)];
            Last(r') == w.(mem := mem, disk := mem, hooks := Last(r').hooks, pc := Idle)
  {
    r' := Grow(cfg, r, Launch);
    r' := Grow(cfg, r', Finish);
    r' := Grow(cfg, r', Save(true, true));
  }

  // A poll of a converged definition whose file has been overwritten gets as far
  // as having the output again, and changes nothing else on the way.
  lemma DriftIsNoticed(cfg: Config, r: AgentSafety.Run, job: Job, drift: string)
    returns (r': AgentSafety.Run, node: Node)
    requires IsRun(cfg, r) && Last(r).pc.Idle? && Converged(cfg, Last(r), job)
    requires job.d.template == "" ==> job.source == ""
    requires Seen(Last(r), job, AttributesOf(cfg, job.d).value) != Some(drift)
    ensures IsRun(cfg, r') && r'.states[0] == r.states[0] && IsContent(Some(node), drift)
    ensures r'.steps == r.steps + [Edit(job.d.destination, Some(node)), Begin(job)] + LOOK + FETCH
    ensures var w := Last(r);
            && Last(r').pc == Writing(job, AttributesOf(cfg, job.d).value, w.mem[job.name].revision,
                                      w.mem[job.name].outputHash.content)
            && Last(r') == w.(files := w.files[job.d.destination := node], edits := Last(r').edits, pc := Last(r').pc)
  {
    var w := Last(r);
    node := Regular(drift, 0, 0, 0);
    r' := Grow(cfg, r, Edit(job.d.destination, Some(node)));
    r' := Look(cfg, r', job);
    assert Last(r').pc.content != Seen(w, job, AttributesOf(cfg, job.d).value);
    r' := FetchNew(cfg, r', job);
  }

  lemma RepairIsUnnoticed(cfg: Config, w: World, job: Job, e: Ending)
    requires AgentSafety.Inv(cfg, w) && w.disk == w.mem && job.name in w.mem && w.pc.Writing? && w.pc.job == job
    requires w.mem[job.name] == Applied(w.pc.revision, Of(job.d, job.source), HashOf(w.pc.data), false)
    requires Metadata(w.server, job.d.path) == Some(w.pc.revision)
    requires Dies(e) ==> !Journalled(e)
    ensures var w' := Stopped(cfg, w, e);
            Converged(cfg, w', job) && w'.hooks == w.hooks && CleanOne(cfg, w', job) == Nothing(w')
  {
    var w' := Stopped(cfg, w, e);
    WrittenIsCurrent(cfg, w);
    InvServed(w);
    assert At(w'.files, job.d.destination) == Some(Written(cfg, w.pc.data, w.pc.attrs));
    ConvergedIsFixed(cfg, w', job);
  }

  // The loss really happens, to every definition and with every ending that does
  // not leave the pending entry to be consulted: once the definition has
  // converged and been saved, let somebody overwrite the file, the next poll
  // repair it, and then report a failed flush or a failed save, or the process
  // die. The next poll finds the repaired file and the old entry, and has
  // nothing to do.
  lemma DriftRepairLosesHook(cfg: Config, r: AgentSafety.Run, job: Job, drift: string, e: Ending)
    returns (r': AgentSafety.Run, node: Node)
    requires IsRun(cfg, r) && Last(r).pc.Idle? && Last(r).disk == Last(r).mem
    requires Converged(cfg, Last(r), job) && (job.d.template == "" ==> job.source == "")
    requires Seen(Last(r), job, AttributesOf(cfg, job.d).value) != Some(drift)
    requires Dies(e) ==> !Journalled(e)
    ensures IsRun(cfg, r') && IsContent(Some(node), drift)
    ensures r'.steps == r.steps + [Edit(job.d.destination, Some(node)), Begin(job)] + LOOK + FETCH + StepsOf(e)
    ensures Converged(cfg, Last(r'), job)
    ensures Last(r').hooks == Last(r).hooks && CleanOne(cfg, Last(r'), job) == Nothing(Last(r'))
  {
    r', node := DriftIsNoticed(cfg, r, job, drift);
    var w := Last(r');
    RunInv(cfg, r', |r'.states| - 1);
    r' := EndingIsReached(cfg, r', e);
    RepairIsUnnoticed(cfg, w, job, e);
  }

  // Such a state is always within reach: any installation deploys a definition
  // with a hook, if it is ready, in one undisturbed poll.
  lemma FirstPollConverges(cfg: Config, w: World, job: Job) returns (r: AgentSafety.Run)
    requires Initial(w) && Ready(cfg, w, job) && (job.d.template == "" ==> job.source == "") && job.d.command != []
    ensures IsRun(cfg, r) && r.states[0] == w && Last(r).pc.Idle? && Last(r).disk == Last(r).mem
    ensures r.steps == [Start, Begin(job)] + LOOK + FETCH + SAVE + HOOK
    ensures Converged(cfg, Last(r), job)
  {
    r := AgentSafety.Run([w], []);
    r := Grow(cfg, r, Start);
    r := Look(cfg, r, job);
    r := FetchNew(cfg, r, job);
    r := PublishAndSave(cfg, r, true, true);
    r := RunHook(cfg, r);
  }
}
