// What every reachable state of server, agent and files satisfies, and what
// that says about skipped downloads and finished hooks.
module AgentSafety {
  import opened Base
  import opened Agent
  import opened Deployment
  import opened PlainStore

  // ---- versions ----

  // Everything live now has been issued, nothing issued is ahead of its path's
  // revision, and path and revision determine the value for ever.
  ghost predicate IssuedOk(issued: set<Version>, m: Plain) {
    && LiveVersions(m) <= issued
    && (forall v :: v in issued ==> 1 <= v.revision <= RevisionAt(m, v.path))
    && (forall v, u :: v in issued && u in issued && v.path == u.path && v.revision == u.revision ==>
          v.value == u.value)
  }

  lemma IssuedGrows(issued: set<Version>, m: Plain, m': Plain)
    requires IssuedOk(issued, m) && Advances(m, m')
    ensures IssuedOk(issued + LiveVersions(m'), m')
  {
    forall v | v in LiveVersions(m')
      ensures 1 <= v.revision <= RevisionAt(m', v.path)
      ensures v in issued || v.revision > RevisionAt(m, v.path)
    {
      var c, c' := CellAt(m, v.path), CellAt(m', v.path);
      assert Moves(c, c');
      if c' == c {
        assert v in LiveVersions(m);
      }
    }
    forall v | v in issued ensures v.revision <= RevisionAt(m', v.path) {
      assert Moves(CellAt(m, v.path), CellAt(m', v.path));
    }
  }

  // ---- journal entries ----

  // The content is what some issued version of the secret renders to.
  ghost predicate Backed(cfg: Config, issued: set<Version>, d: Definition, source: string,
                         revision: nat, content: string) {
    exists value ::
      Version(d.path, revision, value) in issued && Output(cfg, d, source, value, revision) == Some(content)
  }

  ghost predicate IsContent(n: Option<Node>, content: string) {
    n.Some? && n.value.Regular? && n.value.content == content
  }

  // A hook completed for exactly this entry; if nobody disturbed the
  // destination meanwhile, it started on exactly the recorded output.
  ghost predicate HookDone(hooks: multiset<HookRun>, name: string, e: Applied)
    requires e.outputHash.HashOf?
  {
    exists run :: run in hooks && run.name == name && run.fingerprint == e.fingerprint && run.revision == e.revision
      && (run.undisturbed ==> IsContent(run.started, e.outputHash.content))
  }

  ghost predicate EntryOk(cfg: Config, issued: set<Version>, hooks: multiset<HookRun>, name: string, e: Applied) {
    || e == NEVER
    || (&& e.fingerprint.Of? && e.outputHash.HashOf?
        && Backed(cfg, issued, e.fingerprint.d, e.fingerprint.source, e.revision, e.outputHash.content)
        && (e.pending ==> e.fingerprint.d.command != [])
        && (!e.pending && e.fingerprint.d.command != [] ==> HookDone(hooks, name, e)))
  }

  ghost predicate JournalOk(cfg: Config, issued: set<Version>, hooks: multiset<HookRun>, j: Journal) {
    forall name :: name in j ==> EntryOk(cfg, issued, hooks, name, j[name])
  }

  // The pending entry of the job whose hook is about to run or running.
  ghost predicate Awaiting(mem: Journal, job: Job) {
    && job.name in mem && job.d.command != []
    && mem[job.name].pending && mem[job.name].outputHash.HashOf?
    && mem[job.name].fingerprint == Of(job.d, job.source)
  }

  // Unless the destination was edited since, it still holds this content.
  ghost predicate Holds(w: World, destination: string, editsAt: nat, content: string) {
    && editsAt <= w.edits[destination]
    && (w.edits[destination] == editsAt ==> IsContent(At(w.files, destination), content))
  }

  ghost predicate PcOk(cfg: Config, w: World) {
    match w.pc
    case Dead => true
    case Idle => true
    case Asking(_) => true
    case Stating(job, revision, asOf, attrs) =>
      Version(job.d.path, revision, asOf) in w.issued && AttributesOf(cfg, job.d) == Some(attrs)
    case Reading(job, revision, asOf, attrs, _) =>
      Version(job.d.path, revision, asOf) in w.issued && AttributesOf(cfg, job.d) == Some(attrs)
    case Comparing(job, revision, asOf, attrs, content, editsAt) =>
      && Version(job.d.path, revision, asOf) in w.issued && AttributesOf(cfg, job.d) == Some(attrs)
      && (content.Some? ==> Holds(w, job.d.destination, editsAt, content.value))
    case Fetching(job, attrs) => AttributesOf(cfg, job.d) == Some(attrs)
    case Writing(job, attrs, revision, data) =>
      Backed(cfg, w.issued, job.d, job.source, revision, data) && AttributesOf(cfg, job.d) == Some(attrs)
    case Recording(job, revision, data, editsAt) =>
      && Backed(cfg, w.issued, job.d, job.source, revision, data)
      && Holds(w, job.d.destination, editsAt, data)
    case Saving(job, before, editsAt) =>
      && EntryOk(cfg, w.issued, w.hooks, job.name, before)
      && job.name in w.mem && w.mem[job.name].outputHash.HashOf?
      && w.mem[job.name].fingerprint == Of(job.d, job.source)
      && w.mem[job.name].pending == (job.d.command != [])
      && Holds(w, job.d.destination, editsAt, w.mem[job.name].outputHash.content)
    case Launching(job, editsAt) =>
      && Awaiting(w.mem, job)
      && Holds(w, job.d.destination, editsAt, w.mem[job.name].outputHash.content)
    case Running(job, run) =>
      && Awaiting(w.mem, job)
      && run.name == job.name && run.fingerprint == Of(job.d, job.source) && run.revision == w.mem[job.name].revision
      && (run.undisturbed ==> IsContent(run.started, w.mem[job.name].outputHash.content))
    case Completing(job) =>
      && job.name in w.mem && job.d.command != []
      && w.mem[job.name].fingerprint == Of(job.d, job.source) && w.mem[job.name].outputHash.HashOf?
  }

  ghost predicate Inv(cfg: Config, w: World) {
    && IssuedOk(w.issued, w.server.store)
    && JournalOk(cfg, w.issued, w.hooks, w.mem)
    && JournalOk(cfg, w.issued, w.hooks, w.disk)
    && PcOk(cfg, w)
  }

  // ---- the invariant is kept ----

  // Facts about the past stay true as the past grows.
  lemma EntryStaysOk(cfg: Config, issued: set<Version>, issued': set<Version>,
                     hooks: multiset<HookRun>, hooks': multiset<HookRun>, name: string, e: Applied)
    requires EntryOk(cfg, issued, hooks, name, e) && issued <= issued' && hooks <= hooks'
    ensures EntryOk(cfg, issued', hooks', name, e)
  {
    if e != NEVER {
      var value :| Version(e.fingerprint.d.path, e.revision, value) in issued
                   && Output(cfg, e.fingerprint.d, e.fingerprint.source, value, e.revision)
                      == Some(e.outputHash.content);
      assert Version(e.fingerprint.d.path, e.revision, value) in issued';
      if !e.pending && e.fingerprint.d.command != [] {
        var run :| run in hooks && run.name == name && run.fingerprint == e.fingerprint && run.revision == e.revision
                   && (run.undisturbed ==> IsContent(run.started, e.outputHash.content));
        assert run in hooks';
      }
    }
  }

  lemma JournalStaysOk(cfg: Config, issued: set<Version>, issued': set<Version>,
                       hooks: multiset<HookRun>, hooks': multiset<HookRun>, j: Journal)
    requires JournalOk(cfg, issued, hooks, j) && issued <= issued' && hooks <= hooks'
    ensures JournalOk(cfg, issued', hooks', j)
  {
    forall name | name in j ensures EntryOk(cfg, issued', hooks', name, j[name]) {
      EntryStaysOk(cfg, issued, issued', hooks, hooks', name, j[name]);
    }
  }

  lemma BackedStays(cfg: Config, issued: set<Version>, issued': set<Version>,
                    d: Definition, source: string, revision: nat, content: string)
    requires Backed(cfg, issued, d, source, revision, content) && issued <= issued'
    ensures Backed(cfg, issued', d, source, revision, content)
  {
    var value :| Version(d.path, revision, value) in issued && Output(cfg, d, source, value, revision) == Some(content);
    assert Version(d.path, revision, value) in issued';
  }

  lemma ServeKeepsInv(cfg: Config, w: World, locked: bool, c: Option<Command>, granted: set<string>)
    requires Inv(cfg, w)
    ensures Inv(cfg, Do(cfg, w, Serve(locked, c, granted)))
  {
    var w' := Do(cfg, w, Serve(locked, c, granted));
    PlainAdvances(w.server.store, locked, c);
    IssuedGrows(w.issued, w.server.store, w'.server.store);
    JournalStaysOk(cfg, w.issued, w'.issued, w.hooks, w.hooks, w.mem);
    JournalStaysOk(cfg, w.issued, w'.issued, w.hooks, w.hooks, w.disk);
    match w.pc {
      case Writing(job, _, revision, data) =>
        BackedStays(cfg, w.issued, w'.issued, job.d, job.source, revision, data);
      case Recording(job, revision, data, _) =>
        BackedStays(cfg, w.issued, w'.issued, job.d, job.source, revision, data);
      case Saving(job, before, _) => EntryStaysOk(cfg, w.issued, w'.issued, w.hooks, w.hooks, job.name, before);
      case _ =>
    }
  }

  lemma FinishKeepsInv(cfg: Config, w: World)
    requires Inv(cfg, w) && Enabled(cfg, w, Finish)
    ensures Inv(cfg, Do(cfg, w, Finish))
  {
    var w' := Do(cfg, w, Finish);
    var job, run := w.pc.job, w.pc.run;
    JournalStaysOk(cfg, w.issued, w.issued, w.hooks, w'.hooks, w.mem);
    JournalStaysOk(cfg, w.issued, w.issued, w.hooks, w'.hooks, w.disk);
    var e := w'.mem[job.name];
    assert EntryOk(cfg, w.issued, w'.hooks, job.name, w.mem[job.name]);
    assert run in w'.hooks;
    assert HookDone(w'.hooks, job.name, e);
    assert EntryOk(cfg, w'.issued, w'.hooks, job.name, e);
  }

  lemma EditKeepsInv(cfg: Config, w: World, path: string, node: Option<Node>)
    requires Inv(cfg, w)
    ensures Inv(cfg, Do(cfg, w, Edit(path, node)))
  {
    var w' := Do(cfg, w, Edit(path, node));
    forall destination, editsAt, content | Holds(w, destination, editsAt, content)
      ensures Holds(w', destination, editsAt, content)
    {
      assert w'.edits[destination] == w.edits[destination] + if destination == path then 1 else 0;
    }
  }

  lemma JournalPut(cfg: Config, issued: set<Version>, hooks: multiset<HookRun>, j: Journal, name: string, e: Applied)
    requires JournalOk(cfg, issued, hooks, j) && EntryOk(cfg, issued, hooks, name, e)
    ensures JournalOk(cfg, issued, hooks, j[name := e])
  {
  }

  lemma SaveKeepsInv(cfg: Config, w: World, published: bool, ok: bool)
    requires Inv(cfg, w) && Enabled(cfg, w, Save(published, ok))
    ensures Inv(cfg, Do(cfg, w, Save(published, ok)))
  {
    var job := w.pc.job;
    if !ok {
      if w.pc.Saving? {
        JournalPut(cfg, w.issued, w.hooks, w.mem, job.name, w.pc.before);
      } else {
        JournalPut(cfg, w.issued, w.hooks, w.mem, job.name, w.mem[job.name].(pending := true));
      }
    }
  }

  lemma RecordKeepsInv(cfg: Config, w: World)
    requires Inv(cfg, w) && Enabled(cfg, w, Record)
    ensures Inv(cfg, Do(cfg, w, Record))
  {
    var job := w.pc.job;
    var e := NewEntry(job, w.pc.revision, w.pc.data);
    JournalPut(cfg, w.issued, w.hooks, w.mem, job.name, e);
  }

  lemma FetchKeepsInv(cfg: Config, w: World)
    requires Inv(cfg, w) && Enabled(cfg, w, Fetch)
    ensures Inv(cfg, Do(cfg, w, Fetch))
  {
    assert Download(w.server, w.pc.job.d.path).value in LiveVersions(w.server.store);
  }

  // What matches a journal entry is what that entry recorded.
  lemma RetryKeepsInv(cfg: Config, w: World)
    requires Inv(cfg, w) && Enabled(cfg, w, Retry)
    ensures Inv(cfg, Do(cfg, w, Retry))
  {
    assert w.pc.job.name in w.mem;
  }

  // Every step, of the agent, the server, an outsider or a crash, keeps the
  // joint invariant.
  lemma StepKeepsInv(cfg: Config, w: World, s: Step)
    requires Inv(cfg, w) && Enabled(cfg, w, s)
    ensures Inv(cfg, Do(cfg, w, s))
  {
    match s {
      case Meta => assert Download(w.server, w.pc.job.d.path).value in LiveVersions(w.server.store);
      case Serve(locked, c, granted) => ServeKeepsInv(cfg, w, locked, c, granted);
      case Finish => FinishKeepsInv(cfg, w);
      case Edit(path, node) => EditKeepsInv(cfg, w, path, node);
      case Save(published, ok) => SaveKeepsInv(cfg, w, published, ok);
      case Record => RecordKeepsInv(cfg, w);
      case Fetch => FetchKeepsInv(cfg, w);
      case Retry => RetryKeepsInv(cfg, w);
      case _ =>
    }
  }

  // ---- runs ----

  datatype Run = Run(states: seq<World>, steps: seq<Step>)

  // A newly installed agent beside a server in any reachable state; files may
  // lie about already.
  ghost predicate Initial(w: World) {
    && (forall p :: IsLive(w.server.store, p) ==> w.server.store[p].revision >= 1)
    && w.issued == LiveVersions(w.server.store)
    && w.disk == map[] && w.mem == map[] && w.pc == Dead
    && w.hooks == multiset{}
  }

  ghost predicate StepAt(cfg: Config, r: Run, i: nat)
    requires i < |r.steps| < |r.states|
  {
    Enabled(cfg, r.states[i], r.steps[i]) && r.states[i + 1] == Do(cfg, r.states[i], r.steps[i])
  }

  ghost predicate IsRun(cfg: Config, r: Run) {
    && |r.states| == |r.steps| + 1
    && Initial(r.states[0])
    && forall i: nat {:trigger StepAt(cfg, r, i)} :: i < |r.steps| ==> StepAt(cfg, r, i)
  }

  lemma RunGrows(cfg: Config, r: Run, s: Step)
    requires IsRun(cfg, r)
    requires var w := r.states[|r.states| - 1]; Enabled(cfg, w, s)
    ensures var w := r.states[|r.states| - 1];
            IsRun(cfg, Run(r.states + [Do(cfg, w, s)], r.steps + [s]))
  {
    var r' := Run(r.states + [Do(cfg, r.states[|r.states| - 1], s)], r.steps + [s]);
    forall i: nat | i < |r'.steps| ensures StepAt(cfg, r', i) {
      if i < |r.steps| {
        assert StepAt(cfg, r, i);
      }
    }
  }

  lemma {:induction false} RunInv(cfg: Config, r: Run, i: nat)
    requires IsRun(cfg, r) && i < |r.states|
    ensures Inv(cfg, r.states[i])
  {
    if i > 0 {
      RunInv(cfg, r, i - 1);
      assert StepAt(cfg, r, i - 1);
      StepKeepsInv(cfg, r.states[i - 1], r.steps[i - 1]);
    }
  }

  // ---- skipping a download is sound ----

  // The job and answer a comparison stands on.
  predicate Asked(pc: Pc) {
    pc.Stating? || pc.Reading? || pc.Comparing?
  }

  // The metadata step that the current comparison stands on.
  ghost predicate MetaAt(cfg: Config, r: Run, m: nat, pc: Pc)
    requires IsRun(cfg, r) && m < |r.steps| && Asked(pc)
  {
    var w := r.states[m];
    && r.steps[m].Meta? && w.pc.Asking? && w.pc.job == pc.job
    && Metadata(w.server, pc.job.d.path) == Some(pc.revision)
    && pc.asOf == ValueNow(w.server, pc.job.d.path)
    && AttributesOf(cfg, pc.job.d) == Some(pc.attrs)
  }

  // A comparison in progress came from a metadata answer or was in progress.
  lemma AskedStep(cfg: Config, w: World, s: Step)
    requires Enabled(cfg, w, s) && Asked(Do(cfg, w, s).pc) && !s.Meta?
    ensures Asked(w.pc)
    ensures var pc := Do(cfg, w, s).pc;
            w.pc.job == pc.job && w.pc.revision == pc.revision && w.pc.asOf == pc.asOf && w.pc.attrs == pc.attrs
    ensures Do(cfg, w, s).pc.Comparing? && !s.ReadBack? ==> w.pc == Do(cfg, w, s).pc
    ensures Do(cfg, w, s).pc.Reading? && !s.Stat? ==> w.pc == Do(cfg, w, s).pc
  {
    match s {
      case Serve(_, _, _) =>
      case Save(_, _) =>
      case _ =>
    }
  }

  // All states after `from` and up to `to` belong to one and the same
  // comparison: the poll of this job has asked and not yet decided.
  ghost predicate SamePoll(r: Run, from: nat, to: nat, job: Job)
    requires to < |r.states|
  {
    forall n: nat :: from < n <= to ==> Asked(r.states[n].pc) && r.states[n].pc.job == job
  }

  // The metadata answer that a comparison in progress stands on is this poll's.
  lemma {:induction false} MetaOrigin(cfg: Config, r: Run, i: nat) returns (m: nat)
    requires IsRun(cfg, r) && i < |r.states| && Asked(r.states[i].pc)
    ensures m < i && MetaAt(cfg, r, m, r.states[i].pc) && SamePoll(r, m, i, r.states[i].pc.job)
  {
    assert i > 0;
    assert StepAt(cfg, r, i - 1);
    if r.steps[i - 1].Meta? {
      m := i - 1;
    } else {
      AskedStep(cfg, r.states[i - 1], r.steps[i - 1]);
      m := MetaOrigin(cfg, r, i - 1);
    }
  }

  // The compared content is what was read at the destination, and nothing but
  // the decision has come since.
  lemma {:induction false} ReadOrigin(cfg: Config, r: Run, i: nat) returns (k: nat)
    requires IsRun(cfg, r) && i < |r.states| && r.states[i].pc.Comparing? && r.states[i].pc.content.Some?
    ensures k < i && r.steps[k].ReadBack?
    ensures IsContent(At(r.states[k].files, r.states[i].pc.job.d.destination), r.states[i].pc.content.value)
    ensures r.states[k].pc.Reading? && r.states[k].pc.attrsOk && r.states[k].pc.job == r.states[i].pc.job
    ensures r.states[k].pc.attrs == r.states[i].pc.attrs
    ensures forall n: nat :: k < n <= i ==> r.states[n].pc == r.states[i].pc
  {
    assert i > 0;
    assert StepAt(cfg, r, i - 1);
    if r.steps[i - 1].ReadBack? {
      k := i - 1;
    } else {
      AskedStep(cfg, r.states[i - 1], r.steps[i - 1]);
      k := ReadOrigin(cfg, r, i - 1);
    }
  }

  // The same for the look at its mode and owner.
  lemma {:induction false} StatOrigin(cfg: Config, r: Run, k: nat) returns (a: nat)
    requires IsRun(cfg, r) && k < |r.states| && r.states[k].pc.Reading? && r.states[k].pc.attrsOk
    ensures a < k && r.steps[a].Stat? && r.states[a].pc.Stating? && r.states[a].pc.job == r.states[k].pc.job
    ensures var n := At(r.states[a].files, r.states[k].pc.job.d.destination);
            n.Some? && HasAttributes(n.value, r.states[k].pc.attrs)
    ensures forall n: nat :: a < n <= k ==> r.states[n].pc == r.states[k].pc
  {
    assert k > 0;
    assert StepAt(cfg, r, k - 1);
    if r.steps[k - 1].Stat? {
      a := k - 1;
    } else {
      AskedStep(cfg, r.states[k - 1], r.steps[k - 1]);
      a := StatOrigin(cfg, r, k - 1);
    }
  }

  // A journal entry that matches was made from the very version the metadata
  // request saw.
  lemma MatchMeansCurrent(cfg: Config, w: World)
    requires Inv(cfg, w) && w.pc.Comparing?
    requires Matches(Entry(w.mem, w.pc.job.name), w.pc.job, w.pc.revision, w.pc.content)
    ensures Output(cfg, w.pc.job.d, w.pc.job.source, w.pc.asOf, w.pc.revision) == w.pc.content
  {
    var job := w.pc.job;
    var e := Entry(w.mem, job.name);
    assert job.name in w.mem;
    var value :| Version(job.d.path, e.revision, value) in w.issued
                 && Output(cfg, job.d, job.source, value, e.revision) == Some(e.outputHash.content);
    assert Version(job.d.path, w.pc.revision, value) in w.issued;
    assert Version(job.d.path, w.pc.revision, w.pc.asOf) in w.issued;
  }

  // Whenever a poll ends or goes on to a hook without downloading, it has asked
  // for the metadata, then examined the destination, then read it, and what it
  // read and compared was the rendering of the secret as it stood at that
  // metadata request, in a file examined to have the configured mode and owner.
  // Whatever crashes, failed saves, outside edits and server writes, deletions
  // and recreations came before or between.
  lemma SkipIsSound(cfg: Config, r: Run, i: nat) returns (m: nat, a: nat, k: nat)
    requires IsRun(cfg, r) && i < |r.steps| && (r.steps[i].Skip? || r.steps[i].Retry?)
    ensures r.states[i].pc.Comparing?
    ensures m < a < k < i && SamePoll(r, m, i, r.states[i].pc.job)
    ensures MetaAt(cfg, r, m, r.states[i].pc) && r.steps[a].Stat? && r.steps[k].ReadBack?
    ensures var job, server := r.states[i].pc.job, r.states[m].server;
            && IsLive(server.store, job.d.path)
            && var now := server.store[job.d.path];
               var output := Output(cfg, job.d, job.source, now.value.value, now.revision);
               && output.Some? && r.states[i].pc.content == output
               && IsContent(At(r.states[k].files, job.d.destination), output.value)
               && Renders(cfg, job.d, job.source, now.value.value, now.revision, output.value)
    ensures var n, d := At(r.states[a].files, r.states[i].pc.job.d.destination), r.states[i].pc.job.d;
            n.Some? && HasAttributes(n.value, AttributesOf(cfg, d).value) && FileFits(cfg, d, n.value)
  {
    RunInv(cfg, r, i);
    assert StepAt(cfg, r, i);
    m := MetaOrigin(cfg, r, i);
    k := ReadOrigin(cfg, r, i);
    a := StatOrigin(cfg, r, k);
    assert r.states[m].pc.Asking?;
    MatchMeansCurrent(cfg, r.states[i]);
    FileFitsIff(cfg, r.states[i].pc.job.d, At(r.states[a].files, r.states[i].pc.job.d.destination).value);
  }

  // ---- hooks ----

  // The step that started a hook.
  ghost predicate LaunchAt(cfg: Config, r: Run, a: nat, run: HookRun)
    requires IsRun(cfg, r) && a < |r.steps|
  {
    var w := r.states[a];
    && r.steps[a].Launch? && w.pc.Launching? && w.pc.job.name == run.name
    && Of(w.pc.job.d, w.pc.job.source) == run.fingerprint
    && run.revision == Entry(w.mem, run.name).revision
    && run.started == At(w.files, w.pc.job.d.destination)
    && run.undisturbed == (w.edits[w.pc.job.d.destination] == w.pc.editsAt)
  }

  lemma HookStep(cfg: Config, w: World, s: Step)
    requires Enabled(cfg, w, s)
    ensures Do(cfg, w, s).pc.Running? && !s.Launch? ==> w.pc == Do(cfg, w, s).pc
    ensures Do(cfg, w, s).hooks == if s.Finish? then w.hooks + multiset{w.pc.run} else w.hooks
  {
    match s {
      case Serve(_, _, _) =>
      case Save(_, _) =>
      case _ =>
    }
  }

  lemma {:induction false} RunningOrigin(cfg: Config, r: Run, i: nat) returns (a: nat)
    requires IsRun(cfg, r) && i < |r.states| && r.states[i].pc.Running?
    ensures a < i && LaunchAt(cfg, r, a, r.states[i].pc.run)
  {
    assert i > 0;
    assert StepAt(cfg, r, i - 1);
    if r.steps[i - 1].Launch? {
      a := i - 1;
    } else {
      HookStep(cfg, r.states[i - 1], r.steps[i - 1]);
      a := RunningOrigin(cfg, r, i - 1);
    }
  }

  // A logged hook run really happened: it was launched on those file contents
  // and then exited successfully.
  lemma {:induction false} HookOrigin(cfg: Config, r: Run, i: nat, run: HookRun) returns (a: nat, b: nat)
    requires IsRun(cfg, r) && i < |r.states| && run in r.states[i].hooks
    ensures a < b < i && LaunchAt(cfg, r, a, run)
    ensures r.steps[b].Finish? && r.states[b].pc.Running? && r.states[b].pc.run == run
  {
    assert i > 0;
    assert StepAt(cfg, r, i - 1);
    HookStep(cfg, r.states[i - 1], r.steps[i - 1]);
    if run in r.states[i - 1].hooks {
      a, b := HookOrigin(cfg, r, i - 1, run);
    } else {
      b := i - 1;
      a := RunningOrigin(cfg, r, b);
    }
  }

  // Between knowing the content of the destination and starting the hook.
  predicate Holding(pc: Pc) {
    (pc.Comparing? && pc.content.Some?) || pc.Recording? || pc.Saving? || pc.Launching?
  }

  // What the poll then takes to be at the destination.
  ghost function Known(w: World): OutputHash
    requires Holding(w.pc)
  {
    match w.pc
    case Comparing(_, _, _, _, content, _) => HashOf(content.value)
    case Recording(_, _, data, _) => HashOf(data)
    case _ => Entry(w.mem, w.pc.job.name).outputHash
  }

  // At step p the poll of this job put that content at the destination, or
  // found it there, and it has been on its way to the hook ever since.
  ghost predicate SecuredAt(cfg: Config, r: Run, p: nat, i: nat, content: OutputHash)
    requires p < i < |r.states| && |r.states| == |r.steps| + 1 && Holding(r.states[i].pc)
  {
    var job := r.states[i].pc.job;
    && (r.steps[p] == Publish(true) || r.steps[p].ReadBack?)
    && content.HashOf? && IsContent(At(r.states[p + 1].files, job.d.destination), content.content)
    && r.states[i].pc.editsAt == r.states[p + 1].edits[job.d.destination]
    && forall n: nat :: p < n <= i ==> Holding(r.states[n].pc) && r.states[n].pc.job == job
  }

  lemma HoldingStep(cfg: Config, w: World, s: Step)
    requires Enabled(cfg, w, s) && Holding(Do(cfg, w, s).pc)
    requires s != Publish(true) && !s.ReadBack?
    ensures Holding(w.pc) && w.pc.job == Do(cfg, w, s).pc.job
    ensures w.pc.editsAt == Do(cfg, w, s).pc.editsAt && Known(w) == Known(Do(cfg, w, s))
  {
    match s {
      case Serve(_, _, _) =>
      case Save(_, _) =>
      case Retry =>
      case _ =>
    }
  }

  // Putting it there or finding it there.
  lemma JustSecured(cfg: Config, w: World, s: Step)
    requires Enabled(cfg, w, s) && Holding(Do(cfg, w, s).pc)
    requires s == Publish(true) || s.ReadBack?
    ensures var w' := Do(cfg, w, s);
            && Known(w').HashOf?
            && IsContent(At(w'.files, w'.pc.job.d.destination), Known(w').content)
            && w'.pc.editsAt == w'.edits[w'.pc.job.d.destination]
  {
  }

  lemma {:induction false} SecuredOrigin(cfg: Config, r: Run, i: nat) returns (p: nat)
    requires IsRun(cfg, r) && i < |r.states| && Holding(r.states[i].pc)
    ensures p < i && SecuredAt(cfg, r, p, i, Known(r.states[i]))
  {
    assert i > 0;
    assert StepAt(cfg, r, i - 1);
    if r.steps[i - 1] == Publish(true) || r.steps[i - 1].ReadBack? {
      p := i - 1;
      JustSecured(cfg, r.states[p], r.steps[p]);
    } else {
      HoldingStep(cfg, r.states[i - 1], r.steps[i - 1]);
      p := SecuredOrigin(cfg, r, i - 1);
    }
  }

  // Somebody edits this file at this step.
  predicate Edits(s: Step, destination: string) {
    s.Edit? && s.path == destination
  }

  lemma EditCountStep(cfg: Config, w: World, s: Step, destination: string)
    requires Enabled(cfg, w, s)
    ensures Do(cfg, w, s).edits[destination] == w.edits[destination] + if Edits(s, destination) then 1 else 0
  {
  }

  // The count of edits stands still exactly while nobody edits.
  lemma {:induction false} EditCount(cfg: Config, r: Run, i: nat, j: nat, destination: string)
    requires IsRun(cfg, r) && i <= j < |r.states|
    ensures r.states[i].edits[destination] <= r.states[j].edits[destination]
    ensures r.states[i].edits[destination] == r.states[j].edits[destination] <==>
              forall n: nat :: i <= n < j ==> !Edits(r.steps[n], destination)
  {
    if i < j {
      EditCount(cfg, r, i, j - 1, destination);
      assert StepAt(cfg, r, j - 1);
      EditCountStep(cfg, r.states[j - 1], r.steps[j - 1], destination);
    }
  }

  lemma {:induction false} IssuedStays(cfg: Config, r: Run, i: nat, j: nat)
    requires IsRun(cfg, r) && i <= j < |r.states|
    ensures r.states[i].issued <= r.states[j].issued
  {
    if i < j {
      IssuedStays(cfg, r, i, j - 1);
      assert StepAt(cfg, r, j - 1);
      match r.steps[j - 1] {
        case Serve(_, _, _) =>
        case Save(_, _) =>
        case _ =>
      }
    }
  }

  // What two entries for the same definition, template and revision record is
  // the same.
  lemma SameEntrySameOutput(cfg: Config, w: World, w': World, e: Applied, e': Applied)
    requires IssuedOk(w'.issued, w'.server.store) && w.issued <= w'.issued
    requires e.fingerprint.Of? && e.fingerprint == e'.fingerprint && e.revision == e'.revision
    requires e.outputHash.HashOf? && e'.outputHash.HashOf?
    requires Backed(cfg, w.issued, e.fingerprint.d, e.fingerprint.source, e.revision, e.outputHash.content)
    requires Backed(cfg, w'.issued, e'.fingerprint.d, e'.fingerprint.source, e'.revision, e'.outputHash.content)
    ensures e.outputHash == e'.outputHash
  {
    var f := e.fingerprint;
    var v :| Version(f.d.path, e.revision, v) in w.issued
             && Output(cfg, f.d, f.source, v, e.revision) == Some(e.outputHash.content);
    var v' :| Version(f.d.path, e.revision, v') in w'.issued
              && Output(cfg, f.d, f.source, v', e.revision) == Some(e'.outputHash.content);
    assert Version(f.d.path, e.revision, v) in w'.issued;
  }

  // The hook that was launched at step a is one for the later entry e.
  lemma LaunchedFor(cfg: Config, r: Run, a: nat, i: nat, run: HookRun, e: Applied)
    requires IsRun(cfg, r) && a < i < |r.states| && LaunchAt(cfg, r, a, run)
    requires e != NEVER && EntryOk(cfg, r.states[i].issued, r.states[i].hooks, run.name, e)
    requires run.fingerprint == e.fingerprint && run.revision == e.revision
    ensures Known(r.states[a]) == e.outputHash
  {
    var w := r.states[a];
    RunInv(cfg, r, a);
    RunInv(cfg, r, i);
    IssuedStays(cfg, r, a, i);
    assert EntryOk(cfg, w.issued, w.hooks, run.name, w.mem[run.name]);
    SameEntrySameOutput(cfg, w, r.states[i], w.mem[run.name], e);
  }

  // An entry, in memory or on disk, that says a definition's command is not
  // pending: in every reachable state there was a poll that put exactly the
  // recorded output at the destination, or found it there (p), then launched
  // the command for this very entry (a), which exited successfully (b). If
  // nobody edited the destination between p and a, that output was what the
  // command found there.
  lemma NotPendingMeansDone(cfg: Config, r: Run, i: nat, name: string, saved: bool)
    returns (p: nat, a: nat, b: nat, run: HookRun)
    requires IsRun(cfg, r) && i < |r.states|
    requires var j := if saved then r.states[i].disk else r.states[i].mem;
             name in j && !j[name].pending && j[name].fingerprint.Of? && j[name].fingerprint.d.command != []
    ensures p < a < b < i && LaunchAt(cfg, r, a, run)
    ensures r.steps[b].Finish? && r.states[b].pc.Running? && r.states[b].pc.run == run
    ensures var e := if saved then r.states[i].disk[name] else r.states[i].mem[name];
            && run.name == name && run.fingerprint == e.fingerprint && run.revision == e.revision
            && SecuredAt(cfg, r, p, a, e.outputHash)
            && ((forall n: nat :: p < n < a ==> !Edits(r.steps[n], e.fingerprint.d.destination)) ==>
                  IsContent(run.started, e.outputHash.content))
  {
    RunInv(cfg, r, i);
    var e := if saved then r.states[i].disk[name] else r.states[i].mem[name];
    assert EntryOk(cfg, r.states[i].issued, r.states[i].hooks, name, e);
    run :| && run in r.states[i].hooks && run.name == name && run.fingerprint == e.fingerprint
           && run.revision == e.revision && (run.undisturbed ==> IsContent(run.started, e.outputHash.content));
    a, b := HookOrigin(cfg, r, i, run);
    LaunchedFor(cfg, r, a, i, run, e);
    p := SecuredOrigin(cfg, r, a);
    EditCount(cfg, r, p + 1, a, e.fingerprint.d.destination);
  }
}
