// The agent process itself: Sync, syncOne and runCommand as code that updates
// the journal and the file system step by step. Around every action anything
// may happen: requests of others to the server, edits of files, the death of
// the process, the failure of the action. Each execution is shown to be a run
// of the transition system, so that all that is proved of runs holds of it.
module Host {
  import opened Base
  import opened Agent
  import opened Deployment
  import opened AgentSafety
  import opened PlainStore
  import Convergence
  import Definitions

  // What happens around the n-th action. If a file replacement fails,
  // `published` says that it got past its rename.
  datatype Weather = Weather(before: seq<Step>, dies: bool, fails: bool, published: bool)

  predicate Calm(x: Weather) {
    x.before == [] && !x.dies && !x.fails
  }

  predicate Outside(s: Step) {
    s.Serve? || s.Edit?
  }

  datatype Outcome = Succeeded | Failure | Died

  ghost predicate Extends(r: AgentSafety.Run, r': AgentSafety.Run) {
    r.states <= r'.states && r.steps <= r'.steps
  }

  // The revision and the bytes to deploy, if the download and the rendering
  // succeed.
  function Rendered(cfg: Config, server: View, job: Job): Option<(nat, string)> {
    var v := Download(server, job.d.path);
    if v.None? || v.value.revision < 1 then None
    else
      var data := Output(cfg, job.d, job.source, v.value.value, v.value.revision);
      if data.None? then None else Some((v.value.revision, data.value))
  }

  // They are the revision and the rendering of what the server serves.
  lemma RenderedIff(cfg: Config, server: View, job: Job, revision: nat, data: string)
    ensures Rendered(cfg, server, job) == Some((revision, data)) <==>
              && job.d.path in server.granted && IsLive(server.store, job.d.path)
              && server.store[job.d.path].revision == revision >= 1
              && Renders(cfg, job.d, job.source, server.store[job.d.path].value.value, revision, data)
  {
    if job.d.path in server.granted && IsLive(server.store, job.d.path) {
      var cell := server.store[job.d.path];
      OutputIff(cfg, job.d, job.source, cell.value.value, cell.revision, data);
    }
  }

  // The destination holds the rendering of what the server serves.
  ghost predicate ServedAndPut(cfg: Config, server: View, files: map<string, Node>, job: Job) {
    && job.d.path in server.granted && IsLive(server.store, job.d.path)
    && job.d.destination in files && files[job.d.destination].Regular?
    && var cell := server.store[job.d.path];
       Renders(cfg, job.d, job.source, cell.value.value, cell.revision, files[job.d.destination].content)
  }

  // The look at the deployed file, in its two steps.
  predicate Fits(files: map<string, Node>, job: Job, a: Attributes) {
    At(files, job.d.destination).Some? && HasAttributes(At(files, job.d.destination).value, a)
  }

  function ContentAt(files: map<string, Node>, job: Job): Option<string> {
    var n := At(files, job.d.destination);
    if n.Some? && n.value.Regular? then Some(n.value.content) else None
  }

  class Host {
    const cfg: Config
    const weather: nat -> Weather
    var clock: nat
    var w: World
    ghost var run: AgentSafety.Run

    ghost predicate Valid()
      reads this
    {
      IsRun(cfg, run) && run.states[|run.states| - 1] == w
    }

    // Nothing goes wrong from now on.
    ghost predicate Quiet(from: nat) {
      forall n: nat :: n >= from ==> Calm(weather(n))
    }

    constructor (cfg: Config, weather: nat -> Weather, w: World)
      requires Initial(w)
      ensures Valid() && this.cfg == cfg && this.w == w && this.weather == weather
    {
      this.cfg, this.weather, this.w, clock := cfg, weather, w, 0;
      run := AgentSafety.Run([w], []);
    }

    method Take(s: Step)
      requires Valid() && Enabled(cfg, w, s)
      modifies `w, `run
      ensures Valid() && w == Do(cfg, old(w), s) && Extends(old(run), run)
    {
      RunGrows(cfg, run, s);
      w := Do(cfg, w, s);
      run := AgentSafety.Run(run.states + [w], run.steps + [s]);
    }

    // The surroundings before one action, and the fate of that action.
    method Around() returns (alive: bool, fails: bool, published: bool)
      requires Valid() && !w.pc.Dead?
      modifies this
      ensures Valid() && Extends(old(run), run) && clock == old(clock) + 1
      ensures if alive then w.pc == old(w.pc) && w.mem == old(w.mem) && w.disk == old(w.disk) else w.pc.Dead?
      ensures Calm(weather(old(clock))) ==> alive && !fails && w == old(w)
    {
      var x := weather(clock);
      clock := clock + 1;
      for i := 0 to |x.before|
        invariant Valid() && Extends(old(run), run) && clock == old(clock) + 1
        invariant w.pc == old(w.pc) && w.mem == old(w.mem) && w.disk == old(w.disk)
        invariant i == 0 ==> w == old(w)
      {
        if Outside(x.before[i]) && Enabled(cfg, w, x.before[i]) {
          Take(x.before[i]);
        }
      }
      if x.dies {
        Take(Crash);
      }
      alive, fails, published := !x.dies, x.fails, x.published;
    }

    // ---- single actions ----

    // Any error return.
    method Return(job: Job)
      requires Valid() && Fails(w.pc)
      modifies `w, `run
      ensures Valid() && Extends(old(run), run) && w == old(w).(pc := Idle)
    {
      Take(GiveUp);
    }

    method AskMetadata(job: Job) returns (r: Outcome)
      requires Valid() && w.pc == Asking(job)
      modifies this
      ensures Valid() && Extends(old(run), run) && clock == old(clock) + 1
      ensures match r
              case Died => w.pc.Dead?
              case Failure => w.pc.Idle? && w.mem == old(w.mem)
              case Succeeded => w.pc.Stating? && w.pc.job == job && w.mem == old(w.mem)
      ensures Calm(weather(old(clock))) ==>
                var revision, attrs := Metadata(old(w.server), job.d.path), AttributesOf(cfg, job.d);
                if revision.Some? && revision.value >= 1 && attrs.Some?
                then && r.Succeeded? && w == old(w).(pc := w.pc)
                     && w.pc.revision == revision.value && w.pc.attrs == attrs.value
                else r.Failure? && w == old(w).(pc := Idle)
    {
      var alive, fails, published := Around();
      if !alive { return Died; }
      var revision, attrs := Metadata(w.server, job.d.path), AttributesOf(cfg, job.d);
      if fails || revision.None? || revision.value < 1 || attrs.None? {
        Return(job);
        return Failure;
      }
      Take(Meta);
      r := Succeeded;
    }

    method Examine(job: Job) returns (r: Outcome)
      requires Valid() && w.pc.Stating? && w.pc.job == job
      modifies this
      ensures Valid() && Extends(old(run), run) && clock == old(clock) + 1
      ensures if r.Succeeded? then w.pc.Reading? && w.pc.job == job && w.mem == old(w.mem) else r.Died? && w.pc.Dead?
      ensures Calm(weather(old(clock))) ==>
                && r.Succeeded?
                && w == old(w).(pc := Reading(job, old(w.pc.revision), old(w.pc.asOf), old(w.pc.attrs), w.pc.attrsOk))
                && w.pc.attrsOk == Fits(w.files, job, w.pc.attrs)
    {
      var alive, fails, published := Around();
      if !alive { return Died; }
      Take(Stat);
      r := Succeeded;
    }

    method ReadFile(job: Job) returns (r: Outcome)
      requires Valid() && w.pc.Reading? && w.pc.job == job
      modifies this
      ensures Valid() && Extends(old(run), run) && clock == old(clock) + 1
      ensures if r.Succeeded? then w.pc.Comparing? && w.pc.job == job && w.mem == old(w.mem) else r.Died? && w.pc.Dead?
      ensures Calm(weather(old(clock))) ==>
                && r.Succeeded?
                && w == old(w).(pc := Comparing(job, old(w.pc.revision), old(w.pc.asOf), old(w.pc.attrs), w.pc.content,
                                                w.edits[job.d.destination]))
                && w.pc.content == (if old(w.pc.attrsOk) then ContentAt(w.files, job) else None)
    {
      var alive, fails, published := Around();
      if !alive { return Died; }
      Take(ReadBack);
      r := Succeeded;
    }

    method FetchValue(job: Job) returns (r: Outcome)
      requires Valid() && w.pc.Fetching? && w.pc.job == job
      modifies this
      ensures Valid() && Extends(old(run), run) && clock == old(clock) + 1
      ensures match r
              case Died => w.pc.Dead?
              case Failure => w.pc.Idle? && w.mem == old(w.mem) && w.disk == old(w.disk)
              case Succeeded => w.pc.Writing? && w.pc.job == job && w.mem == old(w.mem) && w.disk == old(w.disk)
      ensures Calm(weather(old(clock))) ==>
                var v := Rendered(cfg, old(w.server), job);
                if v.None? then r.Failure? && w == old(w).(pc := Idle)
                else r.Succeeded? && w == old(w).(pc := Writing(job, old(w.pc.attrs), v.value.0, v.value.1))
    {
      var alive, fails, published := Around();
      if !alive { return Died; }
      if fails || Rendered(cfg, w.server, job).None? {
        Return(job);
        return Failure;
      }
      Take(Fetch);
      r := Succeeded;
    }

    // AtomicWrite on the destination.
    method PublishFile(job: Job) returns (r: Outcome)
      requires Valid() && w.pc.Writing? && w.pc.job == job
      modifies this
      ensures Valid() && Extends(old(run), run) && clock == old(clock) + 1
      ensures match r
              case Died => w.pc.Dead?
              case Failure => w.pc.Idle? && w.mem == old(w.mem) && w.disk == old(w.disk)
              case Succeeded => w.pc.Recording? && w.pc.job == job && w.mem == old(w.mem) && w.disk == old(w.disk)
      ensures Calm(weather(old(clock))) ==>
                if At(old(w.files), job.d.destination) == Some(Irregular)
                then r.Failure? && w == old(w).(pc := Idle)
                else
                  var file := Written(cfg, old(w.pc.data), old(w.pc.attrs));
                  var pc := Recording(job, old(w.pc.revision), old(w.pc.data), old(w.edits)[job.d.destination]);
                  && r.Succeeded?
                  && w == old(w).(files := old(w.files)[job.d.destination := file], pc := pc)
    {
      var alive, fails, published := Around();
      if !alive { return Died; }
      if (fails && !published) || At(w.files, job.d.destination) == Some(Irregular) {
        Return(job);
        return Failure;
      }
      Take(Publish(!fails));
      r := if fails then Failure else Succeeded;
    }

    method RecordEntry(job: Job) returns (r: Outcome)
      requires Valid() && w.pc.Recording? && w.pc.job == job
      modifies this
      ensures Valid() && Extends(old(run), run) && clock == old(clock) + 1
      ensures if r.Succeeded? then
                && w.pc == Saving(job, Entry(old(w.mem), job.name), old(w.pc.editsAt))
                && w.mem == old(w.mem)[job.name := NewEntry(job, old(w.pc.revision), old(w.pc.data))]
              else r.Died? && w.pc.Dead?
      ensures Calm(weather(old(clock))) ==> r.Succeeded? && w == old(w).(mem := w.mem, pc := w.pc)
    {
      var alive, fails, published := Around();
      if !alive { return Died; }
      Take(Record);
      r := Succeeded;
    }

    // AtomicWrite on the journal, with the roll-back in memory if it fails.
    method SaveJournal(job: Job) returns (r: Outcome)
      requires Valid() && (w.pc.Saving? || w.pc.Completing?) && w.pc.job == job
      modifies this
      ensures Valid() && Extends(old(run), run) && clock == old(clock) + 1
      ensures match r
              case Died => w.pc.Dead?
              case Failure =>
                && w.pc.Idle? && (w.disk == old(w.mem) || w.disk == old(w.disk))
                && w.mem == old(w.mem)[job.name := if old(w.pc.Saving?) then old(w.pc.before)
                                                   else Entry(old(w.mem), job.name).(pending := true)]
              case Succeeded =>
                && w.mem == old(w.mem) && w.disk == w.mem
                && w.pc == if old(w.pc.Saving?) && job.d.command != [] then Launching(job, old(w.pc.editsAt)) else Idle
      ensures Calm(weather(old(clock))) ==> r.Succeeded? && w == old(w).(disk := w.mem, pc := w.pc)
    {
      var alive, fails, published := Around();
      if !alive { return Died; }
      Take(Save(published || !fails, !fails));
      r := if fails then Failure else Succeeded;
    }

    method LaunchHook(job: Job) returns (r: Outcome)
      requires Valid() && w.pc.Launching? && w.pc.job == job
      modifies this
      ensures Valid() && Extends(old(run), run) && clock == old(clock) + 1
      ensures if r.Succeeded? then w.pc.Running? && w.pc.job == job && w.mem == old(w.mem) && Awaiting(w.mem, job)
              else r.Died? && w.pc.Dead?
      ensures Calm(weather(old(clock))) ==>
                && r.Succeeded?
                && var run := HookRun(job.name, Of(job.d, job.source), Entry(w.mem, job.name).revision,
                                      At(w.files, job.d.destination), w.edits[job.d.destination] == old(w.pc.editsAt));
                   w == old(w).(pc := Running(job, run))
    {
      var alive, fails, published := Around();
      if !alive { return Died; }
      Take(Launch);
      RunningAwaits(cfg, run);
      r := Succeeded;
    }

    // The hook runs; a failing one is left pending.
    method AwaitHook(job: Job) returns (r: Outcome)
      requires Valid() && w.pc.Running? && w.pc.job == job && Awaiting(w.mem, job)
      modifies this
      ensures Valid() && Extends(old(run), run) && clock == old(clock) + 1
      ensures match r
              case Died => w.pc.Dead?
              case Failure => w.pc.Idle? && w.mem == old(w.mem)
              case Succeeded =>
                && w.pc == Completing(job)
                && w.mem == old(w.mem)[job.name := old(w.mem)[job.name].(pending := false)]
      ensures Calm(weather(old(clock))) ==>
                r.Succeeded? && w == old(w).(hooks := old(w.hooks) + multiset{old(w.pc.run)}, mem := w.mem, pc := w.pc)
    {
      var alive, fails, published := Around();
      if !alive { return Died; }
      if fails {
        Return(job);
        return Failure;
      }
      Take(Finish);
      r := Succeeded;
    }

    // ---- runCommand ----

    // The hook of a pending entry. A failure leaves the entry pending; so does
    // a failure to save its completion.
    method RunCommand(job: Job) returns (r: Outcome)
      requires Valid() && w.pc.Launching? && w.pc.job == job
      modifies this
      ensures Valid() && Extends(old(run), run)
      ensures if r.Died? then w.pc.Dead? else w.pc.Idle?
      ensures r.Failure? ==> job.name in w.mem && w.mem[job.name].pending
      ensures r.Succeeded? ==> job.name in w.mem && !w.mem[job.name].pending && w.disk == w.mem
      ensures Quiet(old(clock)) ==> Quiet(clock)
      ensures Quiet(old(clock)) && old(w.pc.editsAt == w.edits[job.d.destination]) ==>
                && r.Succeeded? && job.name in old(w.mem)
                && w == Convergence.Hooked(old(w), job, old(w.mem)[job.name], false).w.(pc := Idle)
    {
      r := LaunchHook(job);
      if !r.Succeeded? { return; }
      r := AwaitHook(job);
      if !r.Succeeded? { return; }
      r := SaveJournal(job);
    }

    // ---- syncOne ----

    // The request for metadata, and the look at the deployed file.
    method Compare(job: Job) returns (r: Outcome)
      requires Valid() && w.pc == Asking(job)
      modifies this
      ensures Valid() && Extends(old(run), run)
      ensures match r
              case Died => w.pc.Dead?
              case Failure => w.pc.Idle? && w.mem == old(w.mem)
              case Succeeded => w.pc.Comparing? && w.pc.job == job && w.mem == old(w.mem)
      ensures Quiet(old(clock)) ==>
                var revision, attrs := Metadata(old(w.server), job.d.path), AttributesOf(cfg, job.d);
                && Quiet(clock)
                && if revision.Some? && revision.value >= 1 && attrs.Some?
                   then && r.Succeeded? && w == old(w).(pc := w.pc)
                        && w.pc.revision == revision.value && w.pc.attrs == attrs.value
                        && w.pc.content == Convergence.Seen(w, job, attrs.value)
                        && w.pc.editsAt == w.edits[job.d.destination]
                   else r.Failure? && w == old(w).(pc := Idle)
    {
      r := AskMetadata(job);
      if !r.Succeeded? { return; }
      r := Examine(job);
      if !r.Succeeded? { return; }
      r := ReadFile(job);
    }

    // Download, render and publish.
    method Republish(job: Job) returns (r: Outcome)
      requires Valid() && w.pc.Fetching? && w.pc.job == job
      modifies this
      ensures Valid() && Extends(old(run), run)
      ensures match r
              case Died => w.pc.Dead?
              case Failure => w.pc.Idle? && w.mem == old(w.mem) && w.disk == old(w.disk)
              case Succeeded => w.pc.Recording? && w.pc.job == job && w.mem == old(w.mem) && w.disk == old(w.disk)
      ensures Quiet(old(clock)) ==>
                var v := Rendered(cfg, old(w.server), job);
                && Quiet(clock)
                && if v.None? || At(old(w.files), job.d.destination) == Some(Irregular)
                   then r.Failure? && w == old(w).(pc := Idle)
                   else
                     var file := Written(cfg, v.value.1, old(w.pc.attrs));
                     && r.Succeeded?
                     && w == old(w).(files := old(w.files)[job.d.destination := file],
                                     pc := Recording(job, v.value.0, v.value.1, old(w.edits)[job.d.destination]))
    {
      r := FetchValue(job);
      if !r.Succeeded? { return; }
      r := PublishFile(job);
    }

    // Record and save. A failed save puts the old entry back in memory, whatever
    // reached the disk.
    method Journalize(job: Job) returns (r: Outcome)
      requires Valid() && w.pc.Recording? && w.pc.job == job
      modifies this
      ensures Valid() && Extends(old(run), run)
      ensures match r
              case Died => w.pc.Dead?
              case Failure => w.pc.Idle? && w.mem == old(w.mem)[job.name := Entry(old(w.mem), job.name)]
              case Succeeded =>
                && w.pc == (if job.d.command == [] then Idle else Launching(job, old(w.pc.editsAt)))
                && w.mem == old(w.mem)[job.name := NewEntry(job, old(w.pc.revision), old(w.pc.data))]
                && w.disk == w.mem
      ensures Quiet(old(clock)) ==>
                Quiet(clock) && r.Succeeded? && w == old(w).(mem := w.mem, disk := w.mem, pc := w.pc)
    {
      r := RecordEntry(job);
      if !r.Succeeded? { return; }
      r := SaveJournal(job);
    }

    // Download, render, publish and journalize. A failed save puts the old
    // entry back in memory, whatever reached the disk.
    method Replace(job: Job) returns (r: Outcome)
      requires Valid() && w.pc.Fetching? && w.pc.job == job
      modifies this
      ensures Valid() && Extends(old(run), run)
      ensures match r
              case Died => w.pc.Dead?
              case Failure =>
                w.pc.Idle? && (w.mem == old(w.mem) || w.mem == old(w.mem)[job.name := Entry(old(w.mem), job.name)])
              case Succeeded =>
                && (if job.d.command == [] then w.pc.Idle? else w.pc.Launching? && w.pc.job == job)
                && job.name in w.mem && w.mem == old(w.mem)[job.name := w.mem[job.name]] && w.disk == w.mem
                && w.mem[job.name].pending == (job.d.command != [])
      ensures Quiet(old(clock)) ==>
                var v := Rendered(cfg, old(w.server), job);
                && Quiet(clock)
                && if v.None? || At(old(w.files), job.d.destination) == Some(Irregular)
                   then r.Failure? && w == old(w).(pc := Idle)
                   else
                     var file := Written(cfg, v.value.1, old(w.pc.attrs));
                     var mem := old(w.mem)[job.name := NewEntry(job, v.value.0, v.value.1)];
                     && r.Succeeded?
                     && w == old(w).(files := old(w.files)[job.d.destination := file],
                                     mem := mem, disk := mem, pc := w.pc)
                     && (job.d.command != [] ==> w.pc.editsAt == w.edits[job.d.destination])
      ensures Quiet(old(clock)) && r.Succeeded? ==> ServedAndPut(cfg, old(w.server), w.files, job)
    {
      ghost var v := Rendered(cfg, w.server, job);
      if v.Some? {
        RenderedIff(cfg, w.server, job, v.value.0, v.value.1);
      }
      r := Republish(job);
      if !r.Succeeded? { return; }
      r := Journalize(job);
    }

    method Choose(s: Step)
      requires Valid() && w.pc.Comparing? && (s.Skip? || s.Retry? || s.Proceed?) && Enabled(cfg, w, s)
      modifies `w, `run
      ensures Valid() && Extends(old(run), run)
      ensures w == old(w).(pc := w.pc)
      ensures w.pc == if s.Skip? then Idle
                      else if s.Retry? then Launching(old(w.pc.job), old(w.pc.editsAt))
                      else Fetching(old(w.pc.job), old(w.pc.attrs))
    {
      Take(s);
    }

    method Start(job: Job)
      requires Valid() && w.pc.Idle? && (job.d.template == "" ==> job.source == "")
      modifies `w, `run
      ensures Valid() && Extends(old(run), run) && w == old(w).(pc := Asking(job))
    {
      Take(Begin(job));
    }

    method ReplaceAndHook(job: Job) returns (r: Outcome)
      requires Valid() && w.pc.Fetching? && w.pc.job == job
      modifies this
      ensures Valid() && Extends(old(run), run)
      ensures if r.Died? then w.pc.Dead? else w.pc.Idle?
      ensures Quiet(old(clock)) ==> Quiet(clock)
      ensures Quiet(old(clock)) ==>
                var p := Convergence.Replaced(cfg, old(w).(pc := Idle), job, old(w.pc.attrs),
                                              Download(old(w.server), job.d.path));
                w == p.w && r == if p.ok then Succeeded else Failure
    {
      r := Replace(job);
      if !r.Succeeded? || job.d.command == [] { return; }
      r := RunCommand(job);
    }

    // No download: the pending hook, or nothing.
    method Settle(job: Job) returns (r: Outcome)
      requires Valid() && w.pc.Comparing? && w.pc.job == job
      requires Matches(Entry(w.mem, job.name), job, w.pc.revision, w.pc.content)
      modifies this
      ensures Valid() && Extends(old(run), run)
      ensures if r.Died? then w.pc.Dead? else w.pc.Idle?
      ensures Quiet(old(clock)) ==> Quiet(clock)
      ensures Quiet(old(clock)) && old(w.pc.editsAt == w.edits[job.d.destination]) ==>
                var e := Entry(old(w.mem), job.name);
                && r.Succeeded?
                && w == if e.pending && job.d.command != []
                        then Convergence.Hooked(old(w).(pc := Idle), job, e, false).w else old(w).(pc := Idle)
    {
      var e := Entry(w.mem, job.name);
      if e.pending && job.d.command != [] {
        Choose(Retry);
        r := RunCommand(job);
      } else {
        Choose(Skip);
        r := Succeeded;
      }
    }

    // After the comparison: nothing, the pending hook, or a replacement.
    method Decide(job: Job) returns (r: Outcome)
      requires Valid() && w.pc.Comparing? && w.pc.job == job
      modifies this
      ensures Valid() && Extends(old(run), run)
      ensures if r.Died? then w.pc.Dead? else w.pc.Idle?
      ensures Quiet(old(clock)) ==> Quiet(clock)
      ensures Quiet(old(clock)) && old(w.pc.revision >= 1 && w.pc.editsAt == w.edits[job.d.destination]
                                       && w.pc.content == Convergence.Seen(w, job, w.pc.attrs)) ==>
                var p := Convergence.CleanWith(cfg, old(w).(pc := Idle), job, Some(old(w.pc.attrs)),
                                               Some(old(w.pc.revision)), Download(old(w.server), job.d.path));
                w == p.w && r == if p.ok then Succeeded else Failure
    {
      if !Matches(Entry(w.mem, job.name), job, w.pc.revision, w.pc.content) {
        Choose(Proceed);
        r := ReplaceAndHook(job);
      } else {
        r := Settle(job);
      }
    }

    // One definition. Without faults the result is the one specified.
    method SyncOne(name: string, d: Definition, templates: map<string, string>) returns (r: Outcome)
      requires Valid() && w.pc.Idle?
      modifies this
      ensures Valid() && Extends(old(run), run)
      ensures if r.Died? then w.pc.Dead? else w.pc.Idle?
      ensures d.template != "" && d.template !in templates ==> r.Failure? && w == old(w) && clock == old(clock)
      ensures Quiet(old(clock)) ==> Quiet(clock)
      ensures Quiet(old(clock)) && (d.template == "" || d.template in templates) ==>
                var p := Convergence.CleanOne(cfg, old(w), JobOf(name, d, templates));
                w == p.w && r == if p.ok then Succeeded else Failure
    {
      var source := "";
      if d.template != "" {
        if d.template !in templates { return Failure; }
        source := templates[d.template];
      }
      var job := Job(name, d, source);
      Start(job);
      r := Compare(job);
      if !r.Succeeded? { return; }
      r := Decide(job);
    }

    // Every definition in turn, in whatever order the map gives them. A failed
    // one does not stop the others.
    method Sync(order: seq<(string, Definition)>, templates: map<string, string>) returns (r: Outcome)
      requires Valid() && w.pc.Idle?
      modifies this
      ensures Valid() && Extends(old(run), run)
      ensures if r.Died? then w.pc.Dead? else w.pc.Idle?
      ensures Quiet(old(clock)) && (forall o :: o in order ==> o.1.template == "" || o.1.template in templates) ==>
                var p := Convergence.CleanSync(cfg, old(w), JobsOf(order, templates));
                w == p.w && r == if p.ok then Succeeded else Failure
    {
      ghost var quiet := Quiet(clock) && forall o :: o in order ==> o.1.template == "" || o.1.template in templates;
      r := Succeeded;
      for i := 0 to |order|
        invariant Valid() && Extends(old(run), run) && w.pc.Idle? && !r.Died?
        invariant quiet ==> Quiet(clock)
        invariant quiet ==>
                    var p, q := Convergence.CleanSync(cfg, old(w), JobsOf(order, templates)),
                                Convergence.CleanSync(cfg, w, JobsOf(order[i..], templates));
                    p.w == q.w && p.ok == (r.Succeeded? && q.ok)
      {
        assert order[i..][1..] == order[i + 1..];
        assert order[i] in order;
        var one := SyncOne(order[i].0, order[i].1, templates);
        if one.Died? { return Died; }
        if one.Failure? { r := Failure; }
      }
      assert order[|order|..] == [];
    }

    // A map's keys in some order.
    method Order(defs: map<string, Definition>) returns (order: seq<(string, Definition)>)
      ensures IsOrder(defs, {}, order)
    {
      var names := defs.Keys;
      order := [];
      while names != {}
        invariant names <= defs.Keys && IsOrder(defs, names, order)
      {
        var name :| name in names;
        names := names - {name};
        order := order + [(name, defs[name])];
      }
    }

    // A whole poll of an enrolled agent: the definitions are loaded, or the poll
    // fails without any effect, and then each is visited. Without faults the
    // result is that of the specified poll over these definitions, in whatever
    // order one takes them.
    method Poll(files: seq<Definitions.File>, dirs: seq<string>, duration: string -> Option<int>,
                templates: map<string, string>) returns (r: Outcome)
      requires Valid() && w.pc.Idle?
      requires forall i, j :: 0 <= i < j < |files| ==> files[i].name != files[j].name
      modifies this
      ensures Valid() && Extends(old(run), run)
      ensures if r.Died? then w.pc.Dead? else w.pc.Idle?
      ensures !Definitions.Loadable(files, dirs, duration) ==> r.Failure? && w == old(w)
      ensures Definitions.Loadable(files, dirs, duration) && Quiet(old(clock)) && Templated(files, templates) ==>
                forall jobs :: JobsOfFiles(files, templates, jobs) ==>
                  var p := Convergence.CleanSync(cfg, old(w), jobs);
                  w == p.w && r == if p.ok then Succeeded else Failure
    {
      var defs := Definitions.Load(files, dirs, duration);
      if defs.Err? { return Failure; }
      var order := Order(defs.value);
      if Templated(files, templates) {
        OrderGivesJobs(files, defs.value, order, templates);
        AnyOrder(cfg, w, files, defs.value, templates, JobsOf(order, templates));
      }
      r := Sync(order, templates);
    }
  }

  // All names but these, each once, with their definitions.
  ghost predicate IsOrder(defs: map<string, Definition>, missing: set<string>, order: seq<(string, Definition)>) {
    && (forall i, j :: 0 <= i < j < |order| ==> order[i].0 != order[j].0)
    && (forall i :: 0 <= i < |order| ==>
          order[i].0 in defs && order[i].0 !in missing && order[i].1 == defs[order[i].0])
    && (forall name :: name in defs && name !in missing ==> (name, defs[name]) in order)
  }

  // Every template that a definition names is there.
  ghost predicate Templated(files: seq<Definitions.File>, templates: map<string, string>) {
    forall f :: f in files && Definitions.Considered(f) && f.content.Some? ==>
      f.content.value.template == "" || f.content.value.template in templates
  }

  // The job of one of these files: its name, its definition, and the text of the
  // template that this names, if it names one.
  ghost predicate FileGives(files: seq<Definitions.File>, templates: map<string, string>, job: Job) {
    exists f :: f in files && Definitions.Considered(f) && f.content.Some?
      && (f.content.value.template == "" || f.content.value.template in templates)
      && job.name == f.name && job.d == f.content.value
      && job.source == if job.d.template == "" then "" else templates[job.d.template]
  }

  // The jobs of these files, each once, in any order.
  ghost predicate JobsOfFiles(files: seq<Definitions.File>, templates: map<string, string>, jobs: seq<Job>) {
    && (forall i, j :: 0 <= i < j < |jobs| ==> jobs[i].name != jobs[j].name)
    && (forall job :: job in jobs <==> FileGives(files, templates, job))
  }

  lemma {:induction false} JobsOfOrder(order: seq<(string, Definition)>, templates: map<string, string>)
    requires forall o :: o in order ==> o.1.template == "" || o.1.template in templates
    ensures |JobsOf(order, templates)| == |order|
    ensures forall i :: 0 <= i < |order| ==> JobsOf(order, templates)[i] == JobOf(order[i].0, order[i].1, templates)
  {
    if order != [] {
      JobsOfOrder(order[1..], templates);
    }
  }

  lemma OrderTemplated(files: seq<Definitions.File>, defs: map<string, Definition>,
                       order: seq<(string, Definition)>, templates: map<string, string>)
    requires Definitions.Loaded(files, defs) && IsOrder(defs, {}, order) && Templated(files, templates)
    ensures forall o :: o in order ==> o.1.template == "" || o.1.template in templates
  {
    forall o | o in order ensures o.1.template == "" || o.1.template in templates {
      var f :| f in files && Definitions.Considered(f) && f.name == o.0;
      assert defs[f.name] == Definitions.DefinitionOf(f);
    }
  }

  // The job that the i-th name of an order gives comes from a file.
  lemma OrderFromFiles(files: seq<Definitions.File>, defs: map<string, Definition>,
                       order: seq<(string, Definition)>, templates: map<string, string>, i: nat)
    requires Definitions.Loaded(files, defs) && IsOrder(defs, {}, order) && i < |order|
    requires order[i].1.template == "" || order[i].1.template in templates
    ensures FileGives(files, templates, JobOf(order[i].0, order[i].1, templates))
  {
    var f :| f in files && Definitions.Considered(f) && f.name == order[i].0;
    assert defs[f.name] == Definitions.DefinitionOf(f);
  }

  // And each file's job is among them.
  lemma FileInOrder(files: seq<Definitions.File>, defs: map<string, Definition>,
                    order: seq<(string, Definition)>, templates: map<string, string>, job: Job) returns (i: nat)
    requires Definitions.Loaded(files, defs) && IsOrder(defs, {}, order) && FileGives(files, templates, job)
    ensures i < |order| && (order[i].1.template == "" || order[i].1.template in templates)
    ensures job == JobOf(order[i].0, order[i].1, templates)
  {
    var f :| f in files && Definitions.Considered(f) && f.content.Some?
      && (f.content.value.template == "" || f.content.value.template in templates)
      && job.name == f.name && job.d == f.content.value
      && job.source == if job.d.template == "" then "" else templates[job.d.template];
    assert defs[f.name] == Definitions.DefinitionOf(f);
    i :| i < |order| && order[i] == (f.name, defs[f.name]);
  }

  lemma OrderGivesJobs(files: seq<Definitions.File>, defs: map<string, Definition>,
                       order: seq<(string, Definition)>, templates: map<string, string>)
    requires Definitions.Loaded(files, defs) && IsOrder(defs, {}, order) && Templated(files, templates)
    ensures forall o :: o in order ==> o.1.template == "" || o.1.template in templates
    ensures JobsOfFiles(files, templates, JobsOf(order, templates))
  {
    var jobs := JobsOf(order, templates);
    OrderTemplated(files, defs, order, templates);
    JobsOfOrder(order, templates);
    forall job | job in jobs ensures FileGives(files, templates, job) {
      var i :| 0 <= i < |jobs| && jobs[i] == job;
      OrderFromFiles(files, defs, order, templates, i);
    }
    forall job | FileGives(files, templates, job) ensures job in jobs {
      var i := FileInOrder(files, defs, order, templates, job);
      assert jobs[i] == job;
    }
  }

  lemma FilesListed(files: seq<Definitions.File>, defs: map<string, Definition>, templates: map<string, string>,
                    jobs: seq<Job>)
    requires Definitions.Loaded(files, defs) && JobsOfFiles(files, templates, jobs)
    ensures Definitions.Lists(defs, jobs)
  {
    forall i | 0 <= i < |jobs| ensures jobs[i].name in defs && jobs[i].d == defs[jobs[i].name] {
      assert jobs[i] in jobs;
      assert FileGives(files, templates, jobs[i]);
    }
  }

  lemma {:induction false} OccursOnce(jobs: seq<Job>, job: Job)
    requires forall i, j :: 0 <= i < j < |jobs| ==> jobs[i].name != jobs[j].name
    ensures multiset(jobs)[job] == if job in jobs then 1 else 0
  {
    if jobs != [] {
      OccursOnce(jobs[1..], job);
      assert jobs == [jobs[0]] + jobs[1..];
    }
  }

  // Any two such lists are permutations of one another, so the poll is the same.
  lemma AnyOrder(cfg: Config, w: World, files: seq<Definitions.File>, defs: map<string, Definition>,
                 templates: map<string, string>, jobs: seq<Job>)
    requires Definitions.Loaded(files, defs) && JobsOfFiles(files, templates, jobs)
    ensures forall others :: JobsOfFiles(files, templates, others) ==>
              Convergence.CleanSync(cfg, w, others) == Convergence.CleanSync(cfg, w, jobs)
  {
    forall others | JobsOfFiles(files, templates, others)
      ensures Convergence.CleanSync(cfg, w, others) == Convergence.CleanSync(cfg, w, jobs)
    {
      forall job ensures multiset(others)[job] == multiset(jobs)[job] {
        OccursOnce(others, job);
        OccursOnce(jobs, job);
      }
      assert multiset(others) == multiset(jobs);
      FilesListed(files, defs, templates, jobs);
      FilesListed(files, defs, templates, others);
      Definitions.LoadedJobsAreDistinct(files, defs, jobs);
      Definitions.LoadedJobsAreDistinct(files, defs, others);
      Convergence.OrderDoesNotMatter(cfg, w, others, jobs);
    }
  }

  lemma RunningAwaits(cfg: Config, r: AgentSafety.Run)
    requires IsRun(cfg, r) && r.states[|r.states| - 1].pc.Running?
    ensures var w := r.states[|r.states| - 1]; Awaiting(w.mem, w.pc.job)
  {
    RunInv(cfg, r, |r.states| - 1);
  }

  function JobOf(name: string, d: Definition, templates: map<string, string>): Job
    requires d.template == "" || d.template in templates
  {
    Job(name, d, if d.template == "" then "" else templates[d.template])
  }

  // Definitions whose template is missing never become jobs.
  function JobsOf(order: seq<(string, Definition)>, templates: map<string, string>): seq<Job> {
    if order == [] then []
    else
      var (name, d) := order[0];
      var rest := JobsOf(order[1..], templates);
      if d.template == "" || d.template in templates then [JobOf(name, d, templates)] + rest else rest
  }
}
