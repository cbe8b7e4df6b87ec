// What no failure of the agent does, and what it never goes back on: files are
// not removed, entries record publications, and what is published for a path
// moves forward only.
module AgentHistory {
  import opened Base
  import opened Agent
  import opened Deployment
  import opened AgentSafety
  import opened PlainStore

  // ---- deployed files ----

  // A replacement of this file got past its rename.
  predicate Publishes(w: World, s: Step, destination: string) {
    s.Publish? && w.pc.Writing? && w.pc.job.d.destination == destination
  }

  lemma FileStep(cfg: Config, w: World, s: Step, destination: string)
    requires Enabled(cfg, w, s) && !Edits(s, destination)
    ensures At(Do(cfg, w, s).files, destination) ==
            if Publishes(w, s, destination) then Some(Written(cfg, w.pc.data, w.pc.attrs)) else At(w.files, destination)
  {
    match s {
      case Serve(_, _, _) =>
      case Save(_, _) =>
      case _ =>
    }
  }

  // The last of the publications at a destination between two moments.
  ghost predicate LastPublished(r: Run, i: nat, j: nat, destination: string, p: Option<nat>)
    requires i <= j < |r.states| && |r.states| == |r.steps| + 1
  {
    && (p.Some? ==> i <= p.value < j && Publishes(r.states[p.value], r.steps[p.value], destination))
    && forall n: nat :: (if p.Some? then p.value + 1 else i) <= n < j ==>
         !Publishes(r.states[n], r.steps[n], destination)
  }

  // At the destination is a file the agent made from some version that the
  // server has issued.
  ghost predicate MadeFromIssued(cfg: Config, issued: set<Version>, files: map<string, Node>, job: Job) {
    exists v :: v in issued && v.path == job.d.path
      && InPlace(cfg, files, job, v.value, v.revision) && FileMade(cfg, job.d, files[job.d.destination])
  }

  lemma PublishedIsMade(cfg: Config, w: World, files: map<string, Node>)
    requires Inv(cfg, w) && w.pc.Writing?
    requires At(files, w.pc.job.d.destination) == Some(Written(cfg, w.pc.data, w.pc.attrs))
    ensures MadeFromIssued(cfg, w.issued, files, w.pc.job)
  {
    var job := w.pc.job;
    var value :| Version(job.d.path, w.pc.revision, value) in w.issued
                 && Output(cfg, job.d, job.source, value, w.pc.revision) == Some(w.pc.data);
    var v := Version(job.d.path, w.pc.revision, value);
    OutputIff(cfg, job.d, job.source, value, w.pc.revision, w.pc.data);
    WrittenIsMade(cfg, job.d, w.pc.data, w.pc.attrs);
    assert v in w.issued && v.path == job.d.path;
  }

  // Unless somebody edits it, a file stays what it is, or is the complete
  // rendering, with mode and owner, that the last poll to publish there made of
  // a version the server has issued. In between there may be any number of
  // failures of any kind, crashes and restarts. So none of them removes it.
  lemma {:induction false} DeployedFileStays(cfg: Config, r: Run, i: nat, j: nat, destination: string)
    returns (p: Option<nat>)
    requires IsRun(cfg, r) && i <= j < |r.states|
    requires forall n: nat :: i <= n < j ==> !Edits(r.steps[n], destination)
    ensures LastPublished(r, i, j, destination, p)
    ensures At(r.states[j].files, destination) ==
            if p.None? then At(r.states[i].files, destination)
            else Some(Written(cfg, r.states[p.value].pc.data, r.states[p.value].pc.attrs))
    ensures p.Some? ==>
              var w := r.states[p.value];
              && Backed(cfg, w.issued, w.pc.job.d, w.pc.job.source, w.pc.revision, w.pc.data)
              && AttributesOf(cfg, w.pc.job.d) == Some(w.pc.attrs)
    ensures p.Some? ==> MadeFromIssued(cfg, r.states[p.value].issued, r.states[j].files, r.states[p.value].pc.job)
    ensures At(r.states[i].files, destination).Some? ==> At(r.states[j].files, destination).Some?
  {
    p := None;
    if i < j {
      assert StepAt(cfg, r, j - 1);
      FileStep(cfg, r.states[j - 1], r.steps[j - 1], destination);
      if Publishes(r.states[j - 1], r.steps[j - 1], destination) {
        RunInv(cfg, r, j - 1);
        PublishedIsMade(cfg, r.states[j - 1], r.states[j].files);
        p := Some(j - 1);
      } else {
        p := DeployedFileStays(cfg, r, i, j - 1, destination);
      }
    }
  }

  // ---- what the journal records ----

  // The same entry, but for its pending mark.
  predicate SameRecord(e: Applied, e': Applied) {
    e.revision == e'.revision && e.fingerprint == e'.fingerprint && e.outputHash == e'.outputHash
  }

  // An entry kept somewhere: in memory, on disk, or to be put back.
  predicate Kept(w: World, name: string, e: Applied) {
    || SameRecord(Entry(w.mem, name), e)
    || SameRecord(Entry(w.disk, name), e)
    || (w.pc.Saving? && w.pc.job.name == name && SameRecord(w.pc.before, e))
  }

  lemma KeptStep(cfg: Config, w: World, s: Step, name: string, e: Applied)
    requires Enabled(cfg, w, s) && Kept(Do(cfg, w, s), name, e) && e.fingerprint.Of?
    ensures || Kept(w, name, e)
            || (s.Record? && w.pc.job.name == name && SameRecord(NewEntry(w.pc.job, w.pc.revision, w.pc.data), e))
  {
    match s {
      case Serve(_, _, _) =>
      case Save(_, _) =>
      case _ =>
    }
  }

  // The publication that is being recorded.
  lemma {:induction false} RecordingOrigin(cfg: Config, r: Run, i: nat) returns (p: nat)
    requires IsRun(cfg, r) && i < |r.states| && r.states[i].pc.Recording?
    ensures p < i && r.steps[p] == Publish(true) && r.states[p].pc.Writing?
    ensures var pc, at := r.states[i].pc, r.states[p].pc;
            at.job == pc.job && at.revision == pc.revision && at.data == pc.data
  {
    assert i > 0;
    assert StepAt(cfg, r, i - 1);
    match r.steps[i - 1] {
      case Publish(_) => p := i - 1;
      case Serve(_, _, _) => p := RecordingOrigin(cfg, r, i - 1);
      case Edit(_, _) => p := RecordingOrigin(cfg, r, i - 1);
      case Save(_, _) =>
      case _ =>
    }
  }

  // Whatever entry is kept, in memory or on disk, the output it records was
  // published for that very definition and revision: a failure never advances
  // an entry past what was deployed.
  lemma {:induction false} EntryOrigin(cfg: Config, r: Run, i: nat, name: string, e: Applied) returns (p: nat)
    requires IsRun(cfg, r) && i < |r.states| && Kept(r.states[i], name, e) && e.fingerprint.Of?
    ensures p < i && r.steps[p] == Publish(true) && r.states[p].pc.Writing?
    ensures var at := r.states[p].pc;
            at.job.name == name && SameRecord(NewEntry(at.job, at.revision, at.data), e)
  {
    assert i > 0;
    assert StepAt(cfg, r, i - 1);
    KeptStep(cfg, r.states[i - 1], r.steps[i - 1], name, e);
    if Kept(r.states[i - 1], name, e) {
      p := EntryOrigin(cfg, r, i - 1, name, e);
    } else {
      p := RecordingOrigin(cfg, r, i - 1);
    }
  }

  // ---- a failed poll ----

  predicate InPoll(pc: Pc) {
    !pc.Dead? && !pc.Idle?
  }

  // From Begin at step b up to state f, one poll of one definition.
  ghost predicate PollIs(r: Run, b: nat, f: nat)
    requires f < |r.states| && |r.states| == |r.steps| + 1
  {
    b < f && r.steps[b].Begin? && forall n: nat :: b < n <= f ==> InPoll(r.states[n].pc)
  }

  predicate EndsInFailure(s: Step) {
    s.GiveUp? || s == Publish(false) || (s.Save? && !s.ok)
  }

  // How far a poll has taken its entry in memory.
  ghost predicate Progress(w: World, job: Job, e: Applied) {
    && InPoll(w.pc) && w.pc.job == job
    && (if w.pc.Saving? then w.pc.before == e
        else if w.pc.Launching? || w.pc.Running? || w.pc.Completing? then true
        else Entry(w.mem, job.name) == e)
  }

  lemma ProgressStep(cfg: Config, w: World, s: Step, job: Job, e: Applied)
    requires Enabled(cfg, w, s) && Progress(w, job, e) && InPoll(Do(cfg, w, s).pc)
    ensures Progress(Do(cfg, w, s), job, e)
  {
    match s {
      case Serve(_, _, _) =>
      case Save(_, _) =>
      case _ =>
    }
  }

  lemma {:induction false} PollProgress(cfg: Config, r: Run, b: nat, f: nat)
    requires IsRun(cfg, r) && f < |r.states| && PollIs(r, b, f)
    ensures Progress(r.states[f], r.steps[b].job, Entry(r.states[b].mem, r.steps[b].job.name))
  {
    var e := Entry(r.states[b].mem, r.steps[b].job.name);
    assert StepAt(cfg, r, b);
    if f > b + 1 {
      PollProgress(cfg, r, b, f - 1);
      assert StepAt(cfg, r, f - 1);
      ProgressStep(cfg, r.states[f - 1], r.steps[f - 1], r.steps[b].job, e);
    }
  }

  lemma FailedStep(cfg: Config, w: World, s: Step, job: Job, e: Applied)
    requires Inv(cfg, w) && Progress(w, job, e) && Enabled(cfg, w, s) && EndsInFailure(s)
    ensures var e' := Entry(Do(cfg, w, s).mem, job.name);
            e' == e || (e'.pending && job.d.command != [] && e'.fingerprint == Of(job.d, job.source))
  {
    match s {
      case Save(_, _) =>
      case _ =>
    }
  }

  // A poll that fails, at whatever point, leaves the process with the entry it
  // had, or with one that is pending, to be taken up by the next poll.
  lemma FailureAdvancesNothing(cfg: Config, r: Run, b: nat, f: nat)
    requires IsRun(cfg, r) && f < |r.steps| && PollIs(r, b, f) && EndsInFailure(r.steps[f])
    ensures var job := r.steps[b].job;
            var e, e' := Entry(r.states[b].mem, job.name), Entry(r.states[f + 1].mem, job.name);
            && r.states[f + 1].pc.Idle?
            && (e' == e || (e'.pending && job.d.command != [] && e'.fingerprint == Of(job.d, job.source)))
  {
    PollProgress(cfg, r, b, f);
    RunInv(cfg, r, f);
    assert StepAt(cfg, r, f);
    FailedStep(cfg, r.states[f], r.steps[f], r.steps[b].job, Entry(r.states[b].mem, r.steps[b].job.name));
  }

  // ---- publications move forward ----

  // The download behind what is being written, with nothing else since.
  lemma {:induction false} WritingOrigin(cfg: Config, r: Run, i: nat) returns (f: nat)
    requires IsRun(cfg, r) && i < |r.states| && r.states[i].pc.Writing?
    ensures f < i && r.steps[f].Fetch? && forall n: nat :: f < n <= i ==> r.states[n].pc == r.states[i].pc
    ensures var pc, v := r.states[i].pc, Download(r.states[f].server, r.states[i].pc.job.d.path);
            && v.Some? && v.value.revision == pc.revision
            && Output(cfg, pc.job.d, pc.job.source, v.value.value, pc.revision) == Some(pc.data)
  {
    assert i > 0;
    assert StepAt(cfg, r, i - 1);
    match r.steps[i - 1] {
      case Fetch => f := i - 1;
      case Serve(_, _, _) => f := WritingOrigin(cfg, r, i - 1);
      case Edit(_, _) => f := WritingOrigin(cfg, r, i - 1);
      case Save(_, _) =>
      case _ =>
    }
  }

  // What every publication puts at its destination, whatever the run: a file
  // with the configured mode and owner, whose content is the very value that the
  // server held at the download, or what the template's text renders to for it. It
  // takes the place of a file or of nothing.
  lemma PublishDeploys(cfg: Config, r: Run, i: nat) returns (f: nat)
    requires IsRun(cfg, r) && i < |r.steps| && r.steps[i].Publish?
    ensures r.states[i].pc.Writing? && f < i && r.steps[f].Fetch?
    ensures At(r.states[i].files, r.states[i].pc.job.d.destination) != Some(Irregular)
    ensures var job, view := r.states[i].pc.job, r.states[f].server;
            && r.states[f].pc.Fetching? && r.states[f].pc.job == job
            && job.d.path in view.granted && IsLive(view.store, job.d.path)
            && var cell := view.store[job.d.path];
               && InPlace(cfg, r.states[i + 1].files, job, cell.value.value, cell.revision)
               && FileMade(cfg, job.d, r.states[i + 1].files[job.d.destination])
  {
    RunInv(cfg, r, i);
    assert StepAt(cfg, r, i);
    f := WritingOrigin(cfg, r, i);
    assert StepAt(cfg, r, f);
    var pc, v := r.states[i].pc, Download(r.states[f].server, r.states[i].pc.job.d.path).value;
    OutputIff(cfg, pc.job.d, pc.job.source, v.value, pc.revision, pc.data);
    WrittenIsMade(cfg, pc.job.d, pc.data, pc.attrs);
  }

  lemma {:induction false} RevisionsRise(cfg: Config, r: Run, i: nat, j: nat, path: string)
    requires IsRun(cfg, r) && i <= j < |r.states|
    ensures RevisionAt(r.states[i].server.store, path) <= RevisionAt(r.states[j].server.store, path)
  {
    if i < j {
      RevisionsRise(cfg, r, i, j - 1, path);
      assert StepAt(cfg, r, j - 1);
      match r.steps[j - 1] {
        case Serve(locked, c, _) =>
          var m := r.states[j - 1].server.store;
          PlainAdvances(m, locked, c);
          assert Moves(CellAt(m, path), CellAt(PlainNext(m, locked, c), path));
        case Save(_, _) =>
        case _ =>
      }
    }
  }

  lemma FetchedIsIssued(cfg: Config, r: Run, f: nat, i: nat, path: string)
    requires IsRun(cfg, r) && f <= i < |r.states| && Download(r.states[f].server, path).Some?
    ensures Download(r.states[f].server, path).value in r.states[i].issued
  {
    RunInv(cfg, r, f);
    IssuedStays(cfg, r, f, i);
    assert Download(r.states[f].server, path).value in LiveVersions(r.states[f].server.store);
  }

  // Of two publications for one path, by whatever definitions and with whatever
  // crashes, restarts, failures, writes and deletions between them, the later
  // one is of a revision at least as high, and of the same value if it is the
  // same revision: no deployed secret is ever rolled back.
  lemma PublishedNeverGoesBack(cfg: Config, r: Run, p: nat, q: nat) returns (value: string, value': string)
    requires IsRun(cfg, r) && p < q < |r.steps| && r.steps[p].Publish? && r.steps[q].Publish?
    requires r.states[p].pc.Writing? && r.states[q].pc.Writing?
    requires r.states[p].pc.job.d.path == r.states[q].pc.job.d.path
    ensures var pc, pc' := r.states[p].pc, r.states[q].pc;
            && Renders(cfg, pc.job.d, pc.job.source, value, pc.revision, pc.data)
            && Renders(cfg, pc'.job.d, pc'.job.source, value', pc'.revision, pc'.data)
            && pc.revision <= pc'.revision && (pc.revision == pc'.revision ==> value == value')
  {
    var path := r.states[p].pc.job.d.path;
    var f := WritingOrigin(cfg, r, p);
    var f' := WritingOrigin(cfg, r, q);
    assert StepAt(cfg, r, p);
    assert !r.states[p + 1].pc.Writing?;
    assert f < p < f';
    RevisionsRise(cfg, r, f, f', path);
    FetchedIsIssued(cfg, r, f, q, path);
    FetchedIsIssued(cfg, r, f', q, path);
    RunInv(cfg, r, q);
    value := Download(r.states[f].server, path).value.value;
    value' := Download(r.states[f'].server, path).value.value;
  }
}
