// Loading the definition files. What comes out has distinct destinations, which
// is why the agent may visit them in any order.
module Definitions {
  import opened Base
  import opened Agent
  import opened Deployment
  import Paths
  import Convergence

  // A directory entry; `content` is what reading and decoding it gave.
  datatype File = File(name: string, isDir: bool, isSymlink: bool, content: Option<Definition>)

  // filepath.Clean leaves an absolute path alone if none of its components is
  // empty or a dot.
  predicate CleanAbsolute(path: string) {
    HasPrefix(path, "/") && path != "/" && forall part :: part in Paths.Split(path[1..]) ==> Paths.ProperComponent(part)
  }

  predicate Within(path: string, dir: string) {
    path == dir || HasPrefix(path, dir + "/")
  }

  predicate Considered(f: File) {
    !f.isDir && HasSuffix(f.name, ".yaml")
  }

  // Everything asked of one definition by itself. `dirs` are the agent's own
  // directories and `duration` parses a time span.
  predicate Acceptable(d: Definition, dirs: seq<string>, duration: string -> Option<int>) {
    && Paths.Normalize(d.path).Ok?
    && CleanAbsolute(d.destination)
    && (forall dir :: dir in dirs ==> !Within(d.destination, dir))
    && (d.template == "" || ('/' !in d.template && HasSuffix(d.template, ".templ")))
    && (d.command == [] || HasPrefix(d.command[0], "/"))
    && (d.timeout == "" || (duration(d.timeout).Some? && duration(d.timeout).value > 0))
    && ParseMode(d.mode).Some?
  }

  predicate Loads(f: File, dirs: seq<string>, duration: string -> Option<int>) {
    !f.isSymlink && f.content.Some? && Acceptable(f.content.value, dirs, duration)
  }

  // The checks of one file, in the order they are made.
  method Check(f: File, dirs: seq<string>, duration: string -> Option<int>) returns (ok: bool)
    ensures ok == Loads(f, dirs, duration)
  {
    if f.isSymlink || f.content.None? {
      return false;
    }
    var d := f.content.value;
    if Paths.Normalize(d.path).Err? || !CleanAbsolute(d.destination) {
      return false;
    }
    for i := 0 to |dirs|
      invariant forall j :: 0 <= j < i ==> !Within(d.destination, dirs[j])
    {
      if d.destination == dirs[i] || HasPrefix(d.destination, dirs[i] + "/") {
        assert Within(d.destination, dirs[i]);
        return false;
      }
    }
    if d.template != "" && ('/' in d.template || !HasSuffix(d.template, ".templ")) {
      return false;
    }
    if d.command != [] && !HasPrefix(d.command[0], "/") {
      return false;
    }
    if d.timeout != "" && (duration(d.timeout).None? || duration(d.timeout).value <= 0) {
      return false;
    }
    ok := ParseMode(d.mode).Some?;
  }

  // The definition of a file, if it was decoded.
  function DefinitionOf(f: File): Definition
    requires f.content.Some?
  {
    f.content.value
  }

  ghost predicate Decoded(files: seq<File>) {
    forall i :: 0 <= i < |files| && Considered(files[i]) ==> files[i].content.Some?
  }

  ghost predicate Apart(files: seq<File>)
    requires Decoded(files)
  {
    forall i, j :: 0 <= i < j < |files| && Considered(files[i]) && Considered(files[j]) ==>
      DefinitionOf(files[i]).destination != DefinitionOf(files[j]).destination
  }

  function DestinationsOf(out: map<string, Definition>): set<string> {
    set name | name in out :: out[name].destination
  }

  // The map and the destinations collected from these files.
  ghost predicate Collected(files: seq<File>, out: map<string, Definition>, destinations: set<string>) {
    && Decoded(files) && Apart(files)
    && (forall f :: f in files && Considered(f) ==> f.name in out && out[f.name] == DefinitionOf(f))
    && (forall name :: name in out ==> exists f :: f in files && Considered(f) && f.name == name)
    && destinations == DestinationsOf(out)
    && (forall a, b :: a in out && b in out && a != b ==> out[a].destination != out[b].destination)
  }

  lemma PassOver(files: seq<File>, out: map<string, Definition>, destinations: set<string>, f: File)
    requires Collected(files, out, destinations) && !Considered(f)
    ensures Collected(files + [f], out, destinations)
  {
    forall g | g in files + [f] ensures g in files || g == f {}
    forall g | g in files ensures g in files + [f] {}
  }

  lemma FindDuplicate(files: seq<File>, out: map<string, Definition>, destinations: set<string>, f: File)
    requires Collected(files, out, destinations) && Considered(f) && f.content.Some?
    requires DefinitionOf(f).destination in destinations
    ensures Decoded(files + [f]) && !Apart(files + [f])
  {
    var all := files + [f];
    var name :| name in out && out[name].destination == DefinitionOf(f).destination;
    var g :| g in files && Considered(g) && g.name == name;
    var i :| 0 <= i < |files| && files[i] == g;
    assert all[i] == g && all[|files|] == f;
  }

  lemma StillApart(files: seq<File>, out: map<string, Definition>, destinations: set<string>, f: File)
    requires Collected(files, out, destinations) && Considered(f) && f.content.Some?
    requires DefinitionOf(f).destination !in destinations
    ensures Decoded(files + [f]) && Apart(files + [f])
  {
    var all := files + [f];
    forall i, j | 0 <= i < j < |all| && Considered(all[i]) && Considered(all[j])
      ensures DefinitionOf(all[i]).destination != DefinitionOf(all[j]).destination
    {
      assert all[i] == files[i] && files[i] in files;
      assert out[files[i].name].destination in destinations;
      if j < |files| {
        assert all[j] == files[j];
      }
    }
  }

  lemma DestinationsGrow(out: map<string, Definition>, name: string, d: Definition)
    requires name !in out
    ensures DestinationsOf(out[name := d]) == DestinationsOf(out) + {d.destination}
  {
    var out' := out[name := d];
    forall y | y in DestinationsOf(out) + {d.destination} ensures y in DestinationsOf(out') {
      if y in DestinationsOf(out) {
        var other :| other in out && out[other].destination == y;
        assert other in out' && out'[other].destination == y;
      } else {
        assert name in out' && out'[name].destination == y;
      }
    }
  }

  lemma StillNamed(files: seq<File>, out: map<string, Definition>, destinations: set<string>, f: File)
    requires Collected(files, out, destinations) && Considered(f) && f.content.Some?
    ensures var out' := out[f.name := DefinitionOf(f)];
            forall name :: name in out' ==> exists g :: g in files + [f] && Considered(g) && g.name == name
  {
    var out' := out[f.name := DefinitionOf(f)];
    forall name | name in out' ensures exists g :: g in files + [f] && Considered(g) && g.name == name {
      if name == f.name {
        assert f in files + [f];
      } else {
        var g :| g in files && Considered(g) && g.name == name;
        assert g in files + [f];
      }
    }
  }

  lemma StillHeld(files: seq<File>, out: map<string, Definition>, destinations: set<string>, f: File)
    requires Collected(files, out, destinations) && Considered(f) && f.content.Some?
    requires forall g :: g in files ==> g.name != f.name
    ensures var out' := out[f.name := DefinitionOf(f)];
            forall g :: g in files + [f] && Considered(g) ==>
              g.content.Some? && g.name in out' && out'[g.name] == DefinitionOf(g)
  {
    forall g | g in files + [f] ensures g in files || g == f {}
    forall g | g in files && Considered(g) ensures g.content.Some? {
      var i :| 0 <= i < |files| && files[i] == g;
    }
  }

  lemma StillDistinct(out: map<string, Definition>, name: string, d: Definition)
    requires forall a, b :: a in out && b in out && a != b ==> out[a].destination != out[b].destination
    requires d.destination !in DestinationsOf(out)
    ensures var out' := out[name := d];
            forall a, b :: a in out' && b in out' && a != b ==> out'[a].destination != out'[b].destination
  {
    forall a | a in out ensures out[a].destination != d.destination {
      assert out[a].destination in DestinationsOf(out);
    }
  }

  lemma TakeUp(files: seq<File>, out: map<string, Definition>, destinations: set<string>, f: File)
    requires Collected(files, out, destinations) && Considered(f) && f.content.Some?
    requires forall g :: g in files ==> g.name != f.name
    requires DefinitionOf(f).destination !in destinations
    ensures Collected(files + [f], out[f.name := DefinitionOf(f)], destinations + {DefinitionOf(f).destination})
  {
    StillApart(files, out, destinations, f);
    StillNamed(files, out, destinations, f);
    StillHeld(files, out, destinations, f);
    StillDistinct(out, f.name, DefinitionOf(f));
    assert f.name !in out;
    DestinationsGrow(out, f.name, DefinitionOf(f));
  }

  lemma NotApartLater(files: seq<File>, i: nat)
    requires i <= |files| && Decoded(files[..i]) && !Apart(files[..i])
    ensures Decoded(files) ==> !Apart(files)
  {
    var a, b :| 0 <= a < b < i && Considered(files[..i][a]) && Considered(files[..i][b])
                && DefinitionOf(files[..i][a]).destination == DefinitionOf(files[..i][b]).destination;
    assert files[a] == files[..i][a] && files[b] == files[..i][b];
  }

  ghost predicate Loadable(files: seq<File>, dirs: seq<string>, duration: string -> Option<int>) {
    Decoded(files) && Apart(files) && LoadSome(files, dirs, duration)
  }

  // The map holds exactly the definitions of the considered files.
  ghost predicate Loaded(files: seq<File>, defs: map<string, Definition>) {
    Collected(files, defs, DestinationsOf(defs))
  }

  // One entry of the directory.
  method LoadOne(f: File, dirs: seq<string>, duration: string -> Option<int>, ghost files: seq<File>,
                 out: map<string, Definition>, destinations: set<string>)
    returns (ok: bool, out': map<string, Definition>, destinations': set<string>)
    requires Collected(files, out, destinations) && forall g :: g in files ==> g.name != f.name
    ensures ok ==> (Considered(f) ==> Loads(f, dirs, duration)) && Collected(files + [f], out', destinations')
    ensures !ok ==> Considered(f) && (Loads(f, dirs, duration) ==> Decoded(files + [f]) && !Apart(files + [f]))
  {
    ok, out', destinations' := true, out, destinations;
    if !Considered(f) {
      PassOver(files, out, destinations, f);
      return;
    }
    ok := Check(f, dirs, duration);
    if !ok {
      return;
    }
    var d := f.content.value;
    if d.destination in destinations {
      FindDuplicate(files, out, destinations, f);
      ok := false;
    } else {
      TakeUp(files, out, destinations, f);
      out', destinations' := out[f.name := d], destinations + {d.destination};
    }
  }

  // The whole directory is loaded exactly if every considered file loads and no
  // two of them have the same destination; the result then holds exactly their
  // definitions.
  method Load(files: seq<File>, dirs: seq<string>, duration: string -> Option<int>)
    returns (r: Result<map<string, Definition>, ()>)
    requires forall i, j :: 0 <= i < j < |files| ==> files[i].name != files[j].name
    ensures r.Ok? <==> Loadable(files, dirs, duration)
    ensures r.Ok? ==> Loaded(files, r.value)
  {
    var out: map<string, Definition> := map[];
    var destinations: set<string> := {};
    for i := 0 to |files|
      invariant LoadSome(files[..i], dirs, duration) && Collected(files[..i], out, destinations)
    {
      assert files[..i + 1] == files[..i] + [files[i]];
      var ok;
      ok, out, destinations := LoadOne(files[i], dirs, duration, files[..i], out, destinations);
      if !ok {
        NotLoadable(files, i, dirs, duration);
        return Err(());
      }
    }
    assert files[..|files|] == files;
    r := Ok(out);
  }

  ghost predicate LoadSome(files: seq<File>, dirs: seq<string>, duration: string -> Option<int>) {
    forall i :: 0 <= i < |files| && Considered(files[i]) ==> Loads(files[i], dirs, duration)
  }

  lemma NotLoadable(files: seq<File>, i: nat, dirs: seq<string>, duration: string -> Option<int>)
    requires i < |files| && Considered(files[i])
    requires Loads(files[i], dirs, duration) ==> Decoded(files[..i + 1]) && !Apart(files[..i + 1])
    ensures !Loadable(files, dirs, duration)
  {
    if Loads(files[i], dirs, duration) {
      NotApartLater(files, i + 1);
    }
  }

  // ---- what is accepted, said of the text ----

  // The clauses asked of a definition, as the design describes them: an absolute
  // destination other than the root, which resolving leaves alone; not one of
  // the agent's own directories nor in one; a template, if any, named by a plain
  // file name; an absolute command; a positive time; an octal mode.
  ghost predicate PlainDestination(path: string) {
    exists rest :: path == "/" + rest && rest != "" && Paths.Clean("/" + rest) == "/" + rest
  }

  ghost predicate Outside(path: string, dir: string) {
    path != dir && forall rest :: path != dir + "/" + rest
  }

  ghost predicate PlainTemplate(template: string) {
    template == "" || ('/' !in template && exists stem :: template == stem + ".templ")
  }

  ghost predicate PlainCommand(command: seq<string>) {
    command == [] || exists rest :: command[0] == "/" + rest
  }

  ghost predicate PlainMode(mode: string) {
    exists n :: ModeIs(mode, n)
  }

  ghost predicate PlainDefinition(d: Definition, dirs: seq<string>, duration: string -> Option<int>) {
    && Paths.PlainPath(d.path) && PlainDestination(d.destination)
    && (forall dir :: dir in dirs ==> Outside(d.destination, dir))
    && PlainTemplate(d.template) && PlainCommand(d.command)
    && (d.timeout == "" || exists span :: duration(d.timeout) == Some(span) && span > 0)
    && PlainMode(d.mode)
  }

  lemma ProperComponents(rest: string)
    ensures (forall part :: part in Paths.Split(rest) ==> Paths.ProperComponent(part)) <==>
            (forall part :: part in Paths.Split(rest) ==> part != "" && part != "." && part != "..")
  {
    if forall part :: part in Paths.Split(rest) ==> Paths.ProperComponent(part) {
      forall part | part in Paths.Split(rest) ensures part != "" && part != "." && part != ".." {
        assert Paths.ProperComponent(part);
      }
    }
  }

  lemma DestinationIff(path: string)
    ensures CleanAbsolute(path) <==> PlainDestination(path)
  {
    if HasPrefix(path, "/") && path != "/" {
      assert path == "/" + path[1..];
      Paths.CleanIsStraight(path);
      var rest := path[1..];
      assert rest == "" ==> path == "/";
      assert "/" + rest == path;
      ProperComponents(path[1..]);
      assert CleanAbsolute(path) <==> path == "/" + rest && rest != "" && Paths.Clean("/" + rest) == "/" + rest;
    }
  }

  lemma WithinIff(path: string, dir: string)
    ensures Within(path, dir) <==> !Outside(path, dir)
  {
    EndsAre(path, dir + "/");
  }

  lemma NamesIff(template: string, command: seq<string>)
    ensures template == "" || ('/' !in template && HasSuffix(template, ".templ")) <==> PlainTemplate(template)
    ensures command == [] || HasPrefix(command[0], "/") <==> PlainCommand(command)
  {
    EndsAre(template, ".templ");
    if command != [] {
      EndsAre(command[0], "/");
    }
  }

  lemma ModeAccepted(s: string)
    ensures ParseMode(s).Some? <==> PlainMode(s)
  {
    if ParseMode(s).Some? {
      ModeIff(s, ParseMode(s).value);
    } else {
      forall n ensures !ModeIs(s, n) {
        ModeIff(s, n);
      }
    }
  }

  // The checks of a file accept exactly such definitions, in files that are no
  // symlinks, and they consider exactly the files with the suffix.
  lemma LoadsIff(f: File, dirs: seq<string>, duration: string -> Option<int>)
    ensures Considered(f) <==> !f.isDir && exists stem :: f.name == stem + ".yaml"
    ensures Loads(f, dirs, duration) <==>
              !f.isSymlink && f.content.Some? && PlainDefinition(f.content.value, dirs, duration)
  {
    EndsAre(f.name, ".yaml");
    if f.content.Some? {
      AcceptableIff(f.content.value, dirs, duration);
    }
  }

  lemma AcceptableIff(d: Definition, dirs: seq<string>, duration: string -> Option<int>)
    ensures Acceptable(d, dirs, duration) <==> PlainDefinition(d, dirs, duration)
  {
    Paths.NormalizeIff(d.path);
    DestinationIff(d.destination);
    forall dir | dir in dirs ensures Within(d.destination, dir) <==> !Outside(d.destination, dir) {
      WithinIff(d.destination, dir);
    }
    NamesIff(d.template, d.command);
    ModeAccepted(d.mode);
  }

  // A destination that is accepted resolves to itself, component by component,
  // and lies neither on nor below any of the agent's own directories.
  lemma OutsideOwnDirectories(d: Definition, dirs: seq<string>, duration: string -> Option<int>, dir: string)
    requires Acceptable(d, dirs, duration) && dir in dirs
    ensures HasPrefix(d.destination, "/") && Paths.Clean(d.destination) == d.destination
    ensures Paths.Walk([], Paths.Split(d.destination[1..])) == Paths.Split(d.destination[1..])
    ensures !(Paths.Split(dir) <= Paths.Split(d.destination))
  {
    Paths.CleanIsStraight(d.destination);
    Paths.WalkIsStraight([], Paths.Split(d.destination[1..]));
    assert [] + Paths.Split(d.destination[1..]) == Paths.Split(d.destination[1..]);
    Paths.PrefixIsSubtree(d.destination, dir);
    if Paths.Split(dir) == Paths.Split(d.destination) {
      Paths.JoinSplit(dir);
      Paths.JoinSplit(d.destination);
    }
  }

  // The jobs of one poll: the definitions of the loaded map in any order, each
  // once, with whatever templates.
  ghost predicate Lists(defs: map<string, Definition>, jobs: seq<Job>) {
    && (forall i, j :: 0 <= i < j < |jobs| ==> jobs[i].name != jobs[j].name)
    && (forall i :: 0 <= i < |jobs| ==> jobs[i].name in defs && jobs[i].d == defs[jobs[i].name])
  }

  // Whatever loads is distinct in the sense that convergence and the
  // independence of order need.
  lemma LoadedJobsAreDistinct(files: seq<File>, defs: map<string, Definition>, jobs: seq<Job>)
    requires Loaded(files, defs) && Lists(defs, jobs)
    ensures Convergence.Distinct(jobs)
  {
  }
}
