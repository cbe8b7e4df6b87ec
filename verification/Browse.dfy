// The folder view over flat paths: entries(secrets, prefix, filter).
module Browse {
  import opened Base
  import Paths

  datatype Item = Item(path: string, revision: nat)

  datatype Entry =
    | Folder(name: string, path: string)
    | Leaf(name: string, path: string, secret: Item)

  // toLocaleLowerCase and localeCompare, whatever the locale.
  datatype Locale = Locale(lower: string -> string, compare: (string, string) -> int)

  // The position of the first slash, or the length if there is none.
  function Slash(s: string): (i: nat)
    ensures i <= |s| && '/' !in s[..i]
    ensures i < |s| ==> s[i] == '/'
  {
    if s == "" || s[0] == '/' then 0
    else
      var i := 1 + Slash(s[1..]);
      assert s[..i] == [s[0]] + s[1..][..i - 1];
      i
  }

  function Relative(item: Item, prefix: string): string
    requires prefix <= item.path
  {
    item.path[|prefix|..]
  }

  // The item lies in a folder below the prefix.
  predicate InFolder(item: Item, prefix: string) {
    prefix <= item.path && '/' in Relative(item, prefix)
  }

  predicate IsFile(item: Item, prefix: string) {
    prefix <= item.path && '/' !in Relative(item, prefix) && Relative(item, prefix) != ""
  }

  function FolderName(item: Item, prefix: string): string
    requires InFolder(item, prefix)
  {
    Relative(item, prefix)[..Slash(Relative(item, prefix))]
  }

  // Folder names in order of first appearance, each once.
  function FolderNames(secrets: seq<Item>, prefix: string): (names: seq<string>) {
    if secrets == [] then []
    else
      var names, last := FolderNames(secrets[..|secrets| - 1], prefix), secrets[|secrets| - 1];
      if InFolder(last, prefix) && FolderName(last, prefix) !in names then names + [FolderName(last, prefix)] else names
  }

  function FolderEntries(names: seq<string>, prefix: string): seq<Entry> {
    seq(|names|, i requires 0 <= i < |names| => Folder(names[i], prefix + names[i] + "/"))
  }

  function FileEntries(secrets: seq<Item>, prefix: string): seq<Entry> {
    if secrets == [] then []
    else
      var entries, last := FileEntries(secrets[..|secrets| - 1], prefix), secrets[|secrets| - 1];
      if IsFile(last, prefix) then entries + [Leaf(Relative(last, prefix), last.path, last)] else entries
  }

  function Level(secrets: seq<Item>, prefix: string): seq<Entry> {
    FolderEntries(FolderNames(secrets, prefix), prefix) + FileEntries(secrets, prefix)
  }

  predicate OccursAt(s: string, i: nat, query: string) {
    i + |query| <= |s| && s[i..i + |query|] == query
  }

  // s.includes(query)
  predicate Includes(s: string, query: string) {
    exists i: nat :: i <= |s| && OccursAt(s, i, query)
  }

  function Filter(entries: seq<Entry>, query: string, locale: Locale): seq<Entry> {
    if entries == [] then []
    else
      var rest := Filter(entries[1..], query, locale);
      if Includes(locale.lower(entries[0].name), query) then [entries[0]] + rest else rest
  }

  // Folders come first, then names decide.
  predicate MayPrecede(a: Entry, b: Entry, locale: Locale) {
    if a.Folder? != b.Folder? then a.Folder? else locale.compare(a.name, b.name) <= 0
  }

  function Insert(e: Entry, entries: seq<Entry>, locale: Locale): seq<Entry> {
    if entries == [] || MayPrecede(e, entries[0], locale) then [e] + entries
    else [entries[0]] + Insert(e, entries[1..], locale)
  }

  // The stable sort.
  function Sort(entries: seq<Entry>, locale: Locale): seq<Entry> {
    if entries == [] then [] else Insert(entries[0], Sort(entries[1..], locale), locale)
  }

  function Entries(secrets: seq<Item>, prefix: string, filter: string, locale: Locale): seq<Entry> {
    Sort(Filter(Level(secrets, prefix), locale.lower(filter), locale), locale)
  }

  // The loop over the secrets, collecting folders in an insertion-ordered map
  // and files in an array.
  method List(secrets: seq<Item>, prefix: string, filter: string, locale: Locale) returns (entries: seq<Entry>)
    ensures entries == Entries(secrets, prefix, filter, locale)
    ensures forall e :: multiset(entries)[e] == Listed(secrets, prefix, filter, locale, e)
  {
    forall e
      ensures multiset(Entries(secrets, prefix, filter, locale))[e] == Listed(secrets, prefix, filter, locale, e)
    {
      EntriesAre(secrets, prefix, filter, locale, e);
    }
    var order: seq<string>, folders: map<string, Entry>, files: seq<Entry> := [], map[], [];
    for i := 0 to |secrets|
      invariant order == FolderNames(secrets[..i], prefix) && files == FileEntries(secrets[..i], prefix)
      invariant forall name :: name in folders <==> name in order
      invariant forall name :: name in folders ==> folders[name] == Folder(name, prefix + name + "/")
    {
      var secret := secrets[i];
      assert secrets[..i + 1][..i] == secrets[..i] && secrets[..i + 1][i] == secret;
      if prefix <= secret.path {
        var relative := secret.path[|prefix|..];
        var slash := Slash(relative);
        if slash < |relative| {
          assert '/' in relative;
          var name := relative[..slash];
          if name !in folders {
            order := order + [name];
          }
          folders := folders[name := Folder(name, prefix + name + "/")];
        } else {
          assert relative[..slash] == relative;
          if relative != "" {
            files := files + [Leaf(relative, secret.path, secret)];
          }
        }
      }
    }
    assert secrets[..|secrets|] == secrets;
    var listed := seq(|order|, i requires 0 <= i < |order| =>
      if order[i] in folders then folders[order[i]] else Folder("", ""));
    assert listed == FolderEntries(order, prefix);
    entries := Sort(Filter(listed + files, locale.lower(filter), locale), locale);
  }

  // ---- the sort ----

  lemma {:induction false} InsertPermutes(e: Entry, entries: seq<Entry>, locale: Locale)
    ensures multiset(Insert(e, entries, locale)) == multiset{e} + multiset(entries)
  {
    if entries != [] && !MayPrecede(e, entries[0], locale) {
      InsertPermutes(e, entries[1..], locale);
      assert entries == [entries[0]] + entries[1..];
    }
  }

  lemma {:induction false} SortPermutes(entries: seq<Entry>, locale: Locale)
    ensures multiset(Sort(entries, locale)) == multiset(entries)
  {
    if entries != [] {
      SortPermutes(entries[1..], locale);
      InsertPermutes(entries[0], Sort(entries[1..], locale), locale);
      assert entries == [entries[0]] + entries[1..];
    }
  }

  ghost predicate Consistent(locale: Locale) {
    && (forall a, b :: locale.compare(a, b) <= 0 || locale.compare(b, a) <= 0)
    && (forall a, b, c :: locale.compare(a, b) <= 0 && locale.compare(b, c) <= 0 ==> locale.compare(a, c) <= 0)
  }

  ghost predicate InOrder(entries: seq<Entry>, locale: Locale) {
    forall i, j :: 0 <= i < j < |entries| ==> MayPrecede(entries[i], entries[j], locale)
  }

  lemma PrependSorted(first: Entry, rest: seq<Entry>, locale: Locale)
    requires InOrder(rest, locale) && forall x :: x in rest ==> MayPrecede(first, x, locale)
    ensures InOrder([first] + rest, locale)
  {
    forall j | 0 <= j < |rest| ensures MayPrecede(first, rest[j], locale) {
      assert rest[j] in rest;
    }
  }

  lemma {:induction false} InsertSorts(e: Entry, entries: seq<Entry>, locale: Locale)
    requires Consistent(locale) && InOrder(entries, locale)
    ensures InOrder(Insert(e, entries, locale), locale)
  {
    if entries != [] {
      var first, rest := entries[0], entries[1..];
      forall x | x in rest ensures MayPrecede(first, x, locale) {
        var i :| 0 <= i < |rest| && rest[i] == x;
        assert entries[i + 1] == x;
      }
      if MayPrecede(e, first, locale) {
        forall x | x in entries ensures MayPrecede(e, x, locale) {
          assert x == first || x in rest;
        }
        PrependSorted(e, entries, locale);
      } else {
        InsertSorts(e, rest, locale);
        InsertPermutes(e, rest, locale);
        forall x | x in Insert(e, rest, locale) ensures MayPrecede(first, x, locale) {
          assert x in multiset(Insert(e, rest, locale));
        }
        PrependSorted(first, Insert(e, rest, locale), locale);
      }
    }
  }

  // With a consistent comparison the list comes folders first, each kind by name.
  lemma {:induction false} SortSorts(entries: seq<Entry>, locale: Locale)
    requires Consistent(locale)
    ensures InOrder(Sort(entries, locale), locale)
    ensures var sorted := Sort(entries, locale);
            forall i, j :: 0 <= i < j < |sorted| ==>
              && (sorted[j].Folder? ==> sorted[i].Folder?)
              && (sorted[i].Folder? == sorted[j].Folder? ==> locale.compare(sorted[i].name, sorted[j].name) <= 0)
  {
    if entries != [] {
      SortSorts(entries[1..], locale);
      InsertSorts(entries[0], Sort(entries[1..], locale), locale);
    }
  }

  // The entries of one kind whose names compare equal to this name.
  function Ties(entries: seq<Entry>, folder: bool, name: string, locale: Locale): seq<Entry> {
    if entries == [] then []
    else
      var rest, e := Ties(entries[1..], folder, name, locale), entries[0];
      if e.Folder? == folder && locale.compare(e.name, name) <= 0 && locale.compare(name, e.name) <= 0
      then [e] + rest else rest
  }

  lemma {:induction false} InsertIsStable(e: Entry, entries: seq<Entry>, folder: bool, name: string, locale: Locale)
    requires Consistent(locale)
    ensures Ties(Insert(e, entries, locale), folder, name, locale) == Ties([e] + entries, folder, name, locale)
  {
    if entries != [] && !MayPrecede(e, entries[0], locale) {
      InsertIsStable(e, entries[1..], folder, name, locale);
      assert ([e] + entries[1..])[1..] == entries[1..];
    }
    assert ([e] + entries)[1..] == entries;
  }

  // Entries that compare equal stay in the order they were in.
  lemma {:induction false} SortIsStable(entries: seq<Entry>, folder: bool, name: string, locale: Locale)
    requires Consistent(locale)
    ensures Ties(Sort(entries, locale), folder, name, locale) == Ties(entries, folder, name, locale)
  {
    if entries != [] {
      var rest := Sort(entries[1..], locale);
      SortIsStable(entries[1..], folder, name, locale);
      InsertIsStable(entries[0], rest, folder, name, locale);
      assert ([entries[0]] + rest)[1..] == rest;
    }
  }

  lemma {:induction false} FilterAll(entries: seq<Entry>, locale: Locale)
    ensures Filter(entries, "", locale) == entries
  {
    if entries != [] {
      FilterAll(entries[1..], locale);
      var s := locale.lower(entries[0].name);
      assert OccursAt(s, 0, "");
    }
  }

  // Without a filter, a level lists just its folders and files.
  lemma UnfilteredLevel(secrets: seq<Item>, prefix: string, locale: Locale)
    requires locale.lower("") == ""
    ensures multiset(Entries(secrets, prefix, "", locale)) == multiset(Level(secrets, prefix))
  {
    FilterAll(Level(secrets, prefix), locale);
    SortPermutes(Level(secrets, prefix), locale);
  }

  // ---- one level ----

  lemma {:induction false} FolderNamesAre(secrets: seq<Item>, prefix: string)
    ensures forall name :: name in FolderNames(secrets, prefix) <==>
              exists item :: item in secrets && InFolder(item, prefix) && FolderName(item, prefix) == name
    ensures forall i, j :: 0 <= i < j < |FolderNames(secrets, prefix)| ==>
              FolderNames(secrets, prefix)[i] != FolderNames(secrets, prefix)[j]
  {
    if secrets != [] {
      var most, last := secrets[..|secrets| - 1], secrets[|secrets| - 1];
      FolderNamesAre(most, prefix);
      assert secrets == most + [last];
      assert last in secrets;
      var names, all := FolderNames(most, prefix), FolderNames(secrets, prefix);
      forall name | name in all
        ensures exists item :: item in secrets && InFolder(item, prefix) && FolderName(item, prefix) == name
      {
        if name in names {
          var item :| item in most && InFolder(item, prefix) && FolderName(item, prefix) == name;
          assert item in secrets;
        }
      }
      forall item | item in secrets && InFolder(item, prefix) ensures FolderName(item, prefix) in all {
        if item in most {
          assert FolderName(item, prefix) in names;
        }
      }
    }
  }

  // ---- opening folders ----

  ghost predicate HasFolder(secrets: seq<Item>, prefix: string, name: string) {
    exists item :: item in secrets && InFolder(item, prefix) && FolderName(item, prefix) == name
  }

  // A folder to be opened leads to the paths below its own.
  ghost predicate Opens(secrets: seq<Item>, prefix: string, entries: seq<Entry>) {
    forall e :: e in entries && e.Folder? ==> HasFolder(secrets, prefix, e.name) && e.path == prefix + e.name + "/"
  }

  lemma {:induction false} FilterDrops(entries: seq<Entry>, query: string, locale: Locale)
    ensures forall e :: e in Filter(entries, query, locale) ==> e in entries
  {
    if entries != [] {
      FilterDrops(entries[1..], query, locale);
    }
  }

  lemma {:induction false} FilesAreLeaves(secrets: seq<Item>, prefix: string)
    ensures forall e :: e in FileEntries(secrets, prefix) ==> e.Leaf?
  {
    if secrets != [] {
      FilesAreLeaves(secrets[..|secrets| - 1], prefix);
    }
  }

  lemma EntriesOpen(secrets: seq<Item>, prefix: string, filter: string, locale: Locale)
    ensures Opens(secrets, prefix, Entries(secrets, prefix, filter, locale))
  {
    var level, entries := Level(secrets, prefix), Entries(secrets, prefix, filter, locale);
    var kept := Filter(level, locale.lower(filter), locale);
    FolderNamesAre(secrets, prefix);
    FilesAreLeaves(secrets, prefix);
    FilterDrops(level, locale.lower(filter), locale);
    SortPermutes(kept, locale);
    var names := FolderNames(secrets, prefix);
    forall e | e in entries && e.Folder? ensures HasFolder(secrets, prefix, e.name) && e.path == prefix + e.name + "/" {
      assert e in multiset(entries) && e in kept && e in level;
      var i :| 0 <= i < |FolderEntries(names, prefix)| && FolderEntries(names, prefix)[i] == e;
      assert names[i] in names;
    }
  }

  function MaxLength(secrets: seq<Item>): (n: nat)
    ensures forall item :: item in secrets ==> |item.path| <= n
  {
    if secrets == [] then 0
    else
      var n := MaxLength(secrets[1..]);
      assert forall item :: item in secrets ==> item == secrets[0] || item in secrets[1..];
      if |secrets[0].path| > n then |secrets[0].path| else n
  }

  // The paths of all files reached from a prefix by opening every folder that
  // is listed, counted as often as they are reached.
  function Expand(secrets: seq<Item>, prefix: string, locale: Locale): multiset<string>
    decreases MaxLength(secrets) + 1 - |prefix|, 1, 0
  {
    EntriesOpen(secrets, prefix, "", locale);
    ExpandAll(secrets, prefix, Entries(secrets, prefix, "", locale), locale)
  }

  function ExpandAll(secrets: seq<Item>, prefix: string, entries: seq<Entry>, locale: Locale): multiset<string>
    requires Opens(secrets, prefix, entries)
    decreases MaxLength(secrets) + 1 - |prefix|, 0, |entries|
  {
    if entries == [] then multiset{}
    else
      var rest := ExpandAll(secrets, prefix, entries[1..], locale);
      match entries[0]
      case Leaf(_, path, _) => multiset{path} + rest
      case Folder(name, path) =>
        assert path == prefix + name + "/" && |path| <= MaxLength(secrets) by {
          assert entries[0] in entries;
          FolderFits(secrets, prefix, name);
        }
        Expand(secrets, path, locale) + rest
  }

  lemma FolderFits(secrets: seq<Item>, prefix: string, name: string)
    requires HasFolder(secrets, prefix, name)
    ensures |prefix + name + "/"| <= MaxLength(secrets)
  {
    var item :| item in secrets && InFolder(item, prefix) && FolderName(item, prefix) == name;
    FolderPrefix(item, prefix);
  }

  lemma FolderPrefix(item: Item, prefix: string)
    requires InFolder(item, prefix)
    ensures prefix + FolderName(item, prefix) + "/" <= item.path
  {
    var relative := Relative(item, prefix);
    var i := Slash(relative);
    assert item.path == prefix + relative;
    assert relative[..|relative|] == relative;
    assert relative == relative[..i] + "/" + relative[i + 1..];
  }

  // A path that can be a file somewhere below the prefix.
  predicate Reachable(path: string, prefix: string) {
    prefix <= path && path != prefix && path[|path| - 1] != '/'
  }

  // The folder of the level under which the path is to be found.
  function FolderOf(path: string, prefix: string): Option<string> {
    if Reachable(path, prefix) && InFolder(Item(path, 0), prefix) then Some(FolderName(Item(path, 0), prefix)) else None
  }

  function Occurrences(secrets: seq<Item>, path: string): nat {
    if secrets == [] then 0
    else Occurrences(secrets[..|secrets| - 1], path) + if secrets[|secrets| - 1].path == path then 1 else 0
  }

  // ---- counting entries ----

  function Count(entries: seq<Entry>, p: Entry -> bool): nat {
    if entries == [] then 0 else (if p(entries[0]) then 1 else 0) + Count(entries[1..], p)
  }

  function LeafAt(path: string): Entry -> bool {
    (e: Entry) => e.Leaf? && e.path == path
  }

  function FolderAt(path: string): Entry -> bool {
    (e: Entry) => e.Folder? && e.path == path
  }

  lemma {:induction false} CountConcat(a: seq<Entry>, b: seq<Entry>, p: Entry -> bool)
    ensures Count(a + b, p) == Count(a, p) + Count(b, p)
  {
    if a == [] {
      assert a + b == b;
    } else {
      assert (a + b)[1..] == a[1..] + b;
      CountConcat(a[1..], b, p);
    }
  }

  lemma {:induction false} CountInsert(e: Entry, entries: seq<Entry>, p: Entry -> bool, locale: Locale)
    ensures Count(Insert(e, entries, locale), p) == (if p(e) then 1 else 0) + Count(entries, p)
  {
    if entries != [] && !MayPrecede(e, entries[0], locale) {
      CountInsert(e, entries[1..], p, locale);
    }
  }

  lemma {:induction false} CountSort(entries: seq<Entry>, p: Entry -> bool, locale: Locale)
    ensures Count(Sort(entries, locale), p) == Count(entries, p)
  {
    if entries != [] {
      CountSort(entries[1..], p, locale);
      CountInsert(entries[0], Sort(entries[1..], locale), p, locale);
    }
  }

  lemma {:induction false} CountNone(entries: seq<Entry>, p: Entry -> bool)
    requires forall e :: e in entries ==> !p(e)
    ensures Count(entries, p) == 0
  {
    if entries != [] {
      assert entries[0] in entries;
      CountNone(entries[1..], p);
    }
  }

  lemma {:induction false} CountFiles(secrets: seq<Item>, prefix: string, path: string)
    ensures Count(FileEntries(secrets, prefix), LeafAt(path)) ==
            if IsFile(Item(path, 0), prefix) then Occurrences(secrets, path) else 0
  {
    if secrets != [] {
      var most, last := secrets[..|secrets| - 1], secrets[|secrets| - 1];
      CountFiles(most, prefix, path);
      if IsFile(last, prefix) {
        var leaf := Leaf(Relative(last, prefix), last.path, last);
        CountConcat(FileEntries(most, prefix), [leaf], LeafAt(path));
      }
    }
  }

  lemma FolderPathIsUnique(prefix: string, a: string, b: string)
    requires prefix + a + "/" == prefix + b + "/"
    ensures a == b
  {
    assert (prefix + a + "/")[|prefix|..][..|a|] == a;
    assert (prefix + b + "/")[|prefix|..][..|b|] == b;
  }

  lemma {:induction false} CountFolders(names: seq<string>, prefix: string, name: string)
    requires forall i, j :: 0 <= i < j < |names| ==> names[i] != names[j]
    ensures Count(FolderEntries(names, prefix), FolderAt(prefix + name + "/")) == if name in names then 1 else 0
  {
    if names != [] {
      assert FolderEntries(names, prefix)[1..] == FolderEntries(names[1..], prefix);
      CountFolders(names[1..], prefix, name);
      if prefix + names[0] + "/" == prefix + name + "/" {
        FolderPathIsUnique(prefix, names[0], name);
        assert name !in names[1..];
      }
    }
  }

  // What the entries of a level are, counted: each file as often as it occurs,
  // each folder once.
  lemma CountEntries(secrets: seq<Item>, prefix: string, path: string, name: string, locale: Locale)
    requires locale.lower("") == ""
    ensures var entries := Entries(secrets, prefix, "", locale);
            && Count(entries, LeafAt(path)) == (if IsFile(Item(path, 0), prefix) then Occurrences(secrets, path) else 0)
            && Count(entries, FolderAt(prefix + name + "/")) == (if HasFolder(secrets, prefix, name) then 1 else 0)
  {
    var names := FolderNames(secrets, prefix);
    var folders, files := FolderEntries(names, prefix), FileEntries(secrets, prefix);
    var leaf, folder := LeafAt(path), FolderAt(prefix + name + "/");
    FilterAll(Level(secrets, prefix), locale);
    CountSort(Level(secrets, prefix), leaf, locale);
    CountSort(Level(secrets, prefix), folder, locale);
    CountConcat(folders, files, leaf);
    CountConcat(folders, files, folder);
    FolderNamesAre(secrets, prefix);
    FilesAreLeaves(secrets, prefix);
    CountNone(folders, leaf);
    CountNone(files, folder);
    CountFiles(secrets, prefix, path);
    CountFolders(names, prefix, name);
  }

  lemma {:induction false} OccursIn(secrets: seq<Item>, path: string)
    ensures Occurrences(secrets, path) > 0 <==> exists item :: item in secrets && item.path == path
  {
    if secrets != [] {
      var most, last := secrets[..|secrets| - 1], secrets[|secrets| - 1];
      OccursIn(most, path);
      assert secrets == most + [last];
      if item :| item in most && item.path == path { assert item in secrets; }
      assert last in secrets;
    }
  }

  // Opening every listed folder, from a prefix on, reaches each path as often as
  // it is among the secrets, if it lies below the prefix and does not end in a
  // slash, and otherwise not at all. Nothing is lost and nothing duplicated.
  lemma {:induction false} ExpandCounts(secrets: seq<Item>, prefix: string, path: string, locale: Locale)
    requires locale.lower("") == ""
    ensures Expand(secrets, prefix, locale)[path] == if Reachable(path, prefix) then Occurrences(secrets, path) else 0
    decreases MaxLength(secrets) + 1 - |prefix|, 1, 0
  {
    var item, folder := Item(path, 0), FolderOf(path, prefix);
    EntriesOpen(secrets, prefix, "", locale);
    ExpandAllCounts(secrets, prefix, Entries(secrets, prefix, "", locale), path, locale);
    CountEntries(secrets, prefix, path, if folder.Some? then folder.value else "", locale);
    AllLeadCounts(secrets, prefix, Entries(secrets, prefix, "", locale), path);
    if folder.Some? && Occurrences(secrets, path) > 0 {
      FolderIsListed(secrets, prefix, path);
    }
    if IsFile(item, prefix) {
      assert path[|path| - 1] == Relative(item, prefix)[|Relative(item, prefix)| - 1];
    }
  }

  lemma FolderIsListed(secrets: seq<Item>, prefix: string, path: string)
    requires FolderOf(path, prefix).Some? && Occurrences(secrets, path) > 0
    ensures HasFolder(secrets, prefix, FolderOf(path, prefix).value)
  {
    OccursIn(secrets, path);
    var found :| found in secrets && found.path == path;
    assert FolderName(found, prefix) == FolderOf(path, prefix).value;
  }

  // How often an entry leads to the path: as the file itself, or through its
  // folder.
  function Leads(secrets: seq<Item>, prefix: string, e: Entry, path: string): nat {
    match e
    case Leaf(_, p, _) => if p == path then 1 else 0
    case Folder(_, p) =>
      if FolderOf(path, prefix).Some? && p == prefix + FolderOf(path, prefix).value + "/"
      then Occurrences(secrets, path) else 0
  }

  function AllLead(secrets: seq<Item>, prefix: string, entries: seq<Entry>, path: string): nat {
    if entries == [] then 0
    else Leads(secrets, prefix, entries[0], path) + AllLead(secrets, prefix, entries[1..], path)
  }

  lemma {:induction false} AllLeadCounts(secrets: seq<Item>, prefix: string, entries: seq<Entry>, path: string)
    requires FolderOf(path, prefix).Some? ==>
               Count(entries, FolderAt(prefix + FolderOf(path, prefix).value + "/")) <= 1
    ensures var folder := FolderOf(path, prefix);
            AllLead(secrets, prefix, entries, path) ==
            Count(entries, LeafAt(path)) +
            (if folder.Some? && Count(entries, FolderAt(prefix + folder.value + "/")) == 1
             then Occurrences(secrets, path) else 0)
  {
    if entries != [] {
      AllLeadCounts(secrets, prefix, entries[1..], path);
    }
  }

  lemma {:induction false} ExpandAllCounts(secrets: seq<Item>, prefix: string, entries: seq<Entry>,
                                           path: string, locale: Locale)
    requires locale.lower("") == "" && Opens(secrets, prefix, entries)
    ensures ExpandAll(secrets, prefix, entries, locale)[path] == AllLead(secrets, prefix, entries, path)
    decreases MaxLength(secrets) + 1 - |prefix|, 0, |entries|
  {
    if entries != [] {
      var e := entries[0];
      assert e in entries;
      ExpandAllCounts(secrets, prefix, entries[1..], path, locale);
      if e.Folder? {
        FolderFits(secrets, prefix, e.name);
        ExpandCounts(secrets, e.path, path, locale);
        FolderLeads(secrets, prefix, e, path);
      }
    }
  }

  lemma FolderLeads(secrets: seq<Item>, prefix: string, e: Entry, path: string)
    requires e.Folder? && HasFolder(secrets, prefix, e.name) && e.path == prefix + e.name + "/"
    ensures Leads(secrets, prefix, e, path) == if Reachable(path, e.path) then Occurrences(secrets, path) else 0
  {
    FolderHasNoSlash(secrets, prefix, e.name);
    BelowChild(path, prefix, e.name);
    var folder := FolderOf(path, prefix);
    if folder.Some? && e.path == prefix + folder.value + "/" {
      FolderPathIsUnique(prefix, e.name, folder.value);
    }
  }

  lemma FolderHasNoSlash(secrets: seq<Item>, prefix: string, name: string)
    requires HasFolder(secrets, prefix, name)
    ensures '/' !in name
  {
  }

  // A path lies below a folder exactly if that is its folder.
  lemma BelowChild(path: string, prefix: string, name: string)
    requires '/' !in name
    ensures Reachable(path, prefix + name + "/") <==> FolderOf(path, prefix) == Some(name)
  {
    var item, child := Item(path, 0), prefix + name + "/";
    if child <= path {
      var rest := path[|child|..];
      var relative := Relative(item, prefix);
      assert path == child + rest;
      assert relative == name + "/" + rest;
      assert relative[|name|] == '/';
      FirstSlash(relative, |name|);
    }
    if InFolder(item, prefix) && FolderName(item, prefix) == name {
      FolderPrefix(item, prefix);
    }
  }

  lemma {:induction false} FirstSlash(s: string, i: nat)
    requires i < |s| && s[i] == '/' && '/' !in s[..i]
    ensures Slash(s) == i
  {
    if i > 0 {
      assert s[0] == s[..i][0];
      assert s[1..][..i - 1] == s[..i][1..];
      FirstSlash(s[1..], i - 1);
    }
  }

  ghost predicate DistinctPaths(secrets: seq<Item>) {
    forall i, j :: 0 <= i < j < |secrets| ==> secrets[i].path != secrets[j].path
  }

  lemma {:induction false} DistinctOccurOnce(secrets: seq<Item>, path: string)
    requires DistinctPaths(secrets)
    ensures Occurrences(secrets, path) <= 1
  {
    if secrets != [] {
      var most, last := secrets[..|secrets| - 1], secrets[|secrets| - 1];
      DistinctOccurOnce(most, path);
      OccursIn(most, path);
      if Occurrences(most, path) > 0 {
        var item :| item in most && item.path == path;
        var i :| 0 <= i < |most| && most[i] == item;
        assert secrets[i] == item && secrets[i].path != last.path;
      }
    }
  }

  ghost predicate IsSecret(secrets: seq<Item>, path: string) {
    exists item :: item in secrets && item.path == path
  }

  // Opening all folders from the root reaches exactly the secrets, each once.
  ghost predicate Complete(secrets: seq<Item>, locale: Locale) {
    forall path :: Expand(secrets, "", locale)[path] == if IsSecret(secrets, path) then 1 else 0
  }

  // It does exactly if no path is empty or ends in a slash. No normalized path
  // does either.
  lemma BrowsingIsComplete(secrets: seq<Item>, locale: Locale)
    requires DistinctPaths(secrets) && locale.lower("") == ""
    ensures Complete(secrets, locale) <==> forall item :: item in secrets ==> Reachable(item.path, "")
  {
    forall path
      ensures Expand(secrets, "", locale)[path] == if Reachable(path, "") && IsSecret(secrets, path) then 1 else 0
    {
      ExpandCounts(secrets, "", path, locale);
      OccursIn(secrets, path);
      DistinctOccurOnce(secrets, path);
    }
    if Complete(secrets, locale) {
      forall item | item in secrets ensures Reachable(item.path, "") {
        assert IsSecret(secrets, item.path);
        assert Expand(secrets, "", locale)[item.path] == 1;
      }
    }
  }

  // Normalized paths are all reachable.
  lemma NormalizedIsReachable(path: string)
    requires Paths.Normalize(path).Ok?
    ensures Reachable(path, "")
  {
    if path[|path| - 1] == '/' {
      var most := path[..|path| - 1];
      assert path == most + "/" + "";
      Paths.SplitConcat(most, "");
      assert "" in Paths.Split(path);
    }
  }

  // A name that is both a secret and a folder keeps both entries.
  lemma BothEntries(secrets: seq<Item>, prefix: string, file: Item, below: Item)
    requires file in secrets && below in secrets
    requires IsFile(file, prefix) && InFolder(below, prefix) && FolderName(below, prefix) == Relative(file, prefix)
    ensures Leaf(Relative(file, prefix), file.path, file) in Level(secrets, prefix)
    ensures Folder(Relative(file, prefix), file.path + "/") in Level(secrets, prefix)
  {
    FolderNamesAre(secrets, prefix);
    FilesListed(secrets, prefix);
    var names := FolderNames(secrets, prefix);
    assert FolderName(below, prefix) in names;
    var k :| 0 <= k < |names| && names[k] == Relative(file, prefix);
    assert file.path == prefix + Relative(file, prefix);
    assert FolderEntries(names, prefix)[k] == Folder(names[k], file.path + "/");
    assert Level(secrets, prefix)[k] == FolderEntries(names, prefix)[k];
  }

  // No two folders of a level share a name.
  lemma FoldersDiffer(secrets: seq<Item>, prefix: string, i: nat, j: nat)
    requires i < j < |Level(secrets, prefix)| && Level(secrets, prefix)[i].Folder? && Level(secrets, prefix)[j].Folder?
    ensures Level(secrets, prefix)[i].name != Level(secrets, prefix)[j].name
  {
    FolderNamesAre(secrets, prefix);
    FilesAreLeaves(secrets, prefix);
    var folders, files := FolderEntries(FolderNames(secrets, prefix), prefix), FileEntries(secrets, prefix);
    forall k | |folders| <= k < |Level(secrets, prefix)| ensures Level(secrets, prefix)[k].Leaf? {
      assert files[k - |folders|] in files;
    }
  }

  lemma {:induction false} FilesListed(secrets: seq<Item>, prefix: string)
    ensures forall item :: item in secrets && IsFile(item, prefix) ==>
              Leaf(Relative(item, prefix), item.path, item) in FileEntries(secrets, prefix)
  {
    if secrets != [] {
      FilesListed(secrets[..|secrets| - 1], prefix);
      assert secrets == secrets[..|secrets| - 1] + [secrets[|secrets| - 1]];
    }
  }

  // ---- what is listed, said of the texts ----

  ghost predicate Contains(s: string, part: string) {
    exists a, b :: s == a + part + b
  }

  // A file directly below the prefix.
  ghost predicate IsFileOf(e: Entry, prefix: string) {
    && e.Leaf? && e.name != "" && '/' !in e.name
    && e.path == prefix + e.name && e.secret.path == e.path
  }

  ghost predicate HasBelow(secrets: seq<Item>, folder: string) {
    exists item, rest :: item in secrets && item.path == folder + rest
  }

  // A folder directly below the prefix, with something in it.
  ghost predicate IsFolderOf(e: Entry, secrets: seq<Item>, prefix: string) {
    && e.Folder? && '/' !in e.name && e.path == prefix + e.name + "/"
    && HasBelow(secrets, e.path)
  }

  lemma IncludesIff(s: string, query: string)
    ensures Includes(s, query) <==> Contains(s, query)
  {
    if Includes(s, query) {
      var i: nat :| i <= |s| && OccursAt(s, i, query);
      assert s == s[..i] + query + s[i + |query|..];
    }
    if Contains(s, query) {
      var a, b :| s == a + query + b;
      assert OccursAt(s, |a|, query);
    }
  }

  lemma {:induction false} FilterKeeps(entries: seq<Entry>, query: string, locale: Locale, e: Entry)
    ensures multiset(Filter(entries, query, locale))[e] ==
            if Contains(locale.lower(e.name), query) then multiset(entries)[e] else 0
  {
    if entries != [] {
      FilterKeeps(entries[1..], query, locale, e);
      IncludesIff(locale.lower(entries[0].name), query);
      assert entries == [entries[0]] + entries[1..];
    }
  }

  lemma {:induction false} FilesAre(secrets: seq<Item>, prefix: string, e: Entry)
    ensures multiset(FileEntries(secrets, prefix))[e] ==
            if IsFileOf(e, prefix) then multiset(secrets)[e.secret] else 0
  {
    if secrets != [] {
      var most, last := secrets[..|secrets| - 1], secrets[|secrets| - 1];
      FilesAre(most, prefix, e);
      assert secrets == most + [last];
      if prefix <= last.path {
        assert last.path == prefix + Relative(last, prefix);
      }
      if e.Leaf? && e.secret == last && IsFileOf(e, prefix) {
        assert Relative(last, prefix) == e.name;
      }
    }
  }

  lemma {:induction false} FoldersAre(names: seq<string>, prefix: string, e: Entry)
    requires forall i, j :: 0 <= i < j < |names| ==> names[i] != names[j]
    ensures multiset(FolderEntries(names, prefix))[e] ==
            if e.Folder? && e.path == prefix + e.name + "/" && e.name in names then 1 else 0
  {
    if names != [] {
      var entries := FolderEntries(names, prefix);
      assert entries[1..] == FolderEntries(names[1..], prefix);
      assert entries == [entries[0]] + entries[1..];
      FoldersAre(names[1..], prefix, e);
    }
  }

  lemma HasFolderIff(secrets: seq<Item>, prefix: string, name: string)
    ensures HasFolder(secrets, prefix, name) <==> '/' !in name && HasBelow(secrets, prefix + name + "/")
  {
    var folder := prefix + name + "/";
    if HasFolder(secrets, prefix, name) {
      var item :| item in secrets && InFolder(item, prefix) && FolderName(item, prefix) == name;
      FolderPrefix(item, prefix);
      assert folder <= item.path;
      assert item.path == folder + item.path[|folder|..];
    }
    if '/' !in name && HasBelow(secrets, folder) {
      var item, rest :| item in secrets && item.path == folder + rest;
      NamedFolder(item, prefix, name, rest);
    }
  }

  lemma NamedFolder(item: Item, prefix: string, name: string, rest: string)
    requires '/' !in name && item.path == prefix + name + "/" + rest
    ensures InFolder(item, prefix) && FolderName(item, prefix) == name
  {
    var relative := Relative(item, prefix);
    assert relative == name + "/" + rest;
    assert relative[..|name|] == name && relative[|name|] == '/';
    FirstSlash(relative, |name|);
  }

  // For every prefix and filter, how often an entry is listed: not at all unless
  // its lower-cased name contains the lower-cased filter, and otherwise a file as
  // often as its secret is there and a folder once if something lies in it.
  ghost function Listed(secrets: seq<Item>, prefix: string, filter: string, locale: Locale, e: Entry): nat {
    if !Contains(locale.lower(e.name), locale.lower(filter)) then 0
    else if IsFileOf(e, prefix) then multiset(secrets)[e.secret]
    else if IsFolderOf(e, secrets, prefix) then 1 else 0
  }

  lemma EntriesAre(secrets: seq<Item>, prefix: string, filter: string, locale: Locale, e: Entry)
    ensures multiset(Entries(secrets, prefix, filter, locale))[e] == Listed(secrets, prefix, filter, locale, e)
  {
    var level, names := Level(secrets, prefix), FolderNames(secrets, prefix);
    SortPermutes(Filter(level, locale.lower(filter), locale), locale);
    FilterKeeps(level, locale.lower(filter), locale, e);
    FolderNamesAre(secrets, prefix);
    FoldersAre(names, prefix, e);
    FilesAre(secrets, prefix, e);
    HasFolderIff(secrets, prefix, e.name);
  }

  // A filter only drops: what it keeps is listed as often as without it.
  lemma FilterIsSelection(secrets: seq<Item>, prefix: string, filter: string, locale: Locale, e: Entry)
    requires locale.lower("") == ""
    ensures multiset(Entries(secrets, prefix, filter, locale))[e] ==
            if Contains(locale.lower(e.name), locale.lower(filter))
            then multiset(Entries(secrets, prefix, "", locale))[e] else 0
  {
    EntriesAre(secrets, prefix, filter, locale, e);
    EntriesAre(secrets, prefix, "", locale, e);
    assert locale.lower(e.name) == [] + "" + locale.lower(e.name);
  }
}
