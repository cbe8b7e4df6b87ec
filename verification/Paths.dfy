// Secret paths and path rules: the string tests the server runs, and the
// component lists they stand for.
module Paths {
  import opened Base

  // unicode.IsSpace, which strings.TrimSpace strips at both ends.
  predicate IsSpace(c: char) {
    var n := c as int;
    || 0x09 <= n <= 0x0D || n == 0x20 || n == 0x85 || n == 0xA0 || n == 0x1680
    || 0x2000 <= n <= 0x200A || n == 0x2028 || n == 0x2029 || n == 0x202F || n == 0x205F || n == 0x3000
  }

  // unicode.IsControl
  predicate IsControl(c: char) {
    var n := c as int;
    n < 0x20 || 0x7F <= n < 0xA0
  }

  predicate Reserved(c: char) {
    c in "\\%*?"
  }

  // strings.Split(s, "/")
  function Split(s: string): (parts: seq<string>)
    ensures parts != []
  {
    if s == "" then [""]
    else
      var rest := Split(s[1..]);
      if s[0] == '/' then [""] + rest else [[s[0]] + rest[0]] + rest[1..]
  }

  function Join(parts: seq<string>): string
    requires parts != []
  {
    if |parts| == 1 then parts[0] else parts[0] + "/" + Join(parts[1..])
  }

  predicate ProperComponent(part: string) {
    part != "" && part != "." && part != ".."
  }

  function Normalize(p: string): (r: Result<string, ()>)
    ensures r.Ok? ==> r.value == p
  {
    if p == "" || Utf8Len(p) > 512 || IsSpace(p[0]) || IsSpace(p[|p| - 1]) || HasPrefix(p, "/")
       || exists c :: c in p && Reserved(c) then
      Err(())
    else if exists c :: c in p && IsControl(c) then
      Err(())
    else if exists part :: part in Split(p) && !ProperComponent(part) then
      Err(())
    else
      Ok(p)
  }

  predicate ValidateRules(rules: seq<string>) {
    forall r :: r in rules ==> Normalize(TrimSuffix(r, "/*")).Ok?
  }

  predicate Matches(p: string, rule: string) {
    if HasSuffix(rule, "/*") then HasPrefix(p, TrimSuffix(rule, "*")) else p == rule
  }

  predicate Allowed(path: string, rules: seq<string>) {
    && Normalize(path).Ok?
    && exists rule :: rule in rules && Matches(path, rule)
  }

  // ---- what the rules mean, on component lists ----

  datatype Grant = Exact(parts: seq<string>) | Subtree(parts: seq<string>)

  function Meaning(rule: string): Grant {
    if HasSuffix(rule, "/*") then Subtree(Split(TrimSuffix(rule, "/*"))) else Exact(Split(rule))
  }

  predicate Covers(g: Grant, parts: seq<string>) {
    match g
    case Exact(exact) => parts == exact
    case Subtree(root) => root < parts
  }

  ghost predicate NoSlash(parts: seq<string>) {
    forall part :: part in parts ==> '/' !in part
  }

  lemma {:induction false} SplitHasNoSlash(s: string)
    ensures NoSlash(Split(s))
  {
    if s != "" {
      SplitHasNoSlash(s[1..]);
    }
  }

  lemma {:induction false} JoinSplit(s: string)
    ensures Join(Split(s)) == s
  {
    if s == "" {
    } else {
      JoinSplit(s[1..]);
      var rest := Split(s[1..]);
      assert s == [s[0]] + s[1..];
      if s[0] != '/' {
        var parts := Split(s);
        assert parts[1..] == rest[1..];
      }
    }
  }

  lemma {:induction false} SplitWord(w: string)
    requires '/' !in w
    ensures Split(w) == [w]
  {
    if w != "" {
      SplitWord(w[1..]);
      assert w == [w[0]] + w[1..];
    }
  }

  lemma {:induction false} SplitConcat(a: string, b: string)
    ensures Split(a + "/" + b) == Split(a) + Split(b)
  {
    var s := a + "/" + b;
    if a == "" {
      assert s[1..] == b;
    } else {
      assert s[1..] == a[1..] + "/" + b;
      SplitConcat(a[1..], b);
    }
  }

  // Split and Join are inverse on lists of slash-free components.
  lemma {:induction false} SplitJoin(parts: seq<string>)
    requires parts != [] && NoSlash(parts)
    ensures Split(Join(parts)) == parts
  {
    assert parts[0] in parts;
    SplitWord(parts[0]);
    if |parts| > 1 {
      SplitJoin(parts[1..]);
      SplitConcat(parts[0], Join(parts[1..]));
      assert parts == [parts[0]] + parts[1..];
    }
  }

  lemma {:induction false} JoinConcat(a: seq<string>, b: seq<string>)
    requires a != [] && b != []
    ensures Join(a + b) == Join(a) + "/" + Join(b)
  {
    if |a| == 1 {
      assert (a + b)[1..] == b;
    } else {
      assert (a + b)[1..] == a[1..] + b;
      JoinConcat(a[1..], b);
    }
  }

  // A textual prefix that ends in the slash is exactly a proper prefix of
  // components: neither a sibling with a longer name nor the root itself.
  lemma PrefixIsSubtree(p: string, base: string)
    ensures HasPrefix(p, base + "/") <==> Split(base) < Split(p)
  {
    if HasPrefix(p, base + "/") {
      var rest := p[|base| + 1..];
      assert p == base + "/" + rest;
      SplitConcat(base, rest);
    }
    if Split(base) < Split(p) {
      var a, b := Split(base), Split(p)[|Split(base)|..];
      assert Split(p) == a + b;
      JoinConcat(a, b);
      JoinSplit(p);
      JoinSplit(base);
    }
  }

  lemma MatchesIsCovers(p: string, rule: string)
    ensures Matches(p, rule) <==> Covers(Meaning(rule), Split(p))
  {
    if HasSuffix(rule, "/*") {
      var base := TrimSuffix(rule, "/*");
      assert rule == base + "/*";
      assert HasSuffix(rule, "*") && TrimSuffix(rule, "*") == base + "/";
      PrefixIsSubtree(p, base);
    } else if Split(p) == Split(rule) {
      JoinSplit(p);
      JoinSplit(rule);
    }
  }

  // ---- what is accepted, said of the text ----

  // White space, character by character.
  const BLANKS: set<char> := {
    '\t', '\n', '\U{0B}', '\U{0C}', '\r', ' ', '\U{85}', '\U{A0}', '\U{1680}',
    '\U{2000}', '\U{2001}', '\U{2002}', '\U{2003}', '\U{2004}', '\U{2005}', '\U{2006}',
    '\U{2007}', '\U{2008}', '\U{2009}', '\U{200A}', '\U{2028}', '\U{2029}', '\U{202F}',
    '\U{205F}', '\U{3000}'}

  lemma BlanksAre(c: char)
    ensures IsSpace(c) <==> c in BLANKS
  {
  }

  // Where a walk through the components leads: a dot or nothing stays, two dots
  // go back up, anything else goes down.
  function Walk(at: seq<string>, parts: seq<string>): seq<string>
    decreases |parts|
  {
    if parts == [] then at
    else if parts[0] == "" || parts[0] == "." then Walk(at, parts[1..])
    else if parts[0] == ".." then Walk(if at == [] then [] else at[..|at| - 1], parts[1..])
    else Walk(at + [parts[0]], parts[1..])
  }

  lemma {:induction false} WalkBound(at: seq<string>, parts: seq<string>)
    ensures |Walk(at, parts)| <= |at| + |parts|
    decreases |parts|
  {
    if parts != [] {
      if parts[0] == "" || parts[0] == "." {
        WalkBound(at, parts[1..]);
      } else if parts[0] == ".." {
        WalkBound(if at == [] then [] else at[..|at| - 1], parts[1..]);
      } else {
        WalkBound(at + [parts[0]], parts[1..]);
      }
    }
  }

  // A walk goes where it says exactly if no component is empty or made of dots.
  lemma {:induction false} WalkIsStraight(at: seq<string>, parts: seq<string>)
    ensures Walk(at, parts) == at + parts <==>
              forall part :: part in parts ==> part != "" && part != "." && part != ".."
    decreases |parts|
  {
    if parts == [] {
      assert at + parts == at;
    } else {
      var first, rest := parts[0], parts[1..];
      assert forall part :: part in parts <==> part == first || part in rest;
      assert |at + parts| == |at| + |parts| && first in parts;
      if first == "" || first == "." {
        WalkBound(at, rest);
      } else if first == ".." {
        WalkBound(if at == [] then [] else at[..|at| - 1], rest);
      } else {
        WalkIsStraight(at + [first], rest);
        assert at + [first] + rest == at + parts;
      }
    }
  }

  // No control character, and none with a meaning in a URL or a pattern.
  predicate PlainChar(c: char) {
    && 0x20 <= c as int && !(0x7F <= c as int < 0xA0)
    && c != '\\' && c != '%' && c != '*' && c != '?'
  }

  lemma PlainCharsAre(c: char)
    ensures PlainChar(c) <==> !Reserved(c) && !IsControl(c)
  {
    var reserved := "\\%*?";
    assert c in reserved <==> c == reserved[0] || c == reserved[1] || c == reserved[2] || c == reserved[3];
  }

  // A secret path as the design describes it.
  ghost predicate PlainPath(p: string) {
    && p != "" && Utf8Len(p) <= 512
    && p[0] !in BLANKS && p[|p| - 1] !in BLANKS
    && (forall c :: c in p ==> PlainChar(c))
    && (forall part :: part in Split(p) ==> part != "" && part != "." && part != "..")
  }

  lemma NormalizeIff(p: string)
    ensures Normalize(p).Ok? <==> PlainPath(p)
    ensures Normalize(p).Ok? ==> Walk([], Split(p)) == Split(p)
  {
    WalkIsStraight([], Split(p));
    assert [] + Split(p) == Split(p);
    if p != "" {
      BlanksAre(p[0]);
      BlanksAre(p[|p| - 1]);
    }
    forall c ensures PlainChar(c) <==> !Reserved(c) && !IsControl(c) {
      PlainCharsAre(c);
    }
    if HasPrefix(p, "/") {
      assert Split(p)[0] == "" && Split(p)[0] in Split(p);
    }
  }

  // An accepted path, or such a path with the wildcard for what lies below it.
  ghost predicate PlainRule(rule: string) {
    PlainPath(rule) || exists base :: rule == base + "/*" && PlainPath(base)
  }

  lemma ValidateRulesIff(rules: seq<string>)
    ensures ValidateRules(rules) <==> forall rule :: rule in rules ==> PlainRule(rule)
  {
    forall rule | rule in rules ensures Normalize(TrimSuffix(rule, "/*")).Ok? <==> PlainRule(rule) {
      var base := TrimSuffix(rule, "/*");
      NormalizeIff(base);
      if HasSuffix(rule, "/*") {
        assert rule == base + "/*";
        assert rule[|rule| - 1] in rule;
        forall other | rule == other + "/*" ensures other == base {
          EndsAre(other, "/*");
        }
      } else {
        forall other ensures rule != other + "/*" {
          EndsAre(rule, "/*");
        }
      }
    }
  }

  // A rule grants its own path or, with the wildcard, all that lies below.
  ghost predicate RuleGrants(rule: string, path: string) {
    rule == path || exists base, rest :: rule == base + "/*" && path == base + "/" + rest
  }

  ghost predicate Grants(rules: seq<string>, path: string) {
    exists rule :: rule in rules && RuleGrants(rule, path)
  }

  lemma AllowedIff(path: string, rules: seq<string>)
    ensures Allowed(path, rules) <==> PlainPath(path) && Grants(rules, path)
    ensures Allowed(path, rules) ==> Walk([], Split(path)) == Split(path)
  {
    NormalizeIff(path);
    if PlainPath(path) {
      forall rule | rule in rules ensures Matches(path, rule) <==> RuleGrants(rule, path) {
        MatchesText(path, rule);
      }
      if Allowed(path, rules) {
        var rule :| rule in rules && Matches(path, rule);
        assert RuleGrants(rule, path);
      }
    }
  }

  lemma MatchesText(path: string, rule: string)
    requires PlainPath(path)
    ensures Matches(path, rule) <==> RuleGrants(rule, path)
  {
    if HasSuffix(rule, "/*") {
      SubtreeText(path, rule[..|rule| - 2], rule);
    } else {
      forall other ensures rule != other + "/*" {
        EndsAre(rule, "/*");
      }
    }
  }

  lemma SubtreeText(path: string, base: string, rule: string)
    requires PlainPath(path) && |rule| >= 2 && base == rule[..|rule| - 2] && HasSuffix(rule, "/*")
    ensures Matches(path, rule) <==> RuleGrants(rule, path)
  {
    assert rule == base + "/*" && TrimSuffix(rule, "*") == base + "/";
    assert rule[|rule| - 1] in rule && rule[|rule| - 1] == '*';
    if HasPrefix(path, base + "/") {
      var rest := path[|base + "/"|..];
      assert path == base + "/" + rest;
      assert RuleGrants(rule, path);
    }
    if RuleGrants(rule, path) {
      assert rule != path;
      var other, rest :| rule == other + "/*" && path == other + "/" + rest;
      assert |other| == |base| && other == rule[..|base|];
      assert HasPrefix(path, base + "/");
    }
  }

  // ---- absolute file names ----

  // filepath.Clean of a name that begins with the slash.
  function Clean(path: string): string
    requires HasPrefix(path, "/")
  {
    var parts := Walk([], Split(path[1..]));
    "/" + if parts == [] then "" else Join(parts)
  }

  lemma {:induction false} WalkHasNoSlash(at: seq<string>, parts: seq<string>)
    requires NoSlash(at) && NoSlash(parts)
    ensures NoSlash(Walk(at, parts))
    decreases |parts|
  {
    if parts != [] {
      assert NoSlash(parts[1..]);
      if parts[0] == "" || parts[0] == "." {
        WalkHasNoSlash(at, parts[1..]);
      } else if parts[0] == ".." {
        WalkHasNoSlash(if at == [] then [] else at[..|at| - 1], parts[1..]);
      } else {
        WalkHasNoSlash(at + [parts[0]], parts[1..]);
      }
    }
  }

  // Cleaning leaves an absolute name, other than the root's, alone exactly if
  // each of its components goes down.
  lemma CleanIsStraight(path: string)
    requires HasPrefix(path, "/") && path != "/"
    ensures Clean(path) == path <==>
              forall part :: part in Split(path[1..]) ==> part != "" && part != "." && part != ".."
  {
    var parts := Split(path[1..]);
    var walked := Walk([], parts);
    WalkIsStraight([], parts);
    assert [] + parts == parts;
    JoinSplit(path[1..]);
    assert path == "/" + path[1..];
    if Clean(path) == path {
      assert path[1..] == if walked == [] then "" else Join(walked);
      SplitHasNoSlash(path[1..]);
      WalkHasNoSlash([], parts);
      if walked != [] {
        SplitJoin(walked);
      }
    }
  }

  // ---- components ----

  // String authorization is component authorization. It holds of every rule
  // list, accepted by ValidateRules or not.
  lemma AllowedByComponents(path: string, rules: seq<string>)
    ensures Allowed(path, rules) <==>
            Normalize(path).Ok? && exists rule :: rule in rules && Covers(Meaning(rule), Split(path))
  {
    forall rule | rule in rules
      ensures Matches(path, rule) <==> Covers(Meaning(rule), Split(path))
    {
      MatchesIsCovers(path, rule);
    }
    if Allowed(path, rules) {
      var rule :| rule in rules && Matches(path, rule);
      assert Covers(Meaning(rule), Split(path));
    }
  }

  // What ValidateRules adds: every grant is rooted at a normalized path, so no
  // accepted rule is a global wildcard or has a wildcard inside.
  lemma ValidRuleShape(rules: seq<string>, rule: string)
    requires ValidateRules(rules) && rule in rules
    ensures exists base :: (rule == base || rule == base + "/*") && Normalize(base).Ok?
    ensures Meaning(rule).parts != [] && forall part :: part in Meaning(rule).parts ==>
              part != "" && part != "." && part != ".." && '/' !in part && '*' !in part
  {
    var base := TrimSuffix(rule, "/*");
    assert Normalize(base).Ok?;
    assert HasSuffix(rule, "/*") ==> rule == base + "/*";
    SplitHasNoSlash(base);
    forall part | part in Split(base) ensures '*' !in part {
      if '*' in part {
        SplitKeepsChars(base, part, '*');
      }
    }
  }

  lemma {:induction false} SplitKeepsChars(s: string, part: string, c: char)
    requires part in Split(s) && c in part
    ensures c in s
  {
    if s != "" {
      var rest := Split(s[1..]);
      if part in rest {
        SplitKeepsChars(s[1..], part, c);
      } else if s[0] != '/' {
        assert part == [s[0]] + rest[0];
        if c != s[0] {
          assert c in rest[0] && rest[0] in rest;
          SplitKeepsChars(s[1..], rest[0], c);
        }
      }
    }
  }

  // An administrator can grant one component path and nothing else: for a
  // normalized path the exact rule written as its text covers only it.
  lemma ExactRuleGrantsOne(path: string, other: string)
    requires Normalize(path).Ok?
    ensures ValidateRules([path])
    ensures Allowed(other, [path]) <==> other == path
  {
    assert path[|path| - 1] in path && Reserved('*');
    assert !HasSuffix(path, "/*");
    if other == path {
      assert path in [path] && Matches(other, path);
    }
  }
}
