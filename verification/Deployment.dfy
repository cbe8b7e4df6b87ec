// What a deployed file is: its content, its mode and its owner, said of the
// definition and the secret without the functions the agent computes them with.
module Deployment {
  import opened Base
  import opened Agent

  // Octal digits, as many as needed.
  function Octal(n: nat): string {
    var last := [('0' as int + n % 8) as char];
    if n < 8 then last else Octal(n / 8) + last
  }

  function Zeros(n: nat): string {
    seq(n, _ => '0')
  }

  lemma OctalStep(digits: string, c: char)
    ensures OctalValue(digits + [c]) ==
            if OctalValue(digits).None? || c < '0' || c > '7' then None
            else Some(8 * OctalValue(digits).value + (c as int - '0' as int))
  {
    assert (digits + [c])[..|digits|] == digits;
  }

  lemma {:induction false} OctalReads(k: nat, n: nat)
    ensures OctalValue(Zeros(k) + Octal(n)) == Some(n)
  {
    var last := ('0' as int + n % 8) as char;
    if n >= 8 {
      OctalReads(k, n / 8);
      assert Zeros(k) + Octal(n) == (Zeros(k) + Octal(n / 8)) + [last];
      OctalStep(Zeros(k) + Octal(n / 8), last);
    } else {
      ZerosAreZero(k);
      assert Zeros(k) + Octal(n) == Zeros(k) + [last];
      OctalStep(Zeros(k), last);
    }
  }

  lemma {:induction false} ZerosAreZero(k: nat)
    ensures OctalValue(Zeros(k)) == Some(0)
  {
    if k > 0 {
      ZerosAreZero(k - 1);
      assert Zeros(k) == Zeros(k - 1) + ['0'];
      OctalStep(Zeros(k - 1), '0');
    }
  }

  lemma {:induction false} OctalIsRead(s: string) returns (k: nat)
    requires s != "" && OctalValue(s).Some?
    ensures s == Zeros(k) + Octal(OctalValue(s).value)
  {
    var most, c := s[..|s| - 1], s[|s| - 1];
    assert s == most + [c];
    k := 0;
    if most != "" {
      k := OctalIsRead(most);
      var n := OctalValue(most).value;
      if n == 0 {
        assert most == Zeros(k) + "0" == Zeros(k + 1);
        k := k + 1;
      }
      assert OctalValue(s).value == 8 * n + (c as int - '0' as int);
    }
  }

  // A mode is nothing, which means 0600, or an octal numeral up to 0777, with
  // any number of zeros before it.
  ghost predicate ModeIs(s: string, n: nat) {
    (s == "" && n == 384) || (n <= 511 && exists k :: s == Zeros(k) + Octal(n))
  }

  lemma ModeIff(s: string, n: nat)
    ensures ParseMode(s) == Some(n) <==> ModeIs(s, n)
  {
    if exists k :: s == Zeros(k) + Octal(n) {
      var k :| s == Zeros(k) + Octal(n);
      OctalReads(k, n);
    }
    if s != "" && ParseMode(s) == Some(n) {
      var k := OctalIsRead(s);
    }
  }

  // The content that a definition deploys for a version: the very value without
  // a template, and with one what the template's text renders to for this value,
  // path and revision.
  ghost predicate Renders(cfg: Config, d: Definition, source: string, value: string, revision: nat, content: string) {
    && (d.template == "" ==> content == value)
    && (d.template != "" ==> cfg.render(source, value, d.path, revision) == Some(content))
  }

  lemma OutputIff(cfg: Config, d: Definition, source: string, value: string, revision: nat, content: string)
    ensures Output(cfg, d, source, value, revision) == Some(content) <==>
              Renders(cfg, d, source, value, revision, content)
  {
  }

  // A file with the configured mode, and the configured owner and group where
  // there is one; -1 leaves it open.
  ghost predicate FileFits(cfg: Config, d: Definition, n: Node) {
    && n.Regular? && ModeIs(d.mode, n.mode)
    && (exists uid :: cfg.owner(d.owner) == Some(uid) && (uid == -1 || n.uid == uid))
    && (exists gid :: cfg.group(d.group) == Some(gid) && (gid == -1 || n.gid == gid))
  }

  lemma FileFitsIff(cfg: Config, d: Definition, n: Node)
    ensures FileFits(cfg, d, n) <==> AttributesOf(cfg, d).Some? && HasAttributes(n, AttributesOf(cfg, d).value)
  {
    if n.Regular? {
      ModeIff(d.mode, n.mode);
    }
  }

  // A file as the agent makes it: where nothing is configured it belongs to the
  // agent process.
  ghost predicate FileMade(cfg: Config, d: Definition, n: Node) {
    && FileFits(cfg, d, n)
    && (cfg.owner(d.owner) == Some(-1) ==> n.uid == cfg.uid)
    && (cfg.group(d.group) == Some(-1) ==> n.gid == cfg.gid)
  }

  // What is written is such a file, with this content.
  lemma WrittenIsMade(cfg: Config, d: Definition, data: string, a: Attributes)
    requires AttributesOf(cfg, d) == Some(a)
    ensures FileMade(cfg, d, Written(cfg, data, a)) && Written(cfg, data, a).content == data
  {
    FileFitsIff(cfg, d, Written(cfg, data, a));
  }

  // At the destination is the rendering of this version, as configured.
  ghost predicate InPlace(cfg: Config, files: map<string, Node>, job: Job, value: string, revision: nat) {
    && job.d.destination in files
    && var n := files[job.d.destination];
       FileFits(cfg, job.d, n) && Renders(cfg, job.d, job.source, value, revision, n.content)
  }
}
