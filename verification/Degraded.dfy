/** Calls that silently lose the architecture do not converge. */
module Degraded {
  import opened Text
  import opened Refs
  import opened Gate
  import opened Registry
  import opened RepoNames
  import opened Mirroring
  import opened MirrorFacts
  import opened Landing
  import opened Convergence

  // ---- The template `$arch` ----

  lemma ArchSubstituted(meta: Metadata)
    ensures Substitute("$arch", Placeholders(meta)) == meta.arch
  {
    var f := Placeholders(meta);
    assert "$arch" + "" == "$arch";
    PlaceholderValues(meta, "");
    SubstituteFront("$arch", "", f, meta.arch);
    assert Substitute("", f) == "";
  }

  /** The template `$arch` stands for the non-blank segments of the architecture, whatever it is. */
  lemma ArchTemplate(meta: Metadata)
    ensures ExpandRepoPrefix("$arch", meta) == Join(NonBlank(Split(TrimSpace(meta.arch), '/')), "/")
  {
    TrimTight("$arch", IsSpace);
    ArchSubstituted(meta);
    if TrimSpace(meta.arch) == "" {
      assert Split("", '/') == [""];
      assert TrimSpace("") == "";
      assert [""][1..] == [];
      assert NonBlank([""]) == NonBlank([]) == [];
    }
  }

  /** An architecture that may stand in front of the name `name` as it is. */
  predicate PlainArch(arch: string, name: string) {
    IsClean(arch) && '/' !in arch && |arch| + 1 + |name| <= MAX_REPO_NAME_LENGTH
  }

  lemma PlainArchExpands(meta: Metadata)
    requires '/' !in meta.arch && Tight(meta.arch, IsSpace)
    ensures ExpandRepoPrefix("$arch", meta) == meta.arch
  {
    var a := meta.arch;
    ArchTemplate(meta);
    TrimTight(a, IsSpace);
    assert Split(a, '/') == [a];
    assert [a][1..] == [] && NonBlank([]) == [];
  }

  lemma MappedIsClean(rules: seq<Rule>, repo: string, digest: string -> string)
    requires HexDigest(digest)
    ensures IsClean(Transform(rules, repo, digest))
  {
    var k := FirstApplying(rules, repo);
    CleanIsClean(if k < |rules| then rules[k].Rewrite(repo) else repo, digest);
  }

  /** Without an architecture the path is the mapped name. */
  lemma BarePath(rules: seq<Rule>, repo: string, meta: Metadata, digest: string -> string)
    requires meta.arch == ""
    ensures ResolveRepoPath(rules, "$arch", repo, meta, digest) == Transform(rules, repo, digest)
  {
    PlainArchExpands(meta);
  }

  /** A plain architecture stands in front of it. */
  lemma ArchPath(rules: seq<Rule>, repo: string, meta: Metadata, digest: string -> string)
    requires HexDigest(digest) && PlainArch(meta.arch, Transform(rules, repo, digest))
    ensures ResolveRepoPath(rules, "$arch", repo, meta, digest) == meta.arch + "/" + Transform(rules, repo, digest)
  {
    var name := Transform(rules, repo, digest);
    MappedIsClean(rules, repo, digest);
    PlainArchExpands(meta);
    assert TrimSuffix(meta.arch, "/") == meta.arch;
    PrefixedIsClean(meta.arch, name);
    CleanFixedPoint(meta.arch + "/" + name, digest);
  }

  lemma ArchPaths(rules: seq<Rule>, repo: string, meta: Metadata, arch: string, digest: string -> string)
    requires HexDigest(digest) && meta.arch == "" && PlainArch(arch, Transform(rules, repo, digest))
    ensures ResolveRepoPath(rules, "$arch", repo, meta, digest) == Transform(rules, repo, digest)
    ensures ResolveRepoPath(rules, "$arch", repo, meta.(arch := arch), digest) ==
            arch + "/" + Transform(rules, repo, digest)
  {
    BarePath(rules, repo, meta, digest);
    ArchPath(rules, repo, meta.(arch := arch), digest);
  }

  lemma PrefixedIsClean(arch: string, name: string)
    requires IsClean(name) && PlainArch(arch, name)
    ensures IsClean(arch + "/" + name)
  {
  }

  // ---- A first call that loses the architecture ----

  lemma NoShortcut(cfg: Config, env: Env, source: Store, target: Store, s: Source, meta: Metadata, t: Ref)
    requires !UsesPodDigest(cfg, s)
    ensures !AlreadyPresent(cfg, env, source, target, s, meta, t)
  {
  }

  lemma BareRepo(cfg: Config, s: Source, meta: Metadata)
    requires cfg.template == "$arch" && meta.arch == ""
    ensures RepoFor(cfg, s, meta) == Transform(cfg.rules, s.repo, cfg.lib.shortDigest)
  {
    PlainArchExpands(meta);
  }

  lemma LostAndFound(cfg: Config, env: Env, env': Env, s: Source, meta: Metadata, p: Payload)
    requires cfg.template == "$arch" && HexDigest(cfg.lib.shortDigest) && meta.arch == ""
    requires env.archFails && !env'.archFails && p.root.Image? && PlainArch(p.root.arch, RepoFor(cfg, s, meta))
    ensures FinalRepo(cfg, env, s, meta, p) == RepoFor(cfg, s, meta)
    ensures FinalRepo(cfg, env', s, meta, p) == p.root.arch + "/" + RepoFor(cfg, s, meta)
  {
    BareRepo(cfg, s, meta);
    ArchPaths(cfg.rules, s.repo, meta, p.root.arch, cfg.lib.shortDigest);
    TrimTight(p.root.arch, IsSpace);
  }

  lemma MovedTarget(lib: Library, s: Source, a: string, b: string, t: Ref)
    requires BuildTarget(lib, s, a) == Some(t)
    ensures BuildTarget(lib, s, b) == if lib.validTarget(t.(repo := b)) then Some(t.(repo := b)) else None
  {
  }

  lemma TargetRepo(lib: Library, s: Source, repo: string, t: Ref)
    requires BuildTarget(lib, s, repo) == Some(t)
    ensures t.repo == repo
  {
  }

  lemma LongerRepo(t: Ref, arch: string)
    ensures t.(repo := arch + "/" + t.repo) != t
  {
    assert |arch + "/" + t.repo| > |t.repo|;
  }

  /** Where a payload goes without and with its architecture. */
  lemma LostTargets(cfg: Config, env: Env, env': Env, s: Source, meta: Metadata, t: Ref, p: Payload)
    requires cfg.template == "$arch" && HexDigest(cfg.lib.shortDigest) && meta.arch == ""
    requires env.archFails && !env'.archFails && p.root.Image? && PlainArch(p.root.arch, t.repo)
    requires BuildTarget(cfg.lib, s, RepoFor(cfg, s, meta)) == Some(t)
    ensures BuildTarget(cfg.lib, s, FinalRepo(cfg, env, s, meta, p)) == Some(t)
    ensures var moved := t.(repo := p.root.arch + "/" + t.repo);
            && moved != t
            && BuildTarget(cfg.lib, s, FinalRepo(cfg, env', s, meta, p)) ==
               if cfg.lib.validTarget(moved) then Some(moved) else None
  {
    var repo := RepoFor(cfg, s, meta);
    TargetRepo(cfg.lib, s, repo, t);
    LostAndFound(cfg, env, env', s, meta, p);
    MovedTarget(cfg.lib, s, repo, p.root.arch + "/" + t.repo, t);
    LongerRepo(t, p.root.arch);
  }

  /** With `$arch` as template and no architecture known beforehand, a call that cannot read the
      architecture of its image pushes to the bare name and returns nil.  The same call with
      every read successful then pushes again, to the name behind the architecture, exactly if
      that target is valid and was missing or overwritable before, and its repository is there
      or can be created. */
  lemma LostArchitectureDiverges(
      cfg: Config, env: Env, env': Env, source: Store, g: GateState, target: Store, src: string, meta: Metadata)
    requires cfg.template == "$arch" && HexDigest(cfg.lib.shortDigest)
    requires env.archFails && !env'.archFails && !env.imageFails && !env'.imageFails
    requires StartOf(cfg, src, meta).Enter?
    requires !UsesPodDigest(cfg, StartOf(cfg, src, meta).s) && StartOf(cfg, src, meta).meta.arch == ""
    requires Mirror(cfg, env, source, g, target, src, meta).outcome.None?
    requires Mirror(cfg, env, source, g, target, src, meta).sent.Some?
    requires var root := Mirror(cfg, env, source, g, target, src, meta).sent.value.1.root;
             root.Image? && PlainArch(root.arch, StartOf(cfg, src, meta).t.repo)
    requires var start, left := StartOf(cfg, src, meta), Mirror(cfg, env, source, g, target, src, meta).target;
             Reads(cfg, env', source, left, start.s, start.meta, start.t)
    ensures var start, first := StartOf(cfg, src, meta), Mirror(cfg, env, source, g, target, src, meta);
            var (t, p) := first.sent.value;
            var moved := t.(repo := p.root.arch + "/" + t.repo);
            && t == start.t
            && (Mirror(cfg, env', source, EMPTY, first.target, src, meta).sent.Some? <==>
                  && cfg.lib.validTarget(moved)
                  && Writes(cfg, target, moved, cfg.lib.hash(p.root)) && Ensure(cfg, env', target, moved.repo).ok)
  {
    var start, first := StartOf(cfg, src, meta), Mirror(cfg, env, source, g, target, src, meta);
    StartFacts(cfg, src, meta);
    Provenance(cfg, env, source, g, target, src, meta);
    NoShortcut(cfg, env', source, first.target, start.s, start.meta, start.t);
    MirrorLevels(cfg, env, source, g, target, src, meta);
    ConvergenceExact(cfg, env, env', source, g, target, src, meta, first.sent.value.0, first.sent.value.1);
    var q := PullOf(cfg, env', source, first.target, start.s, start.meta, start.t).payload;
    LostTargets(cfg, env, env', start.s, start.meta, start.t, first.sent.value.1);
    LostTargets(cfg, env, env', start.s, start.meta, start.t, q);
  }

  /** The case in which the repeat pushes, with the parts of the calls named. */
  lemma DivergesAt(
      cfg: Config, env: Env, env': Env, source: Store, g: GateState, target: Store, src: string, meta: Metadata,
      s: Source, full: Metadata, t: Ref, p: Payload)
    requires cfg.template == "$arch" && HexDigest(cfg.lib.shortDigest)
    requires env.archFails && !env'.archFails && !env.imageFails && !env'.imageFails
    requires StartOf(cfg, src, meta) == Enter(s, full, t) && !UsesPodDigest(cfg, s) && full.arch == ""
    requires Mirror(cfg, env, source, g, target, src, meta).outcome.None?
    requires Mirror(cfg, env, source, g, target, src, meta).sent == Some((t, p))
    requires p.root.Image? && PlainArch(p.root.arch, t.repo)
    requires Reads(cfg, env', source, Mirror(cfg, env, source, g, target, src, meta).target, s, full, t)
    requires var moved := t.(repo := p.root.arch + "/" + t.repo);
             && cfg.lib.validTarget(moved) && Writes(cfg, target, moved, cfg.lib.hash(p.root))
             && Ensure(cfg, env', target, moved.repo).ok
    ensures var left := Mirror(cfg, env, source, g, target, src, meta).target;
            Mirror(cfg, env', source, EMPTY, left, src, meta).sent.Some?
  {
    LostArchitectureDiverges(cfg, env, env', source, g, target, src, meta);
  }
}
