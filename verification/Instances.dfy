/** Concrete calls for which the exact conditions fail. */
module Instances {
  import opened Text
  import opened Refs
  import opened Gate
  import opened Registry
  import opened Selection
  import opened Platforms
  import opened RepoNames
  import opened Mirroring
  import opened MirrorFacts
  import opened Convergence
  import opened Degraded
  import opened OrderFree
  import opened Breaches
  import P = Programs
  import Exclusions
  import Retry

  const FROM := ByTag("r", "a", "v")
  const FROM_X := ByTag("r", "x/a", "v")
  const PLAIN := Tagged("a", "v")
  const MOVED := Tagged("x/a", "v")

  /** Reads two source references, and tells images apart by architecture and payload. */
  const LIB := Library(
    s => if s == "r/a:v" then Some(FROM) else if s == "r/x/a:v" then Some(FROM_X) else None,
    r => true, s => None, s => s == "h",
    (o: Object) => if o.Image? then o.arch + ":" + o.payload else "", s => "0", (ms, p) => |ms|)

  function CfgWith(cooldown: int, pullByDigest: bool, platforms: seq<Spec>): Config {
    Config(cooldown, false, false, pullByDigest, {}, false, platforms, [], [], "$arch", 1, 0, Implicit, LIB)
  }

  function EnvWith(archFails: bool, authFails: bool): Env {
    Env(0, 0, 0, authFails, false, false, false, false, false, false, false,
        d => false, d => false, d => false, archFails, false, false, false, false, false,
        k => Attempt(Everything, None), k => false)
  }

  const META := Metadata("", "", "", "", "", "", "r")

  function ImageOf(n: string): Object { Image("x", n) }

  function PayloadOf(n: string): Payload { Payload(ImageOf(n), []) }

  /** A source that holds the image `n` under its one tag. */
  function SourceOf(n: string): Store {
    Store(map[("r/a", "x:" + n) := ImageOf(n)], map[Tagged("r/a", "v") := "x:" + n], {})
  }

  // ---- Names ----

  lemma Hexes()
    ensures HexDigest(LIB.shortDigest)
  {
  }

  lemma BareRepos(cfg: Config, meta: Metadata)
    requires cfg.template == "$arch" && cfg.rules == [] && cfg.lib == LIB && meta.arch == ""
    ensures RepoFor(cfg, FROM, meta) == "a" && RepoFor(cfg, FROM_X, meta) == "x/a"
  {
    Hexes();
    assert IsClean("a") && IsClean("x/a");
    CleanFixedPoint("a", LIB.shortDigest);
    CleanFixedPoint("x/a", LIB.shortDigest);
    BareRepo(cfg, FROM, meta);
    BareRepo(cfg, FROM_X, meta);
  }

  lemma Plain(arch: string)
    requires arch == "x" || arch == "y"
    ensures HexDigest(LIB.shortDigest) && PlainArch(arch, "a")
  {
    assert IsClean(arch);
  }

  lemma Starts(cooldown: int)
    ensures StartOf(CfgWith(cooldown, false, []), "r/a:v", META) == Enter(FROM, META, PLAIN)
    ensures StartOf(CfgWith(cooldown, false, []), "r/x/a:v", META) == Enter(FROM_X, META, MOVED)
  {
    BareRepos(CfgWith(cooldown, false, []), META);
    assert Exclusions.MatchExcluded([], "r/a:v").None? && Exclusions.MatchExcluded([], "r/x/a:v").None?;
  }

  // ---- What a call for the image pulls ----

  lemma Fetched(cfg: Config, env: Env, n: string, target: Store)
    requires cfg.lib == LIB && !cfg.pullByDigest && !cfg.dryPull && !env.getFails && !env.imageFails
    ensures PullOf(cfg, env, SourceOf(n), target, FROM, META, PLAIN) == Got(PayloadOf(n))
    ensures !AlreadyPresent(cfg, env, SourceOf(n), target, FROM, META, PLAIN)
  {
    assert ContextName(FROM) == "r/a" && PullRef(cfg, FROM, META) == Tagged("r/a", "v");
    assert Get(SourceOf(n), Tagged("r/a", "v")) == Found(ImageOf(n));
  }

  lemma LostRepo(cooldown: int, n: string)
    ensures FinalRepo(CfgWith(cooldown, false, []), EnvWith(true, false), FROM, META, PayloadOf(n)) == "a"
  {
    BareRepos(CfgWith(cooldown, false, []), META);
  }

  lemma PrefixedRepo(cfg: Config, arch: string)
    requires cfg.template == "$arch" && cfg.rules == [] && cfg.lib == LIB && (arch == "x" || arch == "y")
    ensures RepoFor(cfg, FROM, META.(arch := arch)) == arch + "/" + "a"
  {
    Plain(arch);
    BareRepos(cfg, META);
    BareRepo(cfg, FROM, META);
    ArchPaths([], "a", META, arch, LIB.shortDigest);
  }

  lemma ImageRepo(cfg: Config, env: Env, arch: string, n: string)
    requires !env.archFails && TrimSpace(arch) == arch && arch != ""
    ensures FinalRepo(cfg, env, FROM, META, Payload(Image(arch, n), [])) == RepoFor(cfg, FROM, META.(arch := arch))
  {
  }

  lemma FoundRepo(cooldown: int, n: string)
    ensures FinalRepo(CfgWith(cooldown, false, []), EnvWith(false, false), FROM, META, PayloadOf(n)) == "x" + "/" + "a"
  {
    TrimTight("x", IsSpace);
    ImageRepo(CfgWith(cooldown, false, []), EnvWith(false, false), "x", n);
    PrefixedRepo(CfgWith(cooldown, false, []), "x");
  }

  lemma ProcessTo(lib: Library, p: Payload, s: Source, t: Ref, repo: string, final: Payload -> string, t': Ref)
    requires BuildTarget(lib, s, repo) == Some(t) && BuildTarget(lib, s, final(p)) == Some(t')
    ensures Process(lib, false, false, Got(p), s, t, repo, final) == Carry(p, t')
  {
  }

  lemma CarriesTo(
      cfg: Config, env: Env, source: Store, target: Store, s: Source, meta: Metadata, t: Ref, p: Payload, t': Ref)
    requires !env.authFails && !AlreadyPresent(cfg, env, source, target, s, meta, t)
    requires PullOf(cfg, env, source, target, s, meta, t) == Got(p)
    requires BuildTarget(cfg.lib, s, RepoFor(cfg, s, meta)) == Some(t)
    requires BuildTarget(cfg.lib, s, FinalRepo(cfg, env, s, meta, p)) == Some(t')
    ensures MiddleOf(cfg, env, source, target, s, meta, t) == Carry(p, t')
  {
    ProcessTo(cfg.lib, p, s, t, RepoFor(cfg, s, meta), FinalRepoOf(cfg, env, s, meta), t');
  }

  lemma LostCarries(cooldown: int, n: string, target: Store)
    ensures MiddleOf(CfgWith(cooldown, false, []), EnvWith(true, false), SourceOf(n), target, FROM, META, PLAIN) ==
            Carry(PayloadOf(n), PLAIN)
  {
    var cfg := CfgWith(cooldown, false, []);
    BareRepos(cfg, META);
    LostRepo(cooldown, n);
    Fetched(cfg, EnvWith(true, false), n, target);
    CarriesTo(cfg, EnvWith(true, false), SourceOf(n), target, FROM, META, PLAIN, PayloadOf(n), PLAIN);
  }

  lemma TargetAt(repo: string)
    ensures BuildTarget(LIB, FROM, repo) == Some(Tagged(repo, "v"))
  {
  }

  lemma MovedName()
    ensures Tagged("x" + "/" + "a", "v") == MOVED
  {
    assert "x" + "/" + "a" == "x/a";
  }

  lemma FoundTargets(cooldown: int, n: string)
    ensures var cfg := CfgWith(cooldown, false, []);
            && BuildTarget(LIB, FROM, RepoFor(cfg, FROM, META)) == Some(PLAIN)
            && BuildTarget(LIB, FROM, FinalRepo(cfg, EnvWith(false, false), FROM, META, PayloadOf(n))) == Some(MOVED)
  {
    BareRepos(CfgWith(cooldown, false, []), META);
    FoundRepo(cooldown, n);
    MovedName();
    TargetAt("a");
    TargetAt("x" + "/" + "a");
  }

  lemma FoundCarries(cooldown: int, n: string, target: Store)
    ensures MiddleOf(CfgWith(cooldown, false, []), EnvWith(false, false), SourceOf(n), target, FROM, META, PLAIN) ==
            Carry(PayloadOf(n), MOVED)
  {
    var cfg := CfgWith(cooldown, false, []);
    FoundTargets(cooldown, n);
    Fetched(cfg, EnvWith(false, false), n, target);
    CarriesTo(cfg, EnvWith(false, false), SourceOf(n), target, FROM, META, PLAIN, PayloadOf(n), MOVED);
  }

  // ---- A call that is not converged ----

  lemma FirstPush(g: GateState, n: string)
    ensures var call := Conclude(CfgWith(0, false, []), EnvWith(true, false), g, NOTHING, PLAIN, PayloadOf(n));
            call.outcome.None? && call.sent == Some((PLAIN, PayloadOf(n)))
  {
    var env := EnvWith(true, false);
    assert Errors(LIB, env, PLAIN, PayloadOf(n))(1).None?;
    assert PushRun(CfgWith(0, false, []), env, PLAIN, PayloadOf(n)) == Retry.Run(1, Retry.Done);
  }

  lemma FirstCall(n: string)
    ensures var first := Mirror(CfgWith(0, false, []), EnvWith(true, false), SourceOf(n), EMPTY, NOTHING, "r/a:v",
            META);
            first.outcome.None? && first.sent == Some((PLAIN, PayloadOf(n)))
  {
    Starts(0);
    LostCarries(0, n, NOTHING);
    FirstPush(Begin(EMPTY, 0, 0, PLAIN).gate, n);
  }

  lemma RepeatReads(n: string, target: Store)
    ensures Reads(CfgWith(0, false, []), EnvWith(false, false), SourceOf(n), target, FROM, META, PLAIN)
  {
    Fetched(CfgWith(0, false, []), EnvWith(false, false), n, target);
  }

  lemma EmptyWrites(d: Digest)
    ensures Writes(CfgWith(0, false, []), NOTHING, MOVED, d) && LIB.validTarget(MOVED)
    ensures Ensure(CfgWith(0, false, []), EnvWith(false, false), NOTHING, "x/a").ok
  {
  }

  /** Into an empty registry two calls push the image `r/a:v` twice, under two names, because the
      first could not read its architecture. */
  lemma PushedTwice()
    ensures var cfg := CfgWith(0, false, []);
            var first := Mirror(cfg, EnvWith(true, false), SourceOf(""), EMPTY, NOTHING, "r/a:v", META);
            && first.outcome.None? && first.sent == Some((PLAIN, PayloadOf("")))
            && Mirror(cfg, EnvWith(false, false), SourceOf(""), EMPTY, first.target, "r/a:v", META).sent.Some?
  {
    var cfg := CfgWith(0, false, []);
    var first := Mirror(cfg, EnvWith(true, false), SourceOf(""), EMPTY, NOTHING, "r/a:v", META);
    Starts(0);
    FirstCall("");
    RepeatReads("", first.target);
    Plain("x");
    EmptyWrites(LIB.hash(ImageOf("")));
    DivergesAt(cfg, EnvWith(true, false), EnvWith(false, false), SourceOf(""), EMPTY, NOTHING, "r/a:v", META,
               FROM, META, PLAIN, PayloadOf(""));
  }

  // ---- Calls that overwrite a tag ----

  function JobOf(n: string, archFails: bool): Job { Job("r/a:v", META, EnvWith(archFails, false), SourceOf(n)) }

  const OTHER := Job("r/x/a:v", META, EnvWith(true, true), NOTHING)

  lemma TaskStarts(cooldown: int, n: string, archFails: bool)
    ensures P.TaskOf(CfgWith(cooldown, false, []), JobOf(n, archFails)).start == Enter(FROM, META, PLAIN)
    ensures P.TaskOf(CfgWith(cooldown, false, []), OTHER).start == Enter(FROM_X, META, MOVED)
  {
    Starts(cooldown);
  }

  lemma TaskPulls(cooldown: int, n: string)
    ensures P.TaskOf(CfgWith(cooldown, false, []), JobOf(n, true)).pull(NOTHING) == Carry(PayloadOf(n), PLAIN)
    ensures P.TaskOf(CfgWith(cooldown, false, []), JobOf(n, false)).pull(NOTHING) == Carry(PayloadOf(n), MOVED)
  {
    TaskStarts(cooldown, n, true);
    TaskStarts(cooldown, n, false);
    LostCarries(cooldown, n, NOTHING);
    FoundCarries(cooldown, n, NOTHING);
  }

  lemma Digested(n: string)
    ensures LIB.hash(ImageOf(n)) == "x:" + n
  {
    assert "x" + ":" == "x:";
  }

  function DeliveryOf(cooldown: int, n: string): Delivery {
    Delivery(P.TaskOf(CfgWith(cooldown, false, []), JobOf(n, true)), PayloadOf(n), "x:" + n)
  }

  lemma Deliver(cooldown: int, n: string)
    ensures Delivers(CfgWith(cooldown, false, []), NOTHING, DeliveryOf(cooldown, n), PLAIN)
  {
    TaskStarts(cooldown, n, true);
    TaskPulls(cooldown, n);
    Digested(n);
  }

  lemma VersionIsKept(cooldown: int)
    ensures !Overwritable(CfgWith(cooldown, false, []), PLAIN) && Writable(CfgWith(cooldown, false, []), NOTHING, PLAIN)
  {
    assert Lower("v")[0] == 'v';
  }

  lemma BouncesOff(cooldown: int, n: string)
    ensures var cfg := CfgWith(cooldown, false, []);
            Bounces(NOTHING, P.TaskOf(cfg, JobOf(n, false)), PayloadOf(n), P.TaskOf(cfg, OTHER), PLAIN)
  {
    TaskStarts(cooldown, n, false);
    TaskPulls(cooldown, n);
  }

  lemma IsGenuine(cfg: Config, job: Job)
    ensures AllGenuine(cfg, [P.TaskOf(cfg, job)])
  {
    assert P.Genuine(cfg, P.TaskOf(cfg, job));
  }

  lemma GenuineTogether(cfg: Config, xs: seq<P.Task>, ys: seq<P.Task>)
    requires AllGenuine(cfg, xs) && AllGenuine(cfg, ys)
    ensures AllGenuine(cfg, xs + ys)
  {
  }

  lemma DeliveryFor(cooldown: int, n: string) returns (x: Delivery)
    ensures Delivers(CfgWith(cooldown, false, []), NOTHING, x, PLAIN) && x.d == "x:" + n
    ensures AllGenuine(CfgWith(cooldown, false, []), [x.c])
  {
    Deliver(cooldown, n);
    IsGenuine(CfgWith(cooldown, false, []), JobOf(n, true));
    x := DeliveryOf(cooldown, n);
  }

  lemma BouncerFor(cooldown: int) returns (c: P.Task, p: Payload, e: P.Task)
    ensures Bounces(NOTHING, c, p, e, PLAIN) && AllGenuine(CfgWith(cooldown, false, []), [c] + [e])
  {
    BouncesOff(cooldown, "0");
    IsGenuine(CfgWith(cooldown, false, []), JobOf("0", false));
    IsGenuine(CfgWith(cooldown, false, []), OTHER);
    c, p, e := P.TaskOf(CfgWith(cooldown, false, []), JobOf("0", false)), PayloadOf("0"),
               P.TaskOf(CfgWith(cooldown, false, []), OTHER);
    GenuineTogether(CfgWith(cooldown, false, []), [c], [e]);
  }

  /** For every cooldown, four Mirror calls: one that will be bounced, one that stands in its way,
      and two that deliver different images to the same tag. */
  lemma Cast(cooldown: int) returns (cfg: Config, c: P.Task, p: Payload, e: P.Task, a: Delivery, b: Delivery)
    ensures cfg.cooldown == cooldown && !Overwritable(cfg, PLAIN) && Writable(cfg, NOTHING, PLAIN)
    ensures Bounces(NOTHING, c, p, e, PLAIN) && AllGenuine(cfg, [c, e, a.c, b.c])
    ensures Delivers(cfg, NOTHING, a, PLAIN) && a.d == "x:1" && Delivers(cfg, NOTHING, b, PLAIN) && b.d == "x:2"
  {
    cfg := CfgWith(cooldown, false, []);
    VersionIsKept(cooldown);
    c, p, e := BouncerFor(cooldown);
    a := DeliveryFor(cooldown, "1");
    b := DeliveryFor(cooldown, "2");
    assert "x:" + "1" == "x:1" && "x:" + "2" == "x:2";
    GenuineTogether(cfg, [c] + [e], [a.c]);
    GenuineTogether(cfg, [c] + [e] + [a.c], [b.c]);
    assert [c] + [e] + [a.c] + [b.c] == [c, e, a.c, b.c];
  }

  /** For every cooldown there is a configuration and there are four Mirror calls, of which one is
      bounced off another's target, after which the tag `a:v` of an empty registry is pushed and
      then overwritten, although that is not allowed. */
  lemma OverwrittenForEveryCooldown(cooldown: int, s: P.Sys)
      returns (cfg: Config, fs: seq<P.Event>, gs: seq<P.Event>, s3: P.Sys, s4: P.Sys)
    requires s.gate == EMPTY && s.procs == map[] && s.target == NOTHING
    ensures cfg.cooldown == cooldown && !Overwritable(cfg, PLAIN) && fs <= gs
    ensures Reaches(cfg, s, fs, s3) && s3.target.tags == map[PLAIN := "x:1"]
    ensures Reaches(cfg, s, gs, s4) && s4.target.tags == map[PLAIN := "x:2"]
  {
    var c, p, e, a, b;
    cfg, c, p, e, a, b := Cast(cooldown);
    fs, gs, s3, s4 := OverwrittenAfterBounce(cfg, s, c, p, e, a, b, PLAIN);
  }

  // ---- Nil without the tag ----

  /** A pod's digest `h` that is in the target repository without any tag. */
  lemma NilAndNoTag()
    ensures var meta, target := META.(imageID := "h"), Store(map[("a", "h") := ImageOf("")], map[], {});
            var call := Mirror(CfgWith(0, true, []), EnvWith(false, false), SourceOf(""), EMPTY, target, "r/a:v", meta);
            call.outcome.None? && call.target.tags == map[]
  {
    var cfg, meta, target := CfgWith(0, true, []), META.(imageID := "h"),
        Store(map[("a", "h") := ImageOf("")], map[], {});
    PodIsKnown();
    BareRepos(cfg, meta);
    assert Exclusions.MatchExcluded([], "r/a:v").None?;
    assert StartOf(cfg, "r/a:v", meta) == Enter(FROM, meta, PLAIN);
    NilWithoutTag(cfg, EnvWith(false, false), SourceOf(""), EMPTY, target, "r/a:v", meta);
  }

  lemma PodIsKnown()
    ensures PodRef(CfgWith(0, true, []), FROM, META.(imageID := "h")) == Some(Pinned("r/a", "h"))
  {
    TrimTight("h", IsSpace);
    assert !Contains("h", "://");
    assert ContextName(FROM) == "r/a";
  }

  // ---- Orders of an index that decide the target ----

  /** An index entry for linux on `arch`. */
  function EntryFor(d: Digest, arch: string): Descriptor { Descriptor(d, false, Some(Platform(arch, "linux")), None) }

  function SpecFor(arch: string): Spec { Spec(arch, "linux") }

  lemma LinuxIsTight()
    ensures TrimSpace("linux") == "linux" && TrimSpace("") == "" && !EqualFold("linux", "unknown")
  {
    TrimTight("linux", IsSpace);
    assert |Lower("linux")| == 5 && |Lower("unknown")| == 7;
  }

  lemma ShortIsKnown(arch: string)
    requires Tight(arch, IsSpace) && 0 < |arch| < 7
    ensures TrimSpace(arch) == arch && Known(arch)
  {
    TrimTight(arch, IsSpace);
    assert |Lower(arch)| == |arch| && |Lower("unknown")| == 7;
  }

  lemma EntryIsRunnable(d: Digest, arch: string)
    requires Tight(arch, IsSpace) && 0 < |arch| < 7
    ensures Runnable(EntryFor(d, arch))
  {
    ShortIsKnown(arch);
    LinuxIsTight();
    assert |Lower("linux")| == 5 && |Lower("unknown")| == 7;
  }

  lemma CandidateMeans(want: string, d: Digest, arch: string)
    requires Tight(arch, IsSpace) && 0 < |arch| < 7 && Tight(want, IsSpace) && 0 < |want| < 7
    ensures Candidate(SpecFor(want), EntryFor(d, arch)) <==> EqualFold(want, arch)
  {
    EntryIsRunnable(d, arch);
    ShortIsKnown(arch);
    ShortIsKnown(want);
    LinuxIsTight();
  }

  lemma OneDesired()
    ensures Desired(CfgWith(0, true, [SpecFor("s")]), META) == [SpecFor("s")]
    ensures Primary(CfgWith(0, true, [SpecFor("s")]), META) == Some(Platform("s", "linux"))
  {
    LinuxIsTight();
    TrimTight("s", IsSpace);
    var none: seq<Spec> := [];
    assert none + [SpecFor("s")] == [SpecFor("s")] && [SpecFor("s")][1..] == none;
    assert Fresh([SpecFor("s")], Key, {}) == [SpecFor("s")] + Fresh(none, Key, {} + {Key(SpecFor("s"))});
  }

  lemma PairSelectable(x: Descriptor, y: Descriptor, platform: Platform)
    requires Runnable(x) && Runnable(y)
    requires var p := Spec(platform.arch, platform.os); !Candidate(p, x) && !Candidate(p, y)
    ensures Selectable([x, y], platform, x) && Selectable([x, y], platform, y)
  {
  }

  lemma NotFor(d: Digest, arch: string)
    requires arch == "x" || arch == "y"
    ensures !Candidate(SpecFor("s"), EntryFor(d, arch)) && Runnable(EntryFor(d, arch))
  {
    EntryIsRunnable(d, arch);
    CandidateMeans("s", d, arch);
    assert Lower("s")[0] == 's' && Lower(arch)[0] != 's';
  }

  const CHILDREN: Content := map[("r/a", "x:") := Image("x", ""), ("r/a", "y:") := Image("y", "")]

  const ONE := CfgWith(0, true, [SpecFor("s")])
  const FINE := EnvWith(false, false)
  const X := EntryFor("x:", "x")
  const Y := EntryFor("y:", "y")

  lemma OneIsSelected()
    ensures SelectsItself(ONE, FINE, CHILDREN, [X, Y], "r/a", META)
  {
    OneDesired();
  }

  lemma OneFrom()
    ensures BuildTarget(LIB, FROM, RepoFor(ONE, FROM, META)) == Some(PLAIN)
    ensures Transform([], "a", LIB.shortDigest) == "a"
  {
    BareRepos(ONE, META);
    BareRepo(ONE, FROM, META);
  }

  lemma BothPlain(t: Ref)
    ensures var name := Transform(ONE.rules, FROM.repo, LIB.shortDigest);
            && HexDigest(LIB.shortDigest) && PlainArch("x", name) && PlainArch("y", name)
            && LIB.validTarget(t.(repo := "x" + "/" + name)) && LIB.validTarget(t.(repo := "y" + "/" + name))
  {
    OneFrom();
    Plain("x");
    Plain("y");
  }

  lemma BothSelected()
    ensures Primary(ONE, META).Some?
    ensures var platform := Primary(ONE, META).value; Selectable([X, Y], platform, X) && Selectable([X, Y], platform, Y)
  {
    OneDesired();
    NotFor("x:", "x");
    NotFor("y:", "y");
    PairSelectable(X, Y, Platform("s", "linux"));
  }

  /** An index with an `x` and a `y` image, mirrored for a platform that it lacks: with `x` in
      front the call goes to one target, with `y` in front to another. */
  lemma FirstEntryDecides()
    ensures Destination(ONE, FINE, CHILDREN, [X] + [X, Y], "r/a", NOTHING, FROM, META, PLAIN) !=
            Destination(ONE, FINE, CHILDREN, [Y] + [X, Y], "r/a", NOTHING, FROM, META, PLAIN)
  {
    OneIsSelected();
    OneFrom();
    BothSelected();
    BothPlain(PLAIN);
    OrderDecides(ONE, FINE, CHILDREN, [X, Y], "r/a", NOTHING, FROM, META, PLAIN, X, Y, Image("x", ""), Image("y", ""));
  }

  // ---- The label sorts before the name is folded ----

  /** Cleaning a name that is clean but for its case folds it. */
  lemma CleanFolds(p: string, clean: string, digest: string -> string)
    requires HexDigest(digest) && Lower(p) == clean && IsClean(clean) && p[0] != '/'
    ensures Clean(p, digest) == clean
  {
    assert TrimPrefix(p, "/") == p;
    assert Sanitize(p) == clean;
    TrimTight(clean, Cut);
  }

  lemma LabelledRepo(cfg: Config, archs: string, clean: string)
    requires cfg.template == "$arch" && cfg.rules == [] && cfg.lib == LIB && '/' !in archs && archs != ""
    requires Tight(archs, IsSpace) && Lower(archs + "/" + "a") == clean && IsClean(clean)
    ensures RepoFor(cfg, FROM, META.(arch := archs)) == clean
  {
    Hexes();
    assert IsClean("a");
    CleanFixedPoint("a", LIB.shortDigest);
    PlainArchExpands(META.(arch := archs));
    assert TrimSuffix(archs, "/") == archs;
    CleanFolds(archs + "/" + "a", clean, LIB.shortDigest);
  }

  lemma SortTwo(a: string, b: string)
    requires Less(a, b)
    ensures Sort([a, b]) == [a, b] && Sort([b, a]) == [a, b]
  {
    assert [a, b][1..] == [b] && [b, a][1..] == [a] && [b][1..] == [] && [a][1..] == [];
    LessIrreflexive(a);
    if Less(b, a) { LessTransitive(a, b, a); }
    var none: seq<string> := [];
    assert Sort(none) == none && Insert(a, none) == [a] && Insert(b, none) == [b];
    assert Sort([b]) == [b] && Sort([a]) == [a];
  }

  /** A short word of letters and digits. */
  predicate Word(w: string) {
    0 < |w| < 7 && forall i :: 0 <= i < |w| ==> 'a' <= w[i] <= 'z' || 'A' <= w[i] <= 'Z' || '0' <= w[i] <= '9'
  }

  lemma WordsAreKnown(w: string)
    requires Word(w)
    ensures TrimSpace(w) == w && Known(w) && Tight(w, IsSpace)
  {
    ShortIsKnown(w);
  }

  lemma ArchsAreWords()
    ensures Word("arm64") && Word("ARM64") && Word("amd64")
  {
  }

  const TWO := CfgWith(0, true, [SpecFor("arm64"), SpecFor("amd64")])
  const ARM := EntryFor("1", "arm64")
  const ARM_UPPER := EntryFor("2", "ARM64")
  const AMD := EntryFor("3", "amd64")

  lemma Folded()
    ensures Lower("arm64") == "arm64" && Lower("ARM64") == "arm64" && Lower("amd64") == "amd64" && "arm64" != "amd64"
  {
    assert "arm64"[1] == 'r' && "amd64"[1] == 'm';
  }

  lemma TwoFreshSpecs()
    ensures Fresh([SpecFor("arm64"), SpecFor("amd64")], Key, {}) == [SpecFor("arm64"), SpecFor("amd64")]
  {
    KeysDiffer();
    TwoFresh(SpecFor("arm64"), SpecFor("amd64"));
  }

  lemma TwoDesired()
    ensures Desired(TWO, META) == [SpecFor("arm64"), SpecFor("amd64")] && PullsSubset(TWO, META)
  {
    var none: seq<Spec> := [];
    LinuxIsTight();
    TwoFreshSpecs();
    assert none + [SpecFor("arm64"), SpecFor("amd64")] == [SpecFor("arm64"), SpecFor("amd64")];
  }

  lemma TwoDistinguishable()
    ensures Distinguishable([SpecFor("arm64"), SpecFor("amd64")])
  {
    KeysDiffer();
    ArchsAreWords();
    FieldsAreSet("arm64");
    FieldsAreSet("amd64");
    PairDistinguishable(SpecFor("arm64"), SpecFor("amd64"));
  }

  lemma PairDistinguishable(a: Spec, b: Spec)
    requires TrimSpace(a.arch) != "" && TrimSpace(a.os) != "" && TrimSpace(b.arch) != "" && TrimSpace(b.os) != ""
    requires Key(a) != Key(b)
    ensures Distinguishable([a, b])
  {
  }

  lemma FieldsAreSet(arch: string)
    requires Word(arch)
    ensures TrimSpace(SpecFor(arch).arch) != "" && TrimSpace(SpecFor(arch).os) != ""
  {
    WordsAreKnown(arch);
    LinuxIsTight();
  }

  lemma KeysDiffer()
    ensures Key(SpecFor("arm64")) != Key(SpecFor("amd64"))
  {
    LinuxIsTight();
    ArchsAreWords();
    WordsAreKnown("arm64");
    WordsAreKnown("amd64");
    Folded();
    if Key(SpecFor("arm64")) == Key(SpecFor("amd64")) {
      LowerKeepsSlash("linux");
      SplitAtSlash(Lower("linux"), "arm64", Lower("linux"), "amd64");
    }
  }

  lemma TwoFresh(a: Spec, b: Spec)
    requires Key(a) != Key(b)
    ensures Fresh([a, b], Key, {}) == [a, b]
  {
    assert [a, b][1..] == [b] && [b][1..] == [];
    FreshStep([], [a, b], Key, {});
    FreshStep([], [b], Key, {Key(a)});
    assert {} + {Key(a)} == {Key(a)};
  }

  lemma TwoKept(ms: seq<Descriptor>, a: Spec, b: Spec)
    requires Offers(ms, a) && Offers(ms, b)
    ensures Kept(ms, [a, b], Candidate, true) == [a, b]
  {
    OfferedMeans(ms, a);
    OfferedMeans(ms, b);
    AllKept(ms, [a, b], Candidate);
  }

  lemma ArmCandidates()
    ensures Candidate(SpecFor("arm64"), ARM) && Candidate(SpecFor("arm64"), ARM_UPPER)
  {
    Folded();
    CandidateMeans("arm64", "1", "arm64");
    CandidateMeans("arm64", "2", "ARM64");
  }

  lemma AmdCandidate()
    ensures Candidate(SpecFor("amd64"), AMD)
  {
    CandidateMeans("amd64", "3", "amd64");
  }

  lemma TwoChoices(ms: seq<Descriptor>, a: Spec, b: Spec, x: Descriptor, y: Descriptor)
    requires x in ms && y in ms && Candidate(a, x) && Candidate(b, y)
    ensures Choice(ms, [a, b], [x, y])
  {
    TwoKept(ms, a, b);
    ChoiceOfTwo(ms, a, b, x, y);
  }

  lemma ChoiceOfTwo(ms: seq<Descriptor>, a: Spec, b: Spec, x: Descriptor, y: Descriptor)
    requires Kept(ms, [a, b], Candidate, true) == [a, b] && x in ms && y in ms && Candidate(a, x) && Candidate(b, y)
    ensures Choice(ms, [a, b], [x, y])
  {
  }

  lemma ArchsOfTwo(d: Digest, x: string, e: Digest, y: string)
    requires Word(x) && Word(y)
    ensures Archs([EntryFor(d, x), EntryFor(e, y)]) == [x, y]
  {
    var ms := [EntryFor(d, x), EntryFor(e, y)];
    WordsAreKnown(x);
    WordsAreKnown(y);
    assert ms[1..] == [EntryFor(e, y)] && ms[1..][1..] == [];
    assert Archs(ms[1..]) == [y];
  }

  lemma JoinTwo(x: string, y: string)
    ensures Join([x, y], "-") == x + "-" + y
  {
    assert [x, y][1..] == [y];
    assert Join([y], "-") == y;
  }

  /** The label of an index of two entries, of which `lo` sorts before `hi`. */
  lemma LabelOfTwo(d: Digest, x: string, e: Digest, y: string, lo: string, hi: string)
    requires Word(x) && Word(y) && Less(lo, hi) && ((x, y) == (lo, hi) || (x, y) == (hi, lo))
    ensures IndexLabel([EntryFor(d, x), EntryFor(e, y)]) == lo + "-" + hi
  {
    ArchsOfTwo(d, x, e, y);
    SortTwo(lo, hi);
    JoinTwo(lo, hi);
  }

  lemma LowerWord(w: string)
    requires Word(w)
    ensures |Lower(w)| == |w|
    ensures forall i :: 0 <= i < |w| ==> 'a' <= Lower(w)[i] <= 'z' || '0' <= Lower(w)[i] <= '9'
  {
  }

  lemma TwoWordsClean(x: string, y: string)
    requires Word(x) && Word(y)
    ensures Lower(x + "-" + y + "/" + "a") == Lower(x) + "-" + Lower(y) + "/" + "a"
    ensures IsClean(Lower(x) + "-" + Lower(y) + "/" + "a")
  {
    LowerWord(x);
    LowerWord(y);
    LowerConcat(x, "-");
    LowerConcat(x + "-", y);
    LowerConcat(x + "-" + y, "/");
    LowerConcat(x + "-" + y + "/", "a");
  }

  lemma SubsetTarget(c: seq<Descriptor>, lo: string, hi: string)
    requires Word(lo) && Word(hi) && IndexLabel(c) == lo + "-" + hi
    ensures TargetOf(TWO, FINE, FROM, META, Index(c)) == Some(Tagged(Lower(lo) + "-" + Lower(hi) + "/" + "a", "v"))
  {
    TwoWordsClean(lo, hi);
    LabelledRepo(TWO, lo + "-" + hi, Lower(lo) + "-" + Lower(hi) + "/" + "a");
  }

  lemma LessByFirst(a: string, b: string)
    requires a != "" && b != "" && a[0] < b[0]
    ensures Less(a, b)
  {
  }

  lemma LessBySecond(a: string, b: string)
    requires |a| > 1 && |b| > 1 && a[0] == b[0] && a[1] < b[1]
    ensures Less(a, b)
  {
    LessByFirst(a[1..], b[1..]);
  }

  /** The sort sees the case of an architecture, the name that is made of the label does not. */
  lemma LowerCaseTarget() returns (t: Ref)
    ensures TargetOf(TWO, FINE, FROM, META, Index([ARM, AMD])) == Some(t)
            && t.repo == "amd64" + "-" + "arm64" + "/" + "a"
  {
    Folded();
    LessBySecond("amd64", "arm64");
    LabelOfTwo("1", "arm64", "3", "amd64", "amd64", "arm64");
    SubsetTarget([ARM, AMD], "amd64", "arm64");
    t := Tagged("amd64" + "-" + "arm64" + "/" + "a", "v");
  }

  lemma UpperCaseTarget() returns (t: Ref)
    ensures TargetOf(TWO, FINE, FROM, META, Index([ARM_UPPER, AMD])) == Some(t)
    ensures t.repo == "arm64" + "-" + "amd64" + "/" + "a"
  {
    Folded();
    LessByFirst("ARM64", "amd64");
    LabelOfTwo("2", "ARM64", "3", "amd64", "ARM64", "amd64");
    SubsetTarget([ARM_UPPER, AMD], "ARM64", "amd64");
    t := Tagged("arm64" + "-" + "amd64" + "/" + "a", "v");
  }

  const SUBSET: Content := map[("r/a", "1") := Image("", ""), ("r/a", "2") := Image("", ""),
      ("r/a", "3") := Image("", "")]

  lemma SubsetLoads(c: seq<Descriptor>)
    requires forall d :: d in c ==> d in [ARM, ARM_UPPER, AMD]
    ensures ChoiceTarget(TWO, FINE, SUBSET, c, "r/a", NOTHING, FROM, META, PLAIN) ==
            TargetOf(TWO, FINE, FROM, META, Index(c))
  {
    forall d | d in c ensures LoadEntry(LIB, FINE, SUBSET, "r/a", NOTHING, "a", d).Some? {
      assert ("r/a", d.digest) in SUBSET;
    }
  }

  lemma TwoFrom()
    ensures BuildTarget(LIB, FROM, RepoFor(TWO, FROM, META)) == Some(PLAIN)
  {
    BareRepos(TWO, META);
  }

  lemma ChoiceLeads(c: seq<Descriptor>, t: Ref)
    requires Choice([ARM, ARM_UPPER, AMD], Desired(TWO, META), c) && c != []
    requires TargetOf(TWO, FINE, FROM, META, Index(c)) == Some(t)
    ensures Destination(TWO, FINE, SUBSET, c + [ARM, ARM_UPPER, AMD], "r/a", NOTHING, FROM, META, PLAIN) == Some(t)
  {
    TwoFrom();
    TwoDesired();
    TwoDistinguishable();
    forall d | d in c ensures d in [ARM, ARM_UPPER, AMD] {
      var i :| 0 <= i < |c| && c[i] == d;
    }
    SubsetLoads(c);
    ChoiceDestination(TWO, FINE, SUBSET, [ARM, ARM_UPPER, AMD], "r/a", NOTHING, FROM, META, PLAIN, c);
  }

  lemma ChoiceWith(x: Descriptor)
    requires x == ARM || x == ARM_UPPER
    ensures Choice([ARM, ARM_UPPER, AMD], Desired(TWO, META), [x, AMD])
  {
    TwoDesired();
    ArmCandidates();
    AmdCandidate();
    TwoChoices([ARM, ARM_UPPER, AMD], SpecFor("arm64"), SpecFor("amd64"), x, AMD);
  }

  lemma LeadsWith(x: Descriptor, t: Ref)
    requires (x == ARM || x == ARM_UPPER) && TargetOf(TWO, FINE, FROM, META, Index([x, AMD])) == Some(t)
    ensures Destination(TWO, FINE, SUBSET, [x, AMD] + [ARM, ARM_UPPER, AMD], "r/a", NOTHING, FROM, META, PLAIN) ==
            Some(t)
  {
    ChoiceWith(x);
    ChoiceLeads([x, AMD], t);
  }

  lemma LowerCaseFirst() returns (t: Ref)
    ensures Destination(TWO, FINE, SUBSET, [ARM, AMD] + [ARM, ARM_UPPER, AMD], "r/a", NOTHING, FROM, META, PLAIN) ==
            Some(t)
    ensures t.repo == "amd64" + "-" + "arm64" + "/" + "a"
  {
    t := LowerCaseTarget();
    LeadsWith(ARM, t);
  }

  lemma UpperCaseFirst() returns (t: Ref)
    ensures Destination(TWO, FINE, SUBSET, [ARM_UPPER, AMD] + [ARM, ARM_UPPER, AMD], "r/a", NOTHING, FROM, META,
            PLAIN) ==
            Some(t)
    ensures t.repo == "arm64" + "-" + "amd64" + "/" + "a"
  {
    t := UpperCaseTarget();
    LeadsWith(ARM_UPPER, t);
  }

  lemma ReposDiffer()
    ensures "amd64" + "-" + "arm64" + "/" + "a" != "arm64" + "-" + "amd64" + "/" + "a"
  {
    assert ("amd64" + "-" + "arm64" + "/" + "a")[1] == 'm' && ("arm64" + "-" + "amd64" + "/" + "a")[1] == 'r';
  }

  /** An index with entries `arm64`, `ARM64` and `amd64`, of which `arm64` and `amd64` are wanted:
      the order of the first two decides the target, because the label is sorted before the
      repository name is folded. */
  lemma CaseDecides()
    ensures Destination(TWO, FINE, SUBSET, [ARM, AMD] + [ARM, ARM_UPPER, AMD], "r/a", NOTHING, FROM, META, PLAIN) !=
            Destination(TWO, FINE, SUBSET, [ARM_UPPER, AMD] + [ARM, ARM_UPPER, AMD], "r/a", NOTHING, FROM, META, PLAIN)
  {
    var t := LowerCaseFirst();
    var u := UpperCaseFirst();
    ReposDiffer();
  }
}
