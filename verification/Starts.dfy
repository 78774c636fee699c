/** What a call makes of its request before it asks to be admitted: which reference it pulls, which
    target it builds, and whether it goes on at all. */
module Starts {
  import opened Text
  import opened Refs
  import opened Gate
  import opened Registry
  import opened Platforms
  import opened RepoNames
  import opened Mirroring
  import Exclusions

  /** A digest is wanted: digest pull is on and the tag, if there is one, is not to be ignored. */
  ghost predicate WantsDigest(pullByDigest: bool, ignoredTags: set<string>, s: Source) {
    && pullByDigest
    && match s
       case ByTag(_, _, tag) => Lower(TrimSpace(tag)) !in ignoredTags
       case ByDigest(_, _, _, _) => true
  }

  /** The reference that an image ID stands for: a whole reference if it has an at sign, else a
      digest in the repository of the source. */
  ghost predicate StandsFor(lib: Library, imageID: string, s: Source, r: Ref) {
    var id := NormalizeImageID(NormalizeImageID(imageID));
    if '@' in id then lib.digestReference(id).Some? && r == Pinned(lib.digestReference(id).value.0,
        lib.digestReference(id).value.1)
    else id != "" && lib.isHash(id) && r == Pinned(s.registry + "/" + s.repo, id)
  }

  lemma PodRefMeaning(cfg: Config, s: Source, meta: Metadata, r: Ref)
    ensures PodRef(cfg, s, meta) == Some(r) <==>
            WantsDigest(cfg.pullByDigest, cfg.ignoredTags, s) && StandsFor(cfg.lib, meta.imageID, s, r)
  {
    BlankID();
  }

  lemma BlankID()
    ensures NormalizeImageID("") == ""
  {
  }

  /** Which reference is pulled.  With digest pull off, or for a tag to be ignored, it is the source
      as it stands, and the call goes on.  Otherwise it is the digest that the image ID of the pod
      stands for; without one, a source given by digest is pulled as it stands, and a call for a tag
      returns nil before it asks to be admitted. */
  lemma PullReference(cfg: Config, s: Source, meta: Metadata, t: Ref)
    ensures !WantsDigest(cfg.pullByDigest, cfg.ignoredTags, s) ==>
              && PullRef(cfg, s, meta) == (match s
                                           case ByTag(registry, repo, tag) => Tagged(registry + "/" + repo, tag)
                                           case ByDigest(registry, repo, d, _) => Pinned(registry + "/" + repo, d))
              && Located(cfg, s, meta, Some(t)) == Enter(s, meta, t)
    ensures forall r :: WantsDigest(cfg.pullByDigest, cfg.ignoredTags, s) && StandsFor(cfg.lib, meta.imageID, s, r) ==>
              PullRef(cfg, s, meta) == r && Located(cfg, s, meta, Some(t)) == Enter(s, meta, t)
    ensures WantsDigest(cfg.pullByDigest, cfg.ignoredTags, s)
            && (forall r :: !StandsFor(cfg.lib, meta.imageID, s, r)) ==>
              match s
              case ByTag(_, _, _) => Located(cfg, s, meta, Some(t)) == Quit(None)
              case ByDigest(registry, repo, d, _) =>
                && PullRef(cfg, s, meta) == Pinned(registry + "/" + repo, d)
                && Located(cfg, s, meta, Some(t)) == Enter(s, meta, t)
  {
    forall r { PodRefMeaning(cfg, s, meta, r); }
    if PodRef(cfg, s, meta).Some? { PodRefMeaning(cfg, s, meta, PodRef(cfg, s, meta).value); }
  }

  /** The reference that a source stands for in repository `repo` of the target: a tag in front of a
      digest is honoured. */
  ghost predicate TargetFor(s: Source, repo: string, t: Ref) {
    match s
    case ByTag(_, _, tag) => t == Tagged(repo, tag)
    case ByDigest(_, _, _, Some(tag)) => t == Tagged(repo, tag)
    case ByDigest(_, _, d, None) => t == Pinned(repo, d)
  }

  lemma TargetMeaning(lib: Library, s: Source, repo: string, t: Ref)
    requires TargetFor(s, repo, t)
    ensures BuildTarget(lib, s, repo) == if lib.validTarget(t) then Some(t) else None
  {
  }

  /** The registry of the source, under its usual name, unless the request gives one. */
  lemma RegistryMeaning(meta: Metadata, s: Source)
    ensures var full := WithRegistry(meta, s);
            && full.(registry := "") == meta.(registry := "")
            && full.registry == if meta.registry != "" then meta.registry
                                else if s.registry == "index.docker.io" then "docker.io" else s.registry
  {
  }

  /** A digest is wanted for a tag and not known yet. */
  ghost predicate Waits(cfg: Config, s: Source, imageID: string) {
    s.ByTag? && WantsDigest(cfg.pullByDigest, cfg.ignoredTags, s) && forall r :: !StandsFor(cfg.lib, imageID, s, r)
  }

  /** Where a request leads: nowhere if the source is excluded, an error if it cannot be parsed or its
      target is no reference, nowhere if a wanted digest is not known yet, and otherwise to the
      target in the repository for its metadata. */
  lemma StartMeaning(cfg: Config, src: string, meta: Metadata, t: Ref)
    ensures var start := StartOf(cfg, src, meta);
            if Exclusions.MatchExcluded(cfg.excluded, src).Some? then start == Quit(None)
            else match cfg.lib.parse(src)
              case None => start == Quit(Some(Plain(ParseSource)))
              case Some(s) =>
                var full := WithRegistry(meta, s);
                TargetFor(s, ResolveRepoPath(cfg.rules, cfg.template, s.repo, full, cfg.lib.shortDigest), t) ==>
                  start ==
                  if !cfg.lib.validTarget(t) then Quit(Some(Plain(ParseTarget)))
                  else if Waits(cfg, s, meta.imageID) then Quit(None)
                  else Enter(s, full, t)
  {
    match cfg.lib.parse(src)
    case None =>
    case Some(s) =>
      var full := WithRegistry(meta, s);
      var repo := RepoFor(cfg, s, full);
      if TargetFor(s, repo, t) {
        TargetMeaning(cfg.lib, s, repo, t);
        PullReference(cfg, s, full, t);
      }
  }
}
