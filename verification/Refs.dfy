/** References of images in a registry, as the mirror names them. */
module Refs {

  /** A tag or a digest inside a repository. */
  datatype Ref = Tagged(repo: string, tag: string) | Pinned(repo: string, digest: string)

  /** The string under which a target is claimed: registry, repository, then tag or digest. */
  function Render(registry: string, r: Ref): string {
    match r
    case Tagged(repo, tag) => registry + "/" + repo + ":" + tag
    case Pinned(repo, digest) => registry + "/" + repo + "@" + digest
  }

  /** Repository paths produced by the cleaner never contain the two separators. */
  predicate Separable(repo: string) {
    forall i :: 0 <= i < |repo| ==> repo[i] != ':' && repo[i] != '@'
  }

  function Body(r: Ref): string {
    match r
    case Tagged(repo, tag) => repo + ":" + tag
    case Pinned(repo, digest) => repo + "@" + digest
  }

  lemma RenderSplits(registry: string, r: Ref)
    ensures Render(registry, r) == registry + "/" + Body(r)
  {
  }

  lemma ShorterRepoDiffers(a: Ref, b: Ref)
    requires Separable(b.repo) && |a.repo| < |b.repo|
    ensures Body(a) != Body(b)
  {
    assert Body(a)[|a.repo|] == if a.Tagged? then ':' else '@';
    assert Body(b)[|a.repo|] == b.repo[|a.repo|];
  }

  lemma BodyInjective(a: Ref, b: Ref)
    requires Separable(a.repo) && Separable(b.repo)
    requires Body(a) == Body(b)
    ensures a == b
  {
    var s, n := Body(a), |a.repo|;
    assert n == |b.repo| by {
      if n < |b.repo| { ShorterRepoDiffers(a, b); }
      if |b.repo| < n { ShorterRepoDiffers(b, a); }
    }
    assert a.repo == s[..n] == b.repo;
    assert s[n] == if a.Tagged? then ':' else '@';
    assert s[n] == if b.Tagged? then ':' else '@';
    assert s[n+1..] == if a.Tagged? then a.tag else a.digest;
    assert s[n+1..] == if b.Tagged? then b.tag else b.digest;
  }

  /** Two references claim the same string only if they are the same reference, so the
      in-flight table may be keyed by references. */
  lemma RenderInjective(registry: string, a: Ref, b: Ref)
    requires Separable(a.repo) && Separable(b.repo)
    ensures Render(registry, a) == Render(registry, b) <==> a == b
  {
    if Render(registry, a) == Render(registry, b) {
      RenderSplits(registry, a);
      RenderSplits(registry, b);
      var k := |registry + "/"|;
      assert Body(a) == Render(registry, a)[k..];
      assert Body(b) == Render(registry, b)[k..];
      BodyInjective(a, b);
    }
  }
}
