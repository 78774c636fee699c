/** Registries as content-addressed stores with a tag table. */
module Registry {
  import opened Text
  import opened Refs

  type Digest = string

  datatype Platform = Platform(arch: string, os: string)

  /** An entry of an image index; `reference` is the Docker reference-type annotation. */
  datatype Descriptor = Descriptor(digest: Digest, index: bool, platform: Option<Platform>, reference: Option<string>)

  datatype Object = Image(arch: string, payload: string) | Index(manifests: seq<Descriptor>)

  type Content = map<(string, Digest), Object>

  /** `repos` are the repositories that exist, for registries in which they have to be created. */
  datatype Store = Store(content: Content, tags: map<Ref, Digest>, repos: set<string>)

  const NOTHING := Store(map[], map[], {})

  /** The answer of a registry to a read. */
  datatype Read<+T> = Found(value: T) | Missing | Broken

  function Head(s: Store, r: Ref): Read<Digest> {
    match r
    case Tagged(_, _) => if r in s.tags then Found(s.tags[r]) else Missing
    case Pinned(repo, d) => if (repo, d) in s.content then Found(d) else Missing
  }

  function Get(s: Store, r: Ref): Read<Object> {
    match Head(s, r)
    case Found(d) => if (r.repo, d) in s.content then Found(s.content[(r.repo, d)]) else Missing
    case Missing => Missing
    case Broken => Broken
  }

  /** Every object is held under its own digest. */
  ghost predicate Addressed(content: Content, hash: Object -> Digest) {
    forall k :: k in content ==> hash(content[k]) == k.1
  }

  ghost predicate CollisionFree(hash: Object -> Digest) {
    forall a, b :: hash(a) == hash(b) ==> a == b
  }
}
