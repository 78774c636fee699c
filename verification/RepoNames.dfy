/** Repository names at the target: cleaning, path mapping and prefix expansion. */
module RepoNames {
  import opened Text
  import opened Selection

  const MAX_REPO_NAME_LENGTH: nat := 256

  predicate Allowed(c: char) {
    'a' <= c <= 'z' || '0' <= c <= '9' || c == '_' || c == '/' || c == '.' || c == '-'
  }

  /** The characters stripped from both ends of a name. */
  predicate Cut(c: char) { c == '-' || c == '/' || c == '.' }

  predicate Hex(c: char) { '0' <= c <= '9' || 'a' <= c <= 'f' }

  /** What is known of the short digest: it is a non-empty hexadecimal string. */
  ghost predicate HexDigest(digest: string -> string) {
    forall s :: digest(s) != "" && forall i :: 0 <= i < |digest(s)| ==> Hex(digest(s)[i])
  }

  ghost predicate DigestLength(digest: string -> string, n: nat) {
    forall s :: |digest(s)| == n
  }

  function Sanitize(path: string): string {
    var p := Lower(TrimPrefix(path, "/"));
    seq(|p|, i requires 0 <= i < |p| => if Allowed(p[i]) then p[i] else '-')
  }

  /** The name before any shortening. */
  function Stripped(path: string): string { Trim(Sanitize(path), Cut) }

  function KeptLength(hash: string): nat {
    if MAX_REPO_NAME_LENGTH < |hash| + 1 then 0 else MAX_REPO_NAME_LENGTH - |hash| - 1
  }

  /** The head of the name that survives in front of the hash suffix. */
  function KeptHead(p: string, hash: string): string
    requires MAX_REPO_NAME_LENGTH < |p|
  {
    TrimRight(p[..KeptLength(hash)], Cut)
  }

  function Suffixed(p: string, hash: string): string
    requires MAX_REPO_NAME_LENGTH < |p|
  {
    var head := KeptHead(p, hash);
    Trim(if head == "" then hash else head + "-" + hash, Cut)
  }

  function Shortened(p: string, hash: string): string
    requires MAX_REPO_NAME_LENGTH < |p|
  {
    var q := Suffixed(p, hash);
    if |q| <= MAX_REPO_NAME_LENGTH then q
    else if |hash| >= MAX_REPO_NAME_LENGTH then Trim(hash[..MAX_REPO_NAME_LENGTH], Cut)
    else Trim(q[..MAX_REPO_NAME_LENGTH], Cut)
  }

  function Clean(path: string, digest: string -> string): string {
    var p := Stripped(path);
    var q := if MAX_REPO_NAME_LENGTH < |p| then Shortened(p, digest(p)) else p;
    if q == "" then "library/unknown" else q
  }

  /** The rewriting in the order in which the program performs it. */
  method CleanRepoName(path: string, digest: string -> string) returns (p: string)
    requires HexDigest(digest)
    ensures p == Clean(path, digest)
    ensures IsClean(p)
  {
    CleanIsClean(path, digest);
    p := Sanitize(path);
    p := Trim(p, Cut);
    if |p| > MAX_REPO_NAME_LENGTH {
      var hash := digest(p);
      var keep := MAX_REPO_NAME_LENGTH as int - |hash| - 1;
      if keep < 0 { keep := 0; }
      if keep > |p| { keep := |p|; }
      var trimmed := TrimRight(p[..keep], Cut);
      if trimmed == "" { p := hash; } else { p := trimmed + "-" + hash; }
      p := Trim(p, Cut);
      if |p| > MAX_REPO_NAME_LENGTH {
        if |hash| >= MAX_REPO_NAME_LENGTH {
          p := Trim(hash[..MAX_REPO_NAME_LENGTH], Cut);
        } else {
          p := Trim(p[..MAX_REPO_NAME_LENGTH], Cut);
        }
      }
    }
    if p == "" { p := "library/unknown"; }
  }

  /** One leading slash is dropped, letters are folded, and every other character that is not
      allowed becomes a dash. */
  lemma SanitizeMeaning(path: string)
    ensures var p := if path != "" && path[0] == '/' then path[1..] else path;
            && |Sanitize(path)| == |p|
            && forall i :: 0 <= i < |p| ==>
                 var c, r := p[i], Sanitize(path)[i];
                 if 'A' <= c <= 'Z' then r == 'a' + (c - 'A')
                 else if 'a' <= c <= 'z' || '0' <= c <= '9' || c == '_' || c == '/' || c == '.' || c == '-' then r == c
                 else r == '-'
  {
  }

  // ---- What a clean name is ----

  predicate AllAllowed(p: string) { forall i :: 0 <= i < |p| ==> Allowed(p[i]) }

  predicate IsClean(p: string) {
    p != "" && |p| <= MAX_REPO_NAME_LENGTH && AllAllowed(p) && Tight(p, Cut)
  }

  /** Between 1 and 256 characters, all of them allowed, and none of `-/.` at either end. */
  lemma CleanNames(p: string)
    ensures IsClean(p) <==>
            && 1 <= |p| <= 256
            && (forall c :: c in p ==>
                  'a' <= c <= 'z' || '0' <= c <= '9' || c == '_' || c == '/' || c == '.' || c == '-')
            && p[0] != '-' && p[0] != '/' && p[0] != '.'
            && p[|p| - 1] != '-' && p[|p| - 1] != '/' && p[|p| - 1] != '.'
  {
    assert forall i :: 0 <= i < |p| ==> p[i] in p;
  }

  /** What is stripped are dashes, slashes and dots at both ends; a name of which nothing remains
      has a name of its own. */
  lemma CleanMiddle(path: string, pre: string, mid: string, post: string, digest: string -> string)
    requires Sanitize(path) == pre + mid + post && |mid| <= 256 && Tight(mid, Cut)
    requires forall c :: c in pre || c in post ==> c == '-' || c == '/' || c == '.'
    ensures Clean(path, digest) == if mid == "" then "library/unknown" else mid
  {
    TrimMiddle(pre, mid, post, Cut);
  }

  lemma TrimAllowed(s: string)
    requires AllAllowed(s)
    ensures AllAllowed(Trim(s, Cut)) && Tight(Trim(s, Cut), Cut) && |Trim(s, Cut)| <= |s|
  {
    var a, b := TrimSlice(s, Cut);
  }

  lemma SuffixedShape(p: string, hash: string)
    requires MAX_REPO_NAME_LENGTH < |p| && AllAllowed(p) && Tight(p, Cut)
    requires hash != "" && forall i :: 0 <= i < |hash| ==> Hex(hash[i])
    ensures var head := KeptHead(p, hash);
            Suffixed(p, hash) == if head == "" then hash else head + "-" + hash
    ensures AllAllowed(Suffixed(p, hash)) && Tight(Suffixed(p, hash), Cut) && Suffixed(p, hash) != ""
    ensures |hash| < MAX_REPO_NAME_LENGTH ==> |Suffixed(p, hash)| <= MAX_REPO_NAME_LENGTH
  {
    var head := KeptHead(p, hash);
    var q := if head == "" then hash else head + "-" + hash;
    assert AllAllowed(q);
    assert head != "" ==> q[0] == p[0];
    assert q[|q| - 1] == hash[|hash| - 1];
    TrimTight(q, Cut);
  }

  lemma ShortenedIsClean(p: string, hash: string)
    requires MAX_REPO_NAME_LENGTH < |p| && AllAllowed(p) && Tight(p, Cut)
    requires hash != "" && forall i :: 0 <= i < |hash| ==> Hex(hash[i])
    ensures IsClean(Shortened(p, hash))
  {
    SuffixedShape(p, hash);
    if |hash| >= MAX_REPO_NAME_LENGTH {
      TrimTight(hash[..MAX_REPO_NAME_LENGTH], Cut);
    }
  }

  /** For every input: non-empty, at most 256 long, over the allowed alphabet, tight ends. */
  lemma CleanIsClean(path: string, digest: string -> string)
    requires HexDigest(digest)
    ensures IsClean(Clean(path, digest))
  {
    TrimAllowed(Sanitize(path));
    var p := Stripped(path);
    if MAX_REPO_NAME_LENGTH < |p| { ShortenedIsClean(p, digest(p)); }
  }

  /** The clean names are exactly the fixed points of the cleaner. */
  lemma CleanFixedPoint(p: string, digest: string -> string)
    requires HexDigest(digest)
    ensures Clean(p, digest) == p <==> IsClean(p)
  {
    CleanIsClean(p, digest);
    if IsClean(p) {
      assert TrimPrefix(p, "/") == p;
      assert Sanitize(p) == p;
      TrimTight(p, Cut);
    }
  }

  lemma CleanIdempotent(path: string, digest: string -> string)
    requires HexDigest(digest)
    ensures Clean(Clean(path, digest), digest) == Clean(path, digest)
  {
    CleanIsClean(path, digest);
    CleanFixedPoint(Clean(path, digest), digest);
  }

  function LastChars(s: string, n: nat): string { if n <= |s| then s[|s| - n..] else s }

  lemma SuffixedEnds(p: string, hash: string)
    requires MAX_REPO_NAME_LENGTH < |p| && AllAllowed(p) && Tight(p, Cut) && |hash| < MAX_REPO_NAME_LENGTH
    requires hash != "" && forall i :: 0 <= i < |hash| ==> Hex(hash[i])
    ensures Shortened(p, hash) != "" && LastChars(Shortened(p, hash), |hash|) == hash
  {
    SuffixedShape(p, hash);
  }

  lemma OverlongSuffix(a: string, digest: string -> string, n: nat)
    requires HexDigest(digest) && DigestLength(digest, n) && n < MAX_REPO_NAME_LENGTH
    requires |Stripped(a)| > MAX_REPO_NAME_LENGTH
    ensures LastChars(Clean(a, digest), n) == digest(Stripped(a))
  {
    TrimAllowed(Sanitize(a));
    SuffixedEnds(Stripped(a), digest(Stripped(a)));
  }

  lemma ShortenedShape(p: string, hash: string) returns (j: nat)
    requires 256 < |p| && AllAllowed(p) && Tight(p, Cut) && hash != "" && |hash| <= 254
    requires forall i :: 0 <= i < |hash| ==> Hex(hash[i])
    ensures 0 < j <= 255 - |hash| && Shortened(p, hash) == p[..j] + "-" + hash
    ensures p[j - 1] != '-' && p[j - 1] != '/' && p[j - 1] != '.'
    ensures forall i :: j <= i < 255 - |hash| ==> p[i] == '-' || p[i] == '/' || p[i] == '.'
  {
    SuffixedShape(p, hash);
    var front := p[..255 - |hash|];
    j := Keep(front, Cut);
    assert front[0] == p[0];
    assert KeptHead(p, hash) == p[..j];
    assert forall i :: j <= i < 255 - |hash| ==> front[i] == p[i];
  }

  /** An over-long name keeps as much of its head as leaves room for a dash and the digest, less
      what is stripped from the end of that head. */
  lemma OverlongShape(path: string, digest: string -> string, n: nat) returns (j: nat)
    requires HexDigest(digest) && DigestLength(digest, n) && n <= 254
    requires |Stripped(path)| > 256
    ensures var p := Stripped(path);
            && 0 < j <= 255 - n
            && Clean(path, digest) == p[..j] + "-" + digest(p)
            && p[j - 1] != '-' && p[j - 1] != '/' && p[j - 1] != '.'
            && forall i :: j <= i < 255 - n ==> p[i] == '-' || p[i] == '/' || p[i] == '.'
  {
    TrimAllowed(Sanitize(path));
    j := ShortenedShape(Stripped(path), digest(Stripped(path)));
  }

  /** Over-long names with different short digests stay different. */
  lemma OverlongStayDistinct(a: string, b: string, digest: string -> string, n: nat)
    requires HexDigest(digest) && DigestLength(digest, n) && n < MAX_REPO_NAME_LENGTH
    requires |Stripped(a)| > MAX_REPO_NAME_LENGTH && |Stripped(b)| > MAX_REPO_NAME_LENGTH
    requires digest(Stripped(a)) != digest(Stripped(b))
    ensures Clean(a, digest) != Clean(b, digest)
  {
    OverlongSuffix(a, digest, n);
    OverlongSuffix(b, digest, n);
  }

  // ---- Path mapping: the first matching rule rewrites, then the result is cleaned ----

  datatype Mapping = Mapping(from: string, to: string, regex: bool)

  /** A compiled regular expression: a match test and a replacement with a template. */
  datatype Regex = Regex(matches: string -> bool, replace: (string, string) -> string)

  datatype Rule = PrefixRule(from: string, to: string) | RegexRule(re: Regex, to: string) {
    predicate Applies(p: string) {
      match this
      case PrefixRule(from, _) => HasPrefix(p, from)
      case RegexRule(re, _) => re.matches(p)
    }
    function Rewrite(p: string): string {
      match this
      case PrefixRule(from, to) =>
        var rest := TrimPrefix(p, from);
        if to != "" then TrimSuffix(to, "/") + "/" + rest else rest
      case RegexRule(re, to) => re.replace(p, to)
    }
  }

  function FirstApplying(rules: seq<Rule>, p: string): (k: nat)
    ensures k <= |rules|
    ensures k < |rules| ==> rules[k].Applies(p)
    ensures forall i :: 0 <= i < k ==> !rules[i].Applies(p)
  {
    if rules == [] || rules[0].Applies(p) then 0 else 1 + FirstApplying(rules[1..], p)
  }

  function Transform(rules: seq<Rule>, p: string, digest: string -> string): string {
    var k := FirstApplying(rules, p);
    Clean(if k < |rules| then rules[k].Rewrite(p) else p, digest)
  }

  /** A prefix rule applies to the paths that start with its prefix, and puts its replacement in
      the place of it, with a slash behind it unless it is empty. */
  lemma PrefixRuleMeaning(from: string, to: string, p: string)
    ensures PrefixRule(from, to).Applies(p) <==> exists rest :: p == from + rest
    ensures forall rest :: p == from + rest ==>
              PrefixRule(from, to).Rewrite(p) ==
              if to == "" then rest else if to[|to| - 1] == '/' then to + rest else to + "/" + rest
  {
    if from <= p { assert p == from + p[|from|..]; }
    forall rest | p == from + rest
      ensures PrefixRule(from, to).Rewrite(p) ==
              if to == "" then rest else if to[|to| - 1] == '/' then to + rest else to + "/" + rest
    {
      assert TrimPrefix(p, from) == rest;
      if to != "" {
        assert to[|to| - 1..] == [to[|to| - 1]];
        assert to == to[..|to| - 1] + [to[|to| - 1]];
      }
    }
  }

  lemma FirstIs(rules: seq<Rule>, k: nat, p: string)
    requires k <= |rules| && (forall i :: 0 <= i < k ==> !rules[i].Applies(p)) && (k < |rules| ==> rules[k].Applies(p))
    ensures FirstApplying(rules, p) == k
  {
  }

  /** The first rule that applies decides, and no other. */
  lemma TransformMeaning(rules: seq<Rule>, k: nat, p: string, digest: string -> string)
    requires k <= |rules| && forall i :: 0 <= i < k ==> !rules[i].Applies(p)
    ensures k == |rules| ==> Transform(rules, p, digest) == Clean(p, digest)
    ensures k < |rules| && rules[k].Applies(p) ==> Transform(rules, p, digest) == Clean(rules[k].Rewrite(p), digest)
  {
    if k == |rules| || rules[k].Applies(p) { FirstIs(rules, k, p); }
  }

  /** The rule of a mapping, unless its pattern does not compile. */
  function CompileOne(m: Mapping, compile: string -> Option<Regex>): Option<Rule> {
    if !m.regex then Some(PrefixRule(m.from, m.to))
    else match compile(m.from)
      case None => None
      case Some(re) => Some(RegexRule(re, m.to))
  }

  function Compiled(mappings: seq<Mapping>, compile: string -> Option<Regex>): seq<Rule> {
    Picked(mappings, m => CompileOne(m, compile))
  }

  lemma CompiledMeaning(mappings: seq<Mapping>, compile: string -> Option<Regex>)
    ensures forall r :: r in Compiled(mappings, compile) <==>
              exists m :: m in mappings &&
                (if m.regex then compile(m.from).Some? && r == RegexRule(compile(m.from).value, m.to)
                 else r == PrefixRule(m.from, m.to))
  {
    PickedMembers(mappings, m => CompileOne(m, compile));
  }

  method CompileRules(mappings: seq<Mapping>, compile: string -> Option<Regex>) returns (rules: seq<Rule>)
    ensures rules == Compiled(mappings, compile)
    ensures forall r :: r in rules <==>
              exists m :: m in mappings &&
                (if m.regex then compile(m.from).Some? && r == RegexRule(compile(m.from).value, m.to)
                 else r == PrefixRule(m.from, m.to))
  {
    CompiledMeaning(mappings, compile);
    ghost var f := m => CompileOne(m, compile);
    rules := [];
    for i := 0 to |mappings|
      invariant rules == Picked(mappings[..i], f)
    {
      PickedStep(mappings, f, i);
      var m := mappings[i];
      if m.regex {
        match compile(m.from) {
          case Some(re) => rules := rules + [RegexRule(re, m.to)];
          case None =>
        }
      } else {
        rules := rules + [PrefixRule(m.from, m.to)];
      }
    }
    assert mappings[..|mappings|] == mappings;
  }

  /** The transformer as the program runs it: one pass over the rules with a break. */
  method TransformPath(rules: seq<Rule>, path: string, digest: string -> string) returns (p: string)
    requires HexDigest(digest)
    ensures p == Transform(rules, path, digest)
    ensures IsClean(p)
  {
    p := path;
    var k := 0;
    while k < |rules|
      invariant 0 <= k <= |rules| && p == path
      invariant forall i :: 0 <= i < k ==> !rules[i].Applies(path)
    {
      if rules[k].Applies(p) {
        p := rules[k].Rewrite(p);
        break;
      }
      k := k + 1;
    }
    assert k == FirstApplying(rules, path);
    p := CleanRepoName(p, digest);
  }

  // ---- Prefix templates ----

  datatype Metadata = Metadata(
    namespace: string, podName: string, containerName: string, arch: string, os: string, imageID: string,
    registry: string)

  /** The value standing at the front of `s`, with the length of its placeholder. */
  function Placeholder(s: string, meta: Metadata): Option<(string, nat)> {
    if "$namespace" <= s then Some((meta.namespace, 10))
    else if "$podname" <= s then Some((meta.podName, 8))
    else if "$container_name" <= s then Some((meta.containerName, 15))
    else if "$arch" <= s then Some((meta.arch, 5))
    else if "$registry" <= s then Some((meta.registry, 9))
    else None
  }

  type Lookup = string -> Option<(string, nat)>

  function Placeholders(meta: Metadata): Lookup { s => Placeholder(s, meta) }

  /** One pass from left to right, replacing what `lookup` finds at the front. */
  function Substitute(s: string, lookup: Lookup): string
    decreases |s|
  {
    var v := lookup(s);
    if s == "" then ""
    else if v.Some? && 0 < v.value.1 <= |s| then v.value.0 + Substitute(s[v.value.1..], lookup)
    else [s[0]] + Substitute(s[1..], lookup)
  }

  function NonBlank(segments: seq<string>): (r: seq<string>)
    ensures forall i :: 0 <= i < |r| ==> r[i] != ""
  {
    if segments == [] then []
    else
      var seg := TrimSpace(segments[0]);
      if seg == "" then NonBlank(segments[1..]) else [seg] + NonBlank(segments[1..])
  }

  function ExpandRepoPrefix(template: string, meta: Metadata): string {
    var prefix := TrimSpace(template);
    var expanded := TrimSpace(Substitute(prefix, Placeholders(meta)));
    if prefix == "" || expanded == "" then "" else Join(NonBlank(Split(expanded, '/')), "/")
  }

  function ResolveRepoPath(
      rules: seq<Rule>, template: string, srcRepo: string, meta: Metadata, digest: string -> string): string {
    var cleaned := Transform(rules, srcRepo, digest);
    var prefix := ExpandRepoPrefix(template, meta);
    if prefix == "" then cleaned
    else if cleaned == "" then Clean(prefix, digest)
    else Clean(TrimSuffix(prefix, "/") + "/" + cleaned, digest)
  }

  /** Whatever the template, the metadata and the path map, the resolved path is a clean name,
      hence a fixed point of the cleaner, and free of tag and digest separators. */
  lemma ResolvedPathIsClean(
      rules: seq<Rule>, template: string, srcRepo: string, meta: Metadata, digest: string -> string)
    requires HexDigest(digest)
    ensures var r := ResolveRepoPath(rules, template, srcRepo, meta, digest);
            && IsClean(r) && Clean(r, digest) == r
            && forall i :: 0 <= i < |r| ==> r[i] != ':' && r[i] != '@'
  {
    var r := ResolveRepoPath(rules, template, srcRepo, meta, digest);
    var k := FirstApplying(rules, srcRepo);
    var cleaned := Transform(rules, srcRepo, digest);
    CleanIsClean(if k < |rules| then rules[k].Rewrite(srcRepo) else srcRepo, digest);
    CleanIsClean(TrimSuffix(ExpandRepoPrefix(template, meta), "/") + "/" + cleaned, digest);
    CleanFixedPoint(r, digest);
  }

  // ---- What a template means ----

  ghost predicate NeedsDollar(lookup: Lookup) {
    forall s :: s != "" && s[0] != '$' ==> lookup(s).None?
  }

  lemma PlaceholdersNeedDollar(meta: Metadata)
    ensures NeedsDollar(Placeholders(meta))
  {
  }

  /** Text before the first placeholder is copied. */
  lemma {:induction false} SubstituteText(a: string, b: string, lookup: Lookup)
    requires '$' !in a && NeedsDollar(lookup)
    ensures Substitute(a + b, lookup) == a + Substitute(b, lookup)
    decreases |a|
  {
    if a == "" {
      assert a + b == b;
    } else {
      assert (a + b)[0] == a[0] && (a + b)[1..] == a[1..] + b;
      SubstituteText(a[1..], b, lookup);
      assert a + Substitute(b, lookup) == [a[0]] + (a[1..] + Substitute(b, lookup));
    }
  }

  /** A placeholder in front yields its value. */
  lemma SubstituteFront(name: string, b: string, lookup: Lookup, value: string)
    requires name != "" && lookup(name + b) == Some((value, |name|))
    ensures Substitute(name + b, lookup) == value + Substitute(b, lookup)
  {
    assert (name + b)[|name|..] == b;
  }

  /** Every placeholder of a template is replaced by the value it names, and the text between
      placeholders is kept. */
  lemma PlaceholderMeaning(meta: Metadata, text: string, b: string)
    requires '$' !in text
    ensures var f := Placeholders(meta);
            && Substitute(text + ("$namespace" + b), f) == text + (meta.namespace + Substitute(b, f))
            && Substitute(text + ("$podname" + b), f) == text + (meta.podName + Substitute(b, f))
            && Substitute(text + ("$container_name" + b), f) == text + (meta.containerName + Substitute(b, f))
            && Substitute(text + ("$arch" + b), f) == text + (meta.arch + Substitute(b, f))
            && Substitute(text + ("$registry" + b), f) == text + (meta.registry + Substitute(b, f))
  {
    var f := Placeholders(meta);
    PlaceholdersNeedDollar(meta);
    PlaceholderValues(meta, b);
    SubstituteText(text, "$namespace" + b, f);
    SubstituteFront("$namespace", b, f, meta.namespace);
    SubstituteText(text, "$podname" + b, f);
    SubstituteFront("$podname", b, f, meta.podName);
    SubstituteText(text, "$container_name" + b, f);
    SubstituteFront("$container_name", b, f, meta.containerName);
    SubstituteText(text, "$arch" + b, f);
    SubstituteFront("$arch", b, f, meta.arch);
    SubstituteText(text, "$registry" + b, f);
    SubstituteFront("$registry", b, f, meta.registry);
  }

  lemma PlaceholderValues(meta: Metadata, b: string)
    ensures Placeholder("$namespace" + b, meta) == Some((meta.namespace, 10))
    ensures Placeholder("$podname" + b, meta) == Some((meta.podName, 8))
    ensures Placeholder("$container_name" + b, meta) == Some((meta.containerName, 15))
    ensures Placeholder("$arch" + b, meta) == Some((meta.arch, 5))
    ensures Placeholder("$registry" + b, meta) == Some((meta.registry, 9))
  {
    assert ("$podname" + b)[1] == 'p' && ("$container_name" + b)[1] == 'c' && ("$arch" + b)[1] == 'a'
        && ("$registry" + b)[1] == 'r';
  }

  lemma {:induction false} ContainsLater(s: string, k: nat, p: string)
    requires k <= |s| && Contains(s[k..], p)
    ensures Contains(s, p)
  {
    if k == 0 {
      assert s[0..] == s;
    } else {
      assert s[k..] == s[1..][k - 1..];
      ContainsLater(s[1..], k - 1, p);
    }
  }

  lemma {:induction false} ContainsShorter(s: string, k: nat, p: string)
    requires k <= |s| && Contains(s[..k], p)
    ensures Contains(s, p)
  {
    if !(p <= s) {
      assert !(p <= s[..k]);
      assert s[..k][1..] == s[1..][..k - 1];
      ContainsShorter(s[1..], k - 1, p);
    }
  }

  /** Tables that agree wherever `p` is not in front substitute alike in text without `p`. */
  lemma {:induction false} SubstituteAgrees(s: string, p: string, f: Lookup, h: Lookup)
    requires !Contains(s, p) && forall x :: !(p <= x) ==> f(x) == h(x)
    ensures Substitute(s, f) == Substitute(s, h)
    decreases |s|
  {
    if s != "" {
      var v := f(s);
      var k := if v.Some? && 0 < v.value.1 <= |s| then v.value.1 else 1;
      if Contains(s[k..], p) { ContainsLater(s, k, p); }
      SubstituteAgrees(s[k..], p, f, h);
    }
  }

  /** A template that does not name the architecture expands the same for all of them. */
  lemma ArchUnused(template: string, meta: Metadata, arch: string)
    requires !Contains(template, "$arch")
    ensures ExpandRepoPrefix(template, meta.(arch := arch)) == ExpandRepoPrefix(template, meta)
  {
    var a, b := TrimSlice(template, IsSpace);
    if Contains(template[a..b], "$arch") {
      assert template[a..b] == template[..b][a..];
      ContainsLater(template[..b], a, "$arch");
      ContainsShorter(template, b, "$arch");
    }
    var f, h := Placeholders(meta.(arch := arch)), Placeholders(meta);
    assert forall x :: !("$arch" <= x) ==> f(x) == h(x);
    SubstituteAgrees(TrimSpace(template), "$arch", f, h);
  }

  // ---- The prefix in front of a name ----

  /** A segment without the blanks around it, if anything remains. */
  function Segment(s: string): Option<string> { if TrimSpace(s) == "" then None else Some(TrimSpace(s)) }

  lemma {:induction false} NonBlankPicks(segments: seq<string>)
    ensures NonBlank(segments) == Picked(segments, Segment)
  {
    if segments != [] {
      NonBlankPicks(segments[1..]);
      PickedFront(segments, Segment);
    }
  }

  /** The expanded template is read segment by segment; blank ones are dropped. */
  lemma ExpandMeaning(template: string, meta: Metadata, segs: seq<string>)
    requires segs != [] && forall i :: 0 <= i < |segs| ==> '/' !in segs[i]
    requires TrimSpace(Substitute(TrimSpace(template), Placeholders(meta))) == Join(segs, "/")
    ensures ExpandRepoPrefix(template, meta) == Join(Picked(segs, Segment), "/")
  {
    var expanded := Join(segs, "/");
    SplitJoin(segs, '/');
    NonBlankPicks(segs);
    assert TrimSpace("") == "";
    if expanded == "" {
      assert Split(expanded, '/') == [""];
      assert NonBlank([""]) == [];
    }
  }

  lemma {:induction false} NonBlankPieces(segments: seq<string>)
    requires forall i :: 0 <= i < |segments| ==> '/' !in segments[i]
    ensures forall i :: 0 <= i < |NonBlank(segments)| ==> '/' !in NonBlank(segments)[i]
  {
    if segments != [] {
      var a, b := TrimSlice(segments[0], IsSpace);
      NonBlankPieces(segments[1..]);
    }
  }

  lemma {:induction false} JoinEnds(parts: seq<string>)
    requires forall i :: 0 <= i < |parts| ==> '/' !in parts[i] && parts[i] != ""
    ensures Join(parts, "/") != "" ==> Join(parts, "/")[|Join(parts, "/")| - 1] != '/'
    ensures parts != [] ==> Join(parts, "/") != ""
  {
    if |parts| > 1 { JoinEnds(parts[1..]); }
  }

  lemma PrefixEnds(template: string, meta: Metadata)
    ensures var prefix := ExpandRepoPrefix(template, meta); TrimSuffix(prefix, "/") == prefix
  {
    var expanded := TrimSpace(Substitute(TrimSpace(template), Placeholders(meta)));
    SplitMeaning(expanded, '/');
    NonBlankPieces(Split(expanded, '/'));
    JoinEnds(NonBlank(Split(expanded, '/')));
    var prefix := ExpandRepoPrefix(template, meta);
    if prefix != "" { assert prefix[|prefix| - 1..] == [prefix[|prefix| - 1]]; }
  }

  /** The mapped name stands behind the expanded prefix and one slash, and the whole is cleaned. */
  lemma RepoPathMeaning(
      rules: seq<Rule>, template: string, srcRepo: string, meta: Metadata, digest: string -> string)
    requires HexDigest(digest)
    ensures var prefix, name := ExpandRepoPrefix(template, meta), Transform(rules, srcRepo, digest);
            ResolveRepoPath(rules, template, srcRepo, meta, digest) ==
            if prefix == "" then name else Clean(prefix + "/" + name, digest)
  {
    var k := FirstApplying(rules, srcRepo);
    CleanIsClean(if k < |rules| then rules[k].Rewrite(srcRepo) else srcRepo, digest);
    PrefixEnds(template, meta);
  }
}
