/** First matches and order-preserving partitions of lists. */
module Selection {
  import opened Text

  /** The position of the first element that satisfies `p`, or the length. */
  function FirstIndex<A>(xs: seq<A>, p: A -> bool): (k: nat)
    ensures k <= |xs|
    ensures k < |xs| ==> p(xs[k])
    ensures forall i :: 0 <= i < k ==> !p(xs[i])
  {
    if xs == [] || p(xs[0]) then 0 else 1 + FirstIndex(xs[1..], p)
  }

  /** The first entry of `ms` that is a candidate for `s`, or the length. */
  function FirstFor<S, D>(ms: seq<D>, s: S, cand: (S, D) -> bool): (k: nat)
    ensures k <= |ms|
    ensures k < |ms| ==> cand(s, ms[k])
    ensures forall i :: 0 <= i < k ==> !cand(s, ms[i])
  {
    if ms == [] || cand(s, ms[0]) then 0 else 1 + FirstFor(ms[1..], s, cand)
  }

  predicate Has<S, D>(ms: seq<D>, s: S, cand: (S, D) -> bool) { FirstFor(ms, s, cand) < |ms| }

  /** The specs that have a candidate, or those that have none, in order. */
  function Kept<S, D>(ms: seq<D>, specs: seq<S>, cand: (S, D) -> bool, want: bool): seq<S> {
    if specs == [] then []
    else
      var n := |specs| - 1;
      Kept(ms, specs[..n], cand, want) + (if Has(ms, specs[n], cand) == want then [specs[n]] else [])
  }

  /** For every spec that has a candidate, its first one. */
  function Firsts<S, D>(ms: seq<D>, specs: seq<S>, cand: (S, D) -> bool): seq<D> {
    if specs == [] then []
    else
      var n := |specs| - 1;
      var k := FirstFor(ms, specs[n], cand);
      Firsts(ms, specs[..n], cand) + (if k < |ms| then [ms[k]] else [])
  }

  /** What one more spec adds to the three lists. */
  lemma OneMore<S, D>(ms: seq<D>, specs: seq<S>, cand: (S, D) -> bool, n: nat)
    requires n < |specs|
    ensures var k := FirstFor(ms, specs[n], cand);
            && Firsts(ms, specs[..n + 1], cand) == Firsts(ms, specs[..n], cand) + (if k < |ms| then [ms[k]] else [])
            && Kept(ms, specs[..n + 1], cand, true) ==
                  Kept(ms, specs[..n], cand, true) + (if k < |ms| then [specs[n]] else [])
            && Kept(ms, specs[..n + 1], cand, false) ==
                  Kept(ms, specs[..n], cand, false) + (if k < |ms| then [] else [specs[n]])
  {
    assert specs[..n + 1][..n] == specs[..n];
  }

  lemma {:induction false} KeptHas<S(!new), D>(ms: seq<D>, specs: seq<S>, cand: (S, D) -> bool, want: bool)
    ensures forall s :: s in Kept(ms, specs, cand, want) <==> s in specs && Has(ms, s, cand) == want
  {
    if specs != [] {
      var n := |specs| - 1;
      KeptHas(ms, specs[..n], cand, want);
      assert specs == specs[..n] + [specs[n]];
    }
  }

  lemma {:induction false} AllKept<S(!new), D>(ms: seq<D>, specs: seq<S>, cand: (S, D) -> bool)
    requires forall s :: s in specs ==> Has(ms, s, cand)
    ensures Kept(ms, specs, cand, true) == specs
  {
    if specs != [] {
      AllKept(ms, specs[..|specs| - 1], cand);
    }
  }

  /** Each spec that has a candidate gets its first one, at its own place in the list. */
  lemma {:induction false} FirstsAreFirst<S, D>(ms: seq<D>, specs: seq<S>, cand: (S, D) -> bool)
    ensures |Firsts(ms, specs, cand)| == |Kept(ms, specs, cand, true)|
    ensures forall i :: 0 <= i < |Firsts(ms, specs, cand)| ==>
              var s := Kept(ms, specs, cand, true)[i];
              Has(ms, s, cand) && Firsts(ms, specs, cand)[i] == ms[FirstFor(ms, s, cand)]
  {
    if specs != [] {
      FirstsAreFirst(ms, specs[..|specs| - 1], cand);
    }
  }

  /** `whole` is `a` and `b` merged, each in its own order. */
  ghost predicate Shuffle<S>(a: seq<S>, b: seq<S>, whole: seq<S>) {
    if whole == [] then a == [] && b == []
    else
      var n := |whole| - 1;
      || (a != [] && a[|a| - 1] == whole[n] && Shuffle(a[..|a| - 1], b, whole[..n]))
      || (b != [] && b[|b| - 1] == whole[n] && Shuffle(a, b[..|b| - 1], whole[..n]))
  }

  lemma {:induction false} KeptShuffle<S, D>(ms: seq<D>, specs: seq<S>, cand: (S, D) -> bool)
    ensures Shuffle(Kept(ms, specs, cand, true), Kept(ms, specs, cand, false), specs)
  {
    if specs != [] {
      var n := |specs| - 1;
      KeptShuffle(ms, specs[..n], cand);
      var a, b := Kept(ms, specs, cand, true), Kept(ms, specs, cand, false);
      if Has(ms, specs[n], cand) {
        assert a[..|a| - 1] == Kept(ms, specs[..n], cand, true);
        assert b == Kept(ms, specs[..n], cand, false);
      } else {
        assert a == Kept(ms, specs[..n], cand, true);
        assert b[..|b| - 1] == Kept(ms, specs[..n], cand, false);
      }
    }
  }

  datatype Filtered<S, D, T> = Filtered(entries: seq<D>, parts: seq<T>, matched: seq<S>, missing: seq<S>)

  /** Loads the entries in order; the first failure is final. */
  function LoadAll<D, T>(ds: seq<D>, load: D -> Option<T>): Option<seq<T>> {
    if ds == [] then Some([])
    else
      var n := |ds| - 1;
      var front, x := LoadAll(ds[..n], load), load(ds[n]);
      if front.Some? && x.Some? then Some(front.value + [x.value]) else None
  }

  function FilterList<S, D, T>(
      ms: seq<D>, specs: seq<S>, cand: (S, D) -> bool, load: D -> Option<T>): Option<Filtered<S, D, T>> {
    match LoadAll(Firsts(ms, specs, cand), load)
    case None => None
    case Some(parts) => Some(Filtered(Firsts(ms, specs, cand), parts, Kept(ms, specs, cand, true),
        Kept(ms, specs, cand, false)))
  }

  lemma {:induction false} LoadAllEach<D, T>(ds: seq<D>, load: D -> Option<T>)
    ensures LoadAll(ds, load).Some? <==> forall d :: d in ds ==> load(d).Some?
    ensures LoadAll(ds, load).Some? ==>
              var xs := LoadAll(ds, load).value;
              |xs| == |ds| && forall i :: 0 <= i < |ds| ==> load(ds[i]) == Some(xs[i])
  {
    if ds != [] {
      var n := |ds| - 1;
      LoadAllEach(ds[..n], load);
      assert ds == ds[..n] + [ds[n]];
    }
  }

  lemma FilterMeaning<S, D(!new), T>(ms: seq<D>, specs: seq<S>, cand: (S, D) -> bool, load: D -> Option<T>)
    ensures var entries, f := Firsts(ms, specs, cand), FilterList(ms, specs, cand, load);
            && (f.None? <==> exists d :: d in entries && load(d).None?)
            && (f.Some? ==>
                  && f.value.entries == entries && |f.value.parts| == |entries|
                  && (f.value.matched == [] <==> entries == [])
                  && forall i :: 0 <= i < |entries| ==> load(entries[i]) == Some(f.value.parts[i]))
  {
    FirstsAreFirst(ms, specs, cand);
    LoadAllEach(Firsts(ms, specs, cand), load);
  }

  /** Two ways of loading that agree wherever both succeed load the same. */
  lemma {:induction false} SameLoads<D(!new), T>(ds: seq<D>, f: D -> Option<T>, h: D -> Option<T>)
    requires forall d :: d in ds && f(d).Some? && h(d).Some? ==> f(d) == h(d)
    ensures LoadAll(ds, f).Some? && LoadAll(ds, h).Some? ==> LoadAll(ds, f) == LoadAll(ds, h)
  {
    if ds != [] {
      SameLoads(ds[..|ds| - 1], f, h);
    }
  }

  lemma LoadAllStep<D, T>(ds: seq<D>, d: D, load: D -> Option<T>)
    ensures LoadAll(ds + [d], load) ==
            if LoadAll(ds, load).Some? && load(d).Some? then Some(LoadAll(ds, load).value + [load(d).value]) else None
  {
    assert (ds + [d])[..|ds|] == ds;
  }

  lemma FailureStep<S, D, T>(ms: seq<D>, specs: seq<S>, cand: (S, D) -> bool, load: D -> Option<T>, n: nat)
    requires n < |specs| && LoadAll(Firsts(ms, specs[..n], cand), load).None?
    ensures LoadAll(Firsts(ms, specs[..n + 1], cand), load).None?
  {
    OneMore(ms, specs, cand, n);
    var k, before := FirstFor(ms, specs[n], cand), Firsts(ms, specs[..n], cand);
    if k < |ms| { LoadAllStep(before, ms[k], load); } else { assert before + [] == before; }
  }

  lemma {:induction false} FailurePersists<S, D, T>(
      ms: seq<D>, specs: seq<S>, cand: (S, D) -> bool, load: D -> Option<T>, n: nat)
    requires n <= |specs| && LoadAll(Firsts(ms, specs[..n], cand), load).None?
    ensures LoadAll(Firsts(ms, specs, cand), load).None?
    decreases |specs| - n
  {
    if n < |specs| {
      FailureStep(ms, specs, cand, load, n);
      FailurePersists(ms, specs, cand, load, n + 1);
    } else {
      assert specs[..n] == specs;
    }
  }

  ghost predicate DistinctKeys<S>(specs: seq<S>, key: S -> string) {
    forall i, j :: 0 <= i < j < |specs| ==> key(specs[i]) != key(specs[j])
  }

  /** Keys that were pairwise different stay so among the kept specs. */
  lemma {:induction false} KeptKeys<S(!new), D>(
      ms: seq<D>, specs: seq<S>, cand: (S, D) -> bool, want: bool, key: S -> string)
    requires DistinctKeys(specs, key)
    ensures DistinctKeys(Kept(ms, specs, cand, want), key)
  {
    if specs != [] {
      var n := |specs| - 1;
      KeptKeys(ms, specs[..n], cand, want, key);
      KeptHas(ms, specs[..n], cand, want);
      var front := Kept(ms, specs[..n], cand, want);
      forall i | 0 <= i < |front| ensures key(front[i]) != key(specs[n]) {
        assert front[i] in front && front[i] in specs[..n];
      }
      assert DistinctKeys(front + [specs[n]], key);
    }
  }

  /** One pass over the specs with two accumulators, leaving at the first failed load. */
  method FilterInOrder<S, D, T>(
      ms: seq<D>, specs: seq<S>, cand: (S, D) -> bool, load: D -> Option<T>) returns (r: Option<Filtered<S, D, T>>)
    ensures r == FilterList(ms, specs, cand, load)
  {
    var entries: seq<D>, parts: seq<T>, matched: seq<S>, missing: seq<S> := [], [], [], [];
    for n := 0 to |specs|
      invariant entries == Firsts(ms, specs[..n], cand)
      invariant matched == Kept(ms, specs[..n], cand, true)
      invariant missing == Kept(ms, specs[..n], cand, false)
      invariant LoadAll(entries, load) == Some(parts)
    {
      OneMore(ms, specs, cand, n);
      var k := 0;
      while k < |ms| && !cand(specs[n], ms[k])
        invariant 0 <= k <= |ms|
        invariant forall i :: 0 <= i < k ==> !cand(specs[n], ms[i])
      {
        k := k + 1;
      }
      assert k == FirstFor(ms, specs[n], cand);
      if k == |ms| {
        missing := missing + [specs[n]];
      } else {
        LoadAllStep(entries, ms[k], load);
        var part := load(ms[k]);
        if part.None? {
          FailurePersists(ms, specs, cand, load, n + 1);
          assert specs[..|specs|] == specs;
          return None;
        }
        entries, parts, matched := entries + [ms[k]], parts + [part.value], matched + [specs[n]];
      }
    }
    assert specs[..|specs|] == specs;
    return Some(Filtered(entries, parts, matched, missing));
  }

  /** The first entry that is usable and fits, else the first usable one. */
  function Preferred<S, D>(ms: seq<D>, usable: D -> bool, s: Option<S>, cand: (S, D) -> bool): Option<D> {
    var u := FirstIndex(ms, usable);
    if s.Some? && Has(ms, s.value, cand) then Some(ms[FirstFor(ms, s.value, cand)])
    else if u < |ms| then Some(ms[u])
    else None
  }

  /** The entry at `k` is the first that fits, or, if none does, the first usable one. */
  ghost predicate FirstChoice<S, D>(ms: seq<D>, usable: D -> bool, s: Option<S>, cand: (S, D) -> bool, k: nat)
    requires k < |ms|
  {
    && usable(ms[k])
    && if s.Some? && exists i :: 0 <= i < |ms| && cand(s.value, ms[i])
       then cand(s.value, ms[k]) && forall j :: 0 <= j < k ==> !cand(s.value, ms[j])
       else forall j :: 0 <= j < k ==> !usable(ms[j])
  }

  lemma PreferredMeaning<S, D(!new)>(ms: seq<D>, usable: D -> bool, s: Option<S>, cand: (S, D) -> bool)
    requires s.Some? ==> forall d :: cand(s.value, d) ==> usable(d)
    ensures var r := Preferred(ms, usable, s, cand);
            && (r.None? <==> forall i :: 0 <= i < |ms| ==> !usable(ms[i]))
            && (r.Some? ==> exists k :: 0 <= k < |ms| && ms[k] == r.value && FirstChoice(ms, usable, s, cand, k))
  {
    var u := FirstIndex(ms, usable);
    if s.Some? && Has(ms, s.value, cand) {
      assert FirstChoice(ms, usable, s, cand, FirstFor(ms, s.value, cand));
    } else if u < |ms| {
      assert FirstChoice(ms, usable, s, cand, u);
    }
  }

  function Where<D>(ms: seq<D>, usable: D -> bool): (r: seq<D>)
    ensures forall i :: 0 <= i < |r| ==> usable(r[i])
  {
    if ms == [] then [] else (if usable(ms[0]) then [ms[0]] else []) + Where(ms[1..], usable)
  }

  /** Scanning only the usable entries finds the same candidate as scanning all of them. */
  lemma {:induction false} WhereFirst<S, D(!new)>(ms: seq<D>, usable: D -> bool, s: S, cand: (S, D) -> bool)
    requires forall d :: cand(s, d) ==> usable(d)
    ensures var us := Where(ms, usable);
            && (Has(us, s, cand) <==> Has(ms, s, cand))
            && (Has(us, s, cand) ==> us[FirstFor(us, s, cand)] == ms[FirstFor(ms, s, cand)])
  {
    if ms != [] {
      WhereFirst(ms[1..], usable, s, cand);
      var us := Where(ms, usable);
      if usable(ms[0]) { assert us[1..] == Where(ms[1..], usable); } else { assert us == Where(ms[1..], usable); }
    }
  }

  lemma {:induction false} WhereAppend<D>(a: seq<D>, d: D, usable: D -> bool)
    ensures Where(a + [d], usable) == Where(a, usable) + (if usable(d) then [d] else [])
  {
    if a == [] {
      assert a + [d] == [d];
    } else {
      assert (a + [d])[1..] == a[1..] + [d];
      WhereAppend(a[1..], d, usable);
    }
  }

  /** Collect the usable entries, scan them for one that fits, fall back to the first. */
  method PreferInOrder<S, D(!new)>(
      ms: seq<D>, usable: D -> bool, s: Option<S>, fits: (S, D) -> bool,
      ghost cand: (S, D) -> bool) returns (r: Option<D>)
    requires s.Some? ==> forall d :: cand(s.value, d) <==> usable(d) && fits(s.value, d)
    ensures r == Preferred(ms, usable, s, cand)
    ensures r.Some? ==> r.value in ms && usable(r.value)
  {
    var us: seq<D> := [];
    for i := 0 to |ms|
      invariant us == Where(ms[..i], usable)
    {
      WhereAppend(ms[..i], ms[i], usable);
      assert ms[..i + 1] == ms[..i] + [ms[i]];
      if usable(ms[i]) { us := us + [ms[i]]; }
    }
    assert ms[..|ms|] == ms;
    WhereUsable(ms, usable);
    if s.Some? { WhereFirst(ms, usable, s.value, cand); }
    if |us| == 0 { return None; }
    if s.Some? {
      var j := 0;
      while j < |us| && !fits(s.value, us[j])
        invariant 0 <= j <= |us|
        invariant forall i :: 0 <= i < j ==> !cand(s.value, us[i])
      {
        j := j + 1;
      }
      if j < |us| {
        assert usable(us[j]);
        assert j == FirstFor(us, s.value, cand);
        return Some(us[j]);
      }
    }
    return Some(us[0]);
  }

  lemma {:induction false} WhereUsable<D>(ms: seq<D>, usable: D -> bool)
    ensures var us := Where(ms, usable);
            && (us != [] <==> FirstIndex(ms, usable) < |ms|)
            && (us != [] ==> us[0] == ms[FirstIndex(ms, usable)])
  {
    if ms != [] && !usable(ms[0]) {
      WhereUsable(ms[1..], usable);
      assert Where(ms, usable) == Where(ms[1..], usable);
    }
  }

  // ---- Lists that keep some elements, by position ----

  ghost predicate Increasing(idx: seq<nat>) { forall i, j :: 0 <= i < j < |idx| ==> idx[i] < idx[j] }

  /** What `f` makes of the elements, those dropped for which it yields nothing. */
  function Picked<A, B>(xs: seq<A>, f: A -> Option<B>): seq<B> {
    if xs == [] then []
    else
      var n := |xs| - 1;
      Picked(xs[..n], f) + match f(xs[n]) case None => [] case Some(y) => [y]
  }

  lemma PickedStep<A, B>(xs: seq<A>, f: A -> Option<B>, i: nat)
    requires i < |xs|
    ensures Picked(xs[..i + 1], f) == Picked(xs[..i], f) + match f(xs[i]) case None => [] case Some(y) => [y]
  {
    assert xs[..i + 1][..i] == xs[..i];
  }

  /** Exactly the elements for which `f` yields something are there, in order. */
  lemma {:induction false} PickedMeaning<A, B>(xs: seq<A>, f: A -> Option<B>) returns (idx: seq<nat>)
    ensures Increasing(idx) && forall i: nat :: i in idx <==> i < |xs| && f(xs[i]).Some?
    ensures |Picked(xs, f)| == |idx| && forall k :: 0 <= k < |idx| ==>
            idx[k] < |xs| && f(xs[idx[k]]) == Some(Picked(xs, f)[k])
  {
    idx := [];
    if xs != [] {
      var n := |xs| - 1;
      idx := PickedMeaning(xs[..n], f);
      assert forall k :: 0 <= k < |idx| ==> idx[k] in idx;
      if f(xs[n]).Some? { idx := idx + [n]; }
    }
  }

  lemma {:induction false} PickedConcat<A, B>(xs: seq<A>, ys: seq<A>, f: A -> Option<B>)
    ensures Picked(xs + ys, f) == Picked(xs, f) + Picked(ys, f)
  {
    if ys == [] {
      assert xs + ys == xs;
    } else {
      var n := |ys| - 1;
      PickedConcat(xs, ys[..n], f);
      assert (xs + ys)[..|xs| + n] == xs + ys[..n];
    }
  }

  /** The lists that `f` makes of the elements, one behind the other. */
  function Gathered<A, B>(xs: seq<A>, f: A -> seq<B>): seq<B> {
    if xs == [] then []
    else
      var n := |xs| - 1;
      Gathered(xs[..n], f) + f(xs[n])
  }

  lemma {:induction false} GatheredMeaning<A(!new), B>(xs: seq<A>, f: A -> seq<B>, y: B)
    ensures y in Gathered(xs, f) <==> exists x :: x in xs && y in f(x)
  {
    if xs != [] {
      var n := |xs| - 1;
      GatheredMeaning(xs[..n], f, y);
      assert forall x :: x in xs <==> x in xs[..n] || x == xs[n];
    }
  }

  /** What `f` makes of the last element for which it yields something. */
  function LastOf<A, B>(xs: seq<A>, f: A -> Option<B>): Option<B> {
    if xs == [] then None
    else
      var n := |xs| - 1;
      var y := f(xs[n]);
      if y.Some? then y else LastOf(xs[..n], f)
  }

  lemma LastOfStep<A, B>(xs: seq<A>, f: A -> Option<B>, i: nat)
    requires i < |xs|
    ensures LastOf(xs[..i + 1], f) == if f(xs[i]).Some? then f(xs[i]) else LastOf(xs[..i], f)
  {
    assert xs[..i + 1][..i] == xs[..i];
  }

  lemma {:induction false} LastOfMeaning<A, B>(xs: seq<A>, f: A -> Option<B>)
    ensures match LastOf(xs, f)
            case None => forall i :: 0 <= i < |xs| ==> f(xs[i]).None?
            case Some(y) =>
              exists i :: 0 <= i < |xs| && f(xs[i]) == Some(y) && forall j :: i < j < |xs| ==> f(xs[j]).None?
  {
    if xs != [] {
      var n := |xs| - 1;
      LastOfMeaning(xs[..n], f);
      if f(xs[n]).None? && LastOf(xs, f).Some? {
        var i :| 0 <= i < n && f(xs[..n][i]) == LastOf(xs, f) && forall j :: i < j < n ==> f(xs[..n][j]).None?;
        assert f(xs[i]) == LastOf(xs, f) && forall j :: i < j < n ==> xs[j] == xs[..n][j];
      }
    }
  }

  lemma {:induction false} PickedFront<A, B>(xs: seq<A>, f: A -> Option<B>)
    requires xs != []
    ensures Picked(xs, f) == (match f(xs[0]) case None => [] case Some(y) => [y]) + Picked(xs[1..], f)
  {
    var n := |xs| - 1;
    if n == 0 {
      assert xs[..n] == [] && xs[1..] == [];
    } else {
      PickedFront(xs[..n], f);
      assert xs[..n][1..] == xs[1..][..n - 1];
    }
  }

  /** The elements whose key is neither in `seen` nor repeated, first occurrences kept. */
  function Fresh<A>(xs: seq<A>, key: A -> string, seen: set<string>): seq<A> {
    if xs == [] then []
    else if key(xs[0]) in seen then Fresh(xs[1..], key, seen)
    else [xs[0]] + Fresh(xs[1..], key, seen + {key(xs[0])})
  }

  lemma FreshStep<A>(done: seq<A>, rest: seq<A>, key: A -> string, seen: set<string>)
    requires rest != []
    ensures key(rest[0]) in seen ==> Fresh(rest, key, seen) == Fresh(rest[1..], key, seen)
    ensures key(rest[0]) !in seen ==>
              done + Fresh(rest, key, seen) == done + [rest[0]] + Fresh(rest[1..], key, seen + {key(rest[0])})
  {
  }

  /** Nothing new is left out and nothing is added. */
  lemma {:induction false} FreshCovers<A(!new)>(xs: seq<A>, key: A -> string, seen: set<string>)
    ensures forall y :: y in Fresh(xs, key, seen) ==> y in xs
    ensures forall x :: x in xs && key(x) !in seen ==> exists y :: y in Fresh(xs, key, seen) && key(y) == key(x)
    decreases |xs|
  {
    if xs != [] {
      var k := key(xs[0]);
      var next := if k in seen then seen else seen + {k};
      FreshCovers(xs[1..], key, next);
      var tail, r := Fresh(xs[1..], key, next), Fresh(xs, key, seen);
      assert r == if k in seen then tail else [xs[0]] + tail;
      forall x | x in xs && key(x) !in seen ensures exists y :: y in r && key(y) == key(x) {
        if key(x) == k {
          assert xs[0] in r;
        } else {
          assert x in xs[1..];
          var y :| y in tail && key(y) == key(x);
          assert y in r;
        }
      }
    }
  }

  /** An element put in front stays in front; every key of the others is there. */
  lemma FreshAfter<A(!new)>(head: Option<A>, xs: seq<A>, key: A -> string)
    ensures var r := Fresh((match head case None => [] case Some(h) => [h]) + xs, key, {});
            && (head.Some? ==> r != [] && r[0] == head.value)
            && (forall x :: x in xs ==> exists y :: y in r && key(y) == key(x))
            && (forall y :: y in r ==> y in xs || head == Some(y))
  {
    FreshCovers((match head case None => [] case Some(h) => [h]) + xs, key, {});
  }

  /** The fresh ones among what `f` makes of the elements. */
  lemma FreshPicked<A(!new), B(!new)>(xs: seq<A>, f: A -> Option<B>, key: B -> string)
    ensures forall y :: y in Fresh(Picked(xs, f), key, {}) ==> exists x :: x in xs && f(x) == Some(y)
    ensures forall x :: x in xs && f(x).Some? ==>
              exists y :: y in Fresh(Picked(xs, f), key, {}) && key(y) == key(f(x).value)
  {
    var all := Picked(xs, f);
    PickedMembers(xs, f);
    FreshCovers(all, key, {});
  }

  lemma {:induction false} PickedMembers<A(!new), B(!new)>(xs: seq<A>, f: A -> Option<B>)
    ensures forall y :: y in Picked(xs, f) <==> exists x :: x in xs && f(x) == Some(y)
  {
    if xs != [] {
      var n := |xs| - 1;
      PickedMembers(xs[..n], f);
      assert forall x :: x in xs <==> x in xs[..n] || x == xs[n];
    }
  }

  /** The element at `i` is the first with its key, and its key is new. */
  ghost predicate FirstOfKey<A>(xs: seq<A>, key: A -> string, seen: set<string>, i: nat) {
    i < |xs| && key(xs[i]) !in seen && forall j :: 0 <= j < i ==> key(xs[j]) != key(xs[i])
  }

  lemma FirstInTail<A>(xs: seq<A>, key: A -> string, seen: set<string>, i: nat)
    requires 0 < i < |xs|
    ensures var k := key(xs[0]);
            FirstOfKey(xs, key, seen, i) <==> FirstOfKey(xs[1..], key, if k in seen then seen else seen + {k}, i - 1)
  {
    var k, tail := key(xs[0]), xs[1..];
    if FirstOfKey(tail, key, if k in seen then seen else seen + {k}, i - 1) {
      forall j | 0 <= j < i ensures key(xs[j]) != key(xs[i]) {
        if 0 < j { assert xs[j] == tail[j - 1]; }
      }
    }
    if FirstOfKey(xs, key, seen, i) {
      forall j | 0 <= j < i - 1 ensures key(tail[j]) != key(tail[i - 1]) { assert tail[j] == xs[j + 1]; }
    }
  }

  function Shift(idx: seq<nat>): seq<nat> { seq(|idx|, k requires 0 <= k < |idx| => idx[k] + 1) }

  lemma ShiftMembers(idx: seq<nat>)
    ensures forall i: nat :: i in Shift(idx) <==> 0 < i && i - 1 in idx
    ensures Increasing(idx) ==> Increasing(Shift(idx))
  {
    forall i: nat | 0 < i && i - 1 in idx ensures i in Shift(idx) {
      var k :| 0 <= k < |idx| && idx[k] == i - 1;
      assert Shift(idx)[k] == i;
    }
  }

  /** The positions in a list, from those in its tail. */
  lemma FirstPositions<A>(xs: seq<A>, key: A -> string, seen: set<string>, rest: seq<nat>, i: nat)
    requires xs != []
    requires var k := key(xs[0]);
             forall j: nat :: j in rest <==> FirstOfKey(xs[1..], key, if k in seen then seen else seen + {k}, j)
    ensures i in (if key(xs[0]) in seen then Shift(rest) else [0] + Shift(rest)) <==> FirstOfKey(xs, key, seen, i)
  {
    ShiftMembers(rest);
    if 0 < i < |xs| {
      FirstInTail(xs, key, seen, i);
    } else if |xs| <= i {
      assert i - 1 !in rest;
    }
  }

  lemma FirstEntries<A>(xs: seq<A>, key: A -> string, seen: set<string>, rest: seq<nat>)
    requires xs != []
    requires var k := key(xs[0]);
             var tail := Fresh(xs[1..], key, if k in seen then seen else seen + {k});
             |tail| == |rest| && forall i :: 0 <= i < |rest| ==> rest[i] < |xs| - 1 && tail[i] == xs[1..][rest[i]]
    ensures var idx := if key(xs[0]) in seen then Shift(rest) else [0] + Shift(rest);
            && |Fresh(xs, key, seen)| == |idx|
            && forall i :: 0 <= i < |idx| ==> idx[i] < |xs| && Fresh(xs, key, seen)[i] == xs[idx[i]]
  {
    assert forall i :: 0 <= i < |rest| ==> xs[1..][rest[i]] == xs[Shift(rest)[i]];
  }

  /** Exactly the first element of every new key is kept, in order. */
  lemma {:induction false} FreshMeaning<A>(xs: seq<A>, key: A -> string, seen: set<string>) returns (idx: seq<nat>)
    ensures Increasing(idx) && forall i: nat :: i in idx <==> FirstOfKey(xs, key, seen, i)
    ensures |Fresh(xs, key, seen)| == |idx|
    ensures forall k :: 0 <= k < |idx| ==> idx[k] < |xs| && Fresh(xs, key, seen)[k] == xs[idx[k]]
    decreases |xs|
  {
    idx := [];
    if xs != [] {
      var k := key(xs[0]);
      var rest := FreshMeaning(xs[1..], key, if k in seen then seen else seen + {k});
      ShiftMembers(rest);
      FirstEntries(xs, key, seen, rest);
      idx := if k in seen then Shift(rest) else [0] + Shift(rest);
      forall i: nat ensures i in idx <==> FirstOfKey(xs, key, seen, i) {
        FirstPositions(xs, key, seen, rest, i);
      }
    }
  }
}
