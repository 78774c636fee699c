/** The skip lists of the controllers: an index over names, and what it must answer. */
module NameMatching {
  import opened Text

  datatype NameMatcher = NameMatcher(matchAll: bool, any: set<string>, namespaced: map<string, set<string>>)

  predicate Matches(m: NameMatcher, namespace: string, name: string) {
    m.matchAll || name in m.any || (namespace in m.namespaced && name in m.namespaced[namespace])
  }

  /** What one configured entry says, read on its own. */
  datatype Entry = Nothing | Everything | Anywhere(name: string) | Within(namespace: string, name: string)

  function ReadEntry(raw: string): Entry {
    var e := TrimSpace(raw);
    var k := IndexOf(e, '/');
    if e == "" then Nothing
    else if e == "*" then Everything
    else if k < |e| then
      var ns, val := TrimSpace(e[..k]), TrimSpace(e[k + 1..]);
      if ns == "" || val == "" then Nothing else Within(ns, val)
    else Anywhere(e)
  }

  predicate Says(e: Entry, namespace: string, name: string) {
    match e
    case Nothing => false
    case Everything => true
    case Anywhere(n) => n == name
    case Within(ns, n) => ns == namespace && n == name
  }

  /** A star speaks of every object, and a name without a slash of all objects of that name. */
  lemma PlainEntryMeaning(raw: string, namespace: string, name: string)
    requires '/' !in TrimSpace(raw)
    ensures Says(ReadEntry(raw), namespace, name) <==>
            TrimSpace(raw) == "*" || (TrimSpace(raw) == name && name != "")
  {
  }

  /** A name behind a slash speaks of the object of that name in the namespace before it; blanks
      around both are ignored, and both have to be there. */
  lemma SlashEntryMeaning(raw: string, a: string, b: string, namespace: string, name: string)
    requires '/' !in a && TrimSpace(raw) == a + "/" + b
    ensures Says(ReadEntry(raw), namespace, name) <==>
            TrimSpace(a) == namespace && namespace != "" && TrimSpace(b) == name && name != ""
  {
    var e := a + "/" + b;
    SlashFirst(a, b);
    assert e[..|a|] == a && e[|a| + 1..] == b;
    assert e[|a|] == '/';
  }

  /** A scan of the raw list. */
  predicate Listed(values: seq<string>, namespace: string, name: string) {
    exists i :: 0 <= i < |values| && Says(ReadEntry(values[i]), namespace, name)
  }

  function Add(m: NameMatcher, e: Entry): NameMatcher {
    match e
    case Nothing => m
    case Everything => m.(matchAll := true)
    case Anywhere(n) => m.(any := m.any + {n})
    case Within(ns, n) =>
      var names := if ns in m.namespaced then m.namespaced[ns] else {};
      m.(namespaced := m.namespaced[ns := names + {n}])
  }

  lemma AddSays(m: NameMatcher, e: Entry, namespace: string, name: string)
    ensures Matches(Add(m, e), namespace, name) <==> Matches(m, namespace, name) || Says(e, namespace, name)
  {
  }

  /** The index answers as a scan of `values` would. */
  ghost predicate Answers(m: NameMatcher, values: seq<string>) {
    forall namespace, name :: Matches(m, namespace, name) <==> Listed(values, namespace, name)
  }

  lemma AnswersStep(m: NameMatcher, values: seq<string>, i: nat)
    requires i < |values| && Answers(m, values[..i])
    ensures Answers(Add(m, ReadEntry(values[i])), values[..i + 1])
  {
    assert values[..i + 1] == values[..i] + [values[i]];
    forall namespace, name
      ensures Matches(Add(m, ReadEntry(values[i])), namespace, name) <==> Listed(values[..i + 1], namespace, name)
    {
      AddSays(m, ReadEntry(values[i]), namespace, name);
      ListedAppend(values[..i], values[i], namespace, name);
    }
  }

  /** The index answers every question exactly as a scan of the list would, whatever the list,
      its order and its repetitions. */
  method NewNameMatcher(values: seq<string>) returns (m: NameMatcher)
    ensures forall namespace, name :: Matches(m, namespace, name) <==> Listed(values, namespace, name)
  {
    var matchAll, any: set<string>, namespaced: map<string, set<string>> := false, {}, map[];
    for i := 0 to |values|
      invariant Answers(NameMatcher(matchAll, any, namespaced), values[..i])
    {
      AnswersStep(NameMatcher(matchAll, any, namespaced), values, i);
      match ReadEntry(values[i]) {
        case Nothing =>
        case Everything => matchAll := true;
        case Anywhere(n) => any := any + {n};
        case Within(ns, n) =>
          var nsSet := if ns in namespaced then namespaced[ns] else {};
          namespaced := namespaced[ns := nsSet + {n}];
      }
    }
    assert values[..|values|] == values;
    m := NameMatcher(matchAll, any, namespaced);
    assert Answers(m, values);
  }

  lemma ListedAppend(values: seq<string>, v: string, namespace: string, name: string)
    ensures Listed(values + [v], namespace, name) <==>
            Listed(values, namespace, name) || Says(ReadEntry(v), namespace, name)
  {
    var all := values + [v];
    if Listed(values, namespace, name) {
      var i :| 0 <= i < |values| && Says(ReadEntry(values[i]), namespace, name);
      assert all[i] == values[i];
    }
    if Says(ReadEntry(v), namespace, name) {
      assert all[|values|] == v;
    }
  }
}
