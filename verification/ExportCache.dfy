/** The in-memory cache of exports, and the query that readers put to it. */
module ExportCache {
  import opened Kube
  import opened Sequences
  import opened ExportSpec
  import opened ExportedSecrets
  import opened ExportOrder

  predicate Preferred(a: ExportedSecret, b: ExportedSecret, toNs: string) {
    Less(KeyFor(a, toNs), KeyFor(b, toNs))
  }

  /** The documented order: weight first; then the secrets of the reader's own namespace, and in either group those
      that name it before those that reach it by a wildcard; then the name. */
  function Place(es: ExportedSecret, toNs: string): nat {
    (if es.secret.key.ns == toNs then 2 else 0) + (if Names(es.spec, toNs) then 1 else 0)
  }

  predicate Names(s: Spec, ns: string) {
    ns in s.toNamespaces || (ns == s.toNamespace && ns != "")
  }

  predicate Outranks(a: ExportedSecret, b: ExportedSecret, toNs: string) {
    var v, w := a.weight.GetOr(Finite(0.0)), b.weight.GetOr(Finite(0.0));
    || Gt(v, w)
    || (v == w && Place(a, toNs) > Place(b, toNs))
    || (v == w && Place(a, toNs) == Place(b, toNs) && StrLess(NsName(b.secret.key), NsName(a.secret.key)))
  }

  /** The chain of comparisons is the documented order, as long as weights are numbers. */
  lemma PreferredIffOutranks(a: ExportedSecret, b: ExportedSecret, toNs: string)
    requires a.weight != Some(NaN) && b.weight != Some(NaN)
    ensures Preferred(a, b, toNs) <==> Outranks(a, b, toNs)
  {
    assert toNs in StaticToNamespaces(a.spec) <==> Names(a.spec, toNs);
    assert toNs in StaticToNamespaces(b.spec) <==> Names(b.spec, toNs);
  }

  /** The heavier secret is preferred, whatever else is said of the two; one without a weight weighs nothing. */
  lemma HeavierIsPreferred(a: ExportedSecret, b: ExportedSecret, toNs: string, r: real, s: real)
    requires a.weight == Some(Finite(r)) || (a.weight == None && r == 0.0)
    requires b.weight == Some(Finite(s)) || (b.weight == None && s == 0.0)
    ensures r > s ==> Preferred(a, b, toNs) && !Preferred(b, a, toNs)
  {
    var v, w := KeyFor(a, toNs).weight, KeyFor(b, toNs).weight;
    assert v == Finite(r) && w == Finite(s);
    assert r > s ==> Gt(v, w) && !Gt(w, v);
  }

  /** And infinities are beyond all numbers. */
  lemma InfinityIsPreferred(a: ExportedSecret, b: ExportedSecret, toNs: string)
    requires a.weight != Some(NaN) && b.weight != Some(NaN) && a.weight != b.weight
    ensures a.weight == Some(PosInf) || b.weight == Some(NegInf) ==> Preferred(a, b, toNs) && !Preferred(b, a, toNs)
  {
    var v, w := KeyFor(a, toNs).weight, KeyFor(b, toNs).weight;
    assert a.weight == Some(PosInf) || b.weight == Some(NegInf) ==> Gt(v, w) && !Gt(w, v);
  }

  /** Entries that preference orders totally: numeric weights, and names that tell the secrets apart. */
  ghost predicate Comparable(es: seq<ExportedSecret>, toNs: string) {
    && (forall a :: a in es ==> !KeyFor(a, toNs).weight.NaN?)
    && (forall a, b :: a in es && b in es && a != b ==> KeyFor(a, toNs).secretNsName != KeyFor(b, toNs).secretNsName)
  }

  /** Least preferred first. */
  ghost predicate Ordered(es: seq<ExportedSecret>, toNs: string) {
    forall i, j :: 0 <= i < j < |es| ==> Preferred(es[j], es[i], toNs)
  }

  lemma NotBeatenLater(es: seq<ExportedSecret>, p: nat, q: nat, x: ExportedSecret, toNs: string)
    requires Comparable(es + [x], toNs) && x !in es && Ordered(es, toNs)
    requires p <= q < |es| && !Preferred(x, es[p], toNs)
    ensures Preferred(es[q], x, toNs)
  {
    assert es[q] in es + [x] && es[p] in es + [x] && x in es + [x];
    LessIsTotalOrder(KeyFor(x, toNs), KeyFor(es[p], toNs), KeyFor(x, toNs));
    LessIsTotalOrder(KeyFor(es[q], toNs), KeyFor(es[p], toNs), KeyFor(x, toNs));
  }

  lemma InsertKeepsOrder(es: seq<ExportedSecret>, p: nat, x: ExportedSecret, toNs: string)
    requires p <= |es| && Ordered(es, toNs)
    requires forall q :: 0 <= q < p ==> Preferred(x, es[q], toNs)
    requires forall q :: p <= q < |es| ==> Preferred(es[q], x, toNs)
    ensures Ordered(es[..p] + [x] + es[p..], toNs)
  {
    var r := es[..p] + [x] + es[p..];
    forall i, j | 0 <= i < j < |r| ensures Preferred(r[j], r[i], toNs) {
      assert r[i] == if i < p then es[i] else if i == p then x else es[i - 1];
      assert r[j] == if j < p then es[j] else if j == p then x else es[j - 1];
    }
  }

  lemma InsertAdds(es: seq<ExportedSecret>, p: nat, x: ExportedSecret)
    requires p <= |es|
    ensures multiset(es[..p] + [x] + es[p..]) == multiset(es) + multiset{x}
  {
    assert es == es[..p] + es[p..];
  }

  lemma InsertOrders(es: seq<ExportedSecret>, p: nat, x: ExportedSecret, toNs: string)
    requires Comparable(es + [x], toNs) && x !in es && Ordered(es, toNs) && p <= |es|
    requires forall q :: 0 <= q < p ==> Preferred(x, es[q], toNs)
    requires p < |es| ==> !Preferred(x, es[p], toNs)
    ensures Ordered(es[..p] + [x] + es[p..], toNs)
  {
    forall q | p <= q < |es| ensures Preferred(es[q], x, toNs) {
      NotBeatenLater(es, p, q, x, toNs);
    }
    InsertKeepsOrder(es, p, x, toNs);
  }

  /** An insertion into an ordered list, before the first entry that `x` does not beat. */
  method Insert(es: seq<ExportedSecret>, x: ExportedSecret, toNs: string) returns (r: seq<ExportedSecret>)
    ensures multiset(r) == multiset(es) + multiset{x}
    ensures Comparable(es + [x], toNs) && x !in es && Ordered(es, toNs) ==> Ordered(r, toNs)
  {
    var p := 0;
    while p < |es| && Preferred(x, es[p], toNs)
      invariant 0 <= p <= |es|
      invariant forall q :: 0 <= q < p ==> Preferred(x, es[q], toNs)
    {
      p := p + 1;
    }
    r := es[..p] + [x] + es[p..];
    InsertAdds(es, p, x);
    if Comparable(es + [x], toNs) && x !in es && Ordered(es, toNs) {
      InsertOrders(es, p, x, toNs);
    }
  }

  /** sort.Slice with the flipped comparison; its own algorithm is the library's. */
  method SortSlice(es: seq<ExportedSecret>, toNs: string) returns (r: seq<ExportedSecret>)
    ensures multiset(r) == multiset(es)
    ensures Comparable(es, toNs) && NoDup(es) ==> Ordered(r, toNs)
  {
    r := [];
    for i := 0 to |es|
      invariant multiset(r) == multiset(es[..i])
      invariant Comparable(es, toNs) && NoDup(es) ==> Ordered(r, toNs)
    {
      assert es[..i + 1] == es[..i] + [es[i]];
      forall a | a in r + [es[i]] ensures a in es {
        assert a in r ==> a in multiset(r);
      }
      if NoDup(es) {
        assert es[i] in r ==> es[i] in multiset(r);
      }
      r := Insert(r, es[i], toNs);
    }
    assert es[..|es|] == es;
  }

  // ---- what a query must return ----

  /** Each selected entry's secret once, and nothing else. */
  ghost predicate Lists(r: seq<Secret>, cache: Cache, keys: set<Key>) {
    && (forall i :: 0 <= i < |r| ==> r[i].key in keys && r[i].key in cache && r[i] == cache[r[i].key].secret)
    && (forall k :: k in keys ==> exists i :: 0 <= i < |r| && r[i].key == k)
    && (forall i, j :: 0 <= i < j < |r| ==> r[i].key != r[j].key)
  }

  predicate Beats(cache: Cache, toNs: string, a: Key, b: Key) {
    a in cache && b in cache && Preferred(cache[a], cache[b], toNs)
  }

  /** The most preferred secret comes last. */
  ghost predicate PreferenceOrder(r: seq<Secret>, cache: Cache, toNs: string) {
    forall i, j :: 0 <= i < j < |r| ==> Beats(cache, toNs, r[j].key, r[i].key)
  }

  /** Numeric weights on the selected entries, and namespaces without a slash. */
  ghost predicate Rankable(cache: Cache, keys: set<Key>) {
    forall k :: k in keys ==> k in cache && '/' !in k.ns && cache[k].weight != Some(NaN)
  }

  lemma BeatsIsStrict(cache: Cache, toNs: string, a: Key, b: Key)
    requires Rankable(cache, {a, b}) && Beats(cache, toNs, a, b)
    ensures !Beats(cache, toNs, b, a)
  {
    LessIsTotalOrder(KeyFor(cache[a], toNs), KeyFor(cache[b], toNs), KeyFor(cache[a], toNs));
  }

  lemma LastBeats(r: seq<Secret>, cache: Cache, keys: set<Key>, toNs: string, k: Key)
    requires Lists(r, cache, keys) && PreferenceOrder(r, cache, toNs) && k in keys
    ensures r != [] && (k == r[|r| - 1].key || Beats(cache, toNs, r[|r| - 1].key, k))
  {
    var i :| 0 <= i < |r| && r[i].key == k;
  }

  lemma SameLast(r: seq<Secret>, s: seq<Secret>, cache: Cache, keys: set<Key>, toNs: string)
    requires Lists(r, cache, keys) && Lists(s, cache, keys) && Rankable(cache, keys)
    requires PreferenceOrder(r, cache, toNs) && PreferenceOrder(s, cache, toNs)
    requires r != []
    ensures s != [] && r[|r| - 1] == s[|s| - 1]
  {
    var k := r[|r| - 1].key;
    LastBeats(s, cache, keys, toNs, k);
    var l := s[|s| - 1].key;
    LastBeats(r, cache, keys, toNs, l);
    if k != l { BeatsIsStrict(cache, toNs, k, l); }
  }

  lemma DropLast(r: seq<Secret>, r': seq<Secret>, cache: Cache, keys: set<Key>, toNs: string)
    requires Lists(r, cache, keys) && PreferenceOrder(r, cache, toNs) && r != [] && r' == r[..|r| - 1]
    ensures Lists(r', cache, keys - {r[|r| - 1].key}) && PreferenceOrder(r', cache, toNs)
  {
    var last := r[|r| - 1].key;
    forall k | k in keys - {last} ensures exists i :: 0 <= i < |r'| && r'[i].key == k {
      var i :| 0 <= i < |r| && r[i].key == k;
      assert r'[i].key == k;
    }
  }

  /** There is only one such list: the order in which Go walks the map, and the sorting algorithm, do not show. */
  lemma {:induction false} QueryResultIsUnique(r: seq<Secret>, s: seq<Secret>, cache: Cache, keys: set<Key>,
                                               toNs: string)
    requires Lists(r, cache, keys) && Lists(s, cache, keys) && Rankable(cache, keys)
    requires PreferenceOrder(r, cache, toNs) && PreferenceOrder(s, cache, toNs)
    ensures r == s
    decreases |r|
  {
    if r == [] {
      if s != [] { SameLast(s, r, cache, keys, toNs); }
    } else {
      SameLast(r, s, cache, keys, toNs);
      var r', s' := r[..|r| - 1], s[..|s| - 1];
      DropLast(r, r', cache, keys, toNs);
      DropLast(s, s', cache, keys, toNs);
      QueryResultIsUnique(r', s', cache, keys - {r[|r| - 1].key}, toNs);
      assert r == r' + [r[|r| - 1]] && s == s' + [s[|s| - 1]];
    }
  }

  /** What the importer gets: its source's secret if that is cached and offered to it, otherwise nothing, never two. */
  lemma ImportQueryResult(r: seq<Secret>, cache: Cache, source: Key, toNs: string, views: Views)
    requires ValidCache(cache) && source.ns != "" && source.name != ""
    requires Lists(r, cache, MatchingKeys(cache, ImportMatcher(source, toNs), views))
    ensures r == if source in cache && OfferedTo(cache[source].spec, toNs, views(source))
                 then [cache[source].secret] else []
  {
    ImportQueryIsOneKey(cache, source, toNs, views);
    var keys := MatchingKeys(cache, ImportMatcher(source, toNs), views);
    assert |r| > 1 ==> r[0].key in keys && r[1].key in keys;
    assert source in keys ==> exists i :: 0 <= i < |r| && r[i].key == source;
    assert |r| > 0 ==> r[0].key in keys && r[0] == cache[r[0].key].secret;
  }

  function Secrets(es: seq<ExportedSecret>): (r: seq<Secret>)
    ensures |r| == |es| && forall i :: 0 <= i < |es| ==> r[i] == es[i].secret
  {
    seq(|es|, i requires 0 <= i < |es| => es[i].secret)
  }

  /** The list of matching entries, in whatever order they were met. */
  ghost predicate Collected(es: seq<ExportedSecret>, cache: Cache, keys: set<Key>) {
    && (forall i :: 0 <= i < |es| ==>
          es[i].secret.key in keys && es[i].secret.key in cache && es[i] == cache[es[i].secret.key])
    && (forall k :: k in keys && k in cache ==> cache[k] in es)
    && keys <= cache.Keys
    && NoDup(es)
  }

  /** One more entry of the map looked at. */
  lemma CollectedNext(es: seq<ExportedSecret>, cache: Cache, keys: set<Key>, remaining: set<Key>, k: Key)
    requires ValidCache(cache) && keys <= cache.Keys && k in remaining && k in cache
    requires Collected(es, cache, keys - remaining)
    ensures Collected(if k in keys then es + [cache[k]] else es, cache, keys - (remaining - {k}))
  {
    assert keys - (remaining - {k}) == (keys - remaining) + if k in keys then {k} else {};
    assert forall e :: e in es ==> e.secret.key != k;
  }

  lemma CollectedIsRanked(es: seq<ExportedSecret>, sorted: seq<ExportedSecret>, cache: Cache, keys: set<Key>,
                          toNs: string)
    requires ValidCache(cache) && Collected(es, cache, keys) && Rankable(cache, keys)
    requires multiset(sorted) == multiset(es)
    requires Comparable(es, toNs) && NoDup(es) ==> Ordered(sorted, toNs)
    ensures PreferenceOrder(Secrets(sorted), cache, toNs)
  {
    CollectedIsComparable(es, cache, keys, toNs);
    forall i | 0 <= i < |sorted| ensures sorted[i].secret.key in cache && sorted[i] == cache[sorted[i].secret.key] {
      assert sorted[i] in multiset(es);
    }
  }

  lemma CollectedIsListed(es: seq<ExportedSecret>, sorted: seq<ExportedSecret>, cache: Cache, keys: set<Key>)
    requires ValidCache(cache) && Collected(es, cache, keys) && multiset(sorted) == multiset(es)
    ensures Lists(Secrets(sorted), cache, keys)
  {
    NoDupPermutes(es, sorted);
    forall i | 0 <= i < |sorted|
      ensures sorted[i].secret.key in keys && sorted[i].secret.key in cache && sorted[i] == cache[sorted[i].secret.key]
    {
      assert sorted[i] in multiset(es);
      var j :| 0 <= j < |es| && es[j] == sorted[i];
    }
    forall k | k in keys ensures exists i :: 0 <= i < |sorted| && Secrets(sorted)[i].key == k {
      assert cache[k] in multiset(sorted);
      var i :| 0 <= i < |sorted| && sorted[i] == cache[k];
      assert Secrets(sorted)[i].key == k;
    }
  }

  lemma CollectedIsComparable(es: seq<ExportedSecret>, cache: Cache, keys: set<Key>, toNs: string)
    requires ValidCache(cache) && Collected(es, cache, keys) && Rankable(cache, keys)
    ensures Comparable(es, toNs)
  {
    forall a, b | a in es && b in es && a != b ensures KeyFor(a, toNs).secretNsName != KeyFor(b, toNs).secretNsName {
      if NsName(a.secret.key) == NsName(b.secret.key) {
        NsNameInjective(a.secret.key, b.secret.key);
      }
    }
  }

  class SecretExports {
    var exportedSecrets: Cache

    ghost predicate Valid()
      reads this
    {
      ValidCache(exportedSecrets)
    }

    constructor ()
      ensures Valid() && exportedSecrets == map[]
    {
      exportedSecrets := map[];
    }

    /** The export must name the secret it comes with. */
    method Export(key: Key, weight: Option<Float>, spec: Spec, secret: Secret)
      requires Valid() && key == secret.key
      modifies this
      ensures Valid()
      ensures exportedSecrets == old(exportedSecrets)[key := ExportedSecret(weight, spec, secret)]
    {
      exportedSecrets := exportedSecrets[key := ExportedSecret(weight, spec, secret)];
    }

    method Unexport(key: Key)
      requires Valid()
      modifies this
      ensures Valid()
      ensures exportedSecrets == old(exportedSecrets) - {key}
    {
      exportedSecrets := exportedSecrets - {key};
    }

    /** The entries a query selects, least preferred first. */
    method MatchedSecretsForImport(m: Matcher, views: Views) returns (result: seq<Secret>)
      requires Valid()
      ensures Lists(result, exportedSecrets, MatchingKeys(exportedSecrets, m, views))
      ensures Rankable(exportedSecrets, MatchingKeys(exportedSecrets, m, views)) ==>
                PreferenceOrder(result, exportedSecrets, m.toNamespace)
    {
      ghost var keys := MatchingKeys(exportedSecrets, m, views);
      var matched: seq<ExportedSecret> := [];
      var remaining := exportedSecrets.Keys;
      while remaining != {}
        invariant remaining <= exportedSecrets.Keys
        invariant Collected(matched, exportedSecrets, keys - remaining)
        decreases |remaining|
      {
        var k :| k in remaining;
        var matches := MatchEntry(exportedSecrets[k], m, views(k));
        CollectedNext(matched, exportedSecrets, keys, remaining, k);
        if matches {
          matched := matched + [exportedSecrets[k]];
        }
        remaining := remaining - {k};
      }
      assert keys - remaining == keys;
      var sorted := SortSlice(matched, m.toNamespace);
      result := Secrets(sorted);
      CollectedIsListed(matched, sorted, exportedSecrets, keys);
      if Rankable(exportedSecrets, keys) {
        CollectedIsRanked(matched, sorted, exportedSecrets, keys, m.toNamespace);
      }
    }
  }
}
