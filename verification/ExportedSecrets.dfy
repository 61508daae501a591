/** An entry of the export cache and the query it is matched against. */
module ExportedSecrets {
  import opened Kube
  import opened ExportSpec

  /** A copy of the export's annotation and spec beside a copy of its secret. The weight is the parsed annotation,
      absent when the annotation is missing or is not a number. */
  datatype ExportedSecret = ExportedSecret(weight: Option<Float>, spec: Spec, secret: Secret)

  /** An empty string means the query does not restrict that field. */
  datatype Matcher = Matcher(fromName: string, fromNamespace: string, toNamespace: string, subject: string,
                             secretType: string)

  predicate Matches(es: ExportedSecret, m: Matcher, v: View) {
    && m.subject == ""
    && (m.secretType != "" ==> m.secretType == es.secret.typ)
    && (m.fromName != "" ==> m.fromName == es.secret.key.name)
    && (m.fromNamespace != "" ==> m.fromNamespace == es.secret.key.ns)
    && OfferedTo(es.spec, m.toNamespace, v)
  }

  method MatchEntry(es: ExportedSecret, m: Matcher, v: View) returns (ok: bool)
    ensures ok <==> Matches(es, m, v)
  {
    if m.subject != "" {
      return false;
    }
    if |m.secretType| > 0 && m.secretType != es.secret.typ {
      return false;
    }
    if |m.fromName| > 0 && m.fromName != es.secret.key.name {
      return false;
    }
    if |m.fromNamespace| > 0 && m.fromNamespace != es.secret.key.ns {
      return false;
    }
    ok := MatchesNamespace(es.spec, m.toNamespace, v.excluded);
    if !ok && |es.spec.selectors| > 0 {
      ok := AllSelectorsHold(es.spec.selectors, v.fields);
    }
  }

  type Cache = map<Key, ExportedSecret>

  /** Every entry sits under the namespace and name of its own secret. */
  ghost predicate ValidCache(cache: Cache) {
    forall k :: k in cache ==> cache[k].secret.key == k
  }

  /** The namespace is read again for every entry, so each entry may be matched against a view of its own. */
  type Views = Key -> View

  /** The keys of the entries a query selects. */
  ghost function MatchingKeys(cache: Cache, m: Matcher, views: Views): set<Key> {
    set k | k in cache && Matches(cache[k], m, views(k))
  }

  function ImportMatcher(source: Key, toNamespace: string): Matcher {
    Matcher(source.name, source.ns, toNamespace, "", "")
  }

  /** A query with a name and a source namespace selects the entry under that key if it offers its secret, and no
      other: the importer's "multiple exports matched" panic cannot be reached. */
  lemma ImportQueryIsOneKey(cache: Cache, source: Key, toNamespace: string, views: Views)
    requires ValidCache(cache)
    requires source.ns != "" && source.name != ""
    ensures MatchingKeys(cache, ImportMatcher(source, toNamespace), views) ==
            if source in cache && OfferedTo(cache[source].spec, toNamespace, views(source)) then {source} else {}
  {
    forall k | k in MatchingKeys(cache, ImportMatcher(source, toNamespace), views)
      ensures k == source
    {
      assert cache[k].secret.key == k;
    }
  }

  /** What each field of a query asks for; an empty one asks for nothing, and a subject is never met. */
  lemma MatchesMeans(es: ExportedSecret, name: string, ns: string, toNs: string, subject: string, typ: string, v: View)
    ensures Matches(es, Matcher(name, ns, toNs, subject, typ), v) <==>
            && subject == "" && OfferedTo(es.spec, toNs, v)
            && name in {"", es.secret.key.name} && ns in {"", es.secret.key.ns} && typ in {"", es.secret.typ}
  {
  }
}
