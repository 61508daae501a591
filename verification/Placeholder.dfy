/** Placeholder secrets: a reconcile fills one with the merged credentials of the exports offered to its namespace. */
module Placeholder {
  import opened Kube
  import opened ExportSpec
  import opened ExportedSecrets
  import opened ExportOrder
  import opened ExportCache
  import opened DockerConfig

  const IMAGE_PULL_SECRET := "secretgen.carvel.dev/image-pull-secret"
  const STATUS := "secretgen.carvel.dev/status"
  const DOCKER_CONFIG_TYPE := "kubernetes.io/dockerconfigjson"

  datatype SecretStatus = WrongType | Succeeded(secretNames: seq<string>)

  datatype Outcome = Nothing | Update(secret: Secret) | Retry

  /** sort.Strings on the names of the secrets used. */
  function InsertName(names: seq<string>, x: string): seq<string> {
    if names == [] || !StrLess(names[0], x) then [x] + names else [names[0]] + InsertName(names[1..], x)
  }

  function StatusSecretNames(secrets: seq<Secret>): seq<string> {
    if secrets == [] then [] else InsertName(StatusSecretNames(secrets[1..]), NsName(secrets[0].key))
  }

  ghost predicate SortedNames(names: seq<string>) {
    forall i, j :: 0 <= i < j < |names| ==> !StrLess(names[j], names[i])
  }

  /** A list is sorted once its head is not above its sorted tail. */
  lemma ConsSorts(x: string, rest: seq<string>)
    requires SortedNames(rest) && forall y :: y in multiset(rest) ==> !StrLess(y, x)
    ensures SortedNames([x] + rest)
  {
    forall j | 0 <= j < |rest| ensures !StrLess(rest[j], x) {
      assert rest[j] in multiset(rest);
    }
  }

  lemma TailOfSorted(head: string, tail: seq<string>)
    requires SortedNames([head] + tail)
    ensures SortedNames(tail) && forall y :: y in multiset(tail) ==> !StrLess(y, head)
  {
    var names := [head] + tail;
    assert names[0] == head;
    forall i, j | 0 <= i < j < |tail| ensures !StrLess(tail[j], tail[i]) {
      assert tail[i] == names[i + 1] && tail[j] == names[j + 1];
    }
    forall y | y in multiset(tail) ensures !StrLess(y, head) {
      var k :| 0 <= k < |tail| && tail[k] == y;
      assert names[k + 1] == y && !StrLess(names[k + 1], names[0]);
    }
  }

  lemma NotAboveHead(head: string, x: string, y: string)
    requires !StrLess(head, x) && !StrLess(y, head)
    ensures !StrLess(y, x)
  {
    StrLessTotal(head, x);
    if StrLess(y, x) && x != head { StrLessTransitive(y, x, head); }
  }

  lemma NotBoth(a: string, b: string)
    requires StrLess(a, b)
    ensures !StrLess(b, a)
  {
    StrLessIrreflexive(a);
    if StrLess(b, a) { StrLessTransitive(a, b, a); }
  }

  lemma {:induction false} InsertNameSorts(names: seq<string>, x: string)
    requires SortedNames(names)
    ensures SortedNames(InsertName(names, x)) && multiset(InsertName(names, x)) == multiset(names) + multiset{x}
  {
    if names != [] {
      var head, tail := names[0], names[1..];
      assert names == [head] + tail;
      TailOfSorted(head, tail);
      if StrLess(head, x) {
        InsertNameSorts(tail, x);
        NotBoth(head, x);
        ConsSorts(head, InsertName(tail, x));
      } else {
        StrLessIrreflexive(head);
        forall y | y in multiset(names) ensures !StrLess(y, x) { NotAboveHead(head, x, y); }
        ConsSorts(x, names);
      }
    }
  }

  /** The status annotation lists each secret used, in order of name. */
  lemma {:induction false} StatusNamesListEachSecret(secrets: seq<Secret>)
    ensures SortedNames(StatusSecretNames(secrets))
    ensures multiset(StatusSecretNames(secrets))
            == multiset(seq(|secrets|, i requires 0 <= i < |secrets| => NsName(secrets[i].key)))
  {
    var names := seq(|secrets|, i requires 0 <= i < |secrets| => NsName(secrets[i].key));
    if secrets != [] {
      StatusNamesListEachSecret(secrets[1..]);
      InsertNameSorts(StatusSecretNames(secrets[1..]), NsName(secrets[0].key));
      var rest := seq(|secrets[1..]|, i requires 0 <= i < |secrets[1..]| => NsName(secrets[1..][i].key));
      assert names == [NsName(secrets[0].key)] + rest;
    }
  }

  function WithStatus(s: Secret, status: string): Secret {
    s.(meta := s.meta.(annotations := s.meta.annotations[STATUS := status]))
  }

  /** What the secret should become, given the answer to its query; no value when some matching secret does not
      decode. */
  function Desired(s: Secret, matched: seq<Secret>, codec: Codec, encode: SecretStatus -> string): Option<Secret> {
    if s.typ != DOCKER_CONFIG_TYPE then Some(WithStatus(s, encode(WrongType)))
    else if !Decodable(matched, codec) then None
    else
      var filled := s.(data := map[DOCKER_CONFIG_KEY := codec.encode(Merged(matched, codec))]);
      Some(WithStatus(filled, encode(Succeeded(StatusSecretNames(matched)))))
  }

  function Reconciled(s: Secret, matched: seq<Secret>, codec: Codec, encode: SecretStatus -> string): Outcome {
    if IMAGE_PULL_SECRET !in s.meta.annotations then Nothing
    else
      match Desired(s, matched, codec, encode)
      case None => Retry
      case Some(d) => if d == s then Nothing else Update(d)
  }

  function QueryFor(s: Secret): Matcher {
    Matcher("", "", s.key.ns, "", s.typ)
  }

  /** The entries a placeholder in namespace `ns` is filled from: every registry secret that is offered there. */
  ghost function OfferedKeys(cache: Cache, ns: string, views: Views): set<Key> {
    set k | && k in cache && cache[k].secret.typ == "kubernetes.io/dockerconfigjson"
            && OfferedTo(cache[k].spec, ns, views(k))
  }

  lemma AsksForRegistrySecrets(s: Secret, cache: Cache, views: Views)
    requires s.typ == DOCKER_CONFIG_TYPE
    ensures MatchingKeys(cache, QueryFor(s), views) == OfferedKeys(cache, s.key.ns, views)
  {
  }

  /** An answer the cache may give to the query of a placeholder in namespace `ns`. */
  ghost predicate Answers(r: seq<Secret>, cache: Cache, ns: string, views: Views) {
    var keys := OfferedKeys(cache, ns, views);
    Lists(r, cache, keys) && (Rankable(cache, keys) ==> PreferenceOrder(r, cache, ns))
  }

  method Reconcile(exports: SecretExports, s: Secret, views: Views, codec: Codec,
                   encode: SecretStatus -> string) returns (outcome: Outcome)
    requires exports.Valid()
    ensures
      if IMAGE_PULL_SECRET !in s.meta.annotations || s.typ != DOCKER_CONFIG_TYPE
      then outcome == Reconciled(s, [], codec, encode)
      else exists matched :: Answers(matched, exports.exportedSecrets, s.key.ns, views)
                             && outcome == Reconciled(s, matched, codec, encode)
  {
    if IMAGE_PULL_SECRET !in s.meta.annotations {
      return Nothing;
    }
    var secret := s;
    var status;
    if secret.typ != DOCKER_CONFIG_TYPE {
      status := WrongType;
    } else {
      var matched := exports.MatchedSecretsForImport(QueryFor(s), views);
      AsksForRegistrySecrets(s, exports.exportedSecrets, views);
      assert Answers(matched, exports.exportedSecrets, s.key.ns, views);
      var merged := NewCombinedDockerConfigJSON(matched, codec);
      if merged.None? {
        return Retry;
      }
      secret := secret.(data := map[DOCKER_CONFIG_KEY := codec.encode(merged.value)]);
      status := Succeeded(StatusSecretNames(matched));
    }
    secret := WithStatus(secret, encode(status));
    if secret == s {
      return Nothing;
    }
    return Update(secret);
  }

  /** Its own write does not make it write again: whatever two answers the cache gives, and whatever version the
      write got, reconciling the written secret changes nothing. */
  lemma WriteSettles(s: Secret, r1: seq<Secret>, r2: seq<Secret>, cache: Cache, views: Views,
                     codec: Codec, encode: SecretStatus -> string, rv: nat)
    requires Rankable(cache, OfferedKeys(cache, s.key.ns, views))
    requires Reconciled(s, r1, codec, encode).Update?
    requires Answers(r1, cache, s.key.ns, views)
    requires Answers(r2, cache, Reconciled(s, r1, codec, encode).secret.key.ns, views)
    ensures Reconciled(Reconciled(s, r1, codec, encode).secret.(rv := rv), r2, codec, encode) == Nothing
  {
    WriteKeeps(s, r1, codec, encode);
    QueryResultIsUnique(r1, r2, cache, OfferedKeys(cache, s.key.ns, views), s.key.ns);
    SameAnswerSettles(s, r1, codec, encode, rv);
  }

  /** A write changes the status annotation, and the data of a placeholder of the right type to the merge alone; the
      rest of the secret stays as it is. */
  lemma WriteKeeps(s: Secret, r: seq<Secret>, codec: Codec, encode: SecretStatus -> string)
    requires Reconciled(s, r, codec, encode).Update?
    ensures
      var d := Reconciled(s, r, codec, encode).secret;
      var right := s.typ == "kubernetes.io/dockerconfigjson";
      && "secretgen.carvel.dev/image-pull-secret" in s.meta.annotations
      && d.key == s.key && d.typ == s.typ && d.meta.labels == s.meta.labels && d.meta.owner == s.meta.owner
      && d.meta.annotations.Keys == s.meta.annotations.Keys + {"secretgen.carvel.dev/status"}
      && (forall a :: a in s.meta.annotations && a != "secretgen.carvel.dev/status" ==>
            d.meta.annotations[a] == s.meta.annotations[a])
      && d.meta.annotations["secretgen.carvel.dev/status"] ==
           encode(if right then Succeeded(StatusSecretNames(r)) else WrongType)
      && (right ==> Decodable(r, codec) && d.data == map[".dockerconfigjson" := codec.encode(Merged(r, codec))])
      && (!right ==> d.data == s.data)
  {
  }

  lemma SameAnswerSettles(s: Secret, r: seq<Secret>, codec: Codec, encode: SecretStatus -> string, rv: nat)
    requires Reconciled(s, r, codec, encode).Update?
    ensures Reconciled(Reconciled(s, r, codec, encode).secret.(rv := rv), r, codec, encode) == Nothing
  {
    var w := Reconciled(s, r, codec, encode).secret.(rv := rv);
    assert Desired(w, r, codec, encode).value.meta.annotations == w.meta.annotations;
  }

  /** The placeholder holds these credentials, and says that they come from the secrets `r`. */
  ghost predicate Holds(s: Secret, r: seq<Secret>, auths: Auths, encode: SecretStatus -> string, codec: Codec) {
    && s.data == map[DOCKER_CONFIG_KEY := codec.encode(auths)]
    && STATUS in s.meta.annotations && s.meta.annotations[STATUS] == encode(Succeeded(StatusSecretNames(r)))
  }

  lemma NothingIffDesired(s: Secret, r: seq<Secret>, codec: Codec, encode: SecretStatus -> string)
    requires IMAGE_PULL_SECRET in s.meta.annotations && s.typ == DOCKER_CONFIG_TYPE
    ensures Reconciled(s, r, codec, encode) == Nothing <==>
            Decodable(r, codec) && Holds(s, r, Merged(r, codec), encode, codec)
  {
    if Decodable(r, codec) && Holds(s, r, Merged(r, codec), encode, codec) {
      assert Desired(s, r, codec, encode).value.meta.annotations == s.meta.annotations;
    }
    if Reconciled(s, r, codec, encode) == Nothing {
      assert Desired(s, r, codec, encode) == Some(s);
    }
  }

  /** One of another type only ever gets a status that says so, and a secret without the annotation nothing at all. */
  lemma OtherSecrets(s: Secret, r: seq<Secret>, codec: Codec, encode: SecretStatus -> string)
    ensures "secretgen.carvel.dev/image-pull-secret" !in s.meta.annotations ==>
              Reconciled(s, r, codec, encode) == Nothing
    ensures "secretgen.carvel.dev/image-pull-secret" in s.meta.annotations
            && s.typ != "kubernetes.io/dockerconfigjson" ==>
              (Reconciled(s, r, codec, encode) == Nothing <==>
               "secretgen.carvel.dev/status" in s.meta.annotations
               && s.meta.annotations["secretgen.carvel.dev/status"] == encode(WrongType))
  {
    if STATUS in s.meta.annotations && s.meta.annotations[STATUS] == encode(WrongType) {
      assert WithStatus(s, encode(WrongType)).meta.annotations == s.meta.annotations;
    }
  }

  /** A placeholder needs no write exactly when every secret offered to it decodes and it holds their merge: for
      each server some of them defines, the credentials of the one that outranks the others, and nothing else. */
  lemma SettledIffMerge(s: Secret, r: seq<Secret>, cache: Cache, views: Views, codec: Codec,
                        encode: SecretStatus -> string)
    requires IMAGE_PULL_SECRET in s.meta.annotations && s.typ == DOCKER_CONFIG_TYPE
    requires Answers(r, cache, s.key.ns, views) && Rankable(cache, OfferedKeys(cache, s.key.ns, views))
    ensures Reconciled(s, r, codec, encode) == Nothing <==>
            && (forall k :: k in OfferedKeys(cache, s.key.ns, views) ==> AuthsOf(cache[k].secret, codec).Some?)
            && exists auths ::
                 && IsMerge(auths, cache, OfferedKeys(cache, s.key.ns, views), s.key.ns, codec)
                 && Holds(s, r, auths, encode, codec)
  {
    var keys := OfferedKeys(cache, s.key.ns, views);
    NothingIffDesired(s, r, codec, encode);
    DecodableIffAll(r, cache, keys, codec);
    if Decodable(r, codec) {
      MergedIsMerge(r, cache, keys, s.key.ns, codec);
      if auths :| IsMerge(auths, cache, keys, s.key.ns, codec) && Holds(s, r, auths, encode, codec) {
        MergeIsUnique(auths, Merged(r, codec), cache, keys, s.key.ns, codec);
      }
    }
  }

  lemma DecodableIffAll(r: seq<Secret>, cache: Cache, keys: set<Key>, codec: Codec)
    requires Lists(r, cache, keys)
    ensures Decodable(r, codec) <==> forall k :: k in keys ==> k in cache && AuthsOf(cache[k].secret, codec).Some?
  {
    forall k | k in keys && Decodable(r, codec) ensures k in cache && AuthsOf(cache[k].secret, codec).Some? {
      var i :| 0 <= i < |r| && r[i].key == k;
    }
  }
}
