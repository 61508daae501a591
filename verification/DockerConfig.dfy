/** Merging the registry credentials of several secrets into one. */
module DockerConfig {
  import opened Kube
  import opened ExportedSecrets
  import opened ExportCache

  datatype Auth = Auth(username: string, password: string, auth: string)

  type Auths = map<string, Auth>

  /** The JSON codec: which bytes are a config, and how a merged config is written. */
  datatype Codec = Codec(decode: Bytes -> Option<Auths>, encode: Auths -> Bytes)

  const DOCKER_CONFIG_KEY := ".dockerconfigjson"

  /** A secret without the data key decodes like one with empty content. */
  function AuthsOf(s: Secret, codec: Codec): Option<Auths> {
    codec.decode(if DOCKER_CONFIG_KEY in s.data then s.data[DOCKER_CONFIG_KEY] else [])
  }

  /** The config is under the one key, whatever else the secret holds. */
  lemma AuthsAreRead(s: Secret, codec: Codec)
    ensures ".dockerconfigjson" in s.data ==> AuthsOf(s, codec) == codec.decode(s.data[".dockerconfigjson"])
    ensures ".dockerconfigjson" !in s.data ==> AuthsOf(s, codec) == codec.decode([])
  {
  }

  predicate Decodable(secrets: seq<Secret>, codec: Codec) {
    forall i :: 0 <= i < |secrets| ==> AuthsOf(secrets[i], codec).Some?
  }

  /** Later secrets overlay earlier ones. */
  function Merged(secrets: seq<Secret>, codec: Codec): Auths
    requires Decodable(secrets, codec)
  {
    if secrets == [] then map[]
    else Merged(secrets[..|secrets| - 1], codec) + AuthsOf(secrets[|secrets| - 1], codec).value
  }

  /** The two loops of the merge; an undecodable secret fails it as a whole. */
  method NewCombinedDockerConfigJSON(secrets: seq<Secret>, codec: Codec) returns (r: Option<Auths>)
    ensures r == if Decodable(secrets, codec) then Some(Merged(secrets, codec)) else None
  {
    var combined: Auths := map[];
    for n := 0 to |secrets|
      invariant Decodable(secrets[..n], codec) && combined == Merged(secrets[..n], codec)
    {
      var decoded := AuthsOf(secrets[n], codec);
      if decoded.None? {
        return None;
      }
      combined := Overlay(combined, decoded.value);
      assert secrets[..n + 1][..n] == secrets[..n];
    }
    assert secrets[..|secrets|] == secrets;
    return Some(combined);
  }

  /** The inner loop, over the servers of one secret in any order. */
  method Overlay(before: Auths, auths: Auths) returns (combined: Auths)
    ensures combined == before + auths
  {
    combined := before;
    var servers := auths.Keys;
    while servers != {}
      invariant servers <= auths.Keys
      invariant combined.Keys == before.Keys + (auths.Keys - servers)
      invariant forall server :: server in combined ==>
                  combined[server] == if server in auths && server !in servers then auths[server] else before[server]
      decreases |servers|
    {
      var server :| server in servers;
      combined := combined[server := auths[server]];
      servers := servers - {server};
    }
  }

  predicate Defines(secrets: seq<Secret>, codec: Codec, i: int, server: string)
    requires Decodable(secrets, codec)
  {
    0 <= i < |secrets| && server in AuthsOf(secrets[i], codec).value
  }

  /** The last secret that defines a server decides. */
  lemma {:induction false} LastDefinitionWins(secrets: seq<Secret>, codec: Codec, i: int, server: string)
    requires Decodable(secrets, codec) && Defines(secrets, codec, i, server)
    requires forall j :: i < j ==> !Defines(secrets, codec, j, server)
    ensures server in Merged(secrets, codec)
    ensures Merged(secrets, codec)[server] == AuthsOf(secrets[i], codec).value[server]
  {
    var n := |secrets| - 1;
    if i < n {
      assert !Defines(secrets, codec, n, server);
      forall j | i < j ensures !Defines(secrets[..n], codec, j, server) {
        assert !Defines(secrets, codec, j, server);
      }
      LastDefinitionWins(secrets[..n], codec, i, server);
    }
  }

  /** A server nobody defines is not invented. */
  lemma {:induction false} LastDefinition(secrets: seq<Secret>, codec: Codec, server: string) returns (i: int)
    requires Decodable(secrets, codec) && server in Merged(secrets, codec)
    ensures Defines(secrets, codec, i, server) && forall j :: i < j ==> !Defines(secrets, codec, j, server)
  {
    var n := |secrets| - 1;
    i := n;
    if server !in AuthsOf(secrets[n], codec).value {
      i := LastDefinition(secrets[..n], codec, server);
      forall j | i < j ensures !Defines(secrets, codec, j, server) {
        assert !Defines(secrets[..n], codec, j, server);
      }
    }
  }

  /** The matching secret under `k` defines the server. */
  predicate Offers(cache: Cache, keys: set<Key>, codec: Codec, k: Key, server: string) {
    && k in keys && k in cache
    && AuthsOf(cache[k].secret, codec).Some? && server in AuthsOf(cache[k].secret, codec).value
  }

  /** End to end, merged from a query's answer: the credentials held for a server are those of the matching secret
      that outranks every other one defining that server. */
  lemma CredentialsOfWinner(r: seq<Secret>, cache: Cache, keys: set<Key>, toNs: string, codec: Codec, server: string)
    returns (k: Key)
    requires Lists(r, cache, keys) && PreferenceOrder(r, cache, toNs) && Rankable(cache, keys)
    requires Decodable(r, codec) && server in Merged(r, codec)
    ensures Offers(cache, keys, codec, k, server)
    ensures Merged(r, codec)[server] == AuthsOf(cache[k].secret, codec).value[server]
    ensures forall l :: Offers(cache, keys, codec, l, server) && l != k ==> Outranks(cache[k], cache[l], toNs)
  {
    var i := LastDefinition(r, codec, server);
    k := r[i].key;
    LastDefinitionWins(r, codec, i, server);
    forall l | Offers(cache, keys, codec, l, server) && l != k ensures Outranks(cache[k], cache[l], toNs) {
      var j :| 0 <= j < |r| && r[j].key == l;
      assert Defines(r, codec, j, server);
      assert Beats(cache, toNs, r[i].key, r[j].key);
      PreferredIffOutranks(cache[k], cache[l], toNs);
    }
  }

  /** And it has the servers the matching secrets define, no others. */
  lemma MergedServers(r: seq<Secret>, cache: Cache, keys: set<Key>, codec: Codec, server: string)
    requires Lists(r, cache, keys) && Decodable(r, codec)
    ensures server in Merged(r, codec) <==> exists k :: Offers(cache, keys, codec, k, server)
  {
    if server in Merged(r, codec) {
      var i := LastDefinition(r, codec, server);
      assert Offers(cache, keys, codec, r[i].key, server);
    }
    if k :| Offers(cache, keys, codec, k, server) {
      var i :| 0 <= i < |r| && r[i].key == k;
      DefinedIsMerged(r, codec, i, server);
    }
  }

  /** The matching secret under `k` defines the server and outranks every other one that does. */
  ghost predicate WinsFor(cache: Cache, keys: set<Key>, toNs: string, codec: Codec, k: Key, server: string) {
    && Offers(cache, keys, codec, k, server)
    && forall l :: Offers(cache, keys, codec, l, server) && l != k ==> Outranks(cache[k], cache[l], toNs)
  }

  /** The credentials are those of the winner for each server, and the servers those that some matching secret
      defines. */
  ghost predicate IsMerge(auths: Auths, cache: Cache, keys: set<Key>, toNs: string, codec: Codec) {
    && (forall server :: server in auths <==> exists k :: Offers(cache, keys, codec, k, server))
    && (forall server, k :: server in auths && WinsFor(cache, keys, toNs, codec, k, server) ==>
          auths[server] == AuthsOf(cache[k].secret, codec).value[server])
    && (forall server :: server in auths ==> exists k :: WinsFor(cache, keys, toNs, codec, k, server))
  }

  /** Only one secret wins. */
  lemma OneWinner(cache: Cache, keys: set<Key>, toNs: string, codec: Codec, a: Key, b: Key, server: string)
    requires Rankable(cache, keys)
    requires WinsFor(cache, keys, toNs, codec, a, server) && WinsFor(cache, keys, toNs, codec, b, server)
    ensures a == b
  {
    if a != b {
      PreferredIffOutranks(cache[a], cache[b], toNs);
      PreferredIffOutranks(cache[b], cache[a], toNs);
      BeatsIsStrict(cache, toNs, a, b);
    }
  }

  lemma MergedIsMerge(r: seq<Secret>, cache: Cache, keys: set<Key>, toNs: string, codec: Codec)
    requires Lists(r, cache, keys) && PreferenceOrder(r, cache, toNs) && Rankable(cache, keys) && Decodable(r, codec)
    ensures IsMerge(Merged(r, codec), cache, keys, toNs, codec)
  {
    forall server ensures server in Merged(r, codec) <==> exists k :: Offers(cache, keys, codec, k, server) {
      MergedServers(r, cache, keys, codec, server);
    }
    forall server | server in Merged(r, codec) ensures exists k :: WinsFor(cache, keys, toNs, codec, k, server) {
      var k := CredentialsOfWinner(r, cache, keys, toNs, codec, server);
      assert WinsFor(cache, keys, toNs, codec, k, server);
    }
    forall server, k | server in Merged(r, codec) && WinsFor(cache, keys, toNs, codec, k, server)
      ensures Merged(r, codec)[server] == AuthsOf(cache[k].secret, codec).value[server]
    {
      var w := CredentialsOfWinner(r, cache, keys, toNs, codec, server);
      OneWinner(cache, keys, toNs, codec, k, w, server);
    }
  }

  lemma MergesAgree(a: Auths, b: Auths, cache: Cache, keys: set<Key>, toNs: string, codec: Codec, server: string)
    requires IsMerge(a, cache, keys, toNs, codec) && IsMerge(b, cache, keys, toNs, codec)
    ensures Lookup(a, server) == Lookup(b, server)
  {
    assert server in a <==> server in b;
    if server in a {
      var k :| WinsFor(cache, keys, toNs, codec, k, server);
    }
  }

  /** There is one merge. */
  lemma MergeIsUnique(a: Auths, b: Auths, cache: Cache, keys: set<Key>, toNs: string, codec: Codec)
    requires IsMerge(a, cache, keys, toNs, codec) && IsMerge(b, cache, keys, toNs, codec)
    ensures a == b
  {
    forall server ensures Lookup(a, server) == Lookup(b, server) {
      MergesAgree(a, b, cache, keys, toNs, codec, server);
    }
    SameLookups(a, b);
  }

  lemma SameLookups(a: Auths, b: Auths)
    requires forall server :: Lookup(a, server) == Lookup(b, server)
    ensures a == b
  {
    forall server ensures server in a <==> server in b { assert Lookup(a, server) == Lookup(b, server); }
    forall server | server in a ensures a[server] == b[server] { assert Lookup(a, server) == Lookup(b, server); }
  }

  lemma {:induction false} DefinedIsMerged(secrets: seq<Secret>, codec: Codec, i: int, server: string)
    requires Decodable(secrets, codec) && Defines(secrets, codec, i, server)
    ensures server in Merged(secrets, codec)
  {
    var n := |secrets| - 1;
    if i < n { DefinedIsMerged(secrets[..n], codec, i, server); }
  }
}
