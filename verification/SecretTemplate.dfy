/** Templates made from input resources: which inputs a reconcile resolves, and what it tracks for them. */
module SecretTemplate {
  import opened Kube
  import opened ResourceTracker

  datatype InputResource = InputResource(name: string, apiVersion: string, kind: string, refName: string)

  datatype Template = Template(serviceAccountName: string, terminating: bool, inputs: seq<InputResource>)

  /** The content of a resource. */
  type Content = string

  /** Evaluating a name with jsonpath over the inputs so far, parsing an API version, and reading a resource of a
      version and kind. */
  datatype Api = Api(evaluate: (string, map<string, Content>) -> Option<string>,
                     parses: string -> bool,
                     get: (string, string, Key) -> Option<Content>)

  datatype Inputs = Inputs(resources: map<string, Content>, keys: seq<Key>)

  predicate ShouldTrack(t: Template) {
    t.serviceAccountName == ""
  }

  /** The key and content of one input, given those before it. */
  function ResolveOne(t: Template, ns: string, input: InputResource, before: map<string, Content>, api: Api):
    Option<(Key, Content)>
  {
    if ShouldTrack(t) && (input.kind != "Secret" || input.apiVersion != "v1") then None
    else
      var name := api.evaluate(input.refName, before);
      if name.None? || !api.parses(input.apiVersion) then None
      else
        var key := Key(ns, name.value);
        match api.get(input.apiVersion, input.kind, key)
        case None => None
        case Some(content) => Some((key, content))
  }

  /** The first n inputs, if all of them resolve. */
  function Resolve(t: Template, ns: string, n: nat, api: Api): (r: Option<Inputs>)
    requires n <= |t.inputs|
    ensures r.Some? ==> |r.value.keys| == n
  {
    if n == 0 then Some(Inputs(map[], []))
    else
      match Resolve(t, ns, n - 1, api)
      case None => None
      case Some(before) =>
        match ResolveOne(t, ns, t.inputs[n - 1], before.resources, api)
        case None => None
        case Some((key, content)) =>
          Some(Inputs(before.resources[t.inputs[n - 1].name := content], before.keys + [key]))
  }

  /** n is as far as resolving gets. */
  predicate ResolvesUpTo(t: Template, ns: string, n: nat, api: Api) {
    && n <= |t.inputs| && Resolve(t, ns, n, api).Some?
    && (n < |t.inputs| ==> Resolve(t, ns, n + 1, api).None?)
  }

  lemma {:induction false} ResolvesBefore(t: Template, ns: string, m: nat, n: nat, api: Api)
    requires m <= n <= |t.inputs| && Resolve(t, ns, n, api).Some?
    ensures Resolve(t, ns, m, api).Some?
    ensures Resolve(t, ns, m, api).value.keys <= Resolve(t, ns, n, api).value.keys
    decreases n - m
  {
    if m < n { ResolvesBefore(t, ns, m, n - 1, api); }
  }

  /** There is one such n. */
  lemma UpToIsUnique(t: Template, ns: string, m: nat, n: nat, api: Api)
    requires ResolvesUpTo(t, ns, m, api) && ResolvesUpTo(t, ns, n, api)
    ensures m == n
  {
    if m < n { ResolvesBefore(t, ns, m + 1, n, api); }
    if n < m { ResolvesBefore(t, ns, n + 1, m, api); }
  }

  // ---- what resolving means ----

  /** What the resources under the first n keys hold, by the names of their inputs. */
  function ContentsOf(t: Template, keys: seq<Key>, n: nat, api: Api): map<string, Content>
    requires n <= |keys| && n <= |t.inputs|
  {
    if n == 0 then map[]
    else
      var input := t.inputs[n - 1];
      ContentsOf(t, keys, n - 1, api)[input.name := api.get(input.apiVersion, input.kind, keys[n - 1]).GetOr("")]
  }

  /** Key j is in the template's namespace under the name that the input's reference evaluates to over the contents
      of the inputs before it, and can be read; without a service account it is a Secret's. */
  ghost predicate InputAt(t: Template, ns: string, keys: seq<Key>, api: Api, j: int)
    requires 0 <= j < |keys| <= |t.inputs|
  {
    var input, name := t.inputs[j], api.evaluate(t.inputs[j].refName, ContentsOf(t, keys, j, api));
    && name.Some? && keys[j] == Key(ns, name.value)
    && api.parses(input.apiVersion) && api.get(input.apiVersion, input.kind, keys[j]).Some?
    && (t.serviceAccountName == "" ==> input.kind == "Secret" && input.apiVersion == "v1")
  }

  /** These are the keys of the first inputs. */
  ghost predicate Follows(t: Template, ns: string, keys: seq<Key>, api: Api) {
    |keys| <= |t.inputs| && forall j :: 0 <= j < |keys| ==> InputAt(t, ns, keys, api, j)
  }

  lemma {:induction false} ContentsOfFront(t: Template, keys: seq<Key>, more: seq<Key>, n: nat, api: Api)
    requires n <= |keys| && n <= |t.inputs|
    ensures ContentsOf(t, keys + more, n, api) == ContentsOf(t, keys, n, api)
  {
    if n > 0 { ContentsOfFront(t, keys, more, n - 1, api); }
  }

  lemma InputAtFront(t: Template, ns: string, keys: seq<Key>, k: Key, api: Api, j: nat)
    requires j < |keys| < |t.inputs|
    ensures InputAt(t, ns, keys + [k], api, j) <==> InputAt(t, ns, keys, api, j)
  {
    ContentsOfFront(t, keys, [k], j, api);
  }

  lemma FollowsFront(t: Template, ns: string, keys: seq<Key>, k: Key, api: Api)
    requires |keys| < |t.inputs|
    ensures Follows(t, ns, keys + [k], api) <==>
            Follows(t, ns, keys, api) && InputAt(t, ns, keys + [k], api, |keys|)
  {
    forall j | 0 <= j < |keys| ensures InputAt(t, ns, keys + [k], api, j) <==> InputAt(t, ns, keys, api, j) {
      InputAtFront(t, ns, keys, k, api, j);
    }
  }

  /** The next input resolves to k. */
  lemma ResolveOneMeans(t: Template, ns: string, keys: seq<Key>, k: Key, api: Api, before: map<string, Content>)
    requires |keys| < |t.inputs| && before == ContentsOf(t, keys, |keys|, api)
    ensures
      var one := ResolveOne(t, ns, t.inputs[|keys|], before, api);
      && (InputAt(t, ns, keys + [k], api, |keys|) <==> one.Some? && one.value.0 == k)
      && (InputAt(t, ns, keys + [k], api, |keys|) ==>
            ContentsOf(t, keys + [k], |keys| + 1, api) == before[t.inputs[|keys|].name := one.value.1])
  {
    ContentsOfFront(t, keys, [k], |keys|, api);
  }

  /** Resolving yields the keys that follow from the template, and their contents, and nothing else does. */
  lemma {:induction false} ResolveIffFollows(t: Template, ns: string, keys: seq<Key>, api: Api)
    requires |keys| <= |t.inputs|
    ensures Follows(t, ns, keys, api) <==>
            Resolve(t, ns, |keys|, api) == Some(Inputs(ContentsOf(t, keys, |keys|, api), keys))
    ensures Resolve(t, ns, |keys|, api).Some? && Resolve(t, ns, |keys|, api).value.keys == keys ==>
              Resolve(t, ns, |keys|, api).value.resources == ContentsOf(t, keys, |keys|, api)
    decreases |keys|
  {
    if keys != [] {
      var n := |keys| - 1;
      var front, k := keys[..n], keys[n];
      assert keys == front + [k];
      ResolveIffFollows(t, ns, front, api);
      FollowsFront(t, ns, front, k, api);
      if Resolve(t, ns, n, api).Some? && Resolve(t, ns, n, api).value.keys == front {
        ResolveOneMeans(t, ns, front, k, api, Resolve(t, ns, n, api).value.resources);
      }
    }
  }

  /** The keys of all inputs up to the first that does not resolve. */
  ghost predicate Reaches(t: Template, ns: string, keys: seq<Key>, api: Api) {
    Follows(t, ns, keys, api) && (|keys| < |t.inputs| ==> forall k :: !Follows(t, ns, keys + [k], api))
  }

  lemma ReachesIffResolvesUpTo(t: Template, ns: string, keys: seq<Key>, api: Api)
    ensures Reaches(t, ns, keys, api) <==>
            ResolvesUpTo(t, ns, |keys|, api) && Resolve(t, ns, |keys|, api).value.keys == keys
  {
    if |keys| <= |t.inputs| {
      ResolveIffFollows(t, ns, keys, api);
      if |keys| < |t.inputs| && Resolve(t, ns, |keys|, api).Some? && Resolve(t, ns, |keys|, api).value.keys == keys {
        forall k { ResolveIffFollows(t, ns, keys + [k], api); }
        var more := Resolve(t, ns, |keys| + 1, api);
        if more.Some? {
          var k := more.value.keys[|keys|];
          assert more.value.keys == keys + [k];
          ResolveIffFollows(t, ns, keys + [k], api);
        }
      }
    }
  }

  // ---- one reconcile ----

  /** How a reconcile finds its template: gone, unreadable, or there, with or without a client for its account. */
  datatype Found = NotFound | Unreadable | There(t: Template, clientOk: bool)

  datatype Effect = Leave | Untrack | Retrack(keys: seq<Key>)

  /** How far resolving gets, from n inputs on. */
  function Extent(t: Template, ns: string, n: nat, api: Api): (m: nat)
    requires n <= |t.inputs| && Resolve(t, ns, n, api).Some?
    ensures n <= m && ResolvesUpTo(t, ns, m, api)
    decreases |t.inputs| - n
  {
    if n < |t.inputs| && Resolve(t, ns, n + 1, api).Some? then Extent(t, ns, n + 1, api) else n
  }

  /** The keys of the inputs before the first that does not resolve. */
  function ResolvedKeys(t: Template, ns: string, api: Api): seq<Key> {
    Resolve(t, ns, Extent(t, ns, 0, api), api).value.keys
  }

  function EffectOf(key: Key, found: Found, api: Api): Effect {
    match found
    case NotFound => Untrack
    case Unreadable => Leave
    case There(t, _) => if t.terminating || !ShouldTrack(t) then Leave else Retrack(ResolvedKeys(t, key.ns, api))
  }

  function Apply(m: map<Key, set<Key>>, key: Key, effect: Effect): map<Key, set<Key>> {
    match effect
    case Leave => m
    case Untrack => m - {key}
    case Retrack(keys) => m[key := SetOf(keys)]
  }

  class Reconciler {
    const secretTracker: Tracker

    constructor (tracker: Tracker)
      ensures secretTracker == tracker
    {
      secretTracker := tracker;
    }

    /** The loop over the inputs; however it ends, what it did resolve is tracked when no account is named. */
    method ResolveInputResources(key: Key, t: Template, clientOk: bool, api: Api)
      returns (r: Option<map<string, Content>>, ghost keys: seq<Key>)
      requires ShouldTrack(t) ==> clientOk
      modifies secretTracker
      ensures clientOk ==> Reaches(t, key.ns, keys, api)
      ensures r == if clientOk && |keys| == |t.inputs| then Some(ContentsOf(t, keys, |keys|, api)) else None
      ensures secretTracker.tracker ==
              if t.serviceAccountName == "" then old(secretTracker.tracker)[key := SetOf(keys)]
              else old(secretTracker.tracker)
    {
      r, keys := None, [];
      if !clientOk {
        return;
      }
      var inputs := Inputs(map[], []);
      var i, failed := 0, false;
      while i < |t.inputs| && !failed
        invariant 0 <= i <= |t.inputs| && Resolve(t, key.ns, i, api) == Some(inputs)
        invariant failed ==> i < |t.inputs| && Resolve(t, key.ns, i + 1, api).None?
        decreases |t.inputs| - i, !failed
      {
        match ResolveOne(t, key.ns, t.inputs[i], inputs.resources, api) {
          case None =>
            failed := true;
          case Some((k, content)) =>
            inputs := Inputs(inputs.resources[t.inputs[i].name := content], inputs.keys + [k]);
            i := i + 1;
        }
      }
      keys := inputs.keys;
      ReachesIffResolvesUpTo(t, key.ns, keys, api);
      ResolveIffFollows(t, key.ns, keys, api);
      if !failed {
        r := Some(inputs.resources);
      }
      if ShouldTrack(t) {
        secretTracker.UntrackAll(key);
        secretTracker.Track(key, inputs.keys);
        assert {} + SetOf(inputs.keys) == SetOf(inputs.keys);
        assert secretTracker.tracker == old(secretTracker.tracker)[key := SetOf(inputs.keys)];
      }
    }

    /** The tracking done by one reconcile; a template without an account uses the controller's own client. */
    method Reconcile(key: Key, found: Found, api: Api) returns (values: Option<map<string, Content>>)
      requires found.There? && ShouldTrack(found.t) ==> found.clientOk
      modifies secretTracker
      ensures secretTracker.tracker == Apply(old(secretTracker.tracker), key, EffectOf(key, found, api))
      ensures values.Some? ==>
                && found.There? && !found.t.terminating
                && exists keys :: Follows(found.t, key.ns, keys, api) && |keys| == |found.t.inputs|
                                  && values.value == ContentsOf(found.t, keys, |keys|, api)
    {
      values := None;
      match found {
        case NotFound =>
          secretTracker.UntrackAll(key);
        case Unreadable =>
        case There(t, clientOk) =>
          if t.terminating {
            return;
          }
          ghost var keys;
          values, keys := ResolveInputResources(key, t, clientOk, api);
          if clientOk {
            ReachesIffResolvesUpTo(t, key.ns, keys, api);
            UpToIsUnique(t, key.ns, |keys|, Extent(t, key.ns, 0, api), api);
          }
      }
    }
  }

  // ---- whole runs ----

  /** One reconcile: of which template, how it was found, and what the API answered. */
  datatype Event = Event(key: Key, found: Found, api: Api)

  function TrackerAfter(events: seq<Event>): map<Key, set<Key>> {
    if events == [] then map[]
    else
      var e := events[|events| - 1];
      Apply(TrackerAfter(events[..|events| - 1]), e.key, EffectOf(e.key, e.found, e.api))
  }

  /** The reconcile tracks: it found its template, undeleted and without a service account. */
  predicate Tracks(e: Event) {
    e.found.There? && !e.found.t.terminating && e.found.t.serviceAccountName == ""
  }

  /** Event `i` is the last of template `t` that tracks, or that found the template gone. */
  predicate Latest(events: seq<Event>, t: Key, i: int) {
    && 0 <= i < |events| && events[i].key == t && (Tracks(events[i]) || events[i].found.NotFound?)
    && forall j :: i < j < |events| ==> events[j].key != t || !(Tracks(events[j]) || events[j].found.NotFound?)
  }

  /** `x` is one of the secrets the reconcile resolved before the first input that failed. */
  ghost predicate Resolved(e: Event, x: Key)
    requires Tracks(e)
  {
    exists keys :: Reaches(e.found.t, e.key.ns, keys, e.api) && x in keys
  }

  lemma ResolvedIsKey(e: Event, x: Key)
    requires Tracks(e)
    ensures Resolved(e, x) <==> x in ResolvedKeys(e.found.t, e.key.ns, e.api)
  {
    var t, ns := e.found.t, e.key.ns;
    ReachesIffResolvesUpTo(t, ns, ResolvedKeys(t, ns, e.api), e.api);
    if keys :| Reaches(t, ns, keys, e.api) && x in keys {
      ReachesIffResolvesUpTo(t, ns, keys, e.api);
      UpToIsUnique(t, ns, |keys|, Extent(t, ns, 0, e.api), e.api);
    }
  }

  /** A template tracks a secret exactly when its latest reconcile to track resolved it, and it has not been found
      gone since; what other templates do does not matter. */
  lemma {:induction false} TrackerAgrees(events: seq<Event>, t: Key, x: Key)
    ensures
      (t in TrackerAfter(events) && x in TrackerAfter(events)[t]) <==>
      exists i :: Latest(events, t, i) && Tracks(events[i]) && Resolved(events[i], x)
  {
    if events != [] {
      var n := |events| - 1;
      var before, last := events[..n], events[n];
      TrackerAgrees(before, t, x);
      if last.key == t && (Tracks(last) || last.found.NotFound?) {
        assert Latest(events, t, n);
        forall i | Latest(events, t, i) ensures i == n {}
        if Tracks(last) { ResolvedIsKey(last, x); }
      } else {
        forall i ensures Latest(events, t, i) <==> Latest(before, t, i) {}
      }
    }
  }

  /** No lost update: once a reconcile without an account has resolved all its inputs, an event on any of those
      secrets, each under the name that its reference evaluated to, finds the template, until a later reconcile of
      that template tracks or finds it gone. */
  lemma InputsAreWatched(events: seq<Event>, t: Key, i: nat, keys: seq<Key>, j: nat)
    requires Latest(events, t, i) && Tracks(events[i])
    requires Follows(events[i].found.t, t.ns, keys, events[i].api) && j < |keys| == |events[i].found.t.inputs|
    ensures
      var input := events[i].found.t.inputs[j];
      var name := events[i].api.evaluate(input.refName, ContentsOf(events[i].found.t, keys, j, events[i].api));
      name.Some? && t in TrackerAfter(events) && Key(t.ns, name.value) in TrackerAfter(events)[t]
  {
    assert InputAt(events[i].found.t, t.ns, keys, events[i].api, j);
    assert Reaches(events[i].found.t, t.ns, keys, events[i].api);
    assert Resolved(events[i], keys[j]);
    TrackerAgrees(events, t, keys[j]);
  }

  /** An input that cannot be read is not tracked, nor is any after it: the event that makes it readable finds the
      template only if an earlier input names the same secret. */
  lemma FailedInputIsNotWatched(events: seq<Event>, t: Key, i: nat, keys: seq<Key>, x: Key)
    requires Latest(events, t, i) && Tracks(events[i]) && Reaches(events[i].found.t, t.ns, keys, events[i].api)
    requires x !in keys
    ensures !(t in TrackerAfter(events) && x in TrackerAfter(events)[t])
  {
    TrackerAgrees(events, t, x);
    var e := events[i];
    if keys' :| Reaches(e.found.t, e.key.ns, keys', e.api) && x in keys' {
      ReachesIffResolvesUpTo(e.found.t, t.ns, keys, e.api);
      ReachesIffResolvesUpTo(e.found.t, t.ns, keys', e.api);
      UpToIsUnique(e.found.t, t.ns, |keys|, |keys'|, e.api);
    }
    forall k | Latest(events, t, k) ensures k == i {}
  }
}
