/** The cache of service account tokens. Times and durations are whole nanoseconds. */
module Tokens {
  import opened Kube
  import opened Quoting

  const SECOND := 1_000_000_000
  const MAX_TTL := 2 * 60 * 60 * SECOND

  /** Any bytes: the code does not look at what a name may hold. */
  type Name = Bytes

  datatype Account = Account(namespace: Name, name: Name)

  /** A token as the API server issued it: for whom, for how many seconds if that is known, and until when. */
  datatype Token = Token(owner: Account, lifetime: Option<int>, expires: int)

  // ---- when a token is refreshed ----

  /** Go's integer division by a positive number cuts towards zero. */
  function GoDiv(a: int, b: int): int
    requires b > 0
  {
    if a >= 0 then a / b else -((-a) / b)
  }

  function Half(seconds: int): int {
    GoDiv(seconds * 50, 100)
  }

  function IssuedAt(t: Token): int
    requires t.lifetime.Some?
  {
    t.expires - t.lifetime.value * SECOND
  }

  predicate Expired(t: Token, now: int) {
    now > t.expires
  }

  /** The random delay: a float below ten seconds, cut to whole seconds. */
  type Jitter = j: int | 0 <= j <= 9

  predicate RequiresRefresh(t: Token, authenticated: bool, now: int, jitter: Jitter) {
    if !authenticated then true
    else if t.lifetime.None? then false
    else if now > IssuedAt(t) + MAX_TTL - jitter * SECOND then true
    else now > t.expires - Half(t.lifetime.value) * SECOND - jitter * SECOND
  }

  /** Half of a number of seconds, cut towards zero. */
  lemma HalfIs(seconds: int)
    ensures Half(seconds) == if seconds >= 0 then seconds / 2 else -((-seconds) / 2)
  {
  }

  /** Of a token issued for S seconds: the jitter of j seconds brings forward both bounds, two hours of age and half
      of its life left, h seconds. */
  lemma RefreshMeans(t: Token, now: int, j: Jitter, s: int, h: int)
    requires t.lifetime == Some(s) && h == if s >= 0 then s / 2 else -((-s) / 2)
    ensures RequiresRefresh(t, true, now, j) <==>
            || now > t.expires - s * 1_000_000_000 + 7_200_000_000_000 - j * 1_000_000_000
            || now > t.expires - h * 1_000_000_000 - j * 1_000_000_000
  {
    HalfIs(s);
  }

  /** So it is always refreshed after the earlier bound, and never earlier than nine seconds before it. */
  lemma RefreshWindow(t: Token, now: int, s: int, h: int)
    requires t.lifetime == Some(s) && h == if s >= 0 then s / 2 else -((-s) / 2)
    ensures (forall j: Jitter :: RequiresRefresh(t, true, now, j)) <==>
            || now > t.expires - s * 1_000_000_000 + 7_200_000_000_000
            || now > t.expires - h * 1_000_000_000
    ensures (exists j: Jitter :: RequiresRefresh(t, true, now, j)) <==>
            || now > t.expires - s * 1_000_000_000 + 7_191_000_000_000
            || now > t.expires - h * 1_000_000_000 - 9_000_000_000
  {
    var none, most: Jitter := 0, 9;
    RefreshMeans(t, now, none, s, h);
    RefreshMeans(t, now, most, s, h);
    forall j: Jitter { RefreshMeans(t, now, j, s, h); }
  }

  /** One that fails its review is refreshed whatever else, and one of unknown lifetime only then. */
  lemma RefreshWithoutTime(t: Token, authenticated: bool, now: int, j: Jitter)
    ensures !authenticated ==> RequiresRefresh(t, authenticated, now, j)
    ensures t.lifetime.None? ==> (RequiresRefresh(t, authenticated, now, j) <==> !authenticated)
  {
  }

  /** A token that passes is unexpired, whenever it is asked for, exactly when its lifetime is known and is not two
      seconds or more below zero. */
  lemma PassingIsUnexpired(t: Token)
    ensures (forall now: int, j: Jitter :: !RequiresRefresh(t, true, now, j) ==> now <= t.expires)
            <==> t.lifetime.Some? && t.lifetime.value >= -1
  {
    var late, none: Jitter := t.expires + 1, 0;
    if t.lifetime.Some? && t.lifetime.value >= -1 {
      assert Half(t.lifetime.value) >= 0;
    } else {
      assert t.lifetime.Some? ==> Half(t.lifetime.value) <= -1;
      assert !RequiresRefresh(t, true, late, none);
    }
  }

  // ---- one lookup ----

  type Cache = map<Bytes, Token>

  function CacheKey(a: Account, p: Printable): Bytes {
    Quote(a.name, p) + [47] + Quote(a.namespace, p)
  }

  /** Two accounts never share a key, whatever their names hold. */
  lemma CacheKeyInjective(a: Account, b: Account, p: Printable)
    requires CacheKey(a, p) == CacheKey(b, p)
    ensures a == b
  {
    KeyParts(a, p);
    KeyParts(b, p);
    QuoteDecodes(a.name, b.name, [47] + Quote(a.namespace, p), [47] + Quote(b.namespace, p), p);
    QuoteDecodes(a.namespace, b.namespace, [], [], p);
  }

  lemma KeyParts(a: Account, p: Printable)
    ensures CacheKey(a, p) == Quote(a.name, p) + ([47] + Quote(a.namespace, p))
    ensures ([47] + Quote(a.namespace, p))[1..] == Quote(a.namespace, p) + []
  {
  }

  /** What one lookup meets after it has read the cache: the review of the token it found, the clock and jitter
      then, the answer of the token API, and the clock when that failed. */
  datatype Env = Env(authenticated: bool, now: int, jitter: Jitter, fetched: Option<Token>, later: int)

  datatype Answer = Cached(t: Token) | Fetched(t: Token) | Kept(t: Token) | Error

  function Look(found: Option<Token>, env: Env): Answer {
    if found.Some? && !RequiresRefresh(found.value, env.authenticated, env.now, env.jitter) then Cached(found.value)
    else if env.fetched.Some? then Fetched(env.fetched.value)
    else if found.None? || Expired(found.value, env.later) then Error
    else Kept(found.value)
  }

  function Stored(cache: Cache, key: Bytes, answer: Answer): Cache {
    if answer.Fetched? then cache[key := answer.t] else cache
  }

  /** The clock is read again for every entry. */
  type Clock = Bytes -> int

  function Cleaned(cache: Cache, clock: Clock): Cache {
    map k | k in cache && !Expired(cache[k], clock(k)) :: cache[k]
  }

  class Manager {
    const printable: Printable
    var cache: Cache

    constructor (printable: Printable)
      ensures cache == map[] && this.printable == printable
    {
      this.printable := printable;
      cache := map[];
    }

    method Get(key: Bytes) returns (ctr: Option<Token>)
      ensures ctr == Lookup(cache, key)
    {
      return Lookup(cache, key);
    }

    method Set(key: Bytes, t: Token)
      modifies this
      ensures cache == old(cache)[key := t]
    {
      cache := cache[key := t];
    }

    /** One lookup, with no other call between its read and its store; the runs below put others there. */
    method GetServiceAccountToken(a: Account, env: Env) returns (answer: Answer)
      modifies this
      ensures answer == Look(Lookup(old(cache), CacheKey(a, printable)), env)
      ensures cache == Stored(old(cache), CacheKey(a, printable), answer)
    {
      var key := CacheKey(a, printable);
      var ctr := Get(key);
      if ctr.Some? && !RequiresRefresh(ctr.value, env.authenticated, env.now, env.jitter) {
        return Cached(ctr.value);
      }
      match env.fetched {
        case None =>
          if ctr.None? {
            return Error;
          } else if Expired(ctr.value, env.later) {
            return Error;
          }
          return Kept(ctr.value);
        case Some(t) =>
          Set(key, t);
          return Fetched(t);
      }
    }

    /** The loop that deletes what has expired while it walks the map. */
    method Cleanup(clock: Clock)
      modifies this
      ensures cache == Cleaned(old(cache), clock)
      ensures forall k :: k in cache <==> k in old(cache) && clock(k) <= old(cache)[k].expires
      ensures forall k :: k in cache ==> cache[k] == old(cache)[k]
    {
      ghost var was := cache;
      var keys := cache.Keys;
      while keys != {}
        invariant keys <= was.Keys
        invariant cache == map k | k in was && (k in keys || !Expired(was[k], clock(k))) :: was[k]
        decreases |keys|
      {
        var k :| k in keys;
        keys := keys - {k};
        if Expired(cache[k], clock(k)) {
          cache := cache - {k};
        }
      }
      assert cache == Cleaned(was, clock);
    }
  }

  /** Which of the four answers a lookup gives. */
  lemma LookMeans(found: Option<Token>, env: Env)
    ensures Look(found, env).Cached? <==>
            found.Some? && !RequiresRefresh(found.value, env.authenticated, env.now, env.jitter)
    ensures Look(found, env).Fetched? <==> !Look(found, env).Cached? && env.fetched.Some?
    ensures Look(found, env).Kept? <==>
            !Look(found, env).Cached? && env.fetched.None? && found.Some? && env.later <= found.value.expires
    ensures Look(found, env).Cached? || Look(found, env).Kept? ==> Look(found, env).t == found.value
    ensures Look(found, env).Fetched? ==> Look(found, env).t == env.fetched.value
  {
  }

  /** A cached token handed out without a refresh was just authenticated; of a lifetime of S >= 0 seconds, it has S
      / 2 left and is at most two hours old. */
  lemma CachedIsFresh(found: Option<Token>, env: Env)
    requires Look(found, env).Cached?
    ensures
      var t := Look(found, env).t;
      env.authenticated
      && (t.lifetime.Some? && t.lifetime.value >= 0 ==>
            && t.expires - env.now >= t.lifetime.value / 2 * 1_000_000_000
            && env.now - (t.expires - t.lifetime.value * 1_000_000_000) <= 7_200_000_000_000)
  {
    if found.value.lifetime.Some? { HalfIs(found.value.lifetime.value); }
  }

  /** A token kept after a failed refresh is unexpired then, whatever its lifetime. One handed out without a refresh
      is unexpired, whenever it is asked for, exactly when its lifetime is known and is not two seconds or more
      below zero. */
  lemma HandedOutIsUnexpired(t: Token)
    ensures forall env :: Look(Some(t), env).Kept? ==> env.later <= t.expires
    ensures (forall env :: Look(Some(t), env).Cached? ==> env.now <= t.expires)
            <==> t.lifetime.Some? && t.lifetime.value >= -1
  {
    PassingIsUnexpired(t);
    if !(t.lifetime.Some? && t.lifetime.value >= -1) {
      var now: int, j: Jitter :| !RequiresRefresh(t, true, now, j) && now > t.expires;
      assert Look(Some(t), Env(true, now, j, None, now)).Cached?;
    }
  }

  // ---- whole runs ----

  /** A lookup under way: for whom, and what it read from the cache. */
  datatype Call = Call(a: Account, found: Option<Token>)

  datatype Service = Service(p: Printable, cache: Cache, calls: map<nat, Call>)

  /** The lock is held only while the cache is read, stored to or cleaned, so lookups interleave. */
  datatype Event = Begin(id: nat, a: Account) | End(id: nat, env: Env) | Clean(clock: Clock)

  /** The token API issues a token for the account it is asked about. */
  predicate Honest(s: Service, e: Event) {
    match e
    case Begin(id, _) => id !in s.calls
    case End(id, env) => id in s.calls && (env.fetched.Some? ==> env.fetched.value.owner == s.calls[id].a)
    case Clean(_) => true
  }

  function Do(s: Service, e: Event): Service
    requires Honest(s, e)
  {
    match e
    case Begin(id, a) => s.(calls := s.calls[id := Call(a, Lookup(s.cache, CacheKey(a, s.p)))])
    case End(id, env) =>
      var c := s.calls[id];
      s.(cache := Stored(s.cache, CacheKey(c.a, s.p), Look(c.found, env)), calls := s.calls - {id})
    case Clean(clock) => s.(cache := Cleaned(s.cache, clock))
  }

  /** A token that was fetched is what the next lookup for its account finds. */
  lemma FetchedIsFound(s: Service, id: nat, env: Env, next: nat)
    requires Honest(s, End(id, env)) && Look(s.calls[id].found, env).Fetched? && next !in s.calls
    ensures
      var s' := Do(s, End(id, env));
      Do(s', Begin(next, s.calls[id].a)).calls[next].found == env.fetched
  {
  }

  predicate Run(s: Service, events: seq<Event>)
    decreases |events|
  {
    events == [] || (Honest(s, events[0]) && Run(Do(s, events[0]), events[1..]))
  }

  function After(s: Service, events: seq<Event>): Service
    requires Run(s, events)
    decreases |events|
  {
    if events == [] then s else After(Do(s, events[0]), events[1..])
  }

  /** Each token sits under the key of the account it was issued for, and each call holds a token of its own
      account. */
  ghost predicate Owned(s: Service) {
    && (forall k :: k in s.cache ==> k == CacheKey(s.cache[k].owner, s.p))
    && (forall id :: id in s.calls && s.calls[id].found.Some? ==> s.calls[id].found.value.owner == s.calls[id].a)
  }

  lemma StepKeepsOwners(s: Service, e: Event)
    requires Owned(s) && Honest(s, e)
    ensures Owned(Do(s, e))
  {
    if e.Begin? && CacheKey(e.a, s.p) in s.cache { CacheKeyInjective(e.a, s.cache[CacheKey(e.a, s.p)].owner, s.p); }
  }

  lemma {:induction false} RunsKeepOwners(s: Service, events: seq<Event>)
    requires Owned(s) && Run(s, events)
    ensures Owned(After(s, events))
    decreases |events|
  {
    if events != [] {
      StepKeepsOwners(s, events[0]);
      RunsKeepOwners(Do(s, events[0]), events[1..]);
    }
  }

  /** However lookups and cleanups interleave, a lookup hands out only tokens issued for the account it is for. */
  lemma OwnTokenOnly(p: Printable, events: seq<Event>, id: nat, env: Env)
    requires Run(Service(p, map[], map[]), events)
    requires Honest(After(Service(p, map[], map[]), events), End(id, env))
    ensures
      var c := After(Service(p, map[], map[]), events).calls[id];
      !Look(c.found, env).Error? ==> Look(c.found, env).t.owner == c.a
  {
    RunsKeepOwners(Service(p, map[], map[]), events);
  }

  /** The event can replace or remove the token of account `a`. */
  predicate Disturbs(s: Service, e: Event, a: Account) {
    match e
    case Begin(_, _) => false
    case End(id, env) => id in s.calls && s.calls[id].a == a && Look(s.calls[id].found, env).Fetched?
    case Clean(clock) => CacheKey(a, s.p) in s.cache && Expired(s.cache[CacheKey(a, s.p)], clock(CacheKey(a, s.p)))
  }

  predicate Undisturbed(s: Service, events: seq<Event>, a: Account)
    requires Run(s, events)
    decreases |events|
  {
    events == [] || (!Disturbs(s, events[0], a) && Undisturbed(Do(s, events[0]), events[1..], a))
  }

  /** An account's token stays put until a lookup for that account fetches another one or a cleanup finds it
      expired. */
  lemma {:induction false} OthersDoNotDisturb(s: Service, events: seq<Event>, a: Account)
    requires Run(s, events) && Undisturbed(s, events, a) && CacheKey(a, s.p) in s.cache
    ensures Lookup(After(s, events).cache, CacheKey(a, s.p)) == Lookup(s.cache, CacheKey(a, s.p))
    decreases |events|
  {
    if events != [] {
      var e := events[0];
      if e.End? && CacheKey(s.calls[e.id].a, s.p) == CacheKey(a, s.p) { CacheKeyInjective(s.calls[e.id].a, a, s.p); }
      OthersDoNotDisturb(Do(s, e), events[1..], a);
    }
  }
}
