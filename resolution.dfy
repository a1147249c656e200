/** The memoised lookups of departments, locations and requesters, as pure
    state transitions. Each kind has its own cache from id to the name the
    lookup produced (possibly None); the log records every GET issued. */
module Resolution {
  import opened Records

  /** The name a successful lookup would produce, with the reply's status. */
  datatype Answer = Answer(status: int, name: Option<string>)

  type Cache = map<Key, Option<string>>

  /** The outcome of one getter call: the value returned, the cache after
      it, and whether a GET was issued. */
  datatype Step = Step(value: Option<string>, cache: Cache, requested: bool)

  datatype Kind = Department | Location | Requester

  /** One GET `/api/v2/{departments|locations|requesters}/{key}` and its status. */
  datatype Lookup = Lookup(kind: Kind, key: Key, status: int)

  /** The three caches and the log of lookups issued so far. */
  datatype CacheState = CacheState(dept: Cache, location: Cache, requester: Cache, log: seq<Lookup>)

  const Empty: CacheState := CacheState(map[], map[], map[], [])

  function CacheOf(s: CacheState, kind: Kind): Cache
  {
    match kind
    case Department => s.dept
    case Location => s.location
    case Requester => s.requester
  }

  /** One getter call on one cache: a falsy id returns None without a
      lookup; a cached id returns the stored value (a stored None included)
      without a lookup; otherwise the GET is issued, and only a 200 reply
      stores its name. */
  function Resolve(cache: Cache, id: Option<Key>, answer: Answer): (r: Step)
    ensures r.requested <==> Truthy(id) && id.value !in cache
  {
    if !Truthy(id) then Step(None, cache, false)
    else if id.value in cache then Step(cache[id.value], cache, false)
    else if answer.status == 200 then Step(answer.name, cache[id.value := answer.name], true)
    else Step(None, cache, true)
  }

  /** What one getter call promises: a GET is issued exactly for a truthy id
      that is not cached; the cache gains that id only on a 200 reply and
      never changes a stored entry; a call without a GET returns the stored
      value; a falsy id or a failed GET returns None. */
  lemma ResolveContract(cache: Cache, id: Option<Key>, answer: Answer)
    ensures var s := Resolve(cache, id, answer);
      && (s.requested <==> Truthy(id) && id.value !in cache)
      && s.cache.Keys == (if s.requested && answer.status == 200 then cache.Keys + {id.value} else cache.Keys)
      && (forall k :: k in cache ==> s.cache[k] == cache[k])
      && (!s.requested && Truthy(id) ==> s.value == cache[id.value])
      && (s.requested && answer.status == 200 ==> s.value == answer.name && s.cache[id.value] == answer.name)
      && (!Truthy(id) || (s.requested && answer.status != 200) ==> s.value == None)
  {
  }

  /** A getter call of the given kind on the whole state: that kind's cache
      takes the step, and the log grows by the GET, if one is issued. */
  function ResolveIn(s: CacheState, kind: Kind, id: Option<Key>, answer: Answer): (r: (Option<string>, CacheState))
    ensures |r.1.log| == |s.log| + (if Truthy(id) && id.value !in CacheOf(s, kind) then 1 else 0)
  {
    var step := Resolve(CacheOf(s, kind), id, answer);
    var log := if step.requested then s.log + [Lookup(kind, id.value, answer.status)] else s.log;
    match kind
    case Department => (step.value, s.(dept := step.cache, log := log))
    case Location => (step.value, s.(location := step.cache, log := log))
    case Requester => (step.value, s.(requester := step.cache, log := log))
  }

  /** Each getter reads and writes only its own cache; the log grows by at
      most one lookup, of the getter's kind. */
  lemma ResolveInFrame(s: CacheState, kind: Kind, id: Option<Key>, answer: Answer)
    ensures ResolveIn(s, kind, id, answer).0 == Resolve(CacheOf(s, kind), id, answer).value
    ensures var t := ResolveIn(s, kind, id, answer).1;
      && (forall other :: other != kind ==> CacheOf(t, other) == CacheOf(s, other))
      && CacheOf(t, kind) == Resolve(CacheOf(s, kind), id, answer).cache
      && |s.log| <= |t.log| <= |s.log| + 1 && t.log[..|s.log|] == s.log
      && (forall j :: |s.log| <= j < |t.log| ==> t.log[j].kind == kind)
  {
  }

  /** A getter's answer and its new cache depend on its own cache only:
      states that agree on that cache agree on the outcome. */
  lemma ResolveInReadsOwnCache(s: CacheState, t: CacheState, kind: Kind, id: Option<Key>, answer: Answer)
    requires CacheOf(s, kind) == CacheOf(t, kind)
    ensures ResolveIn(s, kind, id, answer).0 == ResolveIn(t, kind, id, answer).0
    ensures CacheOf(ResolveIn(s, kind, id, answer).1, kind) == CacheOf(ResolveIn(t, kind, id, answer).1, kind)
  {
  }

  /** A successful lookup is final: every later call with the same id is a
      cache hit that returns the stored name and issues no GET. */
  lemma SuccessfulLookupIsFinal(cache: Cache, id: Option<Key>, first: Answer, later: Answer)
    requires Resolve(cache, id, first).requested && first.status == 200
    ensures var after := Resolve(cache, id, first).cache;
      Resolve(after, id, later) == Step(first.name, after, false)
  {
  }

  /** No negative caching: after a failed lookup the cache is unchanged and
      the next call with the same id issues the GET again. */
  lemma FailedLookupIsRetried(cache: Cache, id: Option<Key>, first: Answer, later: Answer)
    requires Resolve(cache, id, first).requested && first.status != 200
    ensures Resolve(cache, id, first).cache == cache
    ensures Resolve(Resolve(cache, id, first).cache, id, later).requested
  {
  }

  /** The state the three caches and the log keep: an id is in a cache
      exactly when a 200 lookup of that kind for it is in the log, and no id
      of a kind was looked up successfully twice. */
  ghost predicate Coherent(s: CacheState)
  {
    && (forall kind, key :: key in CacheOf(s, kind) <==> Lookup(kind, key, 200) in s.log)
    && (forall i, j ::
          (0 <= i < j < |s.log| && s.log[i].status == 200 && s.log[j].status == 200
           && s.log[i].kind == s.log[j].kind) ==> s.log[i].key != s.log[j].key)
  }

  /** Every getter call keeps the caches coherent with the log, so each id
      is looked up successfully at most once per run. */
  lemma ResolveInKeepsCoherent(s: CacheState, kind: Kind, id: Option<Key>, answer: Answer)
    requires Coherent(s)
    ensures Coherent(ResolveIn(s, kind, id, answer).1)
  {
    var step := Resolve(CacheOf(s, kind), id, answer);
    var t := ResolveIn(s, kind, id, answer).1;
    ResolveContract(CacheOf(s, kind), id, answer);
    ResolveInFrame(s, kind, id, answer);
    if step.requested {
      var key := id.value;
      var entry := Lookup(kind, key, answer.status);
      assert t.log == s.log + [entry];
      forall k, x
        ensures x in CacheOf(t, k) <==> Lookup(k, x, 200) in t.log
      {
        assert Lookup(k, x, 200) in t.log <==> Lookup(k, x, 200) in s.log || Lookup(k, x, 200) == entry;
      }
      if answer.status == 200 {
        assert Lookup(kind, key, 200) !in s.log;
        forall i | 0 <= i < |s.log| && s.log[i].status == 200 && s.log[i].kind == kind
          ensures s.log[i].key != key
        {
          assert s.log[i] == Lookup(kind, s.log[i].key, 200);
        }
      }
    }
  }
}
