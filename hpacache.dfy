/** internal/repository/k8s_hpa.go: the Redis cache in front of the HPA API.
    Listings and single gets are cached for 30 seconds under the keys of
    `Naming`; an API failure caches a sentinel text instead, so that callers
    within the next 30 seconds fail fast; an update stores the updated object
    under the namespace's list key. */
module HpaCache {
  import opened Common
  import opened HpaApi
  import opened Naming

  /** `HPACacheTime`, in seconds. */
  const CacheSeconds: int := 30

  /** `constant.K8sHPAUpdateFieldManager`. */
  const FieldManager: string := "kubeEP"

  /** What a cache key holds: a sentinel text, a serialised listing or a
      serialised single HPA. */
  datatype Payload = Sentinel(text: string) | ListBytes(items: seq<Hpa>) | ObjectBytes(hpa: Hpa)

  datatype Entry = Entry(payload: Payload, expiresAt: int)

  type Store = map<string, Entry>

  /** What a cache `Get` at time `now` returns: the payload of an entry that
      has not expired, otherwise a miss. */
  function Visible(store: Store, key: string, now: int): (r: Option<Payload>)
    ensures r.Some? <==> key in store && now < store[key].expiresAt
  {
    if key in store && now < store[key].expiresAt then Some(store[key].payload) else None
  }

  /** Decoding cached bytes as a listing: the sentinel fails with
      `HPAListError`, a serialised listing gives its items, anything else does
      not decode and the API is asked. */
  function DecodeList(p: Payload): Option<Result<seq<Hpa>>>
  {
    match p
    case Sentinel(t) => if t == HpaListError then Some(Err(HpaListError)) else None
    case ListBytes(items) => Some(Ok(items))
    case ObjectBytes(_) => None
  }

  /** Decoding cached bytes as a single HPA: the sentinel fails with its own
      text `HPAError`, a serialised object gives that object. */
  function DecodeObject(p: Payload): Option<Result<Hpa>>
  {
    match p
    case Sentinel(t) => if t == HpaError then Some(Err(HpaError)) else None
    case ObjectBytes(h) => Some(Ok(h))
    case ListBytes(_) => None
  }

  /** The entry written after asking the API for a listing. */
  function ListEntry(live: Result<seq<Hpa>>, now: int): Entry
  {
    if live.Ok? then Entry(ListBytes(live.value), now + CacheSeconds)
    else Entry(Sentinel(HpaListError), now + CacheSeconds)
  }

  /** The entry written after asking the API for one HPA. */
  function ObjectEntry(live: Result<Hpa>, now: int): Entry
  {
    if live.Ok? then Entry(ObjectBytes(live.value), now + CacheSeconds)
    else Entry(Sentinel(HpaError), now + CacheSeconds)
  }

  /** A listing whose cached bytes decode is answered from the cache. */
  predicate ListServedFromCache(store: Store, key: string, now: int)
  {
    var v := Visible(store, key, now);
    v.Some? && DecodeList(v.value).Some?
  }

  predicate ObjectServedFromCache(store: Store, key: string, now: int)
  {
    var v := Visible(store, key, now);
    v.Some? && DecodeObject(v.value).Some?
  }

  /** The listing the read path is meant to return: the cached answer when
      one decodes, otherwise the API's. */
  function ListResult(store: Store, key: string, now: int, live: Result<seq<Hpa>>): (r: Result<seq<Hpa>>)
    ensures !ListServedFromCache(store, key, now) ==> r == live
  {
    if ListServedFromCache(store, key, now) then DecodeList(Visible(store, key, now).value).value else live
  }

  function StoreAfterList(store: Store, key: string, now: int, live: Result<seq<Hpa>>): (s: Store)
    ensures ListServedFromCache(store, key, now) ==> s == store
    ensures !ListServedFromCache(store, key, now) ==> key in s && s[key] == ListEntry(live, now)
    ensures forall k :: k != key ==> (k in s <==> k in store) && (k in store ==> s[k] == store[k])
  {
    if ListServedFromCache(store, key, now) then store else store[key := ListEntry(live, now)]
  }

  function ObjectResult(store: Store, key: string, now: int, live: Result<Hpa>): (r: Result<Hpa>)
    ensures !ObjectServedFromCache(store, key, now) ==> r == live
  {
    if ObjectServedFromCache(store, key, now) then DecodeObject(Visible(store, key, now).value).value else live
  }

  function StoreAfterGet(store: Store, key: string, now: int, live: Result<Hpa>): (s: Store)
    ensures ObjectServedFromCache(store, key, now) ==> s == store
    ensures !ObjectServedFromCache(store, key, now) ==> key in s && s[key] == ObjectEntry(live, now)
    ensures forall k :: k != key ==> (k in s <==> k in store) && (k in store ==> s[k] == store[k])
  {
    if ObjectServedFromCache(store, key, now) then store else store[key := ObjectEntry(live, now)]
  }

  /** A successful listing is served again, unchanged, for the next 30
      seconds, whatever the API would say then. */
  lemma ListThenListWithinTtl(store: Store, key: string, t: int, items: seq<Hpa>, t': int, later: Result<seq<Hpa>>)
    requires !ListServedFromCache(store, key, t)
    requires t <= t' < t + CacheSeconds
    ensures var s := StoreAfterList(store, key, t, Ok(items));
            ListResult(s, key, t', later) == Ok(items) && StoreAfterList(s, key, t', later) == s
  {
    var s := StoreAfterList(store, key, t, Ok(items));
    assert Visible(s, key, t') == Some(ListBytes(items));
  }

  /** A failed listing makes every listing of the next 30 seconds fail with
      `HPAListError` without asking the API. */
  lemma FailedListIsNegativelyCached(store: Store, key: string, t: int, e: string, t': int, later: Result<seq<Hpa>>)
    requires !ListServedFromCache(store, key, t)
    requires t <= t' < t + CacheSeconds
    ensures var s := StoreAfterList(store, key, t, Err(e));
            ListResult(s, key, t', later) == Err(HpaListError)
  {
    var s := StoreAfterList(store, key, t, Err(e));
    assert Visible(s, key, t') == Some(Sentinel(HpaListError));
  }

  /** Once the entry expires the API is asked again. */
  lemma ExpiredListAsksApi(store: Store, key: string, t: int, live: Result<seq<Hpa>>, t': int, later: Result<seq<Hpa>>)
    requires !ListServedFromCache(store, key, t)
    requires t + CacheSeconds <= t'
    ensures ListResult(StoreAfterList(store, key, t, live), key, t', later) == later
  {
    var s := StoreAfterList(store, key, t, live);
    assert Visible(s, key, t') == None;
  }

  /** A single get behaves alike: a success is served for 30 seconds, a
      failure makes the gets of the next 30 seconds fail with `HPAError`. */
  lemma GetThenGetWithinTtl(store: Store, key: string, t: int, live: Result<Hpa>, t': int, later: Result<Hpa>)
    requires !ObjectServedFromCache(store, key, t)
    requires t <= t' < t + CacheSeconds
    ensures var s := StoreAfterGet(store, key, t, live);
            ObjectResult(s, key, t', later) == (if live.Ok? then live else Err(HpaError))
  {
    var s := StoreAfterGet(store, key, t, live);
    assert Visible(s, key, t') == Some(ObjectEntry(live, t).payload);
  }

  /** The code as written examines the cached bytes only when the cache `Get`
      itself reports an error, and then `Bytes()` reports that same error: the
      cache is never read, every call asks the API. */
  function ListResultAsWritten(store: Store, key: string, now: int, live: Result<seq<Hpa>>): Result<seq<Hpa>>
  {
    live
  }

  /** As written a fresh cached listing and a fresh sentinel are both ignored. */
  lemma CacheNeverServedAsWritten(key: string, h: Hpa)
    ensures var cached := map[key := Entry(ListBytes([h]), CacheSeconds)];
            ListResultAsWritten(cached, key, 0, Err("timeout")) == Err("timeout")
            && ListResult(cached, key, 0, Err("timeout")) == Ok([h])
    ensures var failed := map[key := Entry(Sentinel(HpaListError), CacheSeconds)];
            ListResultAsWritten(failed, key, 0, Ok([h])) == Ok([h])
            && ListResult(failed, key, 0, Ok([h])) == Err(HpaListError)
  {
    var cached := map[key := Entry(ListBytes([h]), CacheSeconds)];
    assert Visible(cached, key, 0) == Some(ListBytes([h]));
    var failed := map[key := Entry(Sentinel(HpaListError), CacheSeconds)];
    assert Visible(failed, key, 0) == Some(Sentinel(HpaListError));
  }

  /** The single-object getters share the guard: as written a get also takes
      nothing from the cache. (Were the guarded branch ever entered, its
      `Unmarshal` would run on a nil `*HorizontalPodAutoscaler`.) */
  function ObjectResultAsWritten(store: Store, key: string, now: int, live: Result<Hpa>): Result<Hpa>
  {
    live
  }

  /** As written a fresh cached object and a fresh "hpa error" sentinel are
      both ignored, where the intended read serves them. */
  lemma ObjectCacheNeverServedAsWritten(key: string, h: Hpa)
    ensures var cached := map[key := Entry(ObjectBytes(h), CacheSeconds)];
            ObjectResultAsWritten(cached, key, 0, Err("timeout")) == Err("timeout")
            && ObjectResult(cached, key, 0, Err("timeout")) == Ok(h)
    ensures var failed := map[key := Entry(Sentinel(HpaError), CacheSeconds)];
            ObjectResultAsWritten(failed, key, 0, Ok(h)) == Ok(h)
            && ObjectResult(failed, key, 0, Ok(h)) == Err(HpaError)
  {
    var cached := map[key := Entry(ObjectBytes(h), CacheSeconds)];
    assert Visible(cached, key, 0) == Some(ObjectBytes(h));
    var failed := map[key := Entry(Sentinel(HpaError), CacheSeconds)];
    assert Visible(failed, key, 0) == Some(Sentinel(HpaError));
  }

  /** The request an update sends: the object and the field manager. */
  type UpdateApi = (Hpa, string) -> Result<Hpa>

  /** The cache of one kubeEP process, keyed by the strings of `Naming`. */
  class K8sHpa {
    var store: Store

    constructor ()
      ensures store == map[]
    {
      store := map[];
    }

    /** `GetAllV1HPA` / `GetAllV2beta2HPA` / `GetAllV2beta1HPA` as written: the
        API is always asked; a failure stores the sentinel, a success the
        listing, both for 30 seconds. */
    method GetAllHpaAsWritten(v: HpaVersion, clusterId: string, namespace: string, now: int, live: Result<seq<Hpa>>)
      returns (r: Result<seq<Hpa>>)
      modifies this
      ensures r == ListResultAsWritten(old(store), ListKey(v, clusterId, namespace), now, live)
      ensures store == old(store)[ListKey(v, clusterId, namespace) := ListEntry(live, now)]
    {
      var key := ListKey(v, clusterId, namespace);
      // The guard reads "the cache Get failed", so the bytes examined here
      // always carry that failure and nothing is taken from the cache.
      if live.Err? {
        store := store[key := Entry(Sentinel(HpaListError), now + CacheSeconds)];
        return live;
      }
      store := store[key := Entry(ListBytes(live.value), now + CacheSeconds)];
      r := live;
    }

    /** The listing with the read path the code evidently intends: a cached
        answer that decodes is returned, otherwise the API is asked and its
        answer cached. */
    method GetAllHpa(v: HpaVersion, clusterId: string, namespace: string, now: int, live: Result<seq<Hpa>>)
      returns (r: Result<seq<Hpa>>)
      modifies this
      ensures r == ListResult(old(store), ListKey(v, clusterId, namespace), now, live)
      ensures store == StoreAfterList(old(store), ListKey(v, clusterId, namespace), now, live)
    {
      var key := ListKey(v, clusterId, namespace);
      if key in store && now < store[key].expiresAt {
        var payload := store[key].payload;
        if payload.Sentinel? && payload.text == HpaListError {
          return Err(HpaListError);
        }
        if payload.ListBytes? {
          return Ok(payload.items);
        }
      }
      if live.Err? {
        store := store[key := Entry(Sentinel(HpaListError), now + CacheSeconds)];
        return live;
      }
      store := store[key := Entry(ListBytes(live.value), now + CacheSeconds)];
      r := live;
    }

    /** `GetV1HPA` / `GetV2beta1HPA` / `GetV2beta2HPA` as written: the API is
        always asked; a failure stores the sentinel "hpa error", a success the
        object, both for 30 seconds. */
    method GetHpaAsWritten(v: HpaVersion, clusterId: string, namespace: string, name: string, now: int, live: Result<Hpa>)
      returns (r: Result<Hpa>)
      modifies this
      ensures r == ObjectResultAsWritten(old(store), ObjectKey(v, clusterId, namespace, name), now, live)
      ensures store == old(store)[ObjectKey(v, clusterId, namespace, name) := ObjectEntry(live, now)]
    {
      var key := ObjectKey(v, clusterId, namespace, name);
      // As in the listing getters, the guard admits only a failed cache Get,
      // whose bytes carry that failure.
      if live.Err? {
        store := store[key := Entry(Sentinel(HpaError), now + CacheSeconds)];
        return live;
      }
      store := store[key := Entry(ObjectBytes(live.value), now + CacheSeconds)];
      r := live;
    }

    /** `GetV1HPA` / `GetV2beta1HPA` / `GetV2beta2HPA` with the read path the
        code evidently intends; a failure caches the sentinel "hpa error". */
    method GetHpa(v: HpaVersion, clusterId: string, namespace: string, name: string, now: int, live: Result<Hpa>)
      returns (r: Result<Hpa>)
      modifies this
      ensures r == ObjectResult(old(store), ObjectKey(v, clusterId, namespace, name), now, live)
      ensures store == StoreAfterGet(old(store), ObjectKey(v, clusterId, namespace, name), now, live)
    {
      var key := ObjectKey(v, clusterId, namespace, name);
      if key in store && now < store[key].expiresAt {
        var payload := store[key].payload;
        if payload.Sentinel? && payload.text == HpaError {
          return Err(HpaError);
        }
        if payload.ObjectBytes? {
          return Ok(payload.hpa);
        }
      }
      if live.Err? {
        store := store[key := Entry(Sentinel(HpaError), now + CacheSeconds)];
        return live;
      }
      store := store[key := Entry(ObjectBytes(live.value), now + CacheSeconds)];
      r := live;
    }

    /** `UpdateV1HPA` / `UpdateV2beta2HPA` / `UpdateV2beta1HPA`: the object is
        written with field manager "kubeEP"; a failure returns the error and
        leaves the cache alone; a success stores the updated object under the
        namespace's list key for 30 seconds. */
    method UpdateHpa(v: HpaVersion, clusterId: string, namespace: string, h: Hpa, now: int, api: UpdateApi)
      returns (r: Result<Hpa>)
      modifies this
      ensures r == api(h, FieldManager)
      ensures r.Err? ==> store == old(store)
      ensures r.Ok? ==> store == old(store)[ListKey(v, clusterId, namespace) := Entry(ObjectBytes(r.value), now + CacheSeconds)]
    {
      r := api(h, FieldManager);
      if r.Err? {
        return;
      }
      store := store[ListKey(v, clusterId, namespace) := Entry(ObjectBytes(r.value), now + CacheSeconds)];
    }
  }
}
