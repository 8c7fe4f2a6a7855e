/**
 * The single shared HTTP client: its default headers and the registry of
 * abort handles that its request and response hooks keep, keyed by the
 * request's URL.
 */
module HttpClient {
  import opened Wrappers
  import opened JsValues

  const ContentTypeHeader: string := "Content-Type"
  const JsonContentType: string := "application/json; charset=utf-8"

  /** An AbortController. Every controller the request hook creates is new,
      so handles are told apart by a serial number. */
  datatype AbortHandle = AbortHandle(id: nat)

  /** A request's URL as a JavaScript value: `undefined` when it has none. */
  function UrlValue(url: Option<string>): (v: JsValue)
    ensures url.None? <==> v == Undefined
    ensures url.Some? ==> v == Str(url.value)
  {
    match url
    case Some(u) => Str(u)
    case None => Undefined
  }

  /** The registry key of a request: `config.url || ''`. A missing URL and
      an empty URL both give the empty key. */
  function RequestKey(url: Option<string>): (key: string)
    ensures Str(key) == Or(UrlValue(url), Str(""))
  {
    match url
    case Some(u) => u
    case None => ""
  }

  /** No two registry keys share a handle. */
  ghost predicate Injective(m: map<string, AbortHandle>)
  {
    forall k, k' :: k in m && k' in m && k != k' ==> m[k] != m[k']
  }

  /** Removing one key of an injective map removes exactly that key's value. */
  lemma ValuesAfterRemove(m: map<string, AbortHandle>, k: string)
    requires Injective(m) && k in m
    ensures Injective(m - {k})
    ensures (m - {k}).Values == m.Values - {m[k]}
  {
    forall h | h in m.Values - {m[k]}
      ensures h in (m - {k}).Values
    {
      var k' :| k' in m && m[k'] == h;
      assert k' != k;
      assert (m - {k})[k'] == h;
    }
  }

  class Client {
    /** `api.defaults.headers` */
    var headers: map<string, string>
    /** The `abortControllers` registry. */
    var controllers: map<string, AbortHandle>
    /** The serial number the next new AbortController receives. */
    var nextHandle: nat
    /** Every `abort()` call made so far, oldest first. */
    ghost var aborted: seq<AbortHandle>

    /** Every registered handle is live (created and never aborted), and no
        handle is registered under two keys. */
    ghost predicate Valid()
      reads this
    {
      && (forall k :: k in controllers ==> controllers[k].id < nextHandle)
      && (forall i :: 0 <= i < |aborted| ==> aborted[i].id < nextHandle)
      && (forall k :: k in controllers ==> controllers[k] !in aborted)
      && Injective(controllers)
    }

    /** axios.create with the JSON content type as the only default header. */
    constructor ()
      ensures Valid()
      ensures headers == map[ContentTypeHeader := JsonContentType]
      ensures controllers == map[] && aborted == []
    {
      headers := map[ContentTypeHeader := JsonContentType];
      controllers := map[];
      nextHandle := 0;
      aborted := [];
    }

    /** The request hook: a new AbortController is registered under the
        request key, replacing whatever was registered there. A replaced
        handle is no longer in the registry, so cancelling everything later
        does not reach it. */
    method OnRequest(url: Option<string>) returns (h: AbortHandle)
      requires Valid()
      modifies this
      ensures Valid()
      ensures h !in old(controllers).Values && h !in aborted
      ensures controllers == old(controllers)[RequestKey(url) := h]
      ensures RequestKey(url) in old(controllers) ==> old(controllers)[RequestKey(url)] !in controllers.Values
      ensures headers == old(headers) && aborted == old(aborted)
    {
      h := AbortHandle(nextHandle);
      nextHandle := nextHandle + 1;
      controllers := controllers[RequestKey(url) := h];
    }

    /** The response hook, on success and on error alike: the request key is
        unregistered, whichever handle it holds. */
    method OnResponse(url: Option<string>)
      requires Valid()
      modifies this
      ensures Valid()
      ensures controllers == old(controllers) - {RequestKey(url)}
      ensures headers == old(headers) && aborted == old(aborted) && nextHandle == old(nextHandle)
    {
      controllers := controllers - {RequestKey(url)};
    }

    /** Aborts every registered controller, then clears the registry. Each
        handle registered beforehand is aborted exactly once, and no other. */
    method CancelAll()
      requires Valid()
      modifies this
      ensures Valid()
      ensures controllers == map[]
      ensures old(aborted) <= aborted
      ensures multiset(aborted) == multiset(old(aborted)) + multiset(old(controllers).Values)
      ensures forall k :: k in old(controllers) ==> multiset(aborted)[old(controllers)[k]] == 1
      ensures headers == old(headers) && nextHandle == old(nextHandle)
    {
      // `calls` records the loop's controller.abort() calls in order; the
      // loop itself changes no field.
      ghost var log, calls: seq<AbortHandle> := aborted, [];
      var all, next := controllers, nextHandle;
      assert forall k :: k in all ==> all[k] !in log && all[k].id < next;
      assert forall i :: 0 <= i < |log| ==> log[i].id < next;
      var pending := all;
      while pending != map[]
        invariant unchanged(this)
        invariant Injective(pending)
        invariant multiset(calls) + multiset(pending.Values) == multiset(all.Values)
        decreases |pending|
      {
        var k :| k in pending;
        AbortStep(pending, k, calls, all);
        calls := calls + [pending[k]];
        pending := pending - {k};
      }
      assert pending.Values == {};
      AbortedOnce(log, calls, all, next);
      aborted := log + calls;
      controllers := map[];
    }
  }

  /** One turn of the abort loop: aborting the handle of one pending key and
      dropping that key keeps every registered handle accounted for once. */
  lemma AbortStep(pending: map<string, AbortHandle>, k: string, calls: seq<AbortHandle>, all: map<string, AbortHandle>)
    requires k in pending && Injective(pending)
    requires multiset(calls) + multiset(pending.Values) == multiset(all.Values)
    ensures Injective(pending - {k})
    ensures multiset(calls + [pending[k]]) + multiset((pending - {k}).Values) == multiset(all.Values)
  {
    ValuesAfterRemove(pending, k);
    MultisetOfSetRemove(pending.Values, pending[k]);
  }

  /** The multiset of a set loses exactly one occurrence when one member is removed. */
  lemma MultisetOfSetRemove(s: set<AbortHandle>, x: AbortHandle)
    requires x in s
    ensures multiset(s) == multiset(s - {x}) + multiset{x}
  {
    assert s == (s - {x}) + {x};
  }

  /** Calls that were made once per registered handle, after a log that held
      none of them, leave each registered handle in the log exactly once and
      keep every logged handle among those created. */
  lemma AbortedOnce(before: seq<AbortHandle>, calls: seq<AbortHandle>, m: map<string, AbortHandle>, next: nat)
    requires multiset(calls) == multiset(m.Values)
    requires forall k :: k in m ==> m[k] !in before && m[k].id < next
    requires forall i :: 0 <= i < |before| ==> before[i].id < next
    ensures before <= before + calls
    ensures multiset(before + calls) == multiset(before) + multiset(m.Values)
    ensures forall k :: k in m ==> multiset(before + calls)[m[k]] == 1
    ensures forall i :: 0 <= i < |before + calls| ==> (before + calls)[i].id < next
  {
    assert (before + calls)[..|before|] == before;
    assert multiset(before + calls) == multiset(before) + multiset(calls);
    forall k | k in m
      ensures multiset(before + calls)[m[k]] == 1
    {
      assert m[k] in m.Values;
    }
    forall i | 0 <= i < |before + calls|
      ensures (before + calls)[i].id < next
    {
      if i >= |before| {
        var c := calls[i - |before|];
        assert c in multiset(calls);
        var k :| k in m && m[k] == c;
      }
    }
  }
}
