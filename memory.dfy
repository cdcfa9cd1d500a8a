/**
 * The in-memory fallback of the session store (`InMemoryRedis`): two maps,
 * `store` (key to value) and `expiry` (key to a deadline in milliseconds),
 * with lazy deletion of an expired key when `exists`, `lRange` or `rPush`
 * touches it. `Date.now()` is the explicit parameter `now` of every
 * operation that reads the clock.
 *
 * Each operation is a pure transition on a `Snapshot` of the two maps; the
 * class methods update the fields exactly as those transitions say, and the
 * store's promises are lemmas about the transitions.
 */
module Memory {
  import opened Js

  /** A stored value: the string of `setEx` or the list built by `rPush`. */
  datatype Value<T> = Scalar(s: string) | List(items: seq<T>)

  datatype Snapshot<T> = Snapshot(store: map<string, Value<T>>, expiry: map<string, int>)

  /** `expiresAt && now > expiresAt`: a missing or zero deadline never fires. */
  predicate Expired<T>(st: Snapshot<T>, key: string, now: int)
  {
    key in st.expiry && st.expiry[key] != 0 && now > st.expiry[key]
  }

  /** A deadline that has fired stays fired as the clock moves on. */
  lemma ExpiredLater<T>(st: Snapshot<T>, key: string, now: int, later: int)
    requires Expired(st, key, now) && now <= later
    ensures Expired(st, key, later)
  {
  }

  /** The value a reader sees at `now`: present and not expired. */
  function Current<T>(st: Snapshot<T>, key: string, now: int): (r: Option<Value<T>>)
    ensures r.Some? <==> key in st.store && !Expired(st, key, now)
    ensures r.Some? ==> r.value == st.store[key]
  {
    if key in st.store && !Expired(st, key, now) then Some(st.store[key]) else None
  }

  /** `_checkExpiry`: drop the key from both maps when its deadline has passed. */
  function Swept<T>(st: Snapshot<T>, key: string, now: int): (r: Snapshot<T>)
    ensures Expired(st, key, now) ==> r.store == st.store - {key} && r.expiry == st.expiry - {key}
    ensures !Expired(st, key, now) ==> r == st
  {
    if Expired(st, key, now) then Snapshot(st.store - {key}, st.expiry - {key}) else st
  }

  /** `exists`: 1 when the key is present after the sweep, else 0. */
  function ExistsAt<T>(st: Snapshot<T>, key: string, now: int): (n: int)
    ensures n == 1 <==> Current(st, key, now).Some?
    ensures n == 0 || n == 1
  {
    if key in Swept(st, key, now).store then 1 else 0
  }

  /** `Date.now() + ttlSeconds * 1000`. */
  function Deadline(now: int, ttlSeconds: int): int
  {
    now + ttlSeconds * 1000
  }

  /** `setEx`: store the value and restart the key's deadline; no sweep. */
  function SetExState<T>(st: Snapshot<T>, key: string, ttlSeconds: int, v: Value<T>, now: int): (r: Snapshot<T>)
    ensures r.store.Keys == st.store.Keys + {key} && r.expiry.Keys == st.expiry.Keys + {key}
    ensures forall k :: k in st.store && k != key ==> k in r.store && r.store[k] == st.store[k]
  {
    Snapshot(st.store[key := v], st.expiry[key := Deadline(now, ttlSeconds)])
  }

  /** `expire`: restart the deadline of a key that is in `store`, without a sweep. */
  function ExpireState<T>(st: Snapshot<T>, key: string, ttlSeconds: int, now: int): (r: Snapshot<T>)
    ensures r.store == st.store
  {
    if key in st.store then Snapshot(st.store, st.expiry[key := Deadline(now, ttlSeconds)]) else st
  }

  /** Normalises a `slice` bound against a length as JavaScript does (negative counts from the end). */
  function SliceIndex(i: int, len: nat): (r: nat)
    ensures r <= len
    ensures 0 <= i <= len ==> r == i
    ensures i < 0 ==> r == if len + i < 0 then 0 else len + i
    ensures i > len ==> r == len
  {
    if i < 0 then (if len + i < 0 then 0 else len + i) else if i > len then len else i
  }

  /** `xs.slice(start, end)` on arrays and strings alike. */
  function JsSlice<E>(xs: seq<E>, start: int, end: int): seq<E>
  {
    var from, to := SliceIndex(start, |xs|), SliceIndex(end, |xs|);
    if from < to then xs[from..to] else []
  }

  /** Inside the bounds, `slice(start, stop + 1)` is exactly the elements `start..stop`. */
  lemma SliceWithin<E>(xs: seq<E>, start: int, stop: int)
    requires 0 <= start && -1 <= stop < |xs|
    ensures JsSlice(xs, start, stop + 1) == if start <= stop then xs[start..stop + 1] else []
  {
  }

  /** `slice(0, stop + 1)` with `stop = -1` is `slice(0, 0)`: always empty. */
  lemma SliceToMinusOne<E>(xs: seq<E>)
    ensures JsSlice(xs, 0, -1 + 1) == []
  {
  }

  /** `slice(-n)`-style starts count from the end. */
  lemma SliceNegativeStart<E>(xs: seq<E>, n: nat)
    requires 0 < n <= |xs|
    ensures JsSlice(xs, -(n as int), |xs|) == xs[|xs| - n..]
  {
  }

  /**
   * `lRange`: after the sweep, `(store.get(key) || []).slice(start, stop + 1)`.
   * A missing key and the empty string read as `[]`; a non-empty string is
   * sliced as a string.
   */
  function RangeOf<T>(cur: Option<Value<T>>, start: int, stop: int): (r: Value<T>)
    ensures cur.None? ==> r == List([])
  {
    match cur
    case None => List(JsSlice([], start, stop + 1))
    case Some(List(items)) => List(JsSlice(items, start, stop + 1))
    case Some(Scalar(s)) =>
      if s == "" then List(JsSlice([], start, stop + 1)) else Scalar(JsSlice(s, start, stop + 1))
  }

  /**
   * `rPush`: after the sweep, append to `store.get(key) || []`. A missing,
   * expired or empty-string value starts a new list; a non-empty string has
   * no `push`, so the call throws (None) and only the sweep has happened.
   */
  function PushState<T>(st: Snapshot<T>, key: string, v: T, now: int): (r: Option<Snapshot<T>>)
  {
    var swept := Swept(st, key, now);
    match Current(st, key, now)
    case None => Some(Snapshot(swept.store[key := List([v])], swept.expiry))
    case Some(List(items)) => Some(Snapshot(swept.store[key := List(items + [v])], swept.expiry))
    case Some(Scalar(s)) =>
      if s == "" then Some(Snapshot(swept.store[key := List([v])], swept.expiry)) else None
  }

  /** The live view at `now`: every present key whose deadline has not fired. */
  function Live<T>(st: Snapshot<T>, now: int): map<string, Value<T>>
  {
    map k | k in st.store && !Expired(st, k, now) :: st.store[k]
  }

  /** Every deadline belongs to a stored key: `setEx` writes both maps, `expire` only present keys. */
  predicate Valid<T>(st: Snapshot<T>)
  {
    st.expiry.Keys <= st.store.Keys
  }

  // ---------------------------------------------------------------------------
  // What the store promises

  /** Every operation keeps each deadline attached to a stored key. */
  lemma ValidPreserved<T>(st: Snapshot<T>, key: string, ttlSeconds: int, v: Value<T>, x: T, now: int)
    requires Valid(st)
    ensures Valid(Swept(st, key, now))
    ensures Valid(SetExState(st, key, ttlSeconds, v, now))
    ensures Valid(ExpireState(st, key, ttlSeconds, now))
    ensures PushState(st, key, x, now).Some? ==> Valid(PushState(st, key, x, now).value)
  {
  }

  /**
   * After `setEx(k, ttl, v)` at time `t`, `exists(k)` is 1 until the deadline
   * `t + ttl * 1000` and 0 once `now` is strictly past it (a deadline of 0 is
   * falsy and never fires).
   */
  lemma SetExThenExists<T>(st: Snapshot<T>, key: string, ttlSeconds: int, v: Value<T>, t: int, now: int)
    ensures var d := Deadline(t, ttlSeconds);
      ExistsAt(SetExState(st, key, ttlSeconds, v, t), key, now) == (if d != 0 && now > d then 0 else 1)
  {
  }

  /** `setEx` overwrites whatever was stored and resets the deadline, whatever the key held. */
  lemma SetExOverwrites<T>(st: Snapshot<T>, key: string, ttlSeconds: int, v: Value<T>, t: int)
    requires ttlSeconds >= 0
    ensures var r := SetExState(st, key, ttlSeconds, v, t);
      r.store[key] == v && r.expiry[key] == Deadline(t, ttlSeconds)
      && Current(r, key, t) == Some(v)
  {
  }

  /** `expire` on a key not in `store` changes nothing; otherwise it changes only that key's deadline. */
  lemma ExpireOnlyDeadline<T>(st: Snapshot<T>, key: string, ttlSeconds: int, now: int)
    ensures key !in st.store ==> ExpireState(st, key, ttlSeconds, now) == st
    ensures key in st.store ==>
      var r := ExpireState(st, key, ttlSeconds, now);
      r.store == st.store && r.expiry[key] == Deadline(now, ttlSeconds)
      && forall k :: k in st.expiry && k != key ==> k in r.expiry && r.expiry[k] == st.expiry[k]
  {
  }

  /**
   * `expire` does not sweep: a key whose deadline has already fired but that
   * nothing has touched yet is brought back to life by a fresh deadline.
   */
  lemma ExpireRevivesStaleKey<T>(st: Snapshot<T>, key: string, ttlSeconds: int, now: int)
    requires key in st.store && Expired(st, key, now)
    requires ttlSeconds >= 0
    ensures Current(st, key, now) == None
    ensures Current(ExpireState(st, key, ttlSeconds, now), key, now) == Some(st.store[key])
  {
  }

  /** A key with no deadline never expires. */
  lemma NoDeadlineNeverExpires<T>(st: Snapshot<T>, key: string, now: int)
    requires key in st.store && key !in st.expiry
    ensures ExistsAt(st, key, now) == 1 && Swept(st, key, now) == st
  {
  }

  /** `rPush` appends at the end of a live list and keeps the earlier elements in order. */
  lemma PushAppends<T>(st: Snapshot<T>, key: string, items: seq<T>, v: T, now: int)
    requires Current(st, key, now) == Some(List(items))
    ensures PushState(st, key, v, now).Some?
    ensures PushState(st, key, v, now).value.store[key] == List(items + [v])
    ensures PushState(st, key, v, now).value.expiry == st.expiry
  {
  }

  /**
   * `rPush` on a missing or expired key starts a one-element list, which has
   * no deadline until `expire` gives it one.
   */
  lemma PushStartsList<T>(st: Snapshot<T>, key: string, v: T, now: int)
    requires Valid(st)
    requires Current(st, key, now).None?
    ensures PushState(st, key, v, now).Some?
    ensures PushState(st, key, v, now).value.store[key] == List([v])
    ensures key !in PushState(st, key, v, now).value.expiry
  {
  }

  /** `rPush` onto a key holding a non-empty string throws after the sweep. */
  lemma PushOntoStringFails<T>(st: Snapshot<T>, key: string, v: T, now: int)
    requires Current(st, key, now).Some? && st.store[key].Scalar? && st.store[key].s != ""
    ensures PushState(st, key, v, now).None?
  {
  }

  /** `lRange(k, 0, -1)` is `slice(0, 0)`: the empty list, or the empty string for a string value. */
  lemma RangeZeroMinusOne<T>(cur: Option<Value<T>>)
    ensures RangeOf(cur, 0, -1) == List([]) || RangeOf(cur, 0, -1) == Scalar("")
    ensures cur.Some? && cur.value.List? ==> RangeOf(cur, 0, -1) == List([])
  {
  }

  /**
   * The sweep deletes the touched key only when its deadline has fired, and
   * never changes what a reader sees at that moment.
   */
  lemma SweepKeepsLiveView<T>(st: Snapshot<T>, key: string, now: int)
    ensures Live(Swept(st, key, now), now) == Live(st, now)
    ensures forall k :: k != key ==> Current(Swept(st, key, now), k, now) == Current(st, k, now)
  {
  }

  /** The in-memory store, updated in place exactly as the transitions above say. */
  class InMemoryRedis<T> {
    var store: map<string, Value<T>>
    var expiry: map<string, int>

    function Snap(): Snapshot<T>
      reads this
    {
      Snapshot(store, expiry)
    }

    constructor ()
      ensures store == map[] && expiry == map[]
    {
      store := map[];
      expiry := map[];
    }

    method CheckExpiry(key: string, now: int)
      modifies this
      ensures Snap() == Swept(old(Snap()), key, now)
    {
      if key in expiry && expiry[key] != 0 && now > expiry[key] {
        store := store - {key};
        expiry := expiry - {key};
      }
    }

    method Exists(key: string, now: int) returns (n: int)
      modifies this
      ensures n == ExistsAt(old(Snap()), key, now)
      ensures Snap() == Swept(old(Snap()), key, now)
    {
      CheckExpiry(key, now);
      n := if key in store then 1 else 0;
    }

    method SetEx(key: string, ttlSeconds: int, v: Value<T>, now: int)
      modifies this
      ensures Snap() == SetExState(old(Snap()), key, ttlSeconds, v, now)
    {
      store := store[key := v];
      expiry := expiry[key := now + ttlSeconds * 1000];
    }

    method LRange(key: string, start: int, stop: int, now: int) returns (r: Value<T>)
      modifies this
      ensures r == RangeOf(Current(old(Snap()), key, now), start, stop)
      ensures Snap() == Swept(old(Snap()), key, now)
    {
      CheckExpiry(key, now);
      if key !in store {
        r := List(JsSlice([], start, stop + 1));
      } else {
        match store[key]
        case List(items) =>
          r := List(JsSlice(items, start, stop + 1));
        case Scalar(s) =>
          r := if s == "" then List(JsSlice([], start, stop + 1)) else Scalar(JsSlice(s, start, stop + 1));
      }
    }

    /** Returns false where JavaScript would throw (`push` on a non-empty string). */
    method RPush(key: string, v: T, now: int) returns (ok: bool)
      modifies this
      ensures ok == PushState(old(Snap()), key, v, now).Some?
      ensures ok ==> Snap() == PushState(old(Snap()), key, v, now).value
      ensures !ok ==> Snap() == Swept(old(Snap()), key, now)
    {
      CheckExpiry(key, now);
      assert Current(old(Snap()), key, now) == if key in store then Some(store[key]) else None;
      var list: seq<T> := [];
      if key in store {
        match store[key]
        case List(items) =>
          list := items;
        case Scalar(s) =>
          if s != "" {
            return false;
          }
      }
      assert list + [v] == if key in store && store[key].List? then store[key].items + [v] else [v];
      store := store[key := List(list + [v])];
      ok := true;
    }

    method Expire(key: string, ttlSeconds: int, now: int)
      modifies this
      ensures Snap() == ExpireState(old(Snap()), key, ttlSeconds, now)
    {
      if key in store {
        expiry := expiry[key := now + ttlSeconds * 1000];
      }
    }
  }
}
