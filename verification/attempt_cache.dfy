/**
 * The part of Django's cache that the facial attempt limiter uses: integer values
 * stored under per-user keys, each with an expiry instant. An entry is seen by
 * `cache.get` while the clock is before its expiry.
 */
module Cache {
  import opened Wrappers
  import opened Text

  /** `f"facial_attempts_{user_id}"`: one key per user id (`None` for an unsaved user). */
  datatype CacheKey = FacialAttempts(userId: Option<Pk>)

  /** A stored count and the instant from which it is gone. */
  datatype Entry = Entry(value: int, expiresAt: int)

  /** `cache.get(k, default)` at instant `now`: the stored value while it has not expired, else `default`. */
  function Lookup(m: map<CacheKey, Entry>, k: CacheKey, default: int, now: int): int {
    if k in m && now < m[k].expiresAt then m[k].value else default
  }

  /**
   * The store after `increment_attempts` for `k` at `now`: the live count (0 when
   * missing or expired) plus one, expiring `timeout` after `now`; other keys untouched.
   */
  function Bump(m: map<CacheKey, Entry>, k: CacheKey, timeout: int, now: int): (r: map<CacheKey, Entry>)
    ensures r.Keys == m.Keys + {k}
    ensures r[k] == Entry(Lookup(m, k, 0, now) + 1, now + timeout)
    ensures forall k' :: k' in m && k' != k ==> r[k'] == m[k']
  {
    m[k := Entry(Lookup(m, k, 0, now) + 1, now + timeout)]
  }

  /** The store after one increment for `k` at each instant of `ts`, in order. */
  function Replay(m: map<CacheKey, Entry>, k: CacheKey, ts: seq<int>, timeout: int): map<CacheKey, Entry>
    decreases |ts|
  {
    if ts == [] then m
    else Bump(Replay(m, k, ts[..|ts| - 1], timeout), k, timeout, ts[|ts| - 1])
  }

  /**
   * Increments that each come before the previous one expires accumulate: after the
   * burst the count is the one live at the first instant plus the number of increments,
   * and it lives `timeout` past the last one.
   */
  lemma {:induction false} ReplayCount(m: map<CacheKey, Entry>, k: CacheKey, ts: seq<int>, timeout: int)
    requires |ts| > 0
    requires forall i :: 0 < i < |ts| ==> ts[i] < ts[i - 1] + timeout
    ensures k in Replay(m, k, ts, timeout)
    ensures Replay(m, k, ts, timeout)[k] == Entry(Lookup(m, k, 0, ts[0]) + |ts|, ts[|ts| - 1] + timeout)
  {
    var n := |ts|;
    if n > 1 {
      var pre := ts[..n - 1];
      assert forall i :: 0 < i < |pre| ==> pre[i] < pre[i - 1] + timeout by {
        forall i | 0 < i < |pre|
          ensures pre[i] < pre[i - 1] + timeout
        {
          assert pre[i] == ts[i] && pre[i - 1] == ts[i - 1];
        }
      }
      ReplayCount(m, k, pre, timeout);
      assert ts[n - 1] < ts[n - 2] + timeout;
    }
  }

  /** Every key other than `k` keeps its entry through any burst of increments on `k`. */
  lemma {:induction false} ReplayIsolated(m: map<CacheKey, Entry>, k: CacheKey, ts: seq<int>, timeout: int, k': CacheKey)
    requires k' != k
    ensures k' in Replay(m, k, ts, timeout) <==> k' in m
    ensures k' in m ==> Replay(m, k, ts, timeout)[k'] == m[k']
    decreases |ts|
  {
    if ts != [] {
      ReplayIsolated(m, k, ts[..|ts| - 1], timeout, k');
    }
  }

  /** The cache object: its entries are replaced by `set` and `delete`. */
  class AttemptCache {
    var entries: map<CacheKey, Entry>

    constructor ()
      ensures entries == map[]
    {
      entries := map[];
    }

    /** `cache.get(k, default)` at instant `now`. */
    function Get(k: CacheKey, default: int, now: int): int
      reads this
    {
      Lookup(entries, k, default, now)
    }

    /** `cache.set(k, v, timeout)` at instant `now`. */
    method Set(k: CacheKey, v: int, timeout: int, now: int)
      modifies this
      ensures entries == old(entries)[k := Entry(v, now + timeout)]
    {
      entries := entries[k := Entry(v, now + timeout)];
    }

    /** `cache.delete(k)`. */
    method Delete(k: CacheKey)
      modifies this
      ensures entries == old(entries) - {k}
    {
      entries := entries - {k};
    }
  }
}
