/** The sliding-window limiter in front of the public unsubscribe endpoint. */
module RateLimit {
  import opened Prelude

  const WINDOW := 60.0
  const MOST := 20

  datatype Hit = Hit(key: string, at: real)

  function Trim(bucket: seq<real>, now: real): seq<real> {
    if bucket == [] then []
    else
      var init, last := bucket[..|bucket| - 1], bucket[|bucket| - 1];
      Trim(init, now) + if last > now - WINDOW then [last] else []
  }

  /** The bucket of `key` after all these calls, trimmed whenever `key` was called. */
  function Bucket(calls: seq<Hit>, key: string): seq<real> {
    if calls == [] then []
    else
      var init, last := calls[..|calls| - 1], calls[|calls| - 1];
      if last.key == key then Trim(Bucket(init, key), last.at) + [last.at] else Bucket(init, key)
  }

  /** Whether the last of these calls was limited. */
  predicate Limited(calls: seq<Hit>)
    requires calls != []
  {
    |Bucket(calls, calls[|calls| - 1].key)| > MOST
  }

  class Limiter {
    var hits: map<string, seq<real>>
    ghost var calls: seq<Hit>

    ghost predicate Valid()
      reads this
    {
      forall key :: (if key in hits then hits[key] else []) == Bucket(calls, key)
    }

    constructor ()
      ensures Valid() && calls == []
    {
      hits, calls := map[], [];
    }

    method RateLimited(key: string, now: real) returns (limited: bool)
      requires Valid()
      modifies this
      ensures Valid() && calls == old(calls) + [Hit(key, now)]
      ensures limited == Limited(calls)
    {
      var stored := if key in hits then hits[key] else [];
      var bucket: seq<real> := [];
      for i := 0 to |stored|
        invariant bucket == Trim(stored[..i], now)
      {
        assert stored[..i + 1][..i] == stored[..i];
        if stored[i] > now - WINDOW {
          bucket := bucket + [stored[i]];
        }
      }
      assert stored[..|stored|] == stored;
      bucket := bucket + [now];
      hits := hits[key := bucket];
      calls := calls + [Hit(key, now)];
      assert calls[..|calls| - 1] == old(calls);
      limited := |bucket| > MOST;
    }
  }

  // ---- what the bucket holds ----

  /** The clock never goes back. */
  ghost predicate InOrder(calls: seq<Hit>) {
    forall i, j | 0 <= i < j < |calls| :: calls[i].at <= calls[j].at
  }

  function InWindow(key: string, now: real): Hit -> bool {
    (h: Hit) => h.key == key && h.at > now - WINDOW
  }

  lemma {:induction false} TrimTwice(bucket: seq<real>, earlier: real, now: real)
    requires earlier <= now
    ensures Trim(Trim(bucket, earlier), now) == Trim(bucket, now)
  {
    if bucket == [] {
    } else {
      var init, last := bucket[..|bucket| - 1], bucket[|bucket| - 1];
      TrimTwice(init, earlier, now);
      var t := Trim(init, earlier);
      assert (t + [last])[..|t|] == t;
      assert t + [] == t && Trim(init, now) + [] == Trim(init, now);
    }
  }

  /** Trimming on every call loses nothing a later call would count. */
  lemma {:induction false} TrimmedIsWindow(calls: seq<Hit>, key: string, now: real)
    requires InOrder(calls) && forall i | 0 <= i < |calls| :: calls[i].at <= now
    ensures |Trim(Bucket(calls, key), now)| == Tally(calls, InWindow(key, now))
  {
    if calls == [] {
    } else {
      var init, last := calls[..|calls| - 1], calls[|calls| - 1];
      TrimmedIsWindow(init, key, now);
      if last.key == key {
        var t := Trim(Bucket(init, key), last.at);
        TrimTwice(Bucket(init, key), last.at, now);
        assert (t + [last.at])[..|t|] == t;
      }
    }
  }

  /** A call is limited exactly if more than MOST calls with its key, itself included, fall into the
      window that ends with it. */
  lemma LimitedExactlyIfBusy(calls: seq<Hit>)
    requires calls != [] && InOrder(calls)
    ensures var last := calls[|calls| - 1]; Limited(calls) <==> Tally(calls, InWindow(last.key, last.at)) > MOST
  {
    var init, last := calls[..|calls| - 1], calls[|calls| - 1];
    TrimmedIsWindow(init, last.key, last.at);
  }

  // ---- the bound ----

  function InInterval(key: string, from: real): Hit -> bool {
    (h: Hit) => h.key == key && from <= h.at < from + WINDOW
  }

  /** How many calls with `key` were let through in the half-open interval of one window from `from`. */
  function Admitted(calls: seq<Hit>, key: string, from: real): nat {
    if calls == [] then 0
    else
      Admitted(calls[..|calls| - 1], key, from) +
      if InInterval(key, from)(calls[|calls| - 1]) && !Limited(calls) then 1 else 0
  }

  lemma {:induction false} AdmittedAreCalls(calls: seq<Hit>, key: string, from: real)
    ensures Admitted(calls, key, from) <= Tally(calls, InInterval(key, from))
  {
    if calls == [] {
    } else {
      AdmittedAreCalls(calls[..|calls| - 1], key, from);
    }
  }

  /** In any interval as long as the window, at most MOST calls with one key are let through. */
  lemma {:induction false} AtMostTwenty(calls: seq<Hit>, key: string, from: real)
    requires InOrder(calls)
    ensures Admitted(calls, key, from) <= MOST
  {
    if calls == [] {
    } else {
      var init, last := calls[..|calls| - 1], calls[|calls| - 1];
      if InInterval(key, from)(last) && !Limited(calls) {
        AdmittedAreCalls(calls, key, from);
        LimitedExactlyIfBusy(calls);
        TallyMonotone(calls, InInterval(key, from), InWindow(key, last.at));
      } else {
        AtMostTwenty(init, key, from);
      }
    }
  }
}
