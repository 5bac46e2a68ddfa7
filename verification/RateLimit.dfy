/** The rolling window that counts failures of every client and trips at a limit. */
module RateLimit {
  import opened Prelude

  /** The times after the cutoff, in order. */
  function Kept(times: seq<Time>, cutoff: Time): seq<Time> {
    if times == [] then []
    else Kept(times[..|times| - 1], cutoff) + (if times[|times| - 1] > cutoff then [times[|times| - 1]] else [])
  }

  /** What a failure at `now` makes of the stored times, before a trip empties them. */
  function Recorded(stored: seq<Time>, window: Time, now: Time): seq<Time> { Kept(stored, now - window) + [now] }

  /** The stored times after a run of failures, how many of them the last trip used up, and the number of trips. */
  datatype Count = Count(stored: seq<Time>, from: nat, trips: nat)

  function After(limit: int, window: Time, fails: seq<Time>): Count {
    if fails == [] then Count([], 0, 0)
    else
      var c := After(limit, window, fails[..|fails| - 1]);
      var next := Recorded(c.stored, window, fails[|fails| - 1]);
      if |next| >= limit then Count([], |fails|, c.trips + 1) else Count(next, c.from, c.trips)
  }

  /** The times from the `from`-th on that are less than `window` before `now`, by their places. */
  ghost function PlacesInside(times: seq<Time>, from: nat, window: Time, now: Time): set<int> {
    set i | from <= i < |times| && now - times[i] < window
  }

  ghost function CountInside(times: seq<Time>, window: Time, now: Time): nat { |PlacesInside(times, 0, window, now)| }

  lemma {:induction false} KeptCount(times: seq<Time>, from: nat, window: Time, now: Time)
    requires from <= |times|
    ensures |Kept(times[from..], now - window)| == |PlacesInside(times, from, window, now)|
  {
    if from < |times| {
      var n := |times| - 1;
      KeptCount(times[..n], from, window, now);
      assert times[from..][..n - from] == times[..n][from..];
      assert PlacesInside(times, from, window, now) ==
             PlacesInside(times[..n], from, window, now) + if now - times[n] < window then {n} else {};
    } else {
      assert PlacesInside(times, from, window, now) == {};
    }
  }

  ghost predicate Monotone(times: seq<Time>) { forall i, j :: 0 <= i < j < |times| ==> times[i] <= times[j] }

  /** The last of `fails` trips the window. */
  ghost predicate Trips(limit: int, window: Time, fails: seq<Time>)
    requires fails != []
  {
    After(limit, window, fails).trips > After(limit, window, fails[..|fails| - 1]).trips
  }

  // ---- filtering twice ----

  lemma {:induction false} KeptTwice(times: seq<Time>, early: Time, late: Time)
    requires early <= late
    ensures Kept(Kept(times, early), late) == Kept(times, late)
  {
    if times != [] {
      var n := |times| - 1;
      KeptTwice(times[..n], early, late);
      KeptAppend(Kept(times[..n], early), if times[n] > early then [times[n]] else [], late);
    }
  }

  lemma KeptAppend(times: seq<Time>, more: seq<Time>, cutoff: Time)
    requires |more| <= 1
    ensures Kept(times + more, cutoff) == Kept(times, cutoff) + (if more != [] && more[0] > cutoff then more else [])
  {
    if more == [] {
      assert times + more == times;
    } else {
      assert (times + more)[..|times|] == times;
    }
  }

  lemma {:induction false} KeptShorter(times: seq<Time>, cutoff: Time)
    ensures |Kept(times, cutoff)| <= |times|
  {
    if times != [] { KeptShorter(times[..|times| - 1], cutoff); }
  }

  // ---- what the window promises ----

  /** `stored` are the failures since `from` that were inside the window at the last of `fails`. */
  ghost predicate Holds(stored: seq<Time>, from: nat, window: Time, fails: seq<Time>) {
    && from <= |fails|
    && (fails == [] ==> stored == [])
    && (fails != [] ==> stored == Kept(fails[from..], fails[|fails| - 1] - window))
  }

  lemma RecordedHolds(stored: seq<Time>, from: nat, window: Time, fails: seq<Time>, now: Time)
    requires Holds(stored, from, window, fails) && window > 0 && (fails != [] ==> fails[|fails| - 1] <= now)
    ensures Holds(Recorded(stored, window, now), from, window, fails + [now])
  {
    var since := fails[from..];
    if fails != [] { KeptTwice(since, fails[|fails| - 1] - window, now - window); }
    assert (fails + [now])[from..] == since + [now];
    KeptAppend(since, [now], now - window);
  }

  /** Under a monotone clock the stored times are exactly the failures since the last trip inside the window. */
  lemma {:induction false} StoredAre(limit: int, window: Time, fails: seq<Time>)
    requires Monotone(fails) && window > 0
    ensures Holds(After(limit, window, fails).stored, After(limit, window, fails).from, window, fails)
  {
    if fails != [] {
      var n := |fails| - 1;
      StoredAre(limit, window, fails[..n]);
      var c := After(limit, window, fails[..n]);
      RecordedHolds(c.stored, c.from, window, fails[..n], fails[n]);
      assert fails[..n] + [fails[n]] == fails;
      assert fails[|fails|..] == [];
    }
  }

  /** What the last of `fails` is counted among: the failures since the last trip inside the window, itself included. */
  lemma LastIsCounted(limit: int, window: Time, fails: seq<Time>)
    requires Monotone(fails) && window > 0 && fails != []
    ensures var n := |fails| - 1;
            var c := After(limit, window, fails[..n]);
            c.from <= n && Recorded(c.stored, window, fails[n]) == Kept(fails[c.from..], fails[n] - window)
  {
    var n := |fails| - 1;
    StoredAre(limit, window, fails[..n]);
    var c := After(limit, window, fails[..n]);
    RecordedHolds(c.stored, c.from, window, fails[..n], fails[n]);
    assert fails[..n] + [fails[n]] == fails;
  }

  /** A failure trips the window exactly when `limit` failures since the last trip, itself included, fall inside it. */
  lemma TripsIffLimitInside(limit: int, window: Time, fails: seq<Time>)
    requires Monotone(fails) && window > 0 && fails != []
    ensures var from := After(limit, window, fails[..|fails| - 1]).from;
            from < |fails| && (Trips(limit, window, fails) <==> |PlacesInside(fails, from, window, fails[|fails| - 1])| >= limit)
  {
    LastIsCounted(limit, window, fails);
    KeptCount(fails, After(limit, window, fails[..|fails| - 1]).from, window, fails[|fails| - 1]);
  }

  /** Fewer than `limit` times are stored, and the trips used up at least `limit` failures each. */
  ghost predicate Dear(limit: int, c: Count, n: nat) {
    |c.stored| < limit && |c.stored| <= n - c.from && c.trips * limit <= c.from <= n
  }

  lemma OneMoreTrip(limit: int, window: Time, c: Count, n: nat, now: Time)
    requires limit >= 1 && Dear(limit, c, n)
    ensures var next := Recorded(c.stored, window, now);
            Dear(limit, if |next| >= limit then Count([], n + 1, c.trips + 1) else Count(next, c.from, c.trips), n + 1)
  {
    KeptShorter(c.stored, now - window);
    assert (c.trips + 1) * limit == c.trips * limit + limit;
  }

  /** Whatever the clock does, fewer than `limit` times are stored between calls, and k trips took at least k * limit failures. */
  lemma {:induction false} TripsAreDear(limit: int, window: Time, fails: seq<Time>)
    requires limit >= 1
    ensures Dear(limit, After(limit, window, fails), |fails|)
  {
    if fails != [] {
      var n := |fails| - 1;
      TripsAreDear(limit, window, fails[..n]);
      OneMoreTrip(limit, window, After(limit, window, fails[..n]), n, fails[n]);
    } else {
      assert 0 * limit == 0;
    }
  }

  // ---- the window ----

  class Window {
    const limit: int
    const window: Time
    /** The slice's backing array, and its length. */
    var times: array<Time>
    var len: nat

    ghost predicate Valid()
      reads this
    {
      len <= times.Length
    }

    ghost function View(): seq<Time>
      requires Valid()
      reads this, times
    {
      times[..len]
    }

    constructor (limit: int, window: Time)
      ensures Valid() && View() == [] && fresh(times)
      ensures this.limit == limit && this.window == window
    {
      this.limit, this.window, len := limit, window, 0;
      times := new Time[0];
    }

    /** Moves the times after the cutoff to the front of the array, in place. */
    method Compact(cutoff: Time)
      requires Valid()
      modifies this`len, times
      ensures Valid() && View() == Kept(old(View()), cutoff)
    {
      ghost var was := View();
      var kept := 0;
      for i := 0 to len
        invariant kept <= i <= len == old(len)
        invariant times[..kept] == Kept(was[..i], cutoff)
        invariant forall k :: i <= k < len ==> times[k] == was[k]
      {
        assert was[..i + 1][..i] == was[..i];
        if times[i] > cutoff {
          times[kept] := times[i];
          kept := kept + 1;
        }
      }
      assert was[..|was|] == was;
      len := kept;
    }

    /** append: grows the array when it is full. */
    method Append(t: Time)
      requires Valid()
      modifies this`len, this`times, times
      ensures Valid() && View() == old(View()) + [t]
      ensures times == old(times) || fresh(times)
    {
      if len == times.Length {
        var bigger := new Time[2 * len + 1];
        for i := 0 to len
          invariant bigger[..i] == times[..i]
          modifies bigger
        {
          bigger[i] := times[i];
        }
        times := bigger;
      }
      times[len] := t;
      len := len + 1;
    }

    /** Fail: one more step of After. */
    method Fail(now: Time) returns (tripped: bool)
      requires Valid()
      modifies this`len, this`times, times
      ensures Valid() && (times == old(times) || fresh(times))
      ensures tripped <==> 1 + CountInside(old(View()), window, now) >= limit
      ensures View() == if tripped then [] else Recorded(old(View()), window, now)
    {
      KeptCount(View(), 0, window, now);
      assert View()[0..] == View();
      Compact(now - window);
      Append(now);
      if len >= limit {
        times, len := new Time[0], 0;
        return true;
      }
      return false;
    }
  }
}
