/** The cache of OCSP responses: how long an answer is served, and what a failed refresh may do to it. */
module OcspCache {
  import opened Prelude
  import opened Lru
  import opened Revocations

  datatype Key = Key(anchor: string, serial: string)

  datatype OcspResult = OcspResult(status: OcspStatus, nextUpdate: Option<Time>)

  const MAX_TTL: Time := HOUR
  const NO_NEXT_TTL: Time := 5 * MINUTE
  const FAILURE_TTL: Time := 30 * SECOND
  const CACHE_SIZE := 4096

  /** When a response fetched at `at` stops being served: an hour, sooner at its nextUpdate, five minutes without one. */
  function Expiry(r: OcspResult, at: Time): (e: Time)
    ensures e <= at + HOUR
    ensures r.nextUpdate.None? ==> e == at + 5 * MINUTE
    ensures r.nextUpdate.Some? ==> e <= r.nextUpdate.value && (e == r.nextUpdate.value || e == at + HOUR)
  {
    var hour := at + MAX_TTL;
    if r.nextUpdate.None? then at + NO_NEXT_TTL
    else if r.nextUpdate.value < hour then r.nextUpdate.value
    else hour
  }

  /** Half a duration, rounded toward zero. */
  function Half(d: Time): (h: Time)
    ensures d - 2 * h == 0 || (d - 2 * h == 1 && d > 0) || (d - 2 * h == -1 && d < 0)
  {
    if d >= 0 then d / 2 else -(-d / 2)
  }

  /** The outcome of a fetch, for the certificate `key`. Only the refresh marks change after it is made. */
  class Entry {
    ghost const key: Key
    const outcome: Option<OcspResult>
    const fetchedAt: Time
    const expires: Time
    var nextRefresh: Time
    var refreshing: bool

    constructor (ghost key: Key, outcome: Option<OcspResult>, fetchedAt: Time, expires: Time, nextRefresh: Time)
      ensures this.key == key && this.outcome == outcome && this.fetchedAt == fetchedAt && this.expires == expires
      ensures this.nextRefresh == nextRefresh && !refreshing
    {
      this.key, this.outcome, this.fetchedAt, this.expires, this.nextRefresh := key, outcome, fetchedAt, expires, nextRefresh;
      refreshing := false;
    }
  }

  /** What the responder at a URL answers for a certificate at a time, when the answer validates. */
  type Lookup = (Key, string, Time) -> Option<OcspResult>

  ghost predicate AnsweredBy(lookup: Lookup, k: Key, at: Time, outcome: Option<OcspResult>) {
    exists url :: lookup(k, url, at) == outcome
  }

  /** The entry is what some responder of the certificate's gave when it was fetched, with the lifetime that goes with it. */
  ghost predicate EntryFits(lookup: Lookup, k: Key, e: Entry) {
    && e.key == k && AnsweredBy(lookup, k, e.fetchedAt, e.outcome)
    && e.expires == if e.outcome.Some? then Expiry(e.outcome.value, e.fetchedAt) else e.fetchedAt + FAILURE_TTL
  }

  /** Half way through the entry's life. */
  function HalfLife(e: Entry): (at: Time)
    ensures at - e.fetchedAt == e.expires - at || (at - e.fetchedAt == e.expires - at - 1 && e.fetchedAt < e.expires)
            || (at - e.fetchedAt == e.expires - at + 1 && e.expires < e.fetchedAt)
  {
    e.fetchedAt + Half(e.expires - e.fetchedAt)
  }

  /** A refresh of the certificate failed at `at`. */
  ghost predicate FailedAt(lookup: Lookup, k: Key, at: Time) { exists url :: lookup(k, url, at).None? }

  /** A response is refreshed from its half life on, or from 30 seconds after a refresh that failed. */
  ghost predicate RefreshFits(lookup: Lookup, e: Entry, clock: Time)
    reads e
  {
    e.outcome.Some? ==>
      e.nextRefresh == HalfLife(e) || exists at :: at <= clock && FailedAt(lookup, e.key, at) && e.nextRefresh == at + FAILURE_TTL
  }

  /** An outcome served for the certificate at `now`: just fetched, or fetched before and within its lifetime. */
  ghost predicate Served(lookup: Lookup, k: Key, outcome: Option<OcspResult>, now: Time) {
    exists at :: ServedFrom(lookup, k, outcome, at, now)
  }

  ghost predicate ServedFrom(lookup: Lookup, k: Key, outcome: Option<OcspResult>, at: Time, now: Time) {
    && at <= now && AnsweredBy(lookup, k, at, outcome)
    && (at == now || now < if outcome.Some? then Expiry(outcome.value, at) else at + FAILURE_TTL)
  }

  /** What is served from the cache is under an hour old, five minutes without a nextUpdate, before its nextUpdate; a failure under 30 seconds. */
  lemma ServedIsFresh(lookup: Lookup, k: Key, outcome: Option<OcspResult>, now: Time) returns (at: Time)
    requires Served(lookup, k, outcome, now)
    ensures at <= now && AnsweredBy(lookup, k, at, outcome)
    ensures outcome.Some? && at < now ==> now - at < HOUR
    ensures outcome.Some? && at < now && outcome.value.nextUpdate.None? ==> now - at < 5 * MINUTE
    ensures outcome.Some? && at < now && outcome.value.nextUpdate.Some? ==> now < outcome.value.nextUpdate.value
    ensures outcome.None? ==> now - at < 30 * SECOND
  {
    at :| ServedFrom(lookup, k, outcome, at, now);
  }

  /** Every cached entry fits its key and was fetched by `clock`. */
  ghost predicate CacheFits(lookup: Lookup, vals: map<Key, Entry>, clock: Time) {
    forall k :: k in vals ==> EntryFits(lookup, k, vals[k]) && vals[k].fetchedAt <= clock
  }

  lemma FitsLater(lookup: Lookup, vals: map<Key, Entry>, clock: Time, now: Time)
    requires CacheFits(lookup, vals, clock) && clock <= now
    ensures CacheFits(lookup, vals, now)
  {
  }

  lemma PutFits(lookup: Lookup, s: Recency<Key, Entry>, k: Key, e: Entry, max: nat, clock: Time)
    requires CacheFits(lookup, s.vals, clock) && EntryFits(lookup, k, e) && e.fetchedAt <= clock
    ensures CacheFits(lookup, AfterPut(s, k, e, max).vals, clock)
  {
  }

  class OcspClient {
    const lookup: Lookup
    const cache: Cache<Key, Entry>
    /** Anchors whose responder failed last. */
    var failing: set<string>
    /** The latest time any call saw. */
    ghost var clock: Time

    ghost function Entries(): set<Entry>
      reads cache, cache.items.Values
    {
      cache.View().vals.Values
    }

    ghost predicate Valid()
      reads this, cache, cache.items.Values, Entries()
    {
      && cache.Valid() && CacheFits(lookup, cache.View().vals, clock)
      && forall e :: e in Entries() ==> RefreshFits(lookup, e, clock)
    }

    constructor (lookup: Lookup)
      ensures Valid() && fresh(cache) && failing == {} && this.lookup == lookup
      ensures cache.View().vals == map[] && cache.items == map[] && cache.max == 4096
    {
      this.lookup, failing, clock := lookup, {}, 0;
      cache := new Cache(CACHE_SIZE);
    }

    /** Stores an entry, evicting the least recently used one at capacity. */
    method Keep(k: Key, e: Entry)
      requires Valid() && EntryFits(lookup, k, e) && e.fetchedAt <= clock && RefreshFits(lookup, e, clock)
      modifies cache, cache.items.Values
      ensures Valid()
      ensures cache.View() == AfterPut(old(cache.View()), k, e, cache.max)
      ensures forall x :: x in cache.items.Values ==> x in old(cache.items.Values) || fresh(x)
    {
      PutFits(lookup, cache.View(), k, e, cache.max, clock);
      cache.Put(k, e);
    }

    /** The entry a fetch makes. */
    method Make(k: Key, url: string, now: Time) returns (e: Entry)
      ensures fresh(e) && EntryFits(lookup, k, e) && e.fetchedAt == now && e.outcome == lookup(k, url, now) && !e.refreshing
      ensures e.outcome.Some? ==> e.nextRefresh == HalfLife(e)
    {
      var res := lookup(k, url, now);
      if res.None? {
        e := new Entry(k, None, now, now + FAILURE_TTL, 0);
      } else {
        var expires := Expiry(res.value, now);
        e := new Entry(k, res, now, expires, now + Half(expires - now));
      }
      assert AnsweredBy(lookup, k, now, e.outcome);
    }

    /** What a fetch leaves in the cache. */
    ghost predicate Filled(before: Recency<Key, Entry>, k: Key, url: string, prior: Option<Entry>, now: Time, e: Entry)
      reads this, cache, cache.items.Values
    {
      if lookup(k, url, now).None? && prior.Some? && now < prior.value.expires
      then e == prior.value && cache.View() == before
      else e.fetchedAt == now && e.outcome == lookup(k, url, now) && cache.View() == AfterPut(before, k, e, cache.max)
    }

    /** noteResult. */
    method Note(k: Key, failed: bool, now: Time)
      requires Valid() && clock <= now
      modifies this`failing, this`clock
      ensures Valid() && clock == now && (k.anchor in failing <==> failed)
    {
      FitsLater(lookup, cache.View().vals, clock, now);
      clock := now;
      failing := if failed then failing + {k.anchor} else failing - {k.anchor};
    }

    /** Sets an entry's refresh marks, which no lifetime depends on. */
    method Mark(e: Entry, refreshing: bool, nextRefresh: Time)
      requires Valid()
      requires nextRefresh == e.nextRefresh || exists at :: at <= clock && FailedAt(lookup, e.key, at) && nextRefresh == at + FAILURE_TTL
      modifies e
      ensures Valid() && cache.View() == old(cache.View())
      ensures e.refreshing == refreshing && e.nextRefresh == nextRefresh
    {
      e.refreshing, e.nextRefresh := refreshing, nextRefresh;
      assert cache.View() == old(cache.View());
    }

    /** A fetch whose outcome takes the entry's place. */
    method Replace(k: Key, url: string, now: Time) returns (e: Entry)
      requires Valid() && now <= clock
      modifies cache, cache.items.Values
      ensures Valid() && EntryFits(lookup, k, e) && e.fetchedAt == now && e.outcome == lookup(k, url, now)
      ensures cache.View() == AfterPut(old(cache.View()), k, e, cache.max)
    {
      e := Make(k, url, now);
      Keep(k, e);
    }

    /**
     * fill: one fetch and its put. A success replaces the entry. A failure leaves a response that is still live exactly
     * as it was, expiry included, and otherwise is remembered for 30 seconds.
     */
    method Fill(k: Key, url: string, prior: Option<Entry>, now: Time) returns (e: Entry)
      requires Valid() && clock <= now
      requires prior.Some? ==> EntryFits(lookup, k, prior.value)
      modifies this`failing, this`clock, cache, cache.items.Values, (if prior.Some? then {prior.value} else {})
      ensures Valid() && clock == now && EntryFits(lookup, k, e) && Filled(old(cache.View()), k, url, prior, now, e)
      ensures k.anchor in failing <==> lookup(k, url, now).None?
      ensures lookup(k, url, now).None? && prior.Some? && now < prior.value.expires ==>
                !prior.value.refreshing && prior.value.nextRefresh == now + 30 * SECOND
    {
      Note(k, lookup(k, url, now).None?, now);
      if lookup(k, url, now).None? && prior.Some? && now < prior.value.expires {
        assert FailedAt(lookup, k, now);
        Mark(prior.value, false, now + FAILURE_TTL);
        return prior.value;
      }
      e := Replace(k, url, now);
    }

    /** cached: the live entry's outcome. */
    method Hit(k: Key) returns (e: Option<Entry>)
      requires Valid()
      modifies cache`order
      ensures Valid() && cache.items == old(cache.items) && cache.View() == AfterGet(old(cache.View()), k)
      ensures cache.View().vals == old(cache.View().vals)
      ensures e == if k in cache.View().vals then Some(cache.View().vals[k]) else None
      ensures e.Some? ==> EntryFits(lookup, k, e.value) && e.value.fetchedAt <= clock
    {
      e := cache.Get(k);
    }

    /** A live entry is due for a refresh once its time has come, and is then marked. */
    method Serve(e: Entry, now: Time) returns (due: bool)
      requires Valid() && e in Entries()
      modifies e
      ensures Valid() && cache.View() == old(cache.View()) && e.nextRefresh == old(e.nextRefresh)
      ensures due <==> e.outcome.Some? && !old(e.refreshing) && e.nextRefresh <= now
      ensures due ==> e.refreshing && (HalfLife(e) <= now || exists at :: FailedAt(lookup, e.key, at) && at + 30 * SECOND <= now)
    {
      due := e.outcome.Some? && !e.refreshing && now >= e.nextRefresh;
      if due { Mark(e, true, e.nextRefresh); }
    }

    /** A miss fetches once. */
    method Fetch(k: Key, url: string, now: Time) returns (outcome: Option<OcspResult>)
      requires Valid() && clock <= now
      modifies this`failing, this`clock, cache, cache.items.Values
      ensures Valid() && Served(lookup, k, outcome, now)
      ensures outcome == lookup(k, url, now) && (k.anchor in failing <==> outcome.None?)
      ensures exists e: Entry :: e.fetchedAt == now && e.outcome == outcome && cache.View() == AfterPut(old(cache.View()), k, e, cache.max)
    {
      var e := Fill(k, url, None, now);
      assert ServedFrom(lookup, k, e.outcome, now, now);
      return e.outcome;
    }

    /** Check: a live entry is served, and is due for a refresh from its half life on; a miss fetches. */
    method Check(k: Key, url: string, now: Time) returns (outcome: Option<OcspResult>, due: bool)
      requires Valid() && clock <= now
      modifies this`failing, this`clock, cache, cache.items.Values, cache.View().vals.Values
      ensures Served(lookup, k, outcome, now)
      ensures old(k in cache.View().vals && now < cache.View().vals[k].expires) ==>
                outcome == old(cache.View().vals[k].outcome) && cache.View() == AfterGet(old(cache.View()), k)
      ensures due <==> old(k in cache.View().vals && now < cache.View().vals[k].expires && cache.View().vals[k].outcome.Some?
                           && !cache.View().vals[k].refreshing && cache.View().vals[k].nextRefresh <= now)
      ensures due ==> old(cache.View().vals[k]).refreshing
      ensures due ==> HalfLife(old(cache.View().vals[k])) <= now || exists at :: FailedAt(lookup, k, at) && at + 30 * SECOND <= now
      ensures !old(k in cache.View().vals && now < cache.View().vals[k].expires) ==>
                && outcome == lookup(k, url, now) && (k.anchor in failing <==> outcome.None?)
                && exists e: Entry :: e.fetchedAt == now && e.outcome == outcome
                     && cache.View() == AfterPut(AfterGet(old(cache.View()), k), k, e, cache.max)
      ensures Valid()
    {
      var hit := Hit(k);
      if hit.Some? && now < hit.value.expires {
        assert ServedFrom(lookup, k, hit.value.outcome, hit.value.fetchedAt, now);
        due := Serve(hit.value, now);
        return hit.value.outcome, due;
      }
      outcome := Fetch(k, url, now);
      return outcome, false;
    }

    /** refresh: never moves the expiry of a response it could not replace. */
    method Refresh(k: Key, url: string, now: Time)
      requires Valid() && clock <= now
      modifies this`failing, this`clock, cache, cache.items.Values, cache.View().vals.Values
      ensures Valid()
      ensures old(k in cache.View().vals && now < cache.View().vals[k].expires) && lookup(k, url, now).None? ==>
                cache.View().vals == old(cache.View().vals) && !old(cache.View().vals[k]).refreshing
                && old(cache.View().vals[k]).nextRefresh == now + 30 * SECOND
    {
      var prior := Hit(k);
      var _ := Fill(k, url, prior, now);
    }

    /** ClearAnchor: no answer under the anchor is left; the others stay. */
    method ClearAnchor(sha: string)
      requires Valid()
      modifies this`failing, cache
      ensures Valid() && sha !in failing
      ensures forall k :: k in cache.View().vals ==> k.anchor != sha
      ensures forall k :: k in old(cache.View().vals) && k.anchor != sha ==>
                k in cache.View().vals && cache.View().vals[k] == old(cache.View().vals)[k]
    {
      cache.Remove((k: Key) => k.anchor == sha);
      failing := failing - {sha};
    }
  }
}
