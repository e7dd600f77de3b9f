/** The risk configuration cache: a five-minute copy of a database table merged over defaults. */
module RiskConfig {
  import opened Common

  type Table = map<string, string>

  const CACHE_TTL_MS: nat := 300_000

  const DEFAULTS: Table := map[
    "weight_buyer_credit" := "0.30", "weight_tenor" := "0.20", "weight_track_record" := "0.20",
    "weight_concentration" := "0.15", "weight_collateral" := "0.15",
    "threshold_auto_approve" := "75", "threshold_refer_manager" := "50",
    "advance_pct_high" := "0.95", "advance_pct_mid" := "0.90", "advance_pct_low" := "0.85",
    "premium_score_80_plus" := "0", "premium_score_70_79" := "0.005",
    "premium_score_60_69" := "0.01", "premium_score_50_59" := "0.015",
    "tier3_auto_reject_threshold" := "3"]

  /** What a load puts in the cache: the table over the defaults, or the defaults if the query failed. */
  function Loaded(db: Table, ok: bool): Table {
    if ok then DEFAULTS + db else DEFAULTS
  }

  function Lookup(cache: Table, key: string): string {
    if key in cache then cache[key] else if key in DEFAULTS then DEFAULTS[key] else "0"
  }

  /** The process's module variables, the shared table and the clock. */
  datatype State = State(now: int, db: Table, cache: Option<Table>, cacheLoadedAt: int)

  /** `Get` may have to load: the query sees the table at once and returns after `took`, well or not.
      `Update` is the admin endpoint of this process; `External` is any other writer of the table. */
  datatype Event =
    | Get(key: string, ok: bool, took: nat)
    | Update(key: string, value: string)
    | External(db: Table)
    | Wait(ms: nat)

  predicate Stale(s: State) {
    s.cache.None? || s.now - s.cacheLoadedAt > CACHE_TTL_MS
  }

  function Load(s: State, ok: bool, took: nat): State {
    s.(now := s.now + took, cache := Some(Loaded(s.db, ok)), cacheLoadedAt := s.now + took)
  }

  function AfterGet(s: State, ok: bool, took: nat): State {
    if Stale(s) then Load(s, ok, took) else s
  }

  /** The value handed to the caller. */
  function GetValue(s: State, key: string, ok: bool): string {
    Lookup(if Stale(s) then Loaded(s.db, ok) else s.cache.value, key)
  }

  function Next(s: State, e: Event): State {
    match e
    case Get(_, ok, took) => AfterGet(s, ok, took)
    case Update(key, value) =>
      if key in s.db then s.(db := s.db[key := value], cache := None, cacheLoadedAt := 0) else s
    case External(db) => s.(db := db)
    case Wait(ms) => s.(now := s.now + ms)
  }

  function Run(s: State, events: seq<Event>): State {
    if events == [] then s else Next(Run(s, events[..|events| - 1]), events[|events| - 1])
  }

  /** No update by this process took effect at or after position `k`. */
  ghost predicate NoUpdateSince(s0: State, events: seq<Event>, k: nat) {
    forall j :: k <= j < |events| && events[j].Update? ==> events[j].key !in Run(s0, events[..j]).db
  }

  /** The cache after `events` was loaded by the read at position `k`, and no update took effect since. */
  ghost predicate LoadedBy(s0: State, events: seq<Event>, k: nat)
    requires k < |events|
  {
    var before, s := Run(s0, events[..k]), Run(s0, events);
    && events[k].Get? && Stale(before) && s.cache == Some(Loaded(before.db, events[k].ok))
    && s.cacheLoadedAt == Run(s0, events[..k + 1]).now <= s.now
    && NoUpdateSince(s0, events, k)
  }

  /** A cache loaded by read `k` is still loaded by read `k` after an event that leaves it in place. */
  lemma LoadedByExtends(s0: State, events: seq<Event>, k: nat)
    requires events != [] && k < |events| - 1 && LoadedBy(s0, events[..|events| - 1], k)
    requires var s, s' := Run(s0, events[..|events| - 1]), Run(s0, events);
             s'.cache == s.cache && s'.cacheLoadedAt == s.cacheLoadedAt && s'.now >= s.now
    requires events[|events| - 1].Update? ==> events[|events| - 1].key !in Run(s0, events[..|events| - 1]).db
    ensures LoadedBy(s0, events, k)
  {
    var front := events[..|events| - 1];
    assert front[..k] == events[..k] && front[..k + 1] == events[..k + 1];
    NoUpdateExtends(s0, events, k);
  }

  lemma NoUpdateExtends(s0: State, events: seq<Event>, k: nat)
    requires events != [] && NoUpdateSince(s0, events[..|events| - 1], k)
    requires events[|events| - 1].Update? ==> events[|events| - 1].key !in Run(s0, events[..|events| - 1]).db
    ensures NoUpdateSince(s0, events, k)
  {
    var front := events[..|events| - 1];
    forall j | k <= j < |events| && events[j].Update? ensures events[j].key !in Run(s0, events[..j]).db {
      if j < |front| {
        assert front[..j] == events[..j] && front[j] == events[j];
      }
    }
  }

  /** A read that finds the cache missing or stale loads it. */
  lemma LoadingRead(s0: State, events: seq<Event>)
    requires events != [] && events[|events| - 1].Get? && Stale(Run(s0, events[..|events| - 1]))
    ensures LoadedBy(s0, events, |events| - 1)
  {
    assert events[..|events|] == events;
  }

  lemma {:induction false} CacheIsExplained(s0: State, events: seq<Event>)
    requires s0.cache.None?
    ensures Run(s0, events).cache.Some? ==> exists k: nat :: k < |events| && LoadedBy(s0, events, k)
  {
    if events != [] {
      var n := |events| - 1;
      CacheIsExplained(s0, events[..n]);
      var s := Run(s0, events[..n]);
      var e := events[n];
      if e.Get? && Stale(s) {
        LoadingRead(s0, events);
      } else if Run(s0, events).cache.Some? {
        var k: nat :| k < n && LoadedBy(s0, events[..n], k);
        LoadedByExtends(s0, events, k);
      }
    }
  }

  /** In every serial run of a process, a read returns the table merged over the defaults (or the
      defaults alone, if that load failed) as some load saw it: the read's own, or that of an earlier
      read `k` which finished at most five minutes before. Either found the cache missing or stale, and
      no update this process completed is later. */
  lemma ReadIsFresh(s0: State, events: seq<Event>, key: string, ok: bool)
    requires s0.cache.None?
    ensures exists k: nat, loadOk: bool ::
              && k <= |events|
              && GetValue(Run(s0, events), key, ok) == Lookup(Loaded(Run(s0, events[..k]).db, loadOk), key)
              && NoUpdateSince(s0, events, k)
              && Stale(Run(s0, events[..k]))
              && (k == |events| ==> loadOk == ok)
              && (k < |events| ==> events[k].Get? && loadOk == events[k].ok)
              && (k < |events| ==> Run(s0, events).now - Run(s0, events[..k + 1]).now <= 300_000)
  {
    var s := Run(s0, events);
    if Stale(s) {
      assert events[..|events|] == events;
      assert GetValue(s, key, ok) == Lookup(Loaded(Run(s0, events[..|events|]).db, ok), key);
    } else {
      CacheIsExplained(s0, events);
      var k: nat :| k < |events| && LoadedBy(s0, events, k);
      assert GetValue(s, key, ok) == Lookup(Loaded(Run(s0, events[..k]).db, events[k].ok), key);
    }
  }

  /** A read right after a completed update sees it, unless its own load fails. */
  lemma UpdateIsSeen(s: State, key: string, value: string)
    requires key in s.db
    ensures GetValue(Next(s, Update(key, value)), key, true) == value
    ensures forall other :: other != key ==>
              GetValue(Next(s, Update(key, value)), other, true) == Lookup(Loaded(s.db, true), other)
  {
  }

  /** What a key reads as when its load succeeds: its row, else its default, else zero. */
  lemma FreshValue(s: State, key: string)
    requires Stale(s)
    ensures key in s.db ==> GetValue(s, key, true) == s.db[key]
    ensures key !in s.db && key in DEFAULTS ==> GetValue(s, key, true) == DEFAULTS[key] == GetValue(s, key, false)
    ensures key !in s.db && key !in DEFAULTS ==> GetValue(s, key, true) == "0"
  {
  }

  /** The event is an update that takes effect. */
  predicate Updates(s: State, e: Event) {
    e.Update? && e.key in s.db
  }

  /** Until five minutes have passed since a load, reads are served from it: whatever others write to the
      table, and however often the process reads, the cache stays unless this process updates. */
  lemma {:induction false} ServedFromCache(s: State, events: seq<Event>)
    requires s.cache.Some? && Run(s, events).now <= s.cacheLoadedAt + 300_000
    requires forall j :: 0 <= j < |events| ==> !Updates(Run(s, events[..j]), events[j])
    ensures Run(s, events).cache == s.cache && Run(s, events).cacheLoadedAt == s.cacheLoadedAt
    ensures !Stale(Run(s, events))
  {
    if events != [] {
      var n := |events| - 1;
      var front := events[..n];
      ClockAdvances(Run(s, front), events[n]);
      forall j | 0 <= j < n ensures !Updates(Run(s, front[..j]), front[j]) {
        assert front[..j] == events[..j] && !Updates(Run(s, events[..j]), events[j]);
      }
      ServedFromCache(s, front);
      assert !Updates(Run(s, events[..n]), events[n]);
    }
  }

  lemma ClockAdvances(s: State, e: Event)
    ensures s.now <= Next(s, e).now
  {
  }

  /** Adds the defaults for the keys the table lacks. */
  method MergeMissing(rows: Table, defaults: Table) returns (merged: Table)
    ensures merged == defaults + rows
  {
    merged := rows;
    var pending := defaults.Keys;
    while pending != {}
      invariant pending <= defaults.Keys
      invariant merged.Keys == rows.Keys + (defaults.Keys - pending)
      invariant forall k :: k in merged ==> merged[k] == if k in rows then rows[k] else defaults[k]
      decreases |pending|
    {
      var k :| k in pending;
      if k !in merged {
        merged := merged[k := defaults[k]];
      }
      pending := pending - {k};
    }
  }

  /** The module variables, changed in place. The table is what the query returns. */
  class ConfigCache {
    var cache: Option<Table>
    var cacheLoadedAt: int

    constructor ()
      ensures cache == None && cacheLoadedAt == 0
    {
      cache, cacheLoadedAt := None, 0;
    }

    /** `rows` is None when the query throws; `done` is the clock when it has returned. */
    method LoadRiskConfig(rows: Option<Table>, done: int) returns (loaded: Table)
      modifies this
      ensures loaded == (match rows case Some(db) => Loaded(db, true) case None => Loaded(map[], false))
      ensures cache == Some(loaded) && cacheLoadedAt == done
    {
      if rows.None? {
        loaded := DEFAULTS;
      } else {
        loaded := MergeMissing(rows.value, DEFAULTS);
      }
      cache, cacheLoadedAt := Some(loaded), done;
    }

    method GetRiskConfigValue(key: string, now: int, db: Table, ok: bool, took: nat) returns (value: string)
      modifies this
      ensures value == GetValue(State(now, db, old(cache), old(cacheLoadedAt)), key, ok)
      ensures var s := AfterGet(State(now, db, old(cache), old(cacheLoadedAt)), ok, took);
              cache == s.cache && cacheLoadedAt == s.cacheLoadedAt
    {
      if cache.None? || now - cacheLoadedAt > CACHE_TTL_MS {
        var ignored := LoadRiskConfig(if ok then Some(db) else None, now + took);
      }
      var loaded := cache.value;
      value := if key in loaded then loaded[key] else if key in DEFAULTS then DEFAULTS[key] else "0";
    }

    method InvalidateRiskConfigCache()
      modifies this
      ensures cache == None && cacheLoadedAt == 0
    {
      cache, cacheLoadedAt := None, 0;
    }

    /** The admin update: refused for an unknown key, otherwise written and the cache dropped. */
    method UpdateRiskConfig(db: Table, key: string, value: string) returns (db': Option<Table>)
      modifies this
      ensures var s := Next(State(0, db, old(cache), old(cacheLoadedAt)), Update(key, value));
              && cache == s.cache && cacheLoadedAt == s.cacheLoadedAt
              && (db'.None? <==> key !in db)
              && (db'.Some? ==> db'.value == s.db)
    {
      if key !in db { return None; }
      db' := Some(db[key := value]);
      InvalidateRiskConfigCache();
    }
  }
}
