/** The in-process cache in front of app_config_adapters (api/src/lib/appConfig.ts), one call at a time. */
module ConfigCache {
  import opened Wrappers
  import opened ConfigCasts

  datatype Entry = Entry(raw: Option<Raw>, fetchedAt: int)

  /** The table's rows by full key, and since when they have been these. */
  datatype Snapshot = Snapshot(at: int, table: map<string, Option<string>>)

  function FullKey(prefix: string, key: string): string { prefix + "_" + key }

  /** The key under a prefix can be read back from behind the underscore. */
  lemma FullKeysDiffer(prefix: string, a: string, b: string)
    ensures FullKey(prefix, a) == FullKey(prefix, b) <==> a == b
    ensures var full := FullKey(prefix, a); |prefix| < |full| && full[|prefix|] == '_' && full[|prefix| + 1..] == a
  {
    assert a == FullKey(prefix, a)[|prefix| + 1..] && b == FullKey(prefix, b)[|prefix| + 1..];
  }

  /** `fetchRaw`: the stored value, or the default when there is no row or its value is null. */
  function Fetched(table: map<string, Option<string>>, full: string, default_: Option<Raw>): Option<Raw> {
    if full in table && table[full].Some? then Some(RawText(table[full].value)) else default_
  }

  /** A row whose value is null counts as no row, and neither hides the default; any other row does. */
  lemma NullIsNoRow(table: map<string, Option<string>>, full: string, default_: Option<Raw>, value: string)
    ensures Fetched(table[full := None], full, default_) == default_ == Fetched(table - {full}, full, default_)
    ensures Fetched(table[full := Some(value)], full, default_) == Some(RawText(value))
  {
  }

  ghost predicate HistoryOk(log: seq<Snapshot>, now: int) {
    && log != [] && log[|log| - 1].at <= now
    && forall i, j :: 0 <= i < j < |log| ==> log[i].at <= log[j].at
  }

  /** The i-th state of the table was in force at time `t`. */
  predicate InForce(log: seq<Snapshot>, now: int, i: nat, t: int)
    requires i < |log|
  {
    log[i].at <= t && t <= if i + 1 < |log| then log[i + 1].at else now
  }

  /** A read of the full key at time `t` could have given this value. */
  ghost predicate HeldAt(log: seq<Snapshot>, now: int, full: string, default_: Option<Raw>, raw: Option<Raw>, t: int) {
    exists i :: 0 <= i < |log| && InForce(log, now, i, t) && Fetched(log[i].table, full, default_) == raw
  }

  lemma HeldStays(log: seq<Snapshot>, now: int, later: int, next: Snapshot, full: string, default_: Option<Raw>, raw: Option<Raw>, t: int)
    requires HistoryOk(log, now) && HeldAt(log, now, full, default_, raw, t) && now <= later && next.at == later
    ensures HeldAt(log, later, full, default_, raw, t) && HeldAt(log + [next], later, full, default_, raw, t)
  {
    var i :| 0 <= i < |log| && InForce(log, now, i, t) && Fetched(log[i].table, full, default_) == raw;
    var longer := log + [next];
    assert longer[i] == log[i] && (i + 1 < |log| ==> longer[i + 1] == log[i + 1]);
    assert InForce(log, later, i, t) && InForce(longer, later, i, t);
  }

  lemma HeldNow(log: seq<Snapshot>, now: int, full: string, default_: Option<Raw>)
    requires HistoryOk(log, now)
    ensures HeldAt(log, now, full, default_, Fetched(log[|log| - 1].table, full, default_), now)
  {
    assert InForce(log, now, |log| - 1, now);
  }

  class AppConfigService {
    const types: map<string, ConfigType>
    const defaults: map<string, Raw>
    const prefix: string
    const ttlMs: int
    var cache: map<string, Entry>
    var table: map<string, Option<string>>
    var now: int
    ghost var log: seq<Snapshot>

    function Default(key: string): Option<Raw> { if key in defaults then Some(defaults[key]) else None }

    function Current(key: string): Option<Raw>
      reads `table
    {
      Fetched(table, FullKey(prefix, key), Default(key))
    }

    /** What a caller sees of a raw value. */
    function Shown(key: string, raw: Option<Raw>): Output
      requires key in types
    {
      if raw.None? then NullValue else Coerce(key, types[key], raw.value)
    }

    ghost predicate Held(key: string, raw: Option<Raw>, t: int)
      reads `log, `now
    {
      HeldAt(log, now, FullKey(prefix, key), Default(key), raw, t)
    }

    /** Every cached value is what the table held when it was fetched. */
    ghost predicate Valid()
      reads this
    {
      && HistoryOk(log, now) && log[|log| - 1].table == table
      && forall key :: key in cache ==> cache[key].fetchedAt <= now && Held(key, cache[key].raw, cache[key].fetchedAt)
    }

    constructor (types: map<string, ConfigType>, defaults: map<string, Raw>, prefix: string, ttlMs: int,
                 table: map<string, Option<string>>, now: int)
      ensures Valid() && cache == map[] && this.types == types && this.defaults == defaults && this.table == table && this.now == now
      ensures this.prefix == prefix && this.ttlMs == ttlMs
    {
      this.types, this.defaults, this.prefix, this.ttlMs := types, defaults, prefix, ttlMs;
      this.table, this.now, cache := table, now, map[];
      log := [Snapshot(now, table)];
    }

    method Dirty(key: string)
      requires Valid()
      modifies `cache
      ensures Valid() && cache == old(cache) - {key}
    {
      cache := cache - {key};
    }

    /** A value less than `ttlMs` old comes from the cache; anything else from the table, which is then remembered. */
    method Get(key: string) returns (out: Output)
      requires Valid()
      modifies `cache
      ensures Valid()
      ensures key !in types ==> out == NullValue && cache == old(cache)
      ensures key in types ==>
                exists raw, t :: Held(key, raw, t) && (t == now || t <= now < t + ttlMs) && out == Shown(key, raw)
      ensures key in types && !(key in old(cache) && now - old(cache)[key].fetchedAt < ttlMs) ==>
                out == Shown(key, Current(key)) && cache == old(cache)[key := Entry(Current(key), now)]
      ensures key in types && key in old(cache) && now - old(cache)[key].fetchedAt < ttlMs ==> cache == old(cache)
    {
      if key !in types { return NullValue; }
      var isFresh := key in cache && now - cache[key].fetchedAt < ttlMs;
      if !isFresh { Fetch(key); }
      assert Held(key, cache[key].raw, cache[key].fetchedAt);
      out := Shown(key, cache[key].raw);
    }

    /** Reads the table and remembers what it gave. */
    method Fetch(key: string)
      requires Valid()
      modifies `cache
      ensures Valid() && cache == old(cache)[key := Entry(Current(key), now)]
    {
      HeldNow(log, now, FullKey(prefix, key), Default(key));
      cache := cache[key := Entry(Current(key), now)];
    }

    /** Casts, stores and forgets the cached entry; an unknown key throws. */
    method Set(key: string, value: Input) returns (known: bool)
      requires Valid()
      modifies `cache, `table, `log
      ensures Valid() && (known <==> key in types)
      ensures !known ==> cache == old(cache) && table == old(table)
      ensures known ==> table == old(table)[FullKey(prefix, key) := Some(CastForWrite(types[key], value))]
      ensures known ==> cache == old(cache) - {key}
      ensures known ==> Shown(key, Current(key)) == ReadBack(key, types[key], value)
      ensures forall other :: other != key ==> Current(other) == old(Current(other))
    {
      if key !in types { return false; }
      var stored := CastForWrite(types[key], value);
      forall other ensures other != key ==> FullKey(prefix, other) != FullKey(prefix, key) { FullKeysDiffer(prefix, other, key); }
      WriteRow(FullKey(prefix, key), Some(Some(stored)));
      Dirty(key);
      known := true;
    }

    /** A write to the table; by another process when not part of `Set`. */
    method WriteRow(full: string, value: Option<Option<string>>)
      requires Valid()
      modifies `table, `log
      ensures Valid() && table == if value.Some? then old(table)[full := value.value] else old(table) - {full}
    {
      var written := if value.Some? then table[full := value.value] else table - {full};
      forall key | key in cache
        ensures HeldAt(log + [Snapshot(now, written)], now, FullKey(prefix, key), Default(key), cache[key].raw, cache[key].fetchedAt)
      {
        HeldStays(log, now, now, Snapshot(now, written), FullKey(prefix, key), Default(key), cache[key].raw, cache[key].fetchedAt);
      }
      table := written;
      log := log + [Snapshot(now, written)];
    }

    method Tick(to: int)
      requires Valid() && now <= to
      modifies `now
      ensures Valid() && now == to
    {
      forall key | key in cache
        ensures HeldAt(log, to, FullKey(prefix, key), Default(key), cache[key].raw, cache[key].fetchedAt)
      {
        HeldStays(log, now, to, Snapshot(to, table), FullKey(prefix, key), Default(key), cache[key].raw, cache[key].fetchedAt);
      }
      now := to;
    }
  }
}
