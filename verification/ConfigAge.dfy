/** How old a configuration value can be when calls interleave (api/src/lib/appConfig.ts): the cache counts from the end of
    the read, so the length of the read comes on top of the time to live. */
module ConfigAge {
  import opened Wrappers
  import opened ConfigRaces

  /** The states a run goes through. */
  ghost predicate IsRun(ss: seq<State>, es: seq<Step>) {
    && |ss| == |es| + 1 && Initial(ss[0])
    && forall i :: 0 <= i < |es| ==> Enabled(ss[i], es[i]) && ss[i + 1] == Apply(ss[i], es[i])
  }

  /** Every run goes through some. */
  lemma {:induction false} StatesOf(s: State, es: seq<Step>) returns (ss: seq<State>)
    requires ValidRun(s, es)
    ensures |ss| == |es| + 1 && ss[0] == s && ss[|es|] == Run(s, es)
    ensures forall i :: 0 <= i < |es| ==> Enabled(ss[i], es[i]) && ss[i + 1] == Apply(ss[i], es[i])
    decreases |es|
  {
    hide Enabled; hide Apply;
    if es == [] {
      ss := [s];
    } else {
      var rest := StatesOf(Apply(s, es[0]), es[1..]);
      ss := [s] + rest;
      forall i | 0 <= i < |es| ensures Enabled(ss[i], es[i]) && ss[i + 1] == Apply(ss[i], es[i]) {
        if i > 0 { assert ss[i] == rest[i - 1] && es[i] == es[1..][i - 1] && ss[i + 1] == rest[i]; }
      }
    }
  }

  /** At step `i` call `c` reads this value from the row of the key. */
  ghost predicate ReadsRow(ss: seq<State>, es: seq<Step>, i: nat, c: nat, key: string, value: Value)
    requires |ss| == |es| + 1
  {
    i < |es| && es[i] == GetRead(c) && c in ss[i].calls && ss[i].calls[c] == Missed(key) && key in ss[i].rows && ss[i].rows[key] == value
  }

  /** At step `j` it puts what it read at step `i` into the cache. */
  ghost predicate Stores(ss: seq<State>, es: seq<Step>, i: nat, j: nat, c: nat, key: string, value: Value)
    requires |ss| == |es| + 1
  {
    ReadsRow(ss, es, i, c, key, value) && i < j < |es| && es[j] == GetStore(c)
  }

  ghost predicate HasRead(ss: seq<State>, es: seq<Step>, n: nat, c: nat, key: string, value: Value)
    requires |ss| == |es| + 1
  {
    exists i :: 0 <= i < n && ReadsRow(ss, es, i, c, key, value)
  }

  ghost predicate HasStore(ss: seq<State>, es: seq<Step>, n: nat, key: string, value: Value, at: int)
    requires |ss| == |es| + 1
  {
    exists i: nat, j: nat, c: nat :: j < n && Stores(ss, es, i, j, c, key, value) && ss[j].now == at
  }

  /** Whatever calls hold and the cache holds was read and stored earlier in the run. */
  ghost predicate Backed(ss: seq<State>, es: seq<Step>, n: nat)
    requires |ss| == |es| + 1 && n <= |es|
  {
    && (forall c :: c in ss[n].calls && ss[n].calls[c].Fetched? ==> HasRead(ss, es, n, c, ss[n].calls[c].key, ss[n].calls[c].value))
    && (forall key :: key in ss[n].cache ==> HasStore(ss, es, n, key, ss[n].cache[key].value, ss[n].cache[key].fetchedAt))
  }

  lemma ReadLater(ss: seq<State>, es: seq<Step>, n: nat, c: nat, key: string, value: Value)
    requires |ss| == |es| + 1 && HasRead(ss, es, n, c, key, value)
    ensures HasRead(ss, es, n + 1, c, key, value)
  {
  }

  lemma StoreLater(ss: seq<State>, es: seq<Step>, n: nat, key: string, value: Value, at: int)
    requires |ss| == |es| + 1 && HasStore(ss, es, n, key, value, at)
    ensures HasStore(ss, es, n + 1, key, value, at)
  {
    hide Stores;
  }

  /** What a step changes in the calls that have read, and in the cache. */
  lemma FetchedNow(s: State, e: Step, c: nat)
    requires Enabled(s, e) && c in Apply(s, e).calls && Apply(s, e).calls[c].Fetched?
    ensures (c in s.calls && s.calls[c] == Apply(s, e).calls[c])
            || (e == GetRead(c) && s.calls[c].Missed? && Apply(s, e).calls[c] == Fetched(s.calls[c].key, s.rows[s.calls[c].key]))
  {
  }

  lemma CachedNow(s: State, e: Step, key: string)
    requires Enabled(s, e) && key in Apply(s, e).cache
    ensures (key in s.cache && s.cache[key] == Apply(s, e).cache[key])
            || (e.GetStore? && s.calls[e.c].key == key && Apply(s, e).cache[key] == Entry(s.calls[e.c].value, s.now))
  {
  }

  lemma StoredNow(ss: seq<State>, es: seq<Step>, n: nat, c: nat, key: string, value: Value)
    requires |ss| == |es| + 1 && n < |es| && es[n] == GetStore(c) && HasRead(ss, es, n, c, key, value)
    ensures HasStore(ss, es, n + 1, key, value, ss[n].now)
  {
    var i :| 0 <= i < n && ReadsRow(ss, es, i, c, key, value);
    assert Stores(ss, es, i, n, c, key, value);
  }

  lemma {:induction false} AllBacked(ss: seq<State>, es: seq<Step>, n: nat)
    requires IsRun(ss, es) && n <= |es|
    ensures Backed(ss, es, n)
  {
    hide HasRead; hide HasStore;
    if n > 0 {
      var s, e, t := ss[n - 1], es[n - 1], ss[n];
      AllBacked(ss, es, n - 1);
      assert Enabled(s, e) && t == Apply(s, e);
      hide Apply; hide IsRun;
      forall c | c in t.calls && t.calls[c].Fetched? ensures HasRead(ss, es, n, c, t.calls[c].key, t.calls[c].value) {
        FetchedNow(s, e, c);
        if c in s.calls && s.calls[c] == t.calls[c] {
          ReadLater(ss, es, n - 1, c, t.calls[c].key, t.calls[c].value);
        } else {
          ReadNow(ss, es, n - 1, c, t.calls[c].key, t.calls[c].value);
        }
      }
      forall key | key in t.cache ensures HasStore(ss, es, n, key, t.cache[key].value, t.cache[key].fetchedAt) {
        CachedNow(s, e, key);
        if key in s.cache && s.cache[key] == t.cache[key] {
          StoreLater(ss, es, n - 1, key, t.cache[key].value, t.cache[key].fetchedAt);
        } else {
          StoredNow(ss, es, n - 1, e.c, key, t.cache[key].value);
        }
      }
    }
  }

  lemma ReadNow(ss: seq<State>, es: seq<Step>, n: nat, c: nat, key: string, value: Value)
    requires |ss| == |es| + 1 && n < |es| && ReadsRow(ss, es, n, c, key, value)
    ensures HasRead(ss, es, n + 1, c, key, value)
  {
  }

  /** In every interleaving, whatever a `get` returns was in the row when some call `c` read it at step `i`: the returning
      call itself, or one that stored it at step `j`, and then its age is below the time to live plus the length of that
      call's read. */
  lemma AgeOfReturned(ss: seq<State>, es: seq<Step>, n: nat) returns (i: nat, j: nat, c: nat)
    requires IsRun(ss, es) && n < |es| && (es[n].GetHit? || es[n].GetStore?)
    ensures var r := ss[n + 1].returned[|ss[n].returned|];
            && ss[n + 1].returned == ss[n].returned + [r] && j <= n && Stores(ss, es, i, j, c, r.key, r.value)
            && (j == n || ss[n].now - ss[i].now < ss[n].ttl + (ss[j].now - ss[i].now))
  {
    var s, e := ss[n], es[n];
    assert Enabled(s, e) && ss[n + 1] == Apply(s, e);
    AllBacked(ss, es, n);
    hide IsRun; hide Stores; hide ReadsRow;
    if e.GetHit? {
      assert HasStore(ss, es, n, e.key, s.cache[e.key].value, s.cache[e.key].fetchedAt);
      i, j, c :| j < n && Stores(ss, es, i, j, c, e.key, s.cache[e.key].value) && ss[j].now == s.cache[e.key].fetchedAt;
    } else {
      StoredNow(ss, es, n, e.c, s.calls[e.c].key, s.calls[e.c].value);
      c, j := e.c, n;
      assert HasRead(ss, es, n, c, s.calls[c].key, s.calls[c].value);
      i :| 0 <= i < n && ReadsRow(ss, es, i, c, s.calls[c].key, s.calls[c].value);
      assert Stores(ss, es, i, j, c, s.calls[c].key, s.calls[c].value) by { StoresNow(ss, es, i, n, c, s.calls[c].key, s.calls[c].value); }
    }
  }

  lemma StoresNow(ss: seq<State>, es: seq<Step>, i: nat, j: nat, c: nat, key: string, value: Value)
    requires |ss| == |es| + 1 && ReadsRow(ss, es, i, c, key, value) && i < j < |es| && es[j] == GetStore(c)
    ensures Stores(ss, es, i, j, c, key, value)
  {
  }
}
