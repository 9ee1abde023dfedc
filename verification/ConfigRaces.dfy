/** Concurrent `get` and `set` calls of api/src/lib/appConfig.ts: each await is a point where other calls run. */
module ConfigRaces {
  import opened Wrappers
  import ConfigCasts

  /** A raw value, or none when there is neither row nor default. */
  type Value = Option<ConfigCasts.Raw>

  /** `rows` is what a read of the table gives per key, defaults included. */
  datatype Entry = Entry(value: Value, fetchedAt: int)

  datatype Call =
    | Missed(key: string)
    | Fetched(key: string, value: Value)
    | Writing(key: string, value: Value)
    | Written(key: string)

  datatype Returned = Returned(c: nat, key: string, value: Value)

  datatype State = State(ttl: int, now: int, rows: map<string, Value>, cache: map<string, Entry>, calls: map<nat, Call>,
                         returned: seq<Returned>)

  datatype Step =
    | Tick(to: int)
    | Outside(key: string, value: Value)
    | GetHit(c: nat, key: string)
    | GetMiss(c: nat, key: string)
    | GetRead(c: nat)
    | GetStore(c: nat)
    | SetStart(c: nat, key: string, value: Value)
    | SetWrite(c: nat)
    | SetDirty(c: nat)

  predicate Fresh(s: State, key: string) { key in s.cache && s.now - s.cache[key].fetchedAt < s.ttl }

  predicate Enabled(s: State, e: Step) {
    match e
    case Tick(to) => s.now <= to
    case Outside(key, _) => key in s.rows
    case GetHit(c, key) => c !in s.calls && Fresh(s, key)
    case GetMiss(c, key) => c !in s.calls && key in s.rows && !Fresh(s, key)
    case GetRead(c) => c in s.calls && s.calls[c].Missed? && s.calls[c].key in s.rows
    case GetStore(c) => c in s.calls && s.calls[c].Fetched?
    case SetStart(c, key, _) => c !in s.calls && key in s.rows
    case SetWrite(c) => c in s.calls && s.calls[c].Writing?
    case SetDirty(c) => c in s.calls && s.calls[c].Written?
  }

  function Apply(s: State, e: Step): State
    requires Enabled(s, e)
  {
    match e
    case Tick(to) => s.(now := to)
    case Outside(key, value) => s.(rows := s.rows[key := value])
    case GetHit(c, key) => s.(returned := s.returned + [Returned(c, key, s.cache[key].value)])
    case GetMiss(c, key) => s.(calls := s.calls[c := Missed(key)])
    case GetRead(c) => s.(calls := s.calls[c := Fetched(s.calls[c].key, s.rows[s.calls[c].key])])
    case GetStore(c) =>
      var call := s.calls[c];
      s.(calls := s.calls - {c}, cache := s.cache[call.key := Entry(call.value, s.now)],
         returned := s.returned + [Returned(c, call.key, call.value)])
    case SetStart(c, key, value) => s.(calls := s.calls[c := Writing(key, value)])
    case SetWrite(c) => s.(calls := s.calls[c := Written(s.calls[c].key)], rows := s.rows[s.calls[c].key := s.calls[c].value])
    case SetDirty(c) => s.(calls := s.calls - {c}, cache := s.cache - {s.calls[c].key})
  }

  ghost predicate ValidRun(s: State, es: seq<Step>)
    decreases |es|
  {
    es == [] || (Enabled(s, es[0]) && ValidRun(Apply(s, es[0]), es[1..]))
  }

  ghost function Run(s: State, es: seq<Step>): State
    requires ValidRun(s, es)
    decreases |es|
  {
    if es == [] then s else Run(Apply(s, es[0]), es[1..])
  }

  /** The step writes this key's row. */
  predicate Writes(s: State, e: Step, key: string)
    requires Enabled(s, e)
  {
    (e.Outside? && e.key == key) || (e.SetWrite? && s.calls[e.c].key == key)
  }

  ghost predicate Quiet(s: State, es: seq<Step>, key: string)
    requires ValidRun(s, es)
    decreases |es|
  {
    es == [] || (!Writes(s, es[0], key) && Quiet(Apply(s, es[0]), es[1..], key))
  }

  predicate Agreeing(s: State, c: nat, key: string) {
    c in s.calls && s.calls[c].Fetched? && s.calls[c].key == key ==> key in s.rows && s.calls[c].value == s.rows[key]
  }

  /** No call that has already read the row of `key` holds another value than the row has now. */
  ghost predicate NoneInFlight(s: State, key: string) {
    forall c :: Agreeing(s, c, key)
  }

  /** What a return after `s` must be to agree, for calls that start after `s`. */
  ghost predicate GoodReturns(s: State, key: string, returned: seq<Returned>) {
    forall i {:trigger returned[i]} :: 0 <= i < |returned| && returned[i].key == key && returned[i].c !in s.calls ==>
                                         key in s.rows && returned[i].value == s.rows[key]
  }

  /** From here on every call that starts returns the row of the key, however calls interleave, until the row is
      written again. */
  ghost predicate LaterReadsAgree(s: State, key: string) {
    forall es :: ValidRun(s, es) && Quiet(s, es, key) ==>
      |s.returned| <= |Run(s, es).returned| && GoodReturns(s, key, Run(s, es).returned[|s.returned|..])
  }

  /** What a quiet run from `s` keeps. */
  ghost predicate Agrees(s: State, t: State, key: string) {
    && key in s.rows && key in t.rows && t.rows[key] == s.rows[key] && t.ttl == s.ttl
    && (forall c :: c !in s.calls ==> Agreeing(t, c, key))
    && (s.ttl <= 0 || (NoneInFlight(t, key) && (key in t.cache ==> t.cache[key].value == t.rows[key])))
    && |s.returned| <= |t.returned| && GoodReturns(s, key, t.returned[|s.returned|..]) && Ordered(t)
  }

  ghost predicate Ordered(s: State) {
    && (forall key :: key in s.cache ==> s.cache[key].fetchedAt <= s.now)
    && (forall c :: c in s.calls ==> s.calls[c].key in s.rows)
  }

  predicate Initial(s: State) { s.cache == map[] && s.calls == map[] && s.returned == [] }

  lemma {:induction false} RunKeepsOrdered(s: State, es: seq<Step>)
    requires ValidRun(s, es) && Ordered(s)
    ensures Ordered(Run(s, es))
    decreases |es|
  {
    if es != [] { RunKeepsOrdered(Apply(s, es[0]), es[1..]); }
  }

  lemma StepReturns(t: State, e: Step)
    requires Enabled(t, e)
    ensures Apply(t, e).returned == t.returned
            || (|Apply(t, e).returned| == |t.returned| + 1 && Apply(t, e).returned[..|t.returned|] == t.returned
                && ((e.GetHit? && Fresh(t, e.key)) || e.GetStore?))
  {
  }

  lemma StepAgrees(s: State, t: State, e: Step, key: string)
    requires Enabled(t, e) && Agrees(s, t, key) && !Writes(t, e, key)
    ensures Agrees(s, Apply(t, e), key)
  {
    var u := Apply(t, e);
    forall c | Agreeing(t, c, key) ensures Agreeing(u, c, key) { }
    StepReturns(t, e);
    if e.GetStore? && t.ttl > 0 { assert Agreeing(t, e.c, key); }
    forall i | |s.returned| <= i < |u.returned| && u.returned[i].key == key && u.returned[i].c !in s.calls
      ensures u.returned[i].value == s.rows[key]
    {
      if i < |t.returned| {
        assert t.returned[|s.returned|..][i - |s.returned|] == t.returned[i] && u.returned[i] == u.returned[..|t.returned|][i];
      } else if e.GetStore? && e.c !in s.calls {
        assert Agreeing(t, e.c, key);
      }
    }
  }

  lemma {:induction false} RunAgrees(s: State, t: State, es: seq<Step>, key: string)
    requires ValidRun(t, es) && Agrees(s, t, key) && Quiet(t, es, key)
    ensures Agrees(s, Run(t, es), key)
    decreases |es|
  {
    if es != [] {
      StepAgrees(s, t, es[0], key);
      hide Agrees; hide Apply; hide Enabled; hide Writes;
      RunAgrees(s, Apply(t, es[0]), es[1..], key);
    }
  }

  /** When a `set` has finished, every call that starts later returns its row exactly if nothing is cached at all or no
      call that read the row earlier is still on its way with another value. */
  lemma AfterSetReadsAgreeIff(s0: State, run: seq<Step>, c: nat)
    requires Initial(s0) && ValidRun(s0, run) && Enabled(Run(s0, run), SetDirty(c))
    ensures var s := Run(s0, run); var t, key := Apply(s, SetDirty(c)), s.calls[c].key;
            LaterReadsAgree(t, key) <==> t.ttl <= 0 || NoneInFlight(t, key)
  {
    var s := Run(s0, run);
    RunKeepsOrdered(s0, run);
    var t, key := Apply(s, SetDirty(c)), s.calls[c].key;
    if t.ttl <= 0 || NoneInFlight(t, key) {
      forall es | ValidRun(t, es) && Quiet(t, es, key)
        ensures |t.returned| <= |Run(t, es).returned| && GoodReturns(t, key, Run(t, es).returned[|t.returned|..])
      {
        RunAgrees(t, t, es, key);
      }
    } else {
      var d :| !Agreeing(t, d, key);
      var later := Unused(t.calls.Keys);
      StaleReadAfterSet(t, key, d, later);
      var es := [GetStore(d), GetHit(later, key)];
      assert Run(t, es).returned[|t.returned|..][1] == Returned(later, key, t.calls[d].value);
    }
  }

  /** A call id not in use. */
  lemma Unused(used: set<nat>) returns (c: nat)
    ensures c !in used
  {
    if used == {} { return 0; }
    var a :| a in used;
    c := a + 1;
    var left := used - {a};
    while left != {}
      invariant left <= used && forall x :: x in used ==> x < c || x in left
      decreases |left|
    {
      var x :| x in left;
      if c <= x { c := x + 1; }
      left := left - {x};
    }
  }

  /** Such a late store also poisons the cache: calls that start afterwards return the old value until it expires. */
  lemma StaleReadAfterSet(s: State, key: string, c: nat, later: nat)
    requires key in s.rows && c in s.calls && s.calls[c].Fetched? && s.calls[c].key == key && s.calls[c].value != s.rows[key]
    requires later !in s.calls && s.ttl > 0
    ensures var es := [GetStore(c), GetHit(later, key)];
            && ValidRun(s, es) && Quiet(s, es, key)
            && Run(s, es).returned == s.returned + [Returned(c, key, s.calls[c].value), Returned(later, key, s.calls[c].value)]
            && Run(s, es).rows == s.rows
  {
    var es := [GetStore(c), GetHit(later, key)];
    var t := Apply(s, es[0]);
    var u := Apply(t, es[1]);
    assert es[1..] == [GetHit(later, key)] && es[1..][1..] == [];
    assert ValidRun(u, []) && Quiet(u, [], key) && Run(u, []) == u;
    assert ValidRun(t, es[1..]) && Quiet(t, es[1..], key) && Run(t, es[1..]) == u;
  }

  /** The state in which a `get` has read the row, and a `set` has since written another value and forgotten the entry. */
  function Overtaken(s: State, key: string, value: Value): State
    requires Initial(s) && key in s.rows
  {
    s.(rows := s.rows[key := value], calls := map[0 := Fetched(key, s.rows[key])])
  }

  /** From every initial state with another value in the row, a run reaches the end of a `set` while an earlier read is
      still on its way, and from there a call that starts later returns the old value. */
  lemma StaleReadIsReachable(s: State, key: string, value: Value)
    requires Initial(s) && key in s.rows && s.rows[key] != value && s.ttl > 0
    ensures var run := [GetMiss(0, key), GetRead(0), SetStart(1, key, value), SetWrite(1)];
            var t := Overtaken(s, key, value);
            && ValidRun(s, run) && Enabled(Run(s, run), SetDirty(1)) && Apply(Run(s, run), SetDirty(1)) == t
            && !NoneInFlight(t, key) && !LaterReadsAgree(t, key)
            && ValidRun(t, [GetStore(0), GetHit(2, key)])
            && Run(t, [GetStore(0), GetHit(2, key)]).returned == [Returned(0, key, s.rows[key]), Returned(2, key, s.rows[key])]
            && Run(t, [GetStore(0), GetHit(2, key)]).rows == t.rows
  {
    var run := [GetMiss(0, key), GetRead(0), SetStart(1, key, value), SetWrite(1)];
    var t := Overtaken(s, key, value);
    ReachOvertaken(s, key, value);
    AfterSetReadsAgreeIff(s, run, 1);
    assert !Agreeing(t, 0, key);
    StaleReadAfterSet(t, key, 0, 2);
  }

  lemma ReachOvertaken(s: State, key: string, value: Value)
    requires Initial(s) && key in s.rows && s.ttl > 0
    ensures var run := [GetMiss(0, key), GetRead(0), SetStart(1, key, value), SetWrite(1)];
            && ValidRun(s, run) && 1 in Run(s, run).calls && Run(s, run).calls[1] == Written(key)
            && Apply(Run(s, run), SetDirty(1)) == Overtaken(s, key, value)
  {
    var run := [GetMiss(0, key), GetRead(0), SetStart(1, key, value), SetWrite(1)];
    OvertakenSteps(s, key, value);
    var s1 := Apply(s, run[0]);
    var s2 := Apply(s1, run[1]);
    var s3 := Apply(s2, run[2]);
    var s4 := Apply(s3, run[3]);
    assert run[3..][1..] == [] && run[2..][1..] == run[3..] && run[1..][1..] == run[2..];
    hide Apply; hide Enabled;
    assert ValidRun(s4, []) && Run(s4, []) == s4;
    assert ValidRun(s3, run[3..]) && Run(s3, run[3..]) == s4;
    assert ValidRun(s2, run[2..]) && Run(s2, run[2..]) == s4;
    assert ValidRun(s1, run[1..]) && Run(s1, run[1..]) == s4;
  }

  lemma OvertakenSteps(s: State, key: string, value: Value)
    requires Initial(s) && key in s.rows && s.ttl > 0
    ensures Enabled(s, GetMiss(0, key))
    ensures var s1 := Apply(s, GetMiss(0, key));
            && Enabled(s1, GetRead(0))
            && var s2 := Apply(s1, GetRead(0));
            && Enabled(s2, SetStart(1, key, value))
            && var s3 := Apply(s2, SetStart(1, key, value));
            && Enabled(s3, SetWrite(1))
            && var s4 := Apply(s3, SetWrite(1));
            && 1 in s4.calls && s4.calls[1] == Written(key) && Enabled(s4, SetDirty(1))
            && Apply(s4, SetDirty(1)) == Overtaken(s, key, value)
  {
    var s4 := Apply(Apply(Apply(Apply(s, GetMiss(0, key)), GetRead(0)), SetStart(1, key, value)), SetWrite(1));
    assert Apply(s4, SetDirty(1)).cache == s.cache;
    assert Apply(s4, SetDirty(1)).calls == map[0 := Fetched(key, s.rows[key])];
  }
}
