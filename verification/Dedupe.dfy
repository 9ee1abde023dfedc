/** Repair of duplicate matriculation numbers (api/scripts/dedupeMatriculationNumbers.ts). */
module Dedupe {
  import opened Wrappers

  /** `users.matriculation_number` by user id; the column is nullable. */
  type Numbers = map<nat, Option<int>>

  predicate SharesWith(n: Numbers, id: nat, j: nat) {
    id in n && j in n && n[id].Some? && n[j] == n[id]
  }

  /** Some other row with a smaller id has the same number. */
  predicate Loses(n: Numbers, id: nat) {
    exists j :: j in n && j < id && SharesWith(n, id, j)
  }

  ghost predicate DistinctNumbers(n: Numbers) {
    forall a, b :: a in n && b in n && a != b && n[a].Some? ==> n[a] != n[b]
  }

  /** The groupBy query: each number held by more than one row, once, in any order. */
  ghost predicate DuplicateGroups(n: Numbers, groups: seq<int>) {
    && (forall i, j :: 0 <= i < j < |groups| ==> groups[i] != groups[j])
    && (forall v :: v in groups <==> Duplicated(n, v))
  }

  ghost predicate Duplicated(n: Numbers, v: int) {
    exists a, b :: a in n && b in n && a != b && n[a] == Some(v) && n[b] == Some(v)
  }

  ghost predicate IsMax(n: Numbers, m: int) {
    && (forall id :: id in n && n[id].Some? ==> n[id].value <= m)
    && ((exists id :: id in n && n[id] == Some(m)) || (m == 0 && forall id :: id in n ==> n[id].None?))
  }

  /** The rows below `bound` with number `v`, in ascending id order. */
  function RowsWith(n: Numbers, v: int, bound: nat): (ids: seq<nat>)
    ensures forall i :: 0 <= i < |ids| ==> ids[i] < bound && ids[i] in n && n[ids[i]] == Some(v)
    ensures forall i, j :: 0 <= i < j < |ids| ==> ids[i] < ids[j]
    ensures forall id :: id in n && id < bound && n[id] == Some(v) ==> id in ids
  {
    if bound == 0 then []
    else RowsWith(n, v, bound - 1) + if bound - 1 in n && n[bound - 1] == Some(v) then [bound - 1] else []
  }

  /** In a group exactly the rows after the first lose. */
  lemma LosersOfGroup(n: Numbers, v: int, bound: nat)
    requires forall id :: id in n ==> id < bound
    requires Duplicated(n, v)
    ensures |RowsWith(n, v, bound)| >= 1
    ensures forall i :: 0 <= i < |RowsWith(n, v, bound)| ==> (Loses(n, RowsWith(n, v, bound)[i]) <==> i > 0)
  {
    var ids := RowsWith(n, v, bound);
    var a :| a in n && n[a] == Some(v);
    assert a in ids;
    forall i | 0 <= i < |ids| ensures Loses(n, ids[i]) <==> i > 0 {
      if i > 0 {
        assert SharesWith(n, ids[i], ids[0]);
      } else {
        assert forall j :: SharesWith(n, ids[i], j) ==> j in ids;
      }
    }
  }

  /** State of the repair: `done` rows got the numbers above `m` in order, the others keep theirs. */
  ghost predicate Repaired(n: Numbers, now: Numbers, done: seq<nat>, m: int) {
    && now.Keys == n.Keys
    && (forall i, j :: 0 <= i < j < |done| ==> done[i] != done[j])
    && (forall k :: 0 <= k < |done| ==> done[k] in n && Loses(n, done[k]) && now[done[k]] == Some(m + 1 + k))
    && (forall id :: id in n && id !in done ==> now[id] == n[id])
  }

  predicate Holds(n: Numbers, id: nat, v: int) { id in n && n[id] == Some(v) }

  lemma RepairedHolders(n: Numbers, now: Numbers, done: seq<nat>, m: int, v: int, id: nat)
    requires Repaired(n, now, done, m) && v <= m
    requires forall k :: 0 <= k < |done| ==> n[done[k]] != Some(v)
    ensures Holds(now, id, v) <==> Holds(n, id, v)
  {
    hide Loses;
    if id in done {
      var k :| 0 <= k < |done| && done[k] == id;
    }
  }

  lemma {:induction false} SameHoldersSameRows(n: Numbers, now: Numbers, v: int, bound: nat)
    requires forall id :: Holds(now, id, v) <==> Holds(n, id, v)
    ensures RowsWith(now, v, bound) == RowsWith(n, v, bound)
  {
    if bound > 0 {
      SameHoldersSameRows(n, now, v, bound - 1);
      assert Holds(now, bound - 1, v) <==> Holds(n, bound - 1, v);
    }
  }

  /** The rows of a later group are still the ones it had at the start. */
  lemma RepairedRows(n: Numbers, now: Numbers, done: seq<nat>, m: int, v: int, bound: nat)
    requires Repaired(n, now, done, m) && IsMax(n, m) && Duplicated(n, v)
    requires forall k :: 0 <= k < |done| ==> n[done[k]] != Some(v)
    ensures RowsWith(now, v, bound) == RowsWith(n, v, bound)
  {
    forall id ensures Holds(now, id, v) <==> Holds(n, id, v) { RepairedHolders(n, now, done, m, v, id); }
    SameHoldersSameRows(n, now, v, bound);
  }

  lemma RepairOne(n: Numbers, now: Numbers, done: seq<nat>, m: int, id: nat)
    requires Repaired(n, now, done, m) && id in n && id !in done && Loses(n, id)
    ensures Repaired(n, now[id := Some(m + |done| + 1)], done + [id], m)
  {
    hide Loses;
    var now', done' := now[id := Some(m + |done| + 1)], done + [id];
    forall k | 0 <= k < |done'| ensures done'[k] in n && Loses(n, done'[k]) && now'[done'[k]] == Some(m + 1 + k) {
      if k < |done| { assert done'[k] == done[k]; }
    }
    forall j | j in n && j !in done' ensures now'[j] == n[j] { assert j !in done && j != id by { assert id in done'; assert forall x :: x in done ==> x in done'; } }
  }

  /** Once every loser is repaired the numbers are distinct: reassigned rows lie above the old maximum and differ,
      and of two rows that kept one number one would have lost. */
  lemma RepairedDistinct(n: Numbers, now: Numbers, done: seq<nat>, m: int)
    requires Repaired(n, now, done, m) && IsMax(n, m)
    requires forall id :: Loses(n, id) ==> id in done
    ensures DistinctNumbers(now)
  {
    forall a, b | a in now && b in now && a != b && now[a].Some? ensures now[a] != now[b] {
      if a !in done && b !in done {
        assert !Loses(n, a) && !Loses(n, b);
        assert !SharesWith(n, if a < b then b else a, if a < b then a else b);
      }
    }
  }

  class Users {
    var number: Numbers
    const bound: nat

    ghost predicate Valid()
      reads this
    {
      forall id :: id in number ==> id < bound
    }

    method MaxNumber() returns (m: int)
      requires Valid()
      ensures IsMax(number, m)
    {
      var best: Option<int> := None;
      for id := 0 to bound
        invariant best.None? ==> forall j :: j in number && j < id ==> number[j].None?
        invariant best.Some? ==> (exists j :: j in number && number[j] == best)
                                 && forall j :: j in number && j < id && number[j].Some? ==> number[j].value <= best.value
      {
        if id in number && number[id].Some? && (best.None? || number[id].value > best.value) {
          best := number[id];
        }
      }
      m := if best.Some? then best.value else 0;
    }

    /** The inner loop: every row of the group after its first gets the next number. */
    method RepairRows(rows: seq<nat>, runningMax: int, ghost n: Numbers, ghost before: seq<nat>, ghost m: int)
        returns (newMax: int)
      requires Valid() && Repaired(n, number, before, m) && runningMax == m + |before| && |rows| >= 1
      requires forall i, j :: 0 <= i < j < |rows| ==> rows[i] < rows[j]
      requires forall r :: 0 <= r < |rows| ==> rows[r] in n && rows[r] !in before && (r > 0 ==> Loses(n, rows[r]))
      modifies this`number
      ensures Valid() && Repaired(n, number, before + rows[1..], m) && newMax == m + |before + rows[1..]|
    {
      hide Loses; hide Repaired;
      newMax := runningMax;
      ghost var done := before;
      for r := 1 to |rows|
        invariant Valid() && Repaired(n, number, done, m) && newMax == m + |done|
        invariant done == before + rows[1..r]
      {
        NotYet(rows, r);
        RepairOne(n, number, done, m, rows[r]);
        RepairedKeys(n, number, done, m);
        assert before + rows[1..r] + [rows[r]] == before + rows[1..r + 1];
        newMax := newMax + 1;
        number := number[rows[r] := Some(newMax)];
        done := done + [rows[r]];
      }
      assert rows[1..|rows|] == rows[1..];
    }

    method RepairGroup(candidate: int, runningMax: int, ghost n: Numbers, ghost before: seq<nat>, ghost m: int)
        returns (newMax: int, moved: seq<nat>)
      requires Valid() && Repaired(n, number, before, m) && IsMax(n, m) && runningMax == m + |before|
      requires Duplicated(n, candidate) && forall k :: 0 <= k < |before| ==> n[before[k]] != Some(candidate)
      modifies this`number
      ensures Valid() && Repaired(n, number, before + moved, m) && newMax == m + |before + moved|
      ensures var rows := RowsWith(n, candidate, bound); |rows| >= 1 && moved == rows[1..]
    {
      RepairedRows(n, number, before, m, candidate, bound);
      RepairedKeys(n, number, before, m);
      LosersOfGroup(n, candidate, bound);
      var rows := RowsWith(number, candidate, bound);
      forall r | 0 <= r < |rows| ensures rows[r] in n && rows[r] !in before { NotMoved(n, before, candidate, rows[r]); }
      newMax := RepairRows(rows, runningMax, n, before, m);
      moved := rows[1..];
    }

    /** All numbers end up distinct, the lowest id of each group and every unique or unnumbered row keep theirs, and
        the k losing rows hold exactly max+1 .. max+k, whatever order the groups come in. */
    method DedupeMatriculationNumbers(groups: seq<int>) returns (reassigned: seq<nat>)
      requires Valid() && DuplicateGroups(number, groups)
      modifies this`number
      ensures Valid() && number.Keys == old(number).Keys
      ensures DistinctNumbers(number)
      ensures forall i, j :: 0 <= i < j < |reassigned| ==> reassigned[i] != reassigned[j]
      ensures forall id :: id in reassigned <==> Loses(old(number), id)
      ensures forall id :: id in number && id !in reassigned ==> number[id] == old(number)[id]
      ensures exists m :: IsMax(old(number), m) && forall k :: 0 <= k < |reassigned| ==>
                reassigned[k] in number && number[reassigned[k]] == Some(m + 1 + k)
    {
      hide IsMax; hide Duplicated; hide Loses; hide Repaired; hide DuplicateGroups; hide GroupsDone; hide DistinctNumbers;
      ghost var n := number;
      reassigned := [];
      var m := MaxNumber();
      NoGroupsDistinct(n, groups);
      if |groups| == 0 {
        return;
      }
      AllDuplicated(n, groups);
      NothingRepaired(n, m);
      var runningMax := m;
      for g := 0 to |groups|
        invariant Valid() && Repaired(n, number, reassigned, m) && runningMax == m + |reassigned|
        invariant GroupsDone(n, reassigned, groups[..g])
      {
        assert groups[..g + 1] == groups[..g] + [groups[g]];
        GroupUntouched(n, reassigned, groups[..g], groups[g]);
        ghost var before := reassigned;
        var moved;
        runningMax, moved := RepairGroup(groups[g], runningMax, n, reassigned, m);
        reassigned := reassigned + moved;
        GroupDone(n, groups[g], bound, RowsWith(n, groups[g], bound), before, reassigned, groups[..g]);
      }
      assert groups[..|groups|] == groups;
      AllLosersDone(n, reassigned, groups);
      RepairedMeans(n, number, reassigned, m);
      RepairedDistinct(n, number, reassigned, m);
    }
  }

  /** The losers of the groups seen so far are done, and nobody else. */
  ghost predicate GroupsDone(n: Numbers, done: seq<nat>, seen: seq<int>) {
    && (forall id :: id in n && Loses(n, id) && n[id].Some? && n[id].value in seen ==> id in done)
    && (forall k :: 0 <= k < |done| ==> done[k] in n && n[done[k]].Some? && n[done[k]].value in seen)
  }

  lemma NothingRepaired(n: Numbers, m: int)
    ensures Repaired(n, n, [], m) && GroupsDone(n, [], [])
  {
  }

  lemma RepairedMeans(n: Numbers, now: Numbers, done: seq<nat>, m: int)
    requires Repaired(n, now, done, m)
    ensures now.Keys == n.Keys
    ensures forall i, j :: 0 <= i < j < |done| ==> done[i] != done[j]
    ensures forall k :: 0 <= k < |done| ==> done[k] in now && Loses(n, done[k]) && now[done[k]] == Some(m + 1 + k)
    ensures forall id :: id in now && id !in done ==> now[id] == n[id]
  {
  }

  lemma AllDuplicated(n: Numbers, groups: seq<int>)
    requires DuplicateGroups(n, groups)
    ensures forall g :: 0 <= g < |groups| ==> Duplicated(n, groups[g]) && groups[g] !in groups[..g]
  {
    assert forall g :: 0 <= g < |groups| ==> groups[g] in groups;
  }

  lemma GroupUntouched(n: Numbers, done: seq<nat>, seen: seq<int>, v: int)
    requires GroupsDone(n, done, seen) && v !in seen
    ensures forall k :: 0 <= k < |done| ==> done[k] in n && n[done[k]] != Some(v)
  {
  }

  lemma NotYet(rows: seq<nat>, r: nat)
    requires 1 <= r < |rows| && forall i, j :: 0 <= i < j < |rows| ==> rows[i] < rows[j]
    ensures rows[r] !in rows[1..r] && rows[1..r + 1] == rows[1..r] + [rows[r]]
  {
  }

  lemma NotMoved(n: Numbers, done: seq<nat>, v: int, id: nat)
    requires forall k :: 0 <= k < |done| ==> done[k] in n && n[done[k]] != Some(v)
    requires id in n && n[id] == Some(v)
    ensures id !in done
  {
  }

  lemma RepairedKeys(n: Numbers, now: Numbers, done: seq<nat>, m: int)
    requires Repaired(n, now, done, m)
    ensures now.Keys == n.Keys
  {
  }

  lemma AllLosersDone(n: Numbers, done: seq<nat>, groups: seq<int>)
    requires DuplicateGroups(n, groups) && GroupsDone(n, done, groups)
    ensures forall id :: Loses(n, id) ==> id in done
  {
    forall id | Loses(n, id) ensures id in done {
      var j :| j in n && j < id && SharesWith(n, id, j);
      assert Duplicated(n, n[id].value);
    }
  }

  lemma GroupDone(n: Numbers, v: int, bound: nat, rows: seq<nat>, before: seq<nat>, after: seq<nat>, seen: seq<int>)
    requires forall id :: id in n ==> id < bound
    requires Duplicated(n, v) && rows == RowsWith(n, v, bound) && |rows| >= 1 && after == before + rows[1..]
    requires GroupsDone(n, before, seen)
    ensures GroupsDone(n, after, seen + [v])
  {
    LosersOfGroup(n, v, bound);
    hide Duplicated; hide Loses; hide RowsWith;
    forall id | Loses(n, id) && id in n && n[id].Some? && n[id].value in seen + [v] ensures id in after {
      if n[id].value == v {
        assert id in rows;
        var i :| 0 <= i < |rows| && rows[i] == id;
        assert rows[1..][i - 1] == id;
      }
    }
    forall k | 0 <= k < |after| ensures after[k] in n && n[after[k]].Some? && n[after[k]].value in seen + [v] {
      if k >= |before| { assert after[k] == rows[k - |before| + 1]; }
    }
  }

  lemma NoGroupsDistinct(n: Numbers, groups: seq<int>)
    requires DuplicateGroups(n, groups)
    ensures DistinctNumbers(n) <==> groups == []
    ensures groups == [] ==> forall id :: !Loses(n, id)
  {
    if groups == [] {
      forall a, b | a in n && b in n && a != b && n[a].Some? ensures n[a] != n[b] {
        assert n[a].value !in groups && !Duplicated(n, n[a].value);
      }
      assert forall id, j :: j in n && j < id ==> !SharesWith(n, id, j);
    } else {
      assert groups[0] in groups && Duplicated(n, groups[0]);
      var a, b :| a in n && b in n && a != b && n[a] == Some(groups[0]) && n[b] == Some(groups[0]);
      assert n[a] == n[b];
    }
  }

  /** A second run finds no groups and nobody to reassign. */
  lemma SecondRunReassignsNothing(n: Numbers, groups: seq<int>)
    requires DistinctNumbers(n) && DuplicateGroups(n, groups)
    ensures groups == [] && forall id :: !Loses(n, id)
  {
    NoGroupsDistinct(n, groups);
  }
}
