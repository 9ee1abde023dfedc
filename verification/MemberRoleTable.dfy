/** The user_roles table of api/src/routes/members.ts with its write operations, and what every run of them keeps. */
module MemberRoleTable {
  import opened Wrappers
  import opened MemberRoles

  // ----- what runs keep ---------------------------------------------------

  ghost predicate OnePair(rows: seq<UserRole>) {
    forall u, x :: Count(rows, u, x) <= 1
  }

  /** A role that admits one holder has at most one. */
  ghost predicate OneHolder(roles: seq<Role>, rows: seq<UserRole>) {
    forall a, b ::
      (a in rows && b in rows && a.role == b.role && a.role.Some? && Exclusive(roles, a.role.value)
       && a.user.Some? && b.user.Some?) ==> a.user == b.user
  }

  predicate DatedRow(roles: seq<Role>, row: UserRole, user: int, name: string) {
    row.user == Some(user) && row.addedAt.Some? && row.role.Some? && Named(roles, row.role.value, name)
  }

  ghost predicate Dated(roles: seq<Role>, rows: seq<UserRole>, user: int, name: string) {
    exists row :: row in rows && DatedRow(roles, row, user, name)
  }

  ghost predicate DatedAt(roles: seq<Role>, rows: seq<UserRole>, user: int, name: string, day: int) {
    exists row :: row in rows && DatedRow(roles, row, user, name) && row.addedAt == Some(day)
  }

  ghost predicate Chain(roles: seq<Role>, rows: seq<UserRole>, user: int) {
    && (Dated(roles, rows, user, "MasterMason") ==> Dated(roles, rows, user, "FellowCraft"))
    && (Dated(roles, rows, user, "FellowCraft") ==> Dated(roles, rows, user, "EnteredApprentice"))
  }

  ghost predicate Kept(roles: seq<Role>, rows: seq<UserRole>) {
    OnePair(rows) && OneHolder(roles, rows) && forall u :: Chain(roles, rows, u)
  }

  /** One `role_added_at` write: some matching row gets the date, or a row is added when there is none. */
  ghost predicate DateSet(a: Table, b: Table, user: int, role: int, day: int) {
    || (exists i :: 0 <= i < |a.rows| && Is(a.rows[i], user, role)
                    && b == a.(rows := a.rows[i := a.rows[i].(addedAt := Some(day))]))
    || (!Holds(a.rows, user, role) && b == Table(a.rows + [UserRole(a.next, Some(user), Some(role), Some(day))], a.next + 1))
  }

  ghost predicate DegreeSet(roles: seq<Role>, a: Table, b: Table, user: int, name: string, day: int) {
    exists role :: Named(roles, role, name) && DateSet(a, b, user, role, day)
  }

  /** A degree date is only written once the degree below it is dated. */
  ghost predicate GuardedDegreeSet(roles: seq<Role>, a: Table, b: Table, user: int, name: string, day: int) {
    && DegreeName(name) && DegreeSet(roles, a, b, user, name, day)
    && (name == FC ==> Dated(roles, a.rows, user, EA)) && (name == MM ==> Dated(roles, a.rows, user, FC))
  }

  ghost predicate Step(roles: seq<Role>, a: Table, b: Table) {
    || (exists user, submitted :: b == RolesAfter(roles, a, user, submitted, NonDegreeRoleIds(roles)))
    || (exists user, name, day :: GuardedDegreeSet(roles, a, b, user, name, day))
  }

  ghost predicate IsRun(roles: seq<Role>, log: seq<Table>) {
    forall i :: 0 <= i < |log| - 1 ==> Step(roles, log[i], log[i + 1])
  }

  /** `nonDegreeRoleIds`. */
  function NonDegreeRoleIds(roles: seq<Role>): (r: seq<int>)
    ensures forall x :: x in r <==> Assignable(roles, x)
  {
    if roles == [] then []
    else
      var rest := NonDegreeRoleIds(roles[1..]);
      assert forall x :: Assignable(roles, x) <==> (roles[0].id == x && NonDegree(roles[0])) || Assignable(roles[1..], x);
      if NonDegree(roles[0]) then [roles[0].id] + rest else rest
  }

  lemma {:induction false} CountAppend(a: seq<UserRole>, b: seq<UserRole>, u: int, x: int)
    ensures Count(a + b, u, x) == Count(a, u, x) + Count(b, u, x)
  {
    if a == [] {
      assert a + b == b;
    } else {
      assert (a + b)[1..] == a[1..] + b;
      CountAppend(a[1..], b, u, x);
    }
  }

  lemma {:induction false} CountHolds(rows: seq<UserRole>, u: int, x: int)
    ensures Holds(rows, u, x) <==> Count(rows, u, x) > 0
  {
    if rows != [] {
      CountHolds(rows[1..], u, x);
      assert Holds(rows, u, x) <==> Is(rows[0], u, x) || Holds(rows[1..], u, x);
    }
  }

  lemma {:induction false} CountSurviving(rows: seq<UserRole>, user: int, removed: set<int>, evicted: set<int>, u: int, x: int)
    ensures Count(Surviving(rows, user, removed, evicted), u, x) <= Count(rows, u, x)
  {
    if rows != [] {
      CountSurviving(rows[1..], user, removed, evicted, u, x);
      var rest := Surviving(rows[1..], user, removed, evicted);
      if Stays(rows[0], user, removed, evicted) {
        assert ([rows[0]] + rest)[1..] == rest;
      } else {
        assert Surviving(rows, user, removed, evicted) == rest;
      }
    }
  }

  lemma {:induction false} CountNews(next: int, user: int, added: seq<int>, u: int, x: int)
    requires forall i, j :: 0 <= i < j < |added| ==> added[i] != added[j]
    ensures Count(News(next, user, added), u, x) <= if u == user && x in added then 1 else 0
    decreases |added|
  {
    var n := News(next, user, added);
    if added != [] {
      assert n[1..] == News(next + 1, user, added[1..]);
      CountNews(next + 1, user, added[1..], u, x);
      assert Is(n[0], u, x) <==> u == user && x == added[0];
    }
  }

  lemma RolesKeepOnePair(roles: seq<Role>, t: Table, user: int, submitted: seq<int>, assignable: seq<int>)
    requires OnePair(t.rows)
    ensures OnePair(RolesAfter(roles, t, user, submitted, assignable).rows)
  {
    var added := Additions(t.rows, user, Distinct(submitted), assignable);
    var gone, out := Removed(t.rows, user, submitted, assignable), Evicted(roles, added);
    var kept, news := Surviving(t.rows, user, gone, out), News(t.next, user, added);
    forall u, x ensures Count(kept + news, u, x) <= 1 {
      CountAppend(kept, news, u, x);
      CountSurviving(t.rows, user, gone, out, u, x);
      CountNews(t.next, user, added, u, x);
      CountHolds(t.rows, u, x);
    }
  }

  lemma RolesKeepOneHolder(roles: seq<Role>, t: Table, user: int, submitted: seq<int>)
    requires OneHolder(roles, t.rows)
    ensures OneHolder(roles, RolesAfter(roles, t, user, submitted, NonDegreeRoleIds(roles)).rows)
  {
    var assignable := NonDegreeRoleIds(roles);
    var added := Additions(t.rows, user, Distinct(submitted), assignable);
    var after := RolesAfter(roles, t, user, submitted, assignable).rows;
    NewsAre(t.next, user, added);
    forall x | Exclusive(roles, x) && x in added ensures x in Evicted(roles, added) {
      var role :| role in roles && role.id == x && NonDegree(role) && role.isGroup != Some(true);
    }
    hide Surviving; hide Additions; hide Distinct; hide News; hide Exclusive; hide Evicted;
  }

  lemma RolesKeepDates(roles: seq<Role>, t: Table, user: int, submitted: seq<int>, u: int, name: string)
    requires DistinctIds(roles) && DegreeName(name)
    ensures Dated(roles, RolesAfter(roles, t, user, submitted, NonDegreeRoleIds(roles)).rows, u, name) <==> Dated(roles, t.rows, u, name)
  {
    var assignable := NonDegreeRoleIds(roles);
    var added := Additions(t.rows, user, Distinct(submitted), assignable);
    NewsAre(t.next, user, added);
    forall x | Named(roles, x, name) ensures !Assignable(roles, x) { }
    var gone, out := Removed(t.rows, user, submitted, assignable), Evicted(roles, added);
    forall row | row in t.rows && DatedRow(roles, row, u, name) ensures Stays(row, user, gone, out) { }
    hide Named; hide Surviving; hide News;
  }

  // ----- degree writes ----------------------------------------------------

  lemma {:induction false} CountUpdate(rows: seq<UserRole>, i: nat, day: int, u: int, x: int)
    requires i < |rows|
    ensures Count(rows[i := rows[i].(addedAt := Some(day))], u, x) == Count(rows, u, x)
  {
    var after := rows[i := rows[i].(addedAt := Some(day))];
    if i == 0 {
      assert after[1..] == rows[1..];
    } else {
      assert after[1..] == rows[1..][i - 1 := rows[1..][i - 1].(addedAt := Some(day))];
      CountUpdate(rows[1..], i - 1, day, u, x);
    }
  }

  lemma DateKeepsOnePair(a: Table, b: Table, user: int, role: int, day: int)
    requires OnePair(a.rows) && DateSet(a, b, user, role, day)
    ensures OnePair(b.rows)
  {
    forall u, x ensures Count(b.rows, u, x) <= 1 {
      if Holds(a.rows, user, role) {
        var i :| 0 <= i < |a.rows| && Is(a.rows[i], user, role) && b == a.(rows := a.rows[i := a.rows[i].(addedAt := Some(day))]);
        CountUpdate(a.rows, i, day, u, x);
      } else {
        CountAppend(a.rows, b.rows[|a.rows|..], u, x);
        CountHolds(a.rows, u, x);
        assert a.rows + b.rows[|a.rows|..] == b.rows;
      }
    }
  }

  /** A date write leaves every other row as it was and touches user and role of none. */
  lemma DateRows(a: Table, b: Table, user: int, role: int, day: int)
    requires DateSet(a, b, user, role, day)
    ensures exists row :: row in b.rows && Is(row, user, role) && row.addedAt == Some(day)
    ensures forall row :: row in b.rows ==> row in a.rows || (Is(row, user, role) && row.addedAt == Some(day))
    ensures forall row :: row in a.rows ==> row in b.rows || Is(row, user, role)
  {
    if i :| 0 <= i < |a.rows| && Is(a.rows[i], user, role) && b == a.(rows := a.rows[i := a.rows[i].(addedAt := Some(day))]) {
      assert b.rows[i] in b.rows;
      forall row | row in a.rows ensures row in b.rows || Is(row, user, role) {
        var j :| 0 <= j < |a.rows| && a.rows[j] == row;
        assert j != i ==> b.rows[j] == row;
      }
    } else {
      assert b.rows[|a.rows|] in b.rows;
    }
  }

  lemma DegreeDates(roles: seq<Role>, a: Table, b: Table, user: int, name: string, day: int)
    requires DistinctIds(roles) && DegreeSet(roles, a, b, user, name, day)
    ensures DatedAt(roles, b.rows, user, name, day)
    ensures forall u, n :: Dated(roles, b.rows, u, n) <==> Dated(roles, a.rows, u, n) || (u == user && n == name)
    ensures forall u, n, d :: n != name && DatedAt(roles, a.rows, u, n, d) ==> DatedAt(roles, b.rows, u, n, d)
  {
    var role :| Named(roles, role, name) && DateSet(a, b, user, role, day);
    DateRows(a, b, user, role, day);
    assert forall n :: Named(roles, role, n) ==> n == name;
    var written :| written in b.rows && Is(written, user, role) && written.addedAt == Some(day);
    assert DatedRow(roles, written, user, name);
    hide DateSet; hide Named;
    forall u, n | Dated(roles, a.rows, u, n) ensures Dated(roles, b.rows, u, n) {
      var row :| row in a.rows && DatedRow(roles, row, u, n);
      assert row in b.rows || (u == user && n == name);
    }
    forall u, n | Dated(roles, b.rows, u, n) ensures Dated(roles, a.rows, u, n) || (u == user && n == name) {
      var row :| row in b.rows && DatedRow(roles, row, u, n);
      assert row in a.rows || Is(row, user, role);
    }
    forall u, n, d | n != name && DatedAt(roles, a.rows, u, n, d) ensures DatedAt(roles, b.rows, u, n, d) {
      var row :| row in a.rows && DatedRow(roles, row, u, n) && row.addedAt == Some(d);
      assert row in b.rows;
    }
  }

  ghost predicate NamesUnique(roles: seq<Role>) {
    forall a, b :: a in roles && b in roles && a.name == b.name && a.name.Some? ==> a == b
  }

  lemma {:induction false} TwoCount(rows: seq<UserRole>, i: nat, j: nat, user: int, role: int)
    requires i < j < |rows| && Is(rows[i], user, role) && Is(rows[j], user, role)
    ensures Count(rows, user, role) >= 2
  {
    if i == 0 {
      assert rows[1..][j - 1] == rows[j];
      CountHolds(rows[1..], user, role);
    } else {
      TwoCount(rows[1..], i - 1, j - 1, user, role);
    }
  }

  /** A member has one row per role. */
  lemma OneRow(rows: seq<UserRole>, i: nat, j: nat, user: int, role: int)
    requires OnePair(rows) && i < |rows| && j < |rows| && Is(rows[i], user, role) && Is(rows[j], user, role)
    ensures i == j
  {
    assert Count(rows, user, role) <= 1;
    if i < j { TwoCount(rows, i, j, user, role); } else if j < i { TwoCount(rows, j, i, user, role); }
  }

  /** With unique role names and one row per member and role, a date sits in the member's row of that role. */
  lemma DateSits(roles: seq<Role>, rows: seq<UserRole>, user: int, role: int, name: string, d: int)
    requires DistinctIds(roles) && NamesUnique(roles) && Named(roles, role, name)
    ensures DatedAt(roles, rows, user, name, d) <==> exists i :: 0 <= i < |rows| && Is(rows[i], user, role) && rows[i].addedAt == Some(d)
  {
    forall id | Named(roles, id, name) ensures id == role { }
    if DatedAt(roles, rows, user, name, d) {
      var row :| row in rows && DatedRow(roles, row, user, name) && row.addedAt == Some(d);
      var i :| 0 <= i < |rows| && rows[i] == row;
      assert Is(rows[i], user, role);
    }
    if i :| 0 <= i < |rows| && Is(rows[i], user, role) && rows[i].addedAt == Some(d) {
      assert rows[i] in rows && DatedRow(roles, rows[i], user, name);
    }
  }

  lemma DateSetHere(a: Table, b: Table, user: int, role: int, day: int, d: int)
    requires OnePair(a.rows) && DateSet(a, b, user, role, day)
    ensures (exists i :: 0 <= i < |b.rows| && Is(b.rows[i], user, role) && b.rows[i].addedAt == Some(d)) <==> d == day
    ensures b == a <==> exists i :: 0 <= i < |a.rows| && Is(a.rows[i], user, role) && a.rows[i].addedAt == Some(day)
  {
    if i :| 0 <= i < |a.rows| && Is(a.rows[i], user, role) && b == a.(rows := a.rows[i := a.rows[i].(addedAt := Some(day))]) {
      assert Is(b.rows[i], user, role) && b.rows[i].addedAt == Some(day);
      forall j | 0 <= j < |a.rows| && Is(a.rows[j], user, role) ensures i == j { OneRow(a.rows, i, j, user, role); }
      forall j | 0 <= j < |b.rows| && Is(b.rows[j], user, role) ensures i == j { assert Is(a.rows[j], user, role); }
      if a.rows[i].addedAt == Some(day) { assert b.rows == a.rows; }
    } else {
      var n := |a.rows|;
      assert b.rows[n].addedAt == Some(day) && Is(b.rows[n], user, role);
      forall j | 0 <= j < n ensures !Is(a.rows[j], user, role) { assert a.rows[j] in a.rows; }
      assert forall j :: 0 <= j < n ==> b.rows[j] == a.rows[j];
    }
  }

  /** A degree write gives the degree this one date and leaves every other date; it changes the table exactly unless
      the degree had that date. */
  lemma ExactDates(roles: seq<Role>, a: Table, b: Table, user: int, name: string, day: int)
    requires DistinctIds(roles) && NamesUnique(roles) && OnePair(a.rows) && DegreeSet(roles, a, b, user, name, day)
    ensures forall n, d :: DatedAt(roles, b.rows, user, n, d) <==> if n == name then d == day else DatedAt(roles, a.rows, user, n, d)
    ensures b == a <==> DatedAt(roles, a.rows, user, name, day)
  {
    var role :| Named(roles, role, name) && DateSet(a, b, user, role, day);
    DateSits(roles, a.rows, user, role, name, day);
    DateSetHere(a, b, user, role, day, day);
    DateRows(a, b, user, role, day);
    forall n | Named(roles, role, n) ensures n == name { }
    forall d ensures DatedAt(roles, b.rows, user, name, d) <==> d == day {
      DateSits(roles, b.rows, user, role, name, d);
      DateSetHere(a, b, user, role, day, d);
    }
    hide DateSet; hide Named; hide OnePair;
    forall n, d | n != name ensures DatedAt(roles, b.rows, user, n, d) <==> DatedAt(roles, a.rows, user, n, d) {
      if DatedAt(roles, b.rows, user, n, d) {
        var row :| row in b.rows && DatedRow(roles, row, user, n) && row.addedAt == Some(d);
        assert row in a.rows;
      }
      if DatedAt(roles, a.rows, user, n, d) {
        var row :| row in a.rows && DatedRow(roles, row, user, n) && row.addedAt == Some(d);
        assert row in b.rows;
      }
    }
  }

  lemma DegreeKeepsOneHolder(roles: seq<Role>, a: Table, b: Table, user: int, name: string, day: int)
    requires DistinctIds(roles) && DegreeName(name) && DegreeSet(roles, a, b, user, name, day) && OneHolder(roles, a.rows)
    ensures OneHolder(roles, b.rows)
  {
    var role :| Named(roles, role, name) && DateSet(a, b, user, role, day);
    DateRows(a, b, user, role, day);
    assert !Exclusive(roles, role);
    hide DateSet; hide Named; hide Exclusive;
  }

  lemma StepKeeps(roles: seq<Role>, a: Table, b: Table)
    requires DistinctIds(roles) && Step(roles, a, b) && Kept(roles, a.rows)
    ensures Kept(roles, b.rows)
  {
    hide OnePair; hide OneHolder; hide RolesAfter; hide Dated; hide DateSet;
    if user, submitted :| b == RolesAfter(roles, a, user, submitted, NonDegreeRoleIds(roles)) {
      RolesKeepOnePair(roles, a, user, submitted, NonDegreeRoleIds(roles));
      RolesKeepOneHolder(roles, a, user, submitted);
      forall u ensures Chain(roles, b.rows, u) {
        assert Chain(roles, a.rows, u);
        RolesKeepDates(roles, a, user, submitted, u, EA);
        RolesKeepDates(roles, a, user, submitted, u, FC);
        RolesKeepDates(roles, a, user, submitted, u, MM);
      }
    } else {
      var user, name, day :| GuardedDegreeSet(roles, a, b, user, name, day);
      var role :| Named(roles, role, name) && DateSet(a, b, user, role, day);
      DateKeepsOnePair(a, b, user, role, day);
      DegreeKeepsOneHolder(roles, a, b, user, name, day);
      DegreeDates(roles, a, b, user, name, day);
      forall u ensures Chain(roles, b.rows, u) { assert Chain(roles, a.rows, u); }
    }
  }

  /** Over every run of role and degree writes: one row per member and role, one holder per exclusive role, and the
      degrees of each member dated from below. */
  lemma {:induction false} RunsKeep(roles: seq<Role>, log: seq<Table>, i: nat)
    requires DistinctIds(roles) && IsRun(roles, log) && i < |log| && Kept(roles, log[0].rows)
    ensures Kept(roles, log[i].rows)
  {
    if i > 0 {
      RunsKeep(roles, log, i - 1);
      assert Step(roles, log[i - 1], log[i - 1 + 1]);
      StepKeeps(roles, log[i - 1], log[i]);
    }
  }
}
