/** The handlers of api/src/routes/members.ts that write user_roles, on a table that keeps its history. */
module MemberWrites {
  import opened Wrappers
  import opened MemberRoles
  import opened MemberRoleTable

  /** A submitted degree date; an unreadable one makes the write throw. */
  datatype DateInput = Day(day: int) | NotADate

  /** The three degree fields of a request; `None` stands for absent or blank. */
  datatype DegreeBody = DegreeBody(ea: Option<DateInput>, fc: Option<DateInput>, mm: Option<DateInput>)

  datatype SetResult = Written | NoSuchRole | Threw

  datatype DegreeError = RoleNotFound(name: string) | LowerDegreeMissing(name: string)

  /** How a member update ends; `Crashed` is an exception after which earlier writes stay. */
  datatype PatchResult = Forbidden | DegreesRejected | Crashed | MfaRequired | RolledBack | Committed

  ghost predicate RoleExists(roles: seq<Role>, name: string) {
    exists id :: Named(roles, id, name)
  }

  /** Holds some role of this name. */
  ghost predicate HoldsNamed(roles: seq<Role>, rows: seq<UserRole>, user: int, name: string) {
    exists id :: Named(roles, id, name) && Holds(rows, user, id)
  }

  ghost predicate DegreeRow(roles: seq<Role>, row: UserRole, user: int) {
    row.user == Some(user) && row.role.Some? && exists name :: DegreeName(name) && Named(roles, row.role.value, name)
  }

  /** Only degree rows of this member change, only in their date, and none loses its date. */
  ghost predicate OnlyDegreesOf(roles: seq<Role>, a: seq<UserRole>, b: seq<UserRole>, user: int) {
    && |a| <= |b|
    && (forall i :: 0 <= i < |a| ==>
          b[i] == a[i] || (DegreeRow(roles, a[i], user) && b[i] == a[i].(addedAt := b[i].addedAt) && b[i].addedAt.Some?))
    && (forall i :: |a| <= i < |b| ==> DegreeRow(roles, b[i], user) && b[i].addedAt.Some?)
  }

  /** What a degree request needs: readable dates, existing roles, and each degree's predecessor dated, before or by
      this very request. */
  ghost predicate Acceptable(roles: seq<Role>, rows: seq<UserRole>, user: int, body: DegreeBody) {
    && (body.ea.Some? ==> body.ea.value.Day? && RoleExists(roles, EA))
    && (body.fc.Some? ==> body.fc.value.Day? && RoleExists(roles, FC) && (body.ea.Some? || Dated(roles, rows, user, EA)))
    && (body.mm.Some? ==> body.mm.value.Day? && RoleExists(roles, MM) && (body.fc.Some? || Dated(roles, rows, user, FC)))
  }

  /** The degree that must be dated first. */
  function Below(name: string): Option<string> {
    if name == FC then Some(EA) else if name == MM then Some(FC) else None
  }

  ghost predicate Granted(roles: seq<Role>, rows: seq<UserRole>, user: int, name: string, lower: Option<string>, input: DateInput) {
    input.Day? && RoleExists(roles, name) && (lower.Some? ==> Dated(roles, rows, user, lower.value))
  }

  /** What one degree write leaves of all the dates of the member. */
  ghost predicate DegreeEffect(roles: seq<Role>, a: seq<UserRole>, b: seq<UserRole>, user: int, name: string,
                               input: Option<DateInput>, done: bool) {
    && (done && input.Some? ==> input.value.Day? && DatedAt(roles, b, user, name, input.value.day))
    && (forall n :: Dated(roles, b, user, n) <==> Dated(roles, a, user, n) || (done && input.Some? && n == name))
    && (forall n, d :: n != name && DatedAt(roles, a, user, n, d) ==> DatedAt(roles, b, user, n, d))
  }

  /** One degree write to the letter: which dates stand, and that the table changed only if the date did. */
  ghost predicate DegreeExact(roles: seq<Role>, a: Table, b: Table, user: int, name: string, input: Option<DateInput>, done: bool) {
    if done && input.Some? then
      && input.value.Day?
      && (forall n, d :: DatedAt(roles, b.rows, user, n, d) <==>
            if n == name then d == input.value.day else DatedAt(roles, a.rows, user, n, d))
      && (b == a <==> DatedAt(roles, a.rows, user, name, input.value.day))
    else b == a
  }

  /** The date is unreadable where it would be written, which ends the request. */
  ghost predicate Throws(roles: seq<Role>, name: string, input: Option<DateInput>, lowerDated: bool) {
    input == Some(NotADate) && RoleExists(roles, name) && lowerDated
  }

  ghost predicate WritesEA(roles: seq<Role>, body: DegreeBody) {
    body.ea.Some? && body.ea.value.Day? && RoleExists(roles, EA)
  }

  ghost predicate ThrowsEA(roles: seq<Role>, body: DegreeBody) { Throws(roles, EA, body.ea, true) }

  /** The degree below is dated by the time the FellowCraft date is looked at. */
  ghost predicate LowerEA(roles: seq<Role>, rows: seq<UserRole>, user: int, body: DegreeBody) {
    WritesEA(roles, body) || Dated(roles, rows, user, EA)
  }

  ghost predicate WritesFC(roles: seq<Role>, rows: seq<UserRole>, user: int, body: DegreeBody) {
    !ThrowsEA(roles, body) && body.fc.Some? && body.fc.value.Day? && RoleExists(roles, FC) && LowerEA(roles, rows, user, body)
  }

  ghost predicate ThrowsFC(roles: seq<Role>, rows: seq<UserRole>, user: int, body: DegreeBody) {
    !ThrowsEA(roles, body) && Throws(roles, FC, body.fc, LowerEA(roles, rows, user, body))
  }

  ghost predicate LowerFC(roles: seq<Role>, rows: seq<UserRole>, user: int, body: DegreeBody) {
    WritesFC(roles, rows, user, body) || Dated(roles, rows, user, FC)
  }

  ghost predicate WritesMM(roles: seq<Role>, rows: seq<UserRole>, user: int, body: DegreeBody) {
    !ThrowsEA(roles, body) && !ThrowsFC(roles, rows, user, body)
    && body.mm.Some? && body.mm.value.Day? && RoleExists(roles, MM) && LowerFC(roles, rows, user, body)
  }

  /** Every degree the request writes in order - readable date, existing role, degree below dated - had that date. */
  ghost predicate NothingNew(roles: seq<Role>, rows: seq<UserRole>, user: int, body: DegreeBody) {
    && (WritesEA(roles, body) ==> DatedAt(roles, rows, user, EA, body.ea.value.day))
    && (WritesFC(roles, rows, user, body) ==> DatedAt(roles, rows, user, FC, body.fc.value.day))
    && (WritesMM(roles, rows, user, body) ==> DatedAt(roles, rows, user, MM, body.mm.value.day))
  }

  /** What a degree request leaves, clean or not: the degrees written in order have their new dates, all others their
      old ones, and the table is unchanged exactly if nothing was new. */
  ghost predicate DegreesLeft(roles: seq<Role>, a: Table, b: Table, user: int, body: DegreeBody) {
    && (forall d :: DatedAt(roles, b.rows, user, EA, d) <==>
          if WritesEA(roles, body) then d == body.ea.value.day else DatedAt(roles, a.rows, user, EA, d))
    && (forall d :: DatedAt(roles, b.rows, user, FC, d) <==>
          if WritesFC(roles, a.rows, user, body) then d == body.fc.value.day else DatedAt(roles, a.rows, user, FC, d))
    && (forall d :: DatedAt(roles, b.rows, user, MM, d) <==>
          if WritesMM(roles, a.rows, user, body) then d == body.mm.value.day else DatedAt(roles, a.rows, user, MM, d))
    && (b == a <==> NothingNew(roles, a.rows, user, body))
  }

  /** The three writes together. */
  lemma ThreeExact(roles: seq<Role>, t0: Table, t1: Table, t2: Table, t3: Table, user: int, body: DegreeBody)
    requires DegreeExact(roles, t0, t1, user, EA, body.ea, WritesEA(roles, body))
    requires DegreeExact(roles, t1, t2, user, FC, body.fc, WritesFC(roles, t0.rows, user, body))
    requires DegreeExact(roles, t2, t3, user, MM, body.mm, WritesMM(roles, t0.rows, user, body))
    ensures DegreesLeft(roles, t0, t3, user, body)
  {
    hide DatedAt; hide WritesEA; hide WritesFC; hide WritesMM;
    var ea, fc, mm := WritesEA(roles, body), WritesFC(roles, t0.rows, user, body), WritesMM(roles, t0.rows, user, body);
    WritesDays(roles, t0.rows, user, body);
    if ea && !DatedAt(roles, t0.rows, user, EA, body.ea.value.day) {
      assert DatedAt(roles, t3.rows, user, EA, body.ea.value.day);
    } else if fc && !DatedAt(roles, t0.rows, user, FC, body.fc.value.day) {
      assert DatedAt(roles, t3.rows, user, FC, body.fc.value.day);
    } else if mm && !DatedAt(roles, t0.rows, user, MM, body.mm.value.day) {
      assert DatedAt(roles, t3.rows, user, MM, body.mm.value.day);
    }
  }

  lemma StopsAtEA(roles: seq<Role>, t0: Table, t1: Table, user: int, body: DegreeBody)
    requires ThrowsEA(roles, body) && t1 == t0
    ensures DegreesLeft(roles, t0, t1, user, body)
  {
    ThreeExact(roles, t0, t0, t0, t0, user, body);
  }

  lemma StopsAtFC(roles: seq<Role>, t0: Table, t1: Table, t2: Table, user: int, body: DegreeBody)
    requires DegreeExact(roles, t0, t1, user, EA, body.ea, WritesEA(roles, body))
    requires ThrowsFC(roles, t0.rows, user, body) && t2 == t1
    ensures DegreesLeft(roles, t0, t2, user, body)
  {
    hide DegreeExact; hide Dated; hide DatedAt; hide DegreesLeft;
    assert DegreeExact(roles, t1, t1, user, FC, body.fc, WritesFC(roles, t0.rows, user, body)) by { NotDone(roles, t1, user, FC, body.fc); }
    assert DegreeExact(roles, t1, t1, user, MM, body.mm, WritesMM(roles, t0.rows, user, body)) by { NotDone(roles, t1, user, MM, body.mm); }
    ThreeExact(roles, t0, t1, t1, t1, user, body);
  }

  lemma NotDone(roles: seq<Role>, t: Table, user: int, name: string, input: Option<DateInput>)
    ensures DegreeExact(roles, t, t, user, name, input, false)
  {
  }

  lemma WritesDays(roles: seq<Role>, rows: seq<UserRole>, user: int, body: DegreeBody)
    ensures WritesEA(roles, body) ==> body.ea.Some? && body.ea.value.Day?
    ensures WritesFC(roles, rows, user, body) ==> body.fc.Some? && body.fc.value.Day?
    ensures WritesMM(roles, rows, user, body) ==> body.mm.Some? && body.mm.value.Day?
  {
  }

  lemma DegreeSetTouchesOnlyDegrees(roles: seq<Role>, a: Table, b: Table, user: int, name: string, day: int)
    requires DegreeName(name) && DegreeSet(roles, a, b, user, name, day)
    ensures OnlyDegreesOf(roles, a.rows, b.rows, user)
  {
    hide Named; hide DegreeName;
  }

  lemma OnlyDegreesTrans(roles: seq<Role>, a: seq<UserRole>, b: seq<UserRole>, c: seq<UserRole>, user: int)
    requires OnlyDegreesOf(roles, a, b, user) && OnlyDegreesOf(roles, b, c, user)
    ensures OnlyDegreesOf(roles, a, c, user)
  {
    forall i | 0 <= i < |b| && DegreeRow(roles, b[i], user) && b[i].addedAt.Some?
      ensures DegreeRow(roles, c[i], user) && c[i].addedAt.Some? { }
    hide Named; hide DegreeName;
  }

  lemma ExtendRun(roles: seq<Role>, log: seq<Table>, next: Table)
    requires log != [] && IsRun(roles, log) && Step(roles, log[|log| - 1], next)
    ensures IsRun(roles, log + [next])
  {
    hide Step;
    var longer := log + [next];
    forall i | 0 <= i < |longer| - 1 ensures Step(roles, longer[i], longer[i + 1]) {
      if i < |log| - 1 { assert Step(roles, log[i], log[i + 1]); }
    }
  }

  class UserRoles {
    const roles: seq<Role>
    var table: Table
    ghost var log: seq<Table>

    /** The history so far is a run of role and degree writes that ends in the present table. */
    ghost predicate Valid()
      reads this
    {
      DistinctIds(roles) && log != [] && log[|log| - 1] == table && IsRun(roles, log)
    }

    constructor (roles: seq<Role>, table: Table)
      requires DistinctIds(roles)
      ensures Valid() && this.roles == roles && this.table == table && log == [table]
    {
      this.roles := roles;
      this.table := table;
      log := [table];
    }

    /** Some role of this name; the query gives no order. */
    method FindRole(name: string) returns (r: Option<Role>)
      ensures r.Some? ==> r.value in roles && r.value.name == Some(name)
      ensures r.None? ==> !RoleExists(roles, name)
    {
      if role :| role in roles && role.name == Some(name) {
        return Some(role);
      }
      r := None;
    }

    /** The position of some row of this member and role. */
    method FindRow(user: int, role: int) returns (r: Option<nat>)
      ensures r.Some? ==> r.value < |table.rows| && Is(table.rows[r.value], user, role)
      ensures r.None? ==> !Holds(table.rows, user, role)
    {
      if i :| 0 <= i < |table.rows| && Is(table.rows[i], user, role) {
        return Some(i);
      }
      r := None;
    }

    method GetDegreeDate(user: int, name: string) returns (d: Option<int>)
      requires DistinctIds(roles)
      ensures d.Some? ==> DatedAt(roles, table.rows, user, name, d.value)
      ensures NamesUnique(roles) && OnePair(table.rows) && d.None? ==> !Dated(roles, table.rows, user, name)
    {
      var role := FindRole(name);
      if role.None? { return None; }
      var i := FindRow(user, role.value.id);
      if i.None? {
        OneRoleOfName(role.value, name);
        return None;
      }
      d := table.rows[i.value].addedAt;
      assert d.Some? ==> DatedRow(roles, table.rows[i.value], user, name);
      if d.None? { UndatedPair(role.value, name, user, i.value); }
    }

    lemma OneRoleOfName(role: Role, name: string)
      requires role in roles && role.name == Some(name) && DistinctIds(roles)
      ensures NamesUnique(roles) ==> forall id :: Named(roles, id, name) ==> id == role.id
    {
    }

    lemma UndatedPair(role: Role, name: string, user: int, i: nat)
      requires role in roles && role.name == Some(name) && DistinctIds(roles)
      requires i < |table.rows| && Is(table.rows[i], user, role.id) && table.rows[i].addedAt.None?
      ensures NamesUnique(roles) && OnePair(table.rows) ==> !Dated(roles, table.rows, user, name)
    {
      OneRoleOfName(role, name);
      if NamesUnique(roles) && OnePair(table.rows) && Dated(roles, table.rows, user, name) {
        var j :| 0 <= j < |table.rows| && DatedRow(roles, table.rows[j], user, name);
        OneRow(table.rows, i, j, user, role.id);
      }
    }

    /** Writes the date of one degree; an absent date writes nothing. */
    method SetDegreeByName(user: int, name: string, input: Option<DateInput>) returns (r: SetResult)
      modifies `table
      ensures r == NoSuchRole <==> input.Some? && !RoleExists(roles, name)
      ensures r == Threw <==> input.Some? && RoleExists(roles, name) && input.value.NotADate?
      ensures r == Written && input.Some? ==> DegreeSet(roles, old(table), table, user, name, input.value.day)
      ensures r != Written || input.None? ==> table == old(table)
    {
      if input.None? { return Written; }
      var role := FindRole(name);
      if role.None? { return NoSuchRole; }
      assert Named(roles, role.value.id, name);
      var existing := FindRow(user, role.value.id);
      if input.value.NotADate? { return Threw; }
      if existing.Some? {
        var i := existing.value;
        table := table.(rows := table.rows[i := table.rows[i].(addedAt := Some(input.value.day))]);
      } else {
        table := Table(table.rows + [UserRole(table.next, Some(user), Some(role.value.id), Some(input.value.day))], table.next + 1);
      }
      assert DateSet(old(table), table, user, role.value.id, input.value.day);
      r := Written;
    }

    /** A degree write whose predecessor is dated, entered in the history. */
    method SetGuarded(user: int, name: string, input: DateInput) returns (r: SetResult)
      requires Valid() && DegreeName(name)
      requires (name == FC ==> Dated(roles, table.rows, user, EA)) && (name == MM ==> Dated(roles, table.rows, user, FC))
      modifies this
      ensures Valid() && old(log) <= log && OnlyDegreesOf(roles, old(table.rows), table.rows, user)
      ensures r == NoSuchRole <==> !RoleExists(roles, name)
      ensures r == Threw <==> RoleExists(roles, name) && input.NotADate?
      ensures r == Written ==> DegreeSet(roles, old(table), table, user, name, input.day)
      ensures r != Written ==> table == old(table)
      ensures OnePair(old(table.rows)) ==> OnePair(table.rows)
    {
      r := SetDegreeByName(user, name, Some(input));
      if r == Written {
        assert GuardedDegreeSet(roles, old(table), table, user, name, input.day);
        ExtendRun(roles, log, table);
        log := log + [table];
        DegreeSetTouchesOnlyDegrees(roles, old(table), table, user, name, input.day);
        if OnePair(old(table.rows)) {
          var role :| Named(roles, role, name) && DateSet(old(table), table, user, role, input.day);
          DateKeepsOnePair(old(table), table, user, role, input.day);
        }
      }
    }

    /** One block of `applyDegreeDates`: the write of a degree, guarded by the date of the degree below. */
    method ApplyDegree(user: int, name: string, lower: Option<string>, input: Option<DateInput>)
      returns (errors: seq<DegreeError>, threw: bool)
      requires Valid() && lower == Below(name) && DegreeName(name)
      modifies this
      ensures Valid() && old(log) <= log && OnlyDegreesOf(roles, old(table.rows), table.rows, user)
      ensures input.None? ==> !threw && errors == []
      ensures DegreeEffect(roles, old(table.rows), table.rows, user, name, input, !threw && errors == [])
      ensures NamesUnique(roles) && OnePair(old(table.rows)) ==>
                && (!threw && errors == [] <==> input.None? || Granted(roles, old(table.rows), user, name, lower, input.value))
                && (threw <==> Throws(roles, name, input, lower.None? || Dated(roles, old(table.rows), user, lower.value)))
                && DegreeExact(roles, old(table), table, user, name, input,
                               input.Some? && Granted(roles, old(table.rows), user, name, lower, input.value))
      ensures input.None? || threw || errors != [] ==> table == old(table)
      ensures OnePair(old(table.rows)) ==> OnePair(table.rows)
    {
      hide IsRun; hide OnePair; hide Dated; hide DatedAt; hide OnlyDegreesOf; hide DegreeSet; hide NamesUnique; hide RoleExists;
      errors, threw := [], false;
      Unchanged(user);
      if input.None? { return; }
      if lower.Some? {
        var below := GetDegreeDate(user, lower.value);
        if below.None? { return [LowerDegreeMissing(name)], false; }
        DatedAtDated(roles, table.rows, user, lower.value, below.value);
      }
      var r := SetGuarded(user, name, input.value);
      if r == Threw { return [], true; }
      if r == NoSuchRole { return [RoleNotFound(name)], false; }
      DegreeDates(roles, old(table), table, user, name, input.value.day);
      if NamesUnique(roles) && OnePair(old(table.rows)) { ExactDates(roles, old(table), table, user, name, input.value.day); }
    }

    /** `applyDegreeDates`: the degrees in their fixed order, each guarded by the one below. */
    method ApplyDegreeDates(user: int, body: DegreeBody) returns (errors: seq<DegreeError>, threw: bool)
      requires Valid()
      modifies this
      ensures Valid() && old(log) <= log
      ensures OnlyDegreesOf(roles, old(table.rows), table.rows, user)
      ensures !threw && errors == [] ==>
                && (body.ea.Some? ==> body.ea.value.Day? && DatedAt(roles, table.rows, user, EA, body.ea.value.day))
                && (body.fc.Some? ==> body.fc.value.Day? && DatedAt(roles, table.rows, user, FC, body.fc.value.day))
                && (body.mm.Some? ==> body.mm.value.Day? && DatedAt(roles, table.rows, user, MM, body.mm.value.day))
      ensures NamesUnique(roles) && OnePair(old(table.rows)) ==>
                && (!threw && errors == [] <==> Acceptable(roles, old(table.rows), user, body))
                && (threw ==> !Acceptable(roles, old(table.rows), user, body))
                && DegreesLeft(roles, old(table), table, user, body)
      ensures OnePair(old(table.rows)) ==> OnePair(table.rows)
    {
      hide IsRun; hide OnePair; hide Dated; hide DatedAt; hide OnlyDegreesOf; hide NamesUnique; hide RoleExists; hide DegreeExact;
      hide DegreesLeft;
      ghost var unique := NamesUnique(roles) && OnePair(table.rows);
      errors, threw := ApplyDegree(user, EA, None, body.ea);
      ghost var t1 := table;
      if threw {
        if unique { StopsAtEA(roles, old(table), t1, user, body); }
        return;
      }
      label AfterEA:
      var more;
      more, threw := ApplyDegree(user, FC, Some(EA), body.fc);
      errors := errors + more;
      ghost var t2 := table;
      OnlyDegreesTrans(roles, old(table.rows), old@AfterEA(table.rows), table.rows, user);
      if threw {
        if unique { StopsAtFC(roles, old(table), t1, t2, user, body); }
        return;
      }
      label AfterFC:
      more, threw := ApplyDegree(user, MM, Some(FC), body.mm);
      errors := errors + more;
      OnlyDegreesTrans(roles, old(table.rows), old@AfterFC(table.rows), table.rows, user);
      if unique { ThreeExact(roles, old(table), t1, t2, table, user, body); }
    }

    lemma Unchanged(user: int)
      ensures OnlyDegreesOf(roles, table.rows, table.rows, user)
    {
    }

    /** The degree part of creating a member: its errors are dropped, and an undated entry degree gets today's date. */
    method CreateDegrees(user: int, body: DegreeBody, today: int) returns (threw: bool)
      requires Valid()
      modifies this
      ensures Valid() && old(log) <= log
      ensures OnlyDegreesOf(roles, old(table.rows), table.rows, user)
      ensures !threw && RoleExists(roles, EA) ==> Dated(roles, table.rows, user, EA)
    {
      hide IsRun; hide OnePair; hide Dated; hide DatedAt; hide OnlyDegreesOf; hide DegreeSet; hide NamesUnique; hide RoleExists;
      var errors;
      errors, threw := ApplyDegreeDates(user, body);
      if threw { return; }
      label Applied:
      var eas := GetDegreeDate(user, EA);
      if eas.None? {
        var r := SetGuarded(user, EA, Day(today));
        OnlyDegreesTrans(roles, old(table.rows), old@Applied(table.rows), table.rows, user);
        if r == Written { DegreeDates(roles, old@Applied(table), table, user, EA, today); }
      } else {
        DatedAtDated(roles, table.rows, user, EA, eas.value);
      }
    }

    /** `findUnique` on the primary key. */
    method FindRoleById(id: int) returns (r: Option<Role>)
      requires DistinctIds(roles)
      ensures AdmitsOne(roles, id) <==> r.Some? && r.value.isGroup != Some(true)
      ensures r.Some? ==> r.value in roles && r.value.id == id
      ensures r.None? ==> forall role :: role in roles ==> role.id != id
    {
      if role :| role in roles && role.id == id {
        return Some(role);
      }
      r := None;
    }

    /** The first loop of `applyRoleIds`. */
    method DeleteRoles(user: int, toRemove: seq<int>)
      modifies `table
      ensures table == old(table).(rows := Surviving(old(table.rows), user, Elements(toRemove), {}))
    {
      hide Surviving; hide Elements;
      DeleteNone(table.rows, user, toRemove);
      for i := 0 to |toRemove|
        invariant table == old(table).(rows := Surviving(old(table.rows), user, Elements(toRemove[..i]), {}))
      {
        DeleteOne(old(table.rows), user, toRemove, i);
        table := table.(rows := Surviving(table.rows, user, {toRemove[i]}, {}));
      }
      assert toRemove[..|toRemove|] == toRemove;
    }

    /** The second loop of `applyRoleIds`: a role for one holder leaves its other holders before the row is added. */
    method GrantRoles(user: int, toAdd: seq<int>)
      requires DistinctIds(roles)
      modifies `table
      ensures table == Table(Surviving(old(table.rows), user, {}, Evicted(roles, toAdd)) + News(old(table.next), user, toAdd),
                             old(table.next) + |toAdd|)
    {
      ghost var start := table;
      hide Surviving; hide Evicted; hide AdmitsOne; hide News;
      GrantNone(roles, start.rows, start.next, user, toAdd);
      for i := 0 to |toAdd|
        invariant table == Table(Surviving(start.rows, user, {}, Evicted(roles, toAdd[..i])) + News(start.next, user, toAdd[..i]),
                                 start.next + i)
      {
        var role := FindRoleById(toAdd[i]);
        GrantOne(roles, start.rows, start.next, user, toAdd, i);
        if role.Some? && role.value.isGroup != Some(true) {
          table := table.(rows := Surviving(table.rows, user, {}, {toAdd[i]}));
        }
        table := Table(table.rows + [UserRole(table.next, Some(user), Some(toAdd[i]), None)], table.next + 1);
      }
      assert toAdd[..|toAdd|] == toAdd;
    }

    /** `applyRoleIds`: the assignable roles not submitted go, the submitted ones not yet held are granted. */
    method ApplyRoleIds(user: int, submitted: seq<int>, assignable: seq<int>)
      requires DistinctIds(roles)
      modifies `table
      ensures table == RolesAfter(roles, old(table), user, submitted, assignable)
    {
      var toRemove := CurrentOutside(table.rows, user, submitted, assignable);
      var toAdd := Additions(table.rows, user, Distinct(submitted), assignable);
      DeletedThenGranted(roles, table.rows, user, submitted, assignable, toAdd);
      hide Surviving; hide CurrentOutside; hide Additions; hide Evicted; hide Removed; hide Elements; hide News; hide Distinct;
      DeleteRoles(user, toRemove);
      GrantRoles(user, toAdd);
    }

    /** Whether the loaded role names of a user include this one. */
    method CallerHolds(user: int, name: string) returns (b: bool)
      ensures b <==> HoldsNamed(roles, table.rows, user, name)
    {
      b := false;
      for i := 0 to |roles|
        invariant b <==> exists j :: 0 <= j < i && roles[j].name == Some(name) && Holds(table.rows, user, roles[j].id)
      {
        if roles[i].name == Some(name) && Holds(table.rows, user, roles[i].id) { b := true; }
      }
      if HoldsNamed(roles, table.rows, user, name) {
        var id :| Named(roles, id, name) && Holds(table.rows, user, id);
        var j :| 0 <= j < |roles| && roles[j].id == id && roles[j].name == Some(name);
      }
      if b {
        ghost var j :| 0 <= j < |roles| && roles[j].name == Some(name) && Holds(table.rows, user, roles[j].id);
        assert Named(roles, roles[j].id, name);
      }
    }

    /** The role part of a member update: the checks before the transaction, then roles and validation as one
        transaction. `loaded` are the rows read when the request came in, before its degree dates were written. */
    method PatchRoles(callerIsAdmin: bool, canManageRoles: bool, target: int, loaded: seq<UserRole>, roleIds: Option<seq<int>>,
                      enforceForOfficers: bool, targetHasMfa: bool, otherErrors: bool) returns (r: PatchResult)
      requires Valid()
      modifies this
      ensures Valid() && old(log) <= log && (r == Forbidden || r == MfaRequired || r == RolledBack || r == Committed)
      ensures r != Committed ==> table == old(table)
      ensures r == Committed ==>
                table == if roleIds.Some? then RolesAfter(roles, old(table), target, roleIds.value, NonDegreeRoleIds(roles)) else old(table)
      ensures r == Committed ==> Dated(roles, table.rows, target, EA) && !otherErrors
      ensures NamesUnique(roles) ==>
                (r == Forbidden <==> roleIds.Some?
                                     && (!canManageRoles
                                         || (!callerIsAdmin && exists id :: id in roleIds.value && Named(roles, id, "Admin"))))
      ensures r == Committed && roleIds.Some? && enforceForOfficers && !targetHasMfa ==>
                forall id :: id in roleIds.value ==> Holds(loaded, target, id)
      ensures NamesUnique(roles) && !callerIsAdmin ==>
                forall user :: HoldsNamed(roles, table.rows, user, "Admin") ==> HoldsNamed(roles, old(table.rows), user, "Admin")
    {
      hide IsRun; hide RolesAfter; hide OnePair; hide Step; hide Dated; hide DatedAt; hide HoldsNamed;
      if roleIds.Some? {
        if !canManageRoles { return Forbidden; }
        var admin := FindRole("Admin");
        if admin.Some? { OneRoleOfName(admin.value, "Admin"); }
        if admin.Some? && admin.value.id in roleIds.value && !callerIsAdmin { return Forbidden; }
        if enforceForOfficers && !targetHasMfa && exists id :: id in roleIds.value && !Holds(loaded, target, id) { return MfaRequired; }
      }
      ghost var before := table;
      var snapshot := table;
      if roleIds.Some? {
        var assignable := NonDegreeRoleIds(roles);
        ApplyRoleIds(target, roleIds.value, assignable);
      }
      var entry := GetDegreeDate(target, EA);
      if entry.None? || otherErrors {
        table := snapshot;
        return RolledBack;
      }
      DatedAtDated(roles, table.rows, target, EA, entry.value);
      if roleIds.Some? {
        RoleWriteIsStep(roles, before, target, roleIds.value);
        ExtendRun(roles, log, table);
        log := log + [table];
        if !callerIsAdmin { NoNewAdmin(roles, before, target, roleIds.value); }
      }
      r := Committed;
    }

    /** `isUserAdmin` of the caller's role names. */
    method CallerMayEdit(caller: int) returns (b: bool)
      ensures b <==> MayEdit(roles, table.rows, caller)
    {
      hide HoldsNamed;
      var secretary := CallerHolds(caller, "Secretary");
      var admin := CallerHolds(caller, "Admin");
      var userAdmin := CallerHolds(caller, "UserAdmin");
      b := secretary || admin || userAdmin;
    }

    /** A whole member update as far as user_roles is concerned: the degree dates, written at once and outside the
        transaction; then the checks; then roles and validation as one transaction.  `mid` is the table the degree part
        left. */
    method PatchMember(caller: int, mayUpdate: bool, canManageRoles: bool, target: int, body: DegreeBody, roleIds: Option<seq<int>>,
                       enforceForOfficers: bool, targetHasMfa: bool, otherErrors: bool)
      returns (r: PatchResult, ghost mid: Table)
      requires Valid()
      modifies this
      ensures Valid() && old(log) <= log
      ensures !mayUpdate ==> r == Forbidden && table == old(table)
      ensures !(mayUpdate && MayEdit(roles, old(table.rows), caller)) ==> mid == old(table)
      ensures Unique(roles, old(table.rows)) && mayUpdate && MayEdit(roles, old(table.rows), caller) ==>
                DegreesLeft(roles, old(table), mid, target, body)
                && (r == DegreesRejected || r == Crashed <==> !Acceptable(roles, old(table.rows), target, body))
      ensures r != Committed ==> table == mid
      ensures r == Committed ==>
                table == if roleIds.Some? && MayEdit(roles, old(table.rows), caller)
                         then RolesAfter(roles, mid, target, roleIds.value, NonDegreeRoleIds(roles)) else mid
      ensures r == Committed ==> Dated(roles, table.rows, target, EA) && !otherErrors
      ensures r == Committed && roleIds.Some? && MayEdit(roles, old(table.rows), caller) && enforceForOfficers && !targetHasMfa ==>
                forall id :: id in roleIds.value ==> Holds(old(table.rows), target, id)
      ensures Unique(roles, old(table.rows)) && r != Committed ==>
                (table == old(table) <==> !mayUpdate || !MayEdit(roles, old(table.rows), caller)
                                          || NothingNew(roles, old(table.rows), target, body))
      ensures Unique(roles, old(table.rows)) ==>
                (r == Forbidden <==>
                   !mayUpdate
                   || (MayEdit(roles, old(table.rows), caller) && Acceptable(roles, old(table.rows), target, body) && roleIds.Some?
                       && (!canManageRoles || (!HoldsNamed(roles, old(table.rows), caller, "Admin")
                                               && exists id :: id in roleIds.value && Named(roles, id, "Admin")))))
      ensures NamesUnique(roles) && !HoldsNamed(roles, old(table.rows), caller, "Admin") ==>
                forall user :: HoldsNamed(roles, table.rows, user, "Admin") ==> HoldsNamed(roles, old(table.rows), user, "Admin")
    {
      hide IsRun; hide OnePair; hide Dated; hide DatedAt; hide OnlyDegreesOf; hide HoldsNamed; hide RolesAfter; hide NamesUnique;
      hide DegreesLeft; hide Acceptable; hide NothingNew; hide MayEdit;
      mid := table;
      if !mayUpdate { return Forbidden, mid; }
      var loaded := table.rows;
      var mayEdit := CallerMayEdit(caller);
      var callerIsAdmin := CallerHolds(caller, "Admin");
      if mayEdit {
        var errors, threw := ApplyDegreeDates(target, body);
        mid := table;
        DegreesKeepAdmins(roles, loaded, mid.rows, target);
        if Unique(roles, loaded) { LeftMeans(roles, old(table), mid, target, body); }
        if threw { return Crashed, mid; }
        if errors != [] { return DegreesRejected, mid; }
      }
      r := PatchRoles(callerIsAdmin, canManageRoles, target, loaded, if mayEdit then roleIds else None, enforceForOfficers, targetHasMfa,
                      otherErrors);
    }
  }

  ghost predicate Unique(roles: seq<Role>, rows: seq<UserRole>) { NamesUnique(roles) && OnePair(rows) }

  ghost predicate MayEdit(roles: seq<Role>, rows: seq<UserRole>, caller: int) {
    HoldsNamed(roles, rows, caller, "Secretary") || HoldsNamed(roles, rows, caller, "Admin") || HoldsNamed(roles, rows, caller, "UserAdmin")
  }

  lemma LeftMeans(roles: seq<Role>, a: Table, b: Table, user: int, body: DegreeBody)
    requires DegreesLeft(roles, a, b, user, body)
    ensures b == a <==> NothingNew(roles, a.rows, user, body)
  {
  }

  /** Degree writes make nobody an Admin. */
  lemma DegreesKeepAdmins(roles: seq<Role>, a: seq<UserRole>, b: seq<UserRole>, user: int)
    requires DistinctIds(roles) && OnlyDegreesOf(roles, a, b, user)
    ensures forall v :: HoldsNamed(roles, b, v, "Admin") ==> HoldsNamed(roles, a, v, "Admin")
  {
    forall v, id | Named(roles, id, "Admin") && Holds(b, v, id) ensures Holds(a, v, id) {
      var i :| 0 <= i < |b| && Is(b[i], v, id);
      if i < |a| { assert a[i] in a && Is(a[i], v, id); }
    }
  }

  function FewRoles(): seq<Role> {
    [Role(1, Some(EA), None), Role(2, Some("Admin"), None), Role(3, Some("UserAdmin"), None)]
  }

  function OneEditor(): Table { Table([UserRole(1, Some(9), Some(3), None)], 2) }

  lemma FewRolesAre(id: int, name: string)
    ensures Named(FewRoles(), id, name) <==>
              (id == 1 && name == EA) || (id == 2 && name == "Admin") || (id == 3 && name == "UserAdmin")
    ensures DistinctIds(FewRoles()) && NamesUnique(FewRoles())
  {
    var rs := FewRoles();
    assert rs[0] in rs && rs[1] in rs && rs[2] in rs;
    assert |EA| == 17 && |"Admin"| == 5 && |"UserAdmin"| == 9;
  }

  lemma OneEditorIs()
    ensures OnePair(OneEditor().rows) && forall user, id :: Holds(OneEditor().rows, user, id) <==> user == 9 && id == 3
    ensures forall name, d :: !DatedAt(FewRoles(), OneEditor().rows, 5, name, d)
  {
    var rows := OneEditor().rows;
    assert rows[0] in rows;
    forall u, x ensures Count(rows, u, x) <= 1 { assert Count(rows[1..], u, x) == 0; }
  }

  lemma EditorAsksTooMuch()
    ensures var roles, rows, body := FewRoles(), OneEditor().rows, DegreeBody(Some(Day(100)), None, None);
            && Unique(roles, rows) && MayEdit(roles, rows, 9) && !HoldsNamed(roles, rows, 9, "Admin")
            && Acceptable(roles, rows, 5, body) && WritesEA(roles, body) && !NothingNew(roles, rows, 5, body)
            && (exists id :: id in [2] && Named(roles, id, "Admin"))
  {
    OneEditorIs();
    FewRolesAre(1, EA);
    FewRolesAre(2, "Admin");
    FewRolesAre(3, "UserAdmin");
    forall id | Named(FewRoles(), id, "Admin") ensures id == 2 { FewRolesAre(id, "Admin"); }
    hide Named; hide Holds; hide DatedAt; hide OnePair; hide NamesUnique; hide FewRoles; hide OneEditor;
    assert 2 in [2];
  }

  /** A refused request that keeps what it wrote: the caller may edit members but not make an Admin, and the entry
      degree of the same request stays. */
  method RefusedAfterWriting() returns (before: Table, after: Table, r: PatchResult)
    ensures r == Forbidden && before == OneEditor() && after != before
    ensures DatedAt(FewRoles(), after.rows, 5, EA, 100) && !DatedAt(FewRoles(), before.rows, 5, EA, 100)
  {
    FewRolesAre(1, EA);
    EditorAsksTooMuch();
    OneEditorIs();
    hide FewRoles; hide DatedAt; hide OneEditor; hide NamesUnique; hide OnePair; hide MayEdit; hide HoldsNamed; hide Acceptable;
    hide NothingNew; hide WritesEA; hide Named;
    before := OneEditor();
    var users := new UserRoles(FewRoles(), before);
    var body := DegreeBody(Some(Day(100)), None, None);
    ghost var mid;
    r, mid := users.PatchMember(9, true, true, 5, body, Some([2]), false, false, false);
    after := users.table;
  }

  lemma DatedAtDated(roles: seq<Role>, rows: seq<UserRole>, user: int, name: string, day: int)
    requires DatedAt(roles, rows, user, name, day)
    ensures Dated(roles, rows, user, name)
  {
  }

  /** A write that does not submit the Admin role gives it to nobody. */
  lemma NoNewAdmin(roles: seq<Role>, t: Table, user: int, submitted: seq<int>)
    requires DistinctIds(roles)
    ensures (forall id :: id in submitted ==> !Named(roles, id, "Admin")) ==>
              forall v :: HoldsNamed(roles, RolesAfter(roles, t, user, submitted, NonDegreeRoleIds(roles)).rows, v, "Admin") ==>
                HoldsNamed(roles, t.rows, v, "Admin")
  {
    var assignable := NonDegreeRoleIds(roles);
    var after := RolesAfter(roles, t, user, submitted, assignable).rows;
    if forall id :: id in submitted ==> !Named(roles, id, "Admin") {
      forall v, id | Named(roles, id, "Admin") && Holds(after, v, id) ensures Holds(t.rows, v, id) {
        if v == user {
          assert Assignable(roles, id);
          TargetHoldsExactlySubmitted(roles, t, user, submitted, assignable, id);
        } else {
          OthersLoseExactlyEvicted(roles, t, user, submitted, assignable, v, id);
        }
      }
    }
  }

  lemma RoleWriteIsStep(roles: seq<Role>, t: Table, user: int, submitted: seq<int>)
    ensures Step(roles, t, RolesAfter(roles, t, user, submitted, NonDegreeRoleIds(roles)))
  {
    hide RolesAfter; hide GuardedDegreeSet;
  }

  lemma EvictedSnoc(roles: seq<Role>, added: seq<int>, i: nat)
    requires i < |added|
    ensures Evicted(roles, added[..i + 1])
         == Evicted(roles, added[..i])
            + if AdmitsOne(roles, added[i]) then {added[i]} else {}
  {
    assert added[..i + 1] == added[..i] + [added[i]];
  }

  lemma NewsSnoc(next: int, user: int, added: seq<int>, i: nat)
    requires i < |added|
    ensures News(next, user, added[..i + 1])
         == News(next, user, added[..i]) + [UserRole(next + i, Some(user), Some(added[i]), None)]
  {
  }

  function Elements(ids: seq<int>): set<int> { set x | x in ids }

  /** The member's assignable roles that were not submitted. */
  function CurrentOutside(rows: seq<UserRole>, user: int, submitted: seq<int>, assignable: seq<int>): (r: seq<int>)
    ensures forall x :: x in r <==> x in assignable && x !in submitted && Holds(rows, user, x)
  {
    if rows == [] then []
    else
      var rest := CurrentOutside(rows[1..], user, submitted, assignable);
      assert forall x :: Holds(rows, user, x) <==> Is(rows[0], user, x) || Holds(rows[1..], user, x);
      if rows[0].user == Some(user) && rows[0].role.Some? && rows[0].role.value in assignable && rows[0].role.value !in submitted
      then [rows[0].role.value] + rest else rest
  }

  lemma {:induction false} SurvivingAll(rows: seq<UserRole>, user: int, removed: set<int>, evicted: set<int>)
    requires forall row :: row in rows ==> Stays(row, user, removed, evicted)
    ensures Surviving(rows, user, removed, evicted) == rows
  {
    if rows != [] {
      assert rows[0] in rows;
      SurvivingAll(rows[1..], user, removed, evicted);
    }
  }

  lemma {:induction false} SurvivingTwice(rows: seq<UserRole>, user: int, r1: set<int>, e1: set<int>, r2: set<int>, e2: set<int>)
    ensures Surviving(Surviving(rows, user, r1, e1), user, r2, e2) == Surviving(rows, user, r1 + r2, e1 + e2)
  {
    if rows != [] {
      SurvivingTwice(rows[1..], user, r1, e1, r2, e2);
      var rest := Surviving(rows[1..], user, r1, e1);
      if Stays(rows[0], user, r1, e1) {
        assert ([rows[0]] + rest)[1..] == rest;
      } else {
        assert Surviving(rows, user, r1, e1) == rest;
      }
    }
  }

  lemma {:induction false} SurvivingAppend(a: seq<UserRole>, b: seq<UserRole>, user: int, removed: set<int>, evicted: set<int>)
    ensures Surviving(a + b, user, removed, evicted) == Surviving(a, user, removed, evicted) + Surviving(b, user, removed, evicted)
  {
    if a == [] {
      assert a + b == b;
    } else {
      assert (a + b)[1..] == a[1..] + b;
      SurvivingAppend(a[1..], b, user, removed, evicted);
    }
  }

  lemma DeleteNone(rows: seq<UserRole>, user: int, ids: seq<int>)
    ensures Surviving(rows, user, Elements(ids[..0]), {}) == rows
  {
    SurvivingAll(rows, user, Elements(ids[..0]), {});
  }

  lemma GrantNone(roles: seq<Role>, rows: seq<UserRole>, next: int, user: int, added: seq<int>)
    ensures Surviving(rows, user, {}, Evicted(roles, added[..0])) + News(next, user, added[..0]) == rows
  {
    SurvivingAll(rows, user, {}, Evicted(roles, added[..0]));
    assert News(next, user, added[..0]) == [];
  }

  /** The two loops together delete what a role write deletes. */
  lemma DeletedThenGranted(roles: seq<Role>, rows: seq<UserRole>, user: int, submitted: seq<int>, assignable: seq<int>, toAdd: seq<int>)
    ensures Surviving(Surviving(rows, user, Elements(CurrentOutside(rows, user, submitted, assignable)), {}), user, {},
                      Evicted(roles, toAdd))
         == Surviving(rows, user, Removed(rows, user, submitted, assignable), Evicted(roles, toAdd))
  {
    var ids, gone, none: set<int> := CurrentOutside(rows, user, submitted, assignable), Removed(rows, user, submitted, assignable), {};
    forall x ensures x in Elements(ids) <==> x in gone { }
    SurvivingTwice(rows, user, Elements(ids), none, none, Evicted(roles, toAdd));
    hide Surviving; hide Evicted; hide CurrentOutside;
    assert Elements(ids) + none == gone && none + Evicted(roles, toAdd) == Evicted(roles, toAdd);
  }

  lemma DeleteOne(rows: seq<UserRole>, user: int, ids: seq<int>, i: nat)
    requires i < |ids|
    ensures Surviving(Surviving(rows, user, Elements(ids[..i]), {}), user, {ids[i]}, {}) == Surviving(rows, user, Elements(ids[..i + 1]), {})
  {
    hide Surviving;
    SurvivingTwice(rows, user, Elements(ids[..i]), {}, {ids[i]}, {});
    assert Elements(ids[..i + 1]) == Elements(ids[..i]) + {ids[i]};
    var none: set<int> := {};
    assert none + none == none;
  }

  /** The effect of granting one more role. */
  lemma GrantOne(roles: seq<Role>, rows: seq<UserRole>, next: int, user: int, added: seq<int>, i: nat)
    requires i < |added| && DistinctIds(roles)
    ensures var now := Surviving(rows, user, {}, Evicted(roles, added[..i])) + News(next, user, added[..i]);
            Surviving(rows, user, {}, Evicted(roles, added[..i + 1])) + News(next, user, added[..i + 1])
              == (if AdmitsOne(roles, added[i]) then Surviving(now, user, {}, {added[i]}) else now)
                 + [UserRole(next + i, Some(user), Some(added[i]), None)]
  {
    EvictedSnoc(roles, added, i);
    NewsSnoc(next, user, added, i);
    EvictOne(rows, user, {}, Evicted(roles, added[..i]), added[i], next, added[..i]);
    hide Surviving; hide News; hide Evicted;
    if !AdmitsOne(roles, added[i]) { assert Evicted(roles, added[..i]) + {} == Evicted(roles, added[..i]); }
  }

  /** Evicting the other holders of one role, with the rows added so far in place. */
  lemma EvictOne(rows: seq<UserRole>, user: int, gone: set<int>, out: set<int>, x: int, next: int, added: seq<int>)
    ensures Surviving(Surviving(rows, user, gone, out) + News(next, user, added), user, {}, {x})
         == Surviving(rows, user, gone, out + {x}) + News(next, user, added)
  {
    SurvivingAppend(Surviving(rows, user, gone, out), News(next, user, added), user, {}, {x});
    SurvivingTwice(rows, user, gone, out, {}, {x});
    NewsAre(next, user, added);
    SurvivingAll(News(next, user, added), user, {}, {x});
    assert gone + {} == gone;
  }
}
