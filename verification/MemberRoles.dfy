/** Role and degree rows of members (api/src/routes/members.ts): the rows of user_roles, what a role write and a
    degree write leave of them, and what every sequence of such writes keeps. */
module MemberRoles {
  import opened Wrappers

  const EA := "EnteredApprentice"
  const FC := "FellowCraft"
  const MM := "MasterMason"

  datatype Role = Role(id: int, name: Option<string>, isGroup: Option<bool>)
  datatype UserRole = UserRole(id: int, user: Option<int>, role: Option<int>, addedAt: Option<int>)
  datatype Table = Table(rows: seq<UserRole>, next: int)

  predicate DegreeName(name: string) { name == EA || name == FC || name == MM }

  /** `name NOT IN (...)`: a role without a name is not listed. */
  predicate NonDegree(role: Role) { role.name.Some? && !DegreeName(role.name.value) }

  predicate Named(roles: seq<Role>, id: int, name: string) {
    exists role :: role in roles && role.id == id && role.name == Some(name)
  }

  /** A role only one member may hold: listed as assignable and not marked as a group. */
  predicate Exclusive(roles: seq<Role>, id: int) {
    exists role :: role in roles && role.id == id && NonDegree(role) && role.isGroup != Some(true)
  }

  /** Not marked as a group: a new holder evicts the others. */
  predicate AdmitsOne(roles: seq<Role>, id: int) {
    exists role :: role in roles && role.id == id && role.isGroup != Some(true)
  }

  predicate Assignable(roles: seq<Role>, id: int) {
    exists role :: role in roles && role.id == id
      && role.name.Some? && role.name.value !in ["EnteredApprentice", "FellowCraft", "MasterMason"]
  }

  predicate DistinctIds(roles: seq<Role>) {
    forall a, b :: a in roles && b in roles && a.id == b.id ==> a == b
  }

  predicate Is(row: UserRole, user: int, role: int) { row.user == Some(user) && row.role == Some(role) }

  predicate Holds(rows: seq<UserRole>, user: int, role: int) {
    exists row :: row in rows && Is(row, user, role)
  }

  function Count(rows: seq<UserRole>, user: int, role: int): nat {
    if rows == [] then 0 else (if Is(rows[0], user, role) then 1 else 0) + Count(rows[1..], user, role)
  }

  // ----- what a role write leaves -----------------------------------------

  predicate Stays(row: UserRole, user: int, removed: set<int>, evicted: set<int>) {
    row.role.Some? && row.user.Some? ==> row.role.value !in if row.user.value == user then removed else evicted
  }

  function Surviving(rows: seq<UserRole>, user: int, removed: set<int>, evicted: set<int>): (r: seq<UserRole>)
    ensures forall row :: row in r <==> row in rows && Stays(row, user, removed, evicted)
  {
    if rows == [] then []
    else (if Stays(rows[0], user, removed, evicted) then [rows[0]] else []) + Surviving(rows[1..], user, removed, evicted)
  }

  function News(next: int, user: int, added: seq<int>): seq<UserRole> {
    seq(|added|, i requires 0 <= i < |added| => UserRole(next + i, Some(user), Some(added[i]), None))
  }

  ghost function Removed(rows: seq<UserRole>, user: int, submitted: seq<int>, assignable: seq<int>): set<int> {
    set x | x in assignable && x !in submitted && Holds(rows, user, x)
  }

  /** The submitted ids without repeats, in the order of their first mention. */
  function Distinct(ids: seq<int>): (r: seq<int>)
    ensures forall x :: x in r <==> x in ids
    ensures forall i, j :: 0 <= i < j < |r| ==> r[i] != r[j]
  {
    if ids == [] then []
    else
      var before := Distinct(ids[..|ids| - 1]);
      assert ids == ids[..|ids| - 1] + [ids[|ids| - 1]];
      if ids[|ids| - 1] in before then before else before + [ids[|ids| - 1]]
  }

  function Additions(rows: seq<UserRole>, user: int, distinct: seq<int>, assignable: seq<int>): (r: seq<int>)
    ensures forall x :: x in r <==> x in distinct && x in assignable && !Holds(rows, user, x)
    ensures (forall i, j :: 0 <= i < j < |distinct| ==> distinct[i] != distinct[j]) ==>
              forall i, j :: 0 <= i < j < |r| ==> r[i] != r[j]
  {
    if distinct == [] then []
    else
      var before := Additions(rows, user, distinct[..|distinct| - 1], assignable);
      var last := distinct[|distinct| - 1];
      assert distinct == distinct[..|distinct| - 1] + [last];
      if last in assignable && !Holds(rows, user, last) then before + [last] else before
  }

  ghost function Evicted(roles: seq<Role>, added: seq<int>): set<int> {
    set x | x in added && AdmitsOne(roles, x)
  }

  ghost function RolesAfter(roles: seq<Role>, t: Table, user: int, submitted: seq<int>, assignable: seq<int>): Table {
    var added := Additions(t.rows, user, Distinct(submitted), assignable);
    Table(Surviving(t.rows, user, Removed(t.rows, user, submitted, assignable), Evicted(roles, added))
          + News(t.next, user, added), t.next + |added|)
  }

  lemma NewsAre(next: int, user: int, added: seq<int>)
    ensures forall row :: row in News(next, user, added) ==> row.user == Some(user) && row.role.Some? && row.role.value in added
                                                             && row.addedAt == None
    ensures forall x :: x in added <==> Holds(News(next, user, added), user, x)
  {
    forall x | x in added ensures Holds(News(next, user, added), user, x) {
      var i :| 0 <= i < |added| && added[i] == x;
      assert News(next, user, added)[i] in News(next, user, added);
    }
  }

  /** The member ends with exactly the submitted assignable roles. */
  lemma TargetHoldsExactlySubmitted(roles: seq<Role>, t: Table, user: int, submitted: seq<int>, assignable: seq<int>, x: int)
    requires x in assignable
    ensures Holds(RolesAfter(roles, t, user, submitted, assignable).rows, user, x) <==> x in submitted
  {
    var added := Additions(t.rows, user, Distinct(submitted), assignable);
    var gone, out := Removed(t.rows, user, submitted, assignable), Evicted(roles, added);
    var kept := Surviving(t.rows, user, gone, out);
    NewsAre(t.next, user, added);
    assert Holds(RolesAfter(roles, t, user, submitted, assignable).rows, user, x)
      <==> Holds(kept, user, x) || Holds(News(t.next, user, added), user, x);
    assert Holds(kept, user, x) <==> Holds(t.rows, user, x) && x !in gone by {
      forall row | row in t.rows && Is(row, user, x) && x !in gone ensures row in kept { }
    }
  }

  /** Another member loses exactly the roles that were newly granted here and admit one holder only. */
  lemma OthersLoseExactlyEvicted(roles: seq<Role>, t: Table, user: int, submitted: seq<int>, assignable: seq<int>,
                                 other: int, x: int)
    requires other != user
    ensures Holds(RolesAfter(roles, t, user, submitted, assignable).rows, other, x) <==>
              Holds(t.rows, other, x)
              && !(x in submitted && x in assignable && !Holds(t.rows, user, x) && AdmitsOne(roles, x))
  {
    var added := Additions(t.rows, user, Distinct(submitted), assignable);
    var gone, out := Removed(t.rows, user, submitted, assignable), Evicted(roles, added);
    var kept := Surviving(t.rows, user, gone, out);
    NewsAre(t.next, user, added);
    assert Holds(RolesAfter(roles, t, user, submitted, assignable).rows, other, x) <==> Holds(kept, other, x);
    forall row | row in t.rows && Is(row, other, x) && x !in out ensures row in kept { }
  }

  /** The rows of roles outside `assignable`, in order. */
  function Outside(rows: seq<UserRole>, assignable: seq<int>): seq<UserRole> {
    if rows == [] then []
    else (if rows[0].role.Some? && rows[0].role.value in assignable then [] else [rows[0]]) + Outside(rows[1..], assignable)
  }

  lemma {:induction false} OutsideAppend(a: seq<UserRole>, b: seq<UserRole>, assignable: seq<int>)
    ensures Outside(a + b, assignable) == Outside(a, assignable) + Outside(b, assignable)
  {
    if a == [] {
      assert a + b == b;
    } else {
      var head := if a[0].role.Some? && a[0].role.value in assignable then [] else [a[0]];
      assert (a + b)[0] == a[0] && (a + b)[1..] == a[1..] + b;
      OutsideAppend(a[1..], b, assignable);
      assert Outside(a + b, assignable) == head + (Outside(a[1..], assignable) + Outside(b, assignable));
    }
  }

  lemma {:induction false} OutsideSurvives(rows: seq<UserRole>, user: int, removed: set<int>, evicted: set<int>, assignable: seq<int>)
    requires forall x :: x in removed || x in evicted ==> x in assignable
    ensures Outside(Surviving(rows, user, removed, evicted), assignable) == Outside(rows, assignable)
  {
    if rows != [] {
      OutsideSurvives(rows[1..], user, removed, evicted, assignable);
      var rest := Surviving(rows[1..], user, removed, evicted);
      if Stays(rows[0], user, removed, evicted) {
        OutsideAppend([rows[0]], rest, assignable);
        assert Outside([rows[0]][1..], assignable) == [];
      } else {
        assert Surviving(rows, user, removed, evicted) == rest;
        assert Outside(rows, assignable) == Outside(rows[1..], assignable);
      }
    }
  }

  lemma {:induction false} OutsideNone(rows: seq<UserRole>, assignable: seq<int>)
    requires forall row :: row in rows ==> row.role.Some? && row.role.value in assignable
    ensures Outside(rows, assignable) == []
  {
    if rows != [] {
      assert rows[0] in rows;
      OutsideNone(rows[1..], assignable);
    }
  }

  lemma AddedAssignable(rows: seq<UserRole>, user: int, distinct: seq<int>, assignable: seq<int>)
    ensures forall row: UserRole :: row.role.Some? && row.role.value in Additions(rows, user, distinct, assignable) ==>
              row.role.value in assignable
  {
  }

  /** Rows of any other role, degrees included, are untouched for every member. */
  lemma DegreeRowsUntouched(roles: seq<Role>, t: Table, user: int, submitted: seq<int>, assignable: seq<int>)
    ensures Outside(RolesAfter(roles, t, user, submitted, assignable).rows, assignable) == Outside(t.rows, assignable)
  {
    var added := Additions(t.rows, user, Distinct(submitted), assignable);
    var gone, out := Removed(t.rows, user, submitted, assignable), Evicted(roles, added);
    OutsideSurvives(t.rows, user, gone, out, assignable);
    NewsAre(t.next, user, added);
    AddedAssignable(t.rows, user, Distinct(submitted), assignable);
    OutsideNone(News(t.next, user, added), assignable);
    OutsideAppend(Surviving(t.rows, user, gone, out), News(t.next, user, added), assignable);
  }
}
