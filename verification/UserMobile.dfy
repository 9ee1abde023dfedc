/** Addresses and the derived `users.mobile` column (api/src/lib/userMobile.ts, api/src/routes/members.ts). */
module UserMobile {
  import opened Wrappers

  const PRIVATE := 0
  const BUSINESS := 1

  /** A row of addresses; `details` holds the text columns this model does not interpret. */
  datatype Address = Address(id: int, owner: Option<int>, ofUser: bool, kind: Option<int>, mobile: Option<string>,
                             deleted: Option<bool>, details: map<string, Option<string>>)

  predicate DistinctIds(rows: seq<Address>) {
    forall i, j :: 0 <= i < j < |rows| ==> rows[i].id != rows[j].id
  }

  predicate Mine(a: Address, user: int) { a.ofUser && a.owner == Some(user) }

  /** The characters `String.prototype.trim` removes. */
  predicate IsSpace(c: char) {
    || '\t' <= c <= '\r' || c == ' ' || c == '\U{a0}' || c == '\U{1680}' || '\U{2000}' <= c <= '\U{200a}'
    || c == '\U{2028}' || c == '\U{2029}' || c == '\U{202f}' || c == '\U{205f}' || c == '\U{3000}' || c == '\U{feff}'
  }

  predicate IsPresent(s: Option<string>) {
    s.Some? && exists c :: c in s.value && !IsSpace(c)
  }

  /** An address whose number counts: not deleted (an unknown flag is not deleted) and not blank. */
  predicate Candidate(a: Address) { a.deleted != Some(true) && IsPresent(a.mobile) }

  function Rank(a: Address): int {
    if a.kind == Some(0) then 0 else if a.kind == Some(1) then 1 else 2
  }

  predicate Before(a: Address, b: Address) { Rank(a) < Rank(b) || (Rank(a) == Rank(b) && a.id < b.id) }

  function Owned(rows: seq<Address>, user: int): (r: seq<Address>)
    ensures forall a :: a in r <==> a in rows && Mine(a, user)
  {
    if rows == [] then []
    else
      var n := |rows| - 1;
      assert rows == rows[..n] + [rows[n]];
      if Mine(rows[n], user) then Owned(rows[..n], user) + [rows[n]] else Owned(rows[..n], user)
  }

  function Candidates(rows: seq<Address>): (r: seq<Address>)
    ensures forall a :: a in r <==> a in rows && Candidate(a)
  {
    if rows == [] then [] else (if Candidate(rows[0]) then [rows[0]] else []) + Candidates(rows[1..])
  }

  function OfKind(rows: seq<Address>, kind: int): (r: seq<Address>)
    ensures forall a :: a in r <==> a in rows && a.kind == Some(kind)
  {
    if rows == [] then [] else (if rows[0].kind == Some(kind) then [rows[0]] else []) + OfKind(rows[1..], kind)
  }

  predicate Sorted(rows: seq<Address>) {
    forall i, j :: 0 <= i < j < |rows| ==> rows[i].id <= rows[j].id
  }

  function Insert(a: Address, sorted: seq<Address>): (r: seq<Address>)
    requires Sorted(sorted)
    ensures Sorted(r) && |r| == |sorted| + 1
    ensures forall b :: b in r <==> b in sorted || b == a
  {
    if sorted == [] || a.id <= sorted[0].id then [a] + sorted
    else
      var rest := Insert(a, sorted[1..]);
      assert forall b :: b in sorted[1..] ==> sorted[0].id <= b.id;
      assert forall b :: b in rest ==> sorted[0].id <= b.id;
      [sorted[0]] + rest
  }

  /** `sort(byIdAscending)`. */
  function SortById(rows: seq<Address>): (r: seq<Address>)
    ensures Sorted(r) && |r| == |rows|
    ensures forall b :: b in r <==> b in rows
  {
    if rows == [] then [] else Insert(rows[0], SortById(rows[1..]))
  }

  lemma SortedFirst(rows: seq<Address>)
    requires rows != []
    ensures SortById(rows)[0] in rows && forall b :: b in rows ==> SortById(rows)[0].id <= b.id
  {
    var r := SortById(rows);
    assert r[0] in r;
    forall b | b in rows ensures r[0].id <= b.id {
      var i :| 0 <= i < |r| && r[i] == b;
    }
  }

  /** `computeUserMobile`: the private numbers first, then business, then any other; the lowest id of each. */
  function ComputeUserMobile(addresses: seq<Address>): Option<string> {
    var candidates := Candidates(addresses);
    var private := SortById(OfKind(candidates, PRIVATE));
    var business := SortById(OfKind(candidates, BUSINESS));
    var other := SortById(candidates);
    if |private| > 0 then private[0].mobile
    else if |business| > 0 then business[0].mobile
    else if |other| > 0 then other[0].mobile
    else None
  }

  /** The code points of white space and line ends in ECMAScript. */
  predicate Blank(c: char) {
    c as int in [9, 10, 11, 12, 13, 32, 160, 5760, 8192, 8193, 8194, 8195, 8196, 8197, 8198, 8199, 8200, 8201, 8202,
                 8232, 8233, 8239, 8287, 12288, 65279]
  }

  /** An address of this user that is not deleted and has a number with something in it. */
  predicate Counts(a: Address, user: int) {
    && a.ofUser && a.owner == Some(user) && a.deleted != Some(true)
    && a.mobile.Some? && exists c :: c in a.mobile.value && !Blank(c)
  }

  lemma BlankIsSpace(c: char)
    ensures Blank(c) <==> IsSpace(c)
  {
  }

  lemma CountsIff(a: Address, user: int)
    ensures Counts(a, user) <==> Mine(a, user) && Candidate(a)
  {
    forall c ensures Blank(c) <==> IsSpace(c) { BlankIsSpace(c); }
    hide Blank; hide IsSpace;
  }

  ghost predicate IsBest(rows: seq<Address>, user: int, a: Address) {
    a in rows && Counts(a, user) && forall b :: b in rows && Counts(b, user) && b != a ==> Before(a, b)
  }

  /** The number of the user's best address: lowest kind, then lowest id. */
  ghost predicate IsMobileOf(rows: seq<Address>, user: int, mobile: Option<string>) {
    || (exists a :: IsBest(rows, user, a) && mobile == a.mobile)
    || (mobile == None && forall a :: a in rows ==> !Counts(a, user))
  }

  /** The lowest id of the first stage that has any. */
  lemma StageIsBest(c: seq<Address>, best: Address)
    requires c != []
    requires var p, b := OfKind(c, PRIVATE), OfKind(c, BUSINESS);
             var stage := if p != [] then p else if b != [] then b else c;
             best in stage && forall a :: a in stage ==> best.id <= a.id
    ensures best in c && forall a :: a in c && a.id != best.id ==> Before(best, a)
  {
    var p, b := OfKind(c, PRIVATE), OfKind(c, BUSINESS);
    forall a | a in c && a.id != best.id ensures Before(best, a) {
      assert a in p <==> a.kind == Some(PRIVATE);
      assert a in b <==> a.kind == Some(BUSINESS);
      assert best in p <==> best.kind == Some(PRIVATE);
      assert best in b <==> best.kind == Some(BUSINESS);
    }
  }

  /** The three-stage choice is the least address by kind and id, in whatever order the rows were read. */
  lemma ComputedIsBest(rows: seq<Address>, user: int, read: seq<Address>)
    requires DistinctIds(rows) && forall a :: a in read <==> a in rows && Mine(a, user)
    ensures IsMobileOf(rows, user, ComputeUserMobile(read))
  {
    var c := Candidates(read);
    forall a ensures Counts(a, user) <==> Mine(a, user) && Candidate(a) { CountsIff(a, user); }
    hide Counts; hide Candidate; hide Mine;
    assert forall a :: a in c <==> a in rows && Counts(a, user);
    if c != [] {
      var p, b := OfKind(c, PRIVATE), OfKind(c, BUSINESS);
      var stage := if p != [] then p else if b != [] then b else c;
      SortedFirst(stage);
      var best := SortById(stage)[0];
      StageIsBest(c, best);
      assert ComputeUserMobile(read) == best.mobile;
      hide Candidates; hide OfKind; hide SortById; hide ComputeUserMobile; hide Before;
      forall a | a in rows && Counts(a, user) && a != best ensures Before(best, a) {
        if a.id == best.id { SameIdSameRow(rows, a, best); }
      }
      assert IsBest(rows, user, best);
    } else {
      forall a | a in rows ensures !Counts(a, user) { assert a in c <==> Counts(a, user); }
    }
  }

  lemma SameIdSameRow(rows: seq<Address>, a: Address, b: Address)
    requires DistinctIds(rows) && a in rows && b in rows && a.id == b.id
    ensures a == b
  {
  }

  /** The stored number is determined by the rows. */
  lemma MobileIsUnique(rows: seq<Address>, user: int, m: Option<string>, n: Option<string>)
    requires IsMobileOf(rows, user, m) && IsMobileOf(rows, user, n)
    ensures m == n
  {
  }
}
