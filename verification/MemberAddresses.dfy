/** Nested address writes of the member handlers and their transactions (api/src/routes/members.ts). */
module MemberAddresses {
  import opened Wrappers
  import opened UserMobile

  /** A request field that may be missing from the body. */
  datatype Given<T> = Absent | Given(value: Option<T>)

  datatype AddressInput = AddressInput(id: Option<int>, kind: Given<int>, mobile: Given<string>,
                                       details: map<string, Option<string>>, destroy: bool)

  datatype Store = Store(rows: seq<Address>, mobiles: map<int, Option<string>>, next: int)

  const COLUMNS := {"purpose", "street1", "street2", "street3", "zip", "city", "phone", "fax", "email", "remarks"}
  const DEFAULT_PURPOSE := "gesch\U{e4}ftlich"

  ghost predicate Sound(s: Store) {
    DistinctIds(s.rows) && forall a :: a in s.rows ==> a.id < s.next
  }

  function Find(rows: seq<Address>, user: int, id: int): (r: Option<nat>)
    ensures r.Some? ==> r.value < |rows| && rows[r.value].id == id && Mine(rows[r.value], user)
    ensures r.None? ==> forall a :: a in rows && a.id == id ==> !Mine(a, user)
  {
    if rows == [] then None
    else
      var n := |rows| - 1;
      assert rows == rows[..n] + [rows[n]];
      if rows[n].id == id && Mine(rows[n], user) then Some(n) else Find(rows[..n], user, id)
  }

  function Set<T>(was: Option<T>, field: Given<T>): Option<T> {
    if field.Given? then field.value else was
  }

  /** An update touches the given columns only. */
  function Edited(a: Address, input: AddressInput): Address {
    a.(kind := Set(a.kind, input.kind), mobile := Set(a.mobile, input.mobile),
       details := a.details + map k | k in input.details && k in COLUMNS :: input.details[k])
  }

  /** A missing or null purpose takes the column default, every other missing column is null. */
  function Created(id: int, user: int, input: AddressInput): Address {
    var details := map k | k in COLUMNS ::
      if k in input.details && input.details[k].Some? then input.details[k]
      else if k == "purpose" then Some(DEFAULT_PURPOSE) else None;
    Address(id, Some(user), true, Set(None, input.kind), Set(None, input.mobile), Some(false), details)
  }

  /** One nested input; an id that is not an address of this member is not found. */
  function ApplyInput(s: Store, user: int, input: AddressInput): Option<Store> {
    if input.id.None? then Some(s.(rows := s.rows + [Created(s.next, user, input)], next := s.next + 1))
    else
      var i := Find(s.rows, user, input.id.value);
      if i.None? then None
      else if input.destroy then Some(s.(rows := s.rows[..i.value] + s.rows[i.value + 1..]))
      else Some(s.(rows := s.rows[i.value := Edited(s.rows[i.value], input)]))
  }

  function ApplyInputs(s: Store, user: int, inputs: seq<AddressInput>): Option<Store> {
    if inputs == [] then Some(s)
    else
      var before := ApplyInputs(s, user, inputs[..|inputs| - 1]);
      if before.None? then None else ApplyInput(before.value, user, inputs[|inputs| - 1])
  }

  function CountKind(rows: seq<Address>, user: int, kind: int): nat {
    if rows == [] then 0
    else (if Mine(rows[0], user) && rows[0].deleted == Some(false) && rows[0].kind == Some(kind) then 1 else 0)
         + CountKind(rows[1..], user, kind)
  }

  /** At most one private and one business address among the rows marked as not deleted. */
  predicate FewEnough(rows: seq<Address>, user: int) {
    CountKind(rows, user, PRIVATE) <= 1 && CountKind(rows, user, BUSINESS) <= 1
  }

  /** No two live addresses of the member are both private, kind 0, or both business, kind 1. */
  predicate OneOfEach(rows: seq<Address>, user: int) {
    forall a, b :: a in rows && b in rows && LiveOf(a, user) && LiveOf(b, user) && a.kind == b.kind && (a.kind == Some(0) || a.kind == Some(1)) ==>
      a == b
  }

  predicate LiveOf(a: Address, user: int) { a.ofUser && a.owner == Some(user) && a.deleted == Some(false) }

  lemma {:induction false} CountKindIs(rows: seq<Address>, user: int, kind: int)
    requires DistinctIds(rows)
    ensures CountKind(rows, user, kind) <= 1 <==>
              forall a, b :: a in rows && b in rows && LiveOf(a, user) && LiveOf(b, user) && a.kind == Some(kind) && b.kind == Some(kind) ==> a == b
    ensures CountKind(rows, user, kind) == 0 <==> forall a :: a in rows && LiveOf(a, user) ==> a.kind != Some(kind)
  {
    if rows != [] {
      CountKindIs(rows[1..], user, kind);
      assert rows == [rows[0]] + rows[1..];
      assert rows[0] !in rows[1..];
    }
  }

  /** The two counts are small enough exactly if there are no two of either kind. */
  lemma FewEnoughIff(rows: seq<Address>, user: int)
    requires DistinctIds(rows)
    ensures FewEnough(rows, user) <==> OneOfEach(rows, user)
  {
    CountKindIs(rows, user, 0);
    CountKindIs(rows, user, 1);
    hide CountKind; hide LiveOf;
  }

  // ----- each row for itself ----------------------------------------------

  function RowOf(rows: seq<Address>, id: int): (r: Option<Address>)
    ensures r.Some? ==> r.value in rows && r.value.id == id
    ensures r.None? ==> forall a :: a in rows ==> a.id != id
  {
    if rows == [] then None else if rows[0].id == id then Some(rows[0]) else RowOf(rows[1..], id)
  }

  /** What the inputs naming this row make of it, in their order. */
  function RowAfter(row: Option<Address>, id: int, inputs: seq<AddressInput>): Option<Address> {
    if inputs == [] then row
    else
      var before, last := RowAfter(row, id, inputs[..|inputs| - 1]), inputs[|inputs| - 1];
      if last.id != Some(id) || before.None? then before
      else if last.destroy then None else Some(Edited(before.value, last))
  }

  lemma RowOfIs(rows: seq<Address>, a: Address)
    requires DistinctIds(rows) && a in rows
    ensures RowOf(rows, a.id) == Some(a)
  {
    SameIdSameRow(rows, a, RowOf(rows, a.id).value);
  }

  lemma InputKeepsSound(s: Store, user: int, input: AddressInput)
    requires Sound(s) && ApplyInput(s, user, input).Some?
    ensures Sound(ApplyInput(s, user, input).value)
    ensures s.next <= ApplyInput(s, user, input).value.next
    ensures ApplyInput(s, user, input).value.mobiles == s.mobiles
  {
    var t := ApplyInput(s, user, input).value;
    assert forall i :: 0 <= i < |s.rows| ==> s.rows[i] in s.rows;
    if input.id.Some? && !input.destroy {
      var i := Find(s.rows, user, input.id.value).value;
      assert Edited(s.rows[i], input).id == s.rows[i].id;
    }
    hide Find; hide Edited;
  }

  lemma {:induction false} RowOfAppend(rows: seq<Address>, more: seq<Address>, id: int)
    ensures RowOf(rows + more, id) == if RowOf(rows, id).Some? then RowOf(rows, id) else RowOf(more, id)
  {
    if rows == [] {
      assert rows + more == more;
    } else {
      assert (rows + more)[0] == rows[0] && (rows + more)[1..] == rows[1..] + more;
      RowOfAppend(rows[1..], more, id);
    }
  }

  /** Replacing one row by `mid` changes the row of that id only. */
  lemma RowOfSplice(before: seq<Address>, row: Address, after: seq<Address>, mid: seq<Address>, id: int)
    requires |mid| <= 1 && forall a :: a in mid ==> a.id == row.id
    requires forall a :: a in before || a in after ==> a.id != row.id
    ensures RowOf(before + mid + after, id) == if row.id == id then RowOf(mid, id) else RowOf(before + [row] + after, id)
  {
    RowOfAppend(before + mid, after, id);
    RowOfAppend(before, mid, id);
    RowOfAppend(before + [row], after, id);
    RowOfAppend(before, [row], id);
  }

  lemma SplitRows(rows: seq<Address>, i: nat)
    requires DistinctIds(rows) && i < |rows|
    ensures rows == rows[..i] + [rows[i]] + rows[i + 1..]
    ensures forall a :: a in rows[..i] || a in rows[i + 1..] ==> a.id != rows[i].id
  {
  }

  lemma SplicedRow(rows: seq<Address>, i: nat, mid: seq<Address>, id: int)
    requires DistinctIds(rows) && i < |rows| && |mid| <= 1 && forall a :: a in mid ==> a.id == rows[i].id
    ensures RowOf(rows[..i] + mid + rows[i + 1..], id) == if rows[i].id == id then RowOf(mid, id) else RowOf(rows, id)
  {
    SplitRows(rows, i);
    hide DistinctIds; hide RowOf;
    RowOfSplice(rows[..i], rows[i], rows[i + 1..], mid, id);
  }

  lemma NamedInputTouchesItsRow(s: Store, user: int, input: AddressInput, i: nat, id: int)
    requires Sound(s) && i < |s.rows|
    ensures RowOf(s.rows[..i] + s.rows[i + 1..], id) == if s.rows[i].id == id then None else RowOf(s.rows, id)
    ensures RowOf(s.rows[i := Edited(s.rows[i], input)], id)
         == if s.rows[i].id == id then Some(Edited(s.rows[i], input)) else RowOf(s.rows, id)
  {
    var edited := Edited(s.rows[i], input);
    SplicedRow(s.rows, i, [], id);
    SplicedRow(s.rows, i, [edited], id);
    assert edited.id == s.rows[i].id;
    hide DistinctIds; hide Edited;
    assert s.rows[..i] + [] + s.rows[i + 1..] == s.rows[..i] + s.rows[i + 1..];
    assert s.rows[..i] + [edited] + s.rows[i + 1..] == s.rows[i := edited];
  }

  /** One input changes no row but the one it names. */
  lemma InputTouchesItsRow(s: Store, user: int, input: AddressInput, id: int)
    requires Sound(s) && id < s.next && ApplyInput(s, user, input).Some?
    ensures RowOf(ApplyInput(s, user, input).value.rows, id) == RowAfter(RowOf(s.rows, id), id, [input])
  {
    assert RowAfter(RowOf(s.rows, id), id, [input][..0]) == RowOf(s.rows, id);
    if input.id.None? {
      RowOfAppend(s.rows, [Created(s.next, user, input)], id);
    } else {
      var i := Find(s.rows, user, input.id.value).value;
      NamedInputTouchesItsRow(s, user, input, i, id);
      RowOfIs(s.rows, s.rows[i]);
      hide Find; hide RowOf; hide DistinctIds;
    }
  }

  lemma {:induction false} InputsKeepSound(s: Store, user: int, inputs: seq<AddressInput>)
    requires Sound(s) && ApplyInputs(s, user, inputs).Some?
    ensures Sound(ApplyInputs(s, user, inputs).value)
    ensures s.next <= ApplyInputs(s, user, inputs).value.next
    ensures ApplyInputs(s, user, inputs).value.mobiles == s.mobiles
  {
    if inputs != [] {
      var n := |inputs| - 1;
      InputsKeepSound(s, user, inputs[..n]);
      InputKeepsSound(ApplyInputs(s, user, inputs[..n]).value, user, inputs[n]);
    }
  }

  lemma {:induction false} EachRowAfter(s: Store, user: int, inputs: seq<AddressInput>, id: int)
    requires Sound(s) && id < s.next && ApplyInputs(s, user, inputs).Some?
    ensures RowOf(ApplyInputs(s, user, inputs).value.rows, id) == RowAfter(RowOf(s.rows, id), id, inputs)
  {
    if inputs != [] {
      var n := |inputs| - 1;
      var t := ApplyInputs(s, user, inputs[..n]).value;
      InputsKeepSound(s, user, inputs[..n]);
      EachRowAfter(s, user, inputs[..n], id);
      InputTouchesItsRow(t, user, inputs[n], id);
      assert RowAfter(RowOf(t.rows, id), id, [inputs[n]][..0]) == RowOf(t.rows, id);
    }
  }

  // ----- columns ----------------------------------------------------------

  /** The last given value stands, the old one if none is given. */
  ghost predicate EndsAs<T>(was: Option<T>, says: seq<Given<T>>, value: Option<T>) {
    || (value == was && forall j :: 0 <= j < |says| ==> says[j].Absent?)
    || (exists i :: 0 <= i < |says| && says[i].Given? && value == says[i].value && forall j :: i < j < |says| ==> says[j].Absent?)
  }

  lemma EndsAsSnoc<T>(was: Option<T>, says: seq<Given<T>>, value: Option<T>, last: Given<T>)
    requires EndsAs(was, says, value)
    ensures EndsAs(was, says + [last], if last.Given? then last.value else value)
  {
    var all := says + [last];
    if last.Given? {
      assert all[|says|] == last;
    } else if !(value == was && forall j :: 0 <= j < |says| ==> says[j].Absent?) {
      var i :| 0 <= i < |says| && says[i].Given? && value == says[i].value && forall j :: i < j < |says| ==> says[j].Absent?;
      assert all[i] == says[i];
    }
  }

  /** What each input says to a column of the row with this id. */
  function KindSays(inputs: seq<AddressInput>, id: int): seq<Given<int>> {
    seq(|inputs|, i requires 0 <= i < |inputs| => if inputs[i].id == Some(id) then inputs[i].kind else Absent)
  }

  function MobileSays(inputs: seq<AddressInput>, id: int): seq<Given<string>> {
    seq(|inputs|, i requires 0 <= i < |inputs| => if inputs[i].id == Some(id) then inputs[i].mobile else Absent)
  }

  function ColumnSays(inputs: seq<AddressInput>, id: int, column: string): seq<Given<string>> {
    seq(|inputs|, i requires 0 <= i < |inputs| =>
      if inputs[i].id == Some(id) && column in inputs[i].details then Given(inputs[i].details[column]) else Absent)
  }

  function Detail(a: Address, column: string): Option<string> {
    if column in a.details then a.details[column] else None
  }

  predicate Destroys(inputs: seq<AddressInput>, id: int) {
    exists i :: 0 <= i < |inputs| && inputs[i].id == Some(id) && inputs[i].destroy
  }

  /** A text column the address inputs may write. */
  predicate Writable(column: string) {
    column in ["purpose", "street1", "street2", "street3", "zip", "city", "phone", "fax", "email", "remarks"]
  }

  /** Column by column: the row kept its place and owner, and every column ends as the inputs naming the row say. */
  ghost predicate Columns(was: Address, inputs: seq<AddressInput>, row: Address) {
    && row.id == was.id && row.owner == was.owner && row.ofUser == was.ofUser && row.deleted == was.deleted
    && EndsAs(was.kind, KindSays(inputs, was.id), row.kind)
    && EndsAs(was.mobile, MobileSays(inputs, was.id), row.mobile)
    && (forall k :: Writable(k) ==> EndsAs(Detail(was, k), ColumnSays(inputs, was.id, k), Detail(row, k)))
    && (forall k :: !Writable(k) ==> Detail(row, k) == Detail(was, k))
  }

  /** Gone if an input naming the row destroys it, else written column by column. */
  ghost predicate RowWritten(was: Address, inputs: seq<AddressInput>, now: Option<Address>) {
    if Destroys(inputs, was.id) then now == None else now.Some? && Columns(was, inputs, now.value)
  }

  lemma SaysSnoc(inputs: seq<AddressInput>, id: int, column: string)
    requires inputs != []
    ensures var n := |inputs| - 1; var last := inputs[n]; var names := last.id == Some(id);
            && KindSays(inputs, id) == KindSays(inputs[..n], id) + [if names then last.kind else Absent]
            && MobileSays(inputs, id) == MobileSays(inputs[..n], id) + [if names then last.mobile else Absent]
            && ColumnSays(inputs, id, column) == ColumnSays(inputs[..n], id, column)
                 + [if names && column in last.details then Given(last.details[column]) else Absent]
  {
  }

  lemma DestroysSnoc(inputs: seq<AddressInput>, id: int)
    requires inputs != []
    ensures var n := |inputs| - 1;
            Destroys(inputs, id) <==> Destroys(inputs[..n], id) || (inputs[n].id == Some(id) && inputs[n].destroy)
  {
    var n := |inputs| - 1;
    if Destroys(inputs[..n], id) {
      var i :| 0 <= i < n && inputs[..n][i].id == Some(id) && inputs[..n][i].destroy;
      assert inputs[i].id == Some(id) && inputs[i].destroy;
    }
    if Destroys(inputs, id) {
      var i :| 0 <= i < |inputs| && inputs[i].id == Some(id) && inputs[i].destroy;
      if i < n { assert inputs[..n][i].id == Some(id) && inputs[..n][i].destroy; }
    }
  }

  /** One more input that leaves the row in place. */
  lemma ColumnsSnoc(was: Address, inputs: seq<AddressInput>, row: Address)
    requires inputs != [] && Columns(was, inputs[..|inputs| - 1], row)
    ensures var last := inputs[|inputs| - 1]; Columns(was, inputs, if last.id == Some(was.id) then Edited(row, last) else row)
  {
    var n := |inputs| - 1;
    var last := inputs[n];
    var names := last.id == Some(was.id);
    var now := if names then Edited(row, last) else row;
    SaysSnoc(inputs, was.id, "");
    EndsAsSnoc(was.kind, KindSays(inputs[..n], was.id), row.kind, if names then last.kind else Absent);
    EndsAsSnoc(was.mobile, MobileSays(inputs[..n], was.id), row.mobile, if names then last.mobile else Absent);
    hide EndsAs; hide KindSays; hide MobileSays; hide ColumnSays;
    forall k | Writable(k) ensures EndsAs(Detail(was, k), ColumnSays(inputs, was.id, k), Detail(now, k)) {
      SaysSnoc(inputs, was.id, k);
      var said := if names && k in last.details then Given(last.details[k]) else Absent;
      EndsAsSnoc(Detail(was, k), ColumnSays(inputs[..n], was.id, k), Detail(row, k), said);
    }
  }

  lemma {:induction false} AfterIsWritten(was: Address, inputs: seq<AddressInput>)
    ensures RowWritten(was, inputs, RowAfter(Some(was), was.id, inputs))
  {
    if inputs != [] {
      var n := |inputs| - 1;
      AfterIsWritten(was, inputs[..n]);
      DestroysSnoc(inputs, was.id);
      hide Columns; hide Destroys; hide Edited;
      var before := RowAfter(Some(was), was.id, inputs[..n]);
      if before.Some? { ColumnsSnoc(was, inputs, before.value); }
    }
  }

  /** A row as an input without id creates it: the given columns, null for the others, the column default for a purpose. */
  ghost predicate IsCreated(a: Address, id: int, user: int, input: AddressInput) {
    && a.id == id && a.owner == Some(user) && a.ofUser && a.deleted == Some(false)
    && a.kind == (if input.kind.Given? then input.kind.value else None)
    && a.mobile == (if input.mobile.Given? then input.mobile.value else None)
    && forall k :: Detail(a, k) == if Writable(k) && k in input.details && input.details[k].Some? then input.details[k]
                                   else if k == "purpose" then Some("gesch\U{e4}ftlich") else None
  }

  lemma CreatedIs(id: int, user: int, input: AddressInput)
    ensures IsCreated(Created(id, user, input), id, user, input)
  {
  }

  /** How many of the inputs create a row; the ids follow on each other. */
  function NewRows(inputs: seq<AddressInput>): nat {
    if inputs == [] then 0
    else NewRows(inputs[..|inputs| - 1]) + if inputs[|inputs| - 1].id.None? then 1 else 0
  }

  /** The new row of input `i`, as the inputs after it leave it. */
  ghost predicate NewRowWritten(next: int, user: int, inputs: seq<AddressInput>, i: nat, rows: seq<Address>)
    requires i < |inputs| && inputs[i].id.None?
  {
    var id := next + NewRows(inputs[..i]);
    CreatedThenWritten(id, user, inputs[i], inputs[i + 1..], RowOf(rows, id))
  }

  ghost predicate CreatedThenWritten(id: int, user: int, input: AddressInput, later: seq<AddressInput>, now: Option<Address>) {
    exists a :: IsCreated(a, id, user, input) && RowWritten(a, later, now)
  }

  lemma {:induction false} NextCounts(s: Store, user: int, inputs: seq<AddressInput>)
    requires ApplyInputs(s, user, inputs).Some?
    ensures ApplyInputs(s, user, inputs).value.next == s.next + NewRows(inputs)
  {
    if inputs != [] {
      hide Find; hide Edited; hide Created;
      NextCounts(s, user, inputs[..|inputs| - 1]);
    }
  }

  lemma {:induction false} InputsInTwoParts(s: Store, user: int, a: seq<AddressInput>, b: seq<AddressInput>)
    requires ApplyInputs(s, user, a + b).Some?
    ensures ApplyInputs(s, user, a).Some? && ApplyInputs(ApplyInputs(s, user, a).value, user, b) == ApplyInputs(s, user, a + b)
  {
    if b == [] {
      assert a + b == a;
    } else {
      hide ApplyInput;
      assert (a + b)[..|a + b| - 1] == a + b[..|b| - 1];
      InputsInTwoParts(s, user, a, b[..|b| - 1]);
    }
  }

  /** An input without id appends its row. */
  lemma RowAppended(s: Store, user: int, a: seq<AddressInput>, input: AddressInput) returns (row: Address)
    requires Sound(s) && input.id.None? && ApplyInputs(s, user, a + [input]).Some?
    ensures var at := ApplyInputs(s, user, a + [input]).value;
            Sound(at) && row in at.rows && row.id < at.next && row.id == s.next + NewRows(a) && IsCreated(row, row.id, user, input)
  {
    InputsInTwoParts(s, user, a, [input]);
    InputsKeepSound(s, user, a + [input]);
    NextCounts(s, user, a);
    var before := ApplyInputs(s, user, a).value;
    row := Created(before.next, user, input);
    CreatedIs(before.next, user, input);
    OneInput(before, user, input);
    hide ApplyInputs; hide IsCreated; hide NewRows; hide DistinctIds; hide Created;
  }

  lemma OneInput(s: Store, user: int, input: AddressInput)
    requires input.id.None?
    ensures ApplyInputs(s, user, [input]) == Some(s.(rows := s.rows + [Created(s.next, user, input)], next := s.next + 1))
  {
    assert ApplyInputs(s, user, [input][..0]) == Some(s);
  }

  lemma NewRowInParts(s: Store, user: int, inputs: seq<AddressInput>, a: seq<AddressInput>, input: AddressInput, b: seq<AddressInput>)
    requires inputs == a + [input] + b && Sound(s) && input.id.None? && ApplyInputs(s, user, inputs).Some?
    ensures var id := s.next + NewRows(a); CreatedThenWritten(id, user, input, b, RowOf(ApplyInputs(s, user, inputs).value.rows, id))
  {
    hide ApplyInputs; hide RowAfter; hide NewRows; hide RowWritten; hide Created; hide IsCreated; hide Sound; hide RowOf; hide DistinctIds;
    InputsInTwoParts(s, user, a + [input], b);
    var row := RowAppended(s, user, a, input);
    var at := ApplyInputs(s, user, a + [input]).value;
    EachRowAfter(at, user, b, row.id);
    SoundRow(at, row);
    AfterIsWritten(row, b);
    assert CreatedThenWritten(row.id, user, input, b, RowAfter(Some(row), row.id, b));
  }

  lemma Rejoined(inputs: seq<AddressInput>, i: nat)
    requires i < |inputs|
    ensures inputs[..i] + [inputs[i]] + inputs[i + 1..] == inputs
  {
  }

  lemma NewRowIsWritten(s: Store, user: int, inputs: seq<AddressInput>, i: nat)
    requires Sound(s) && ApplyInputs(s, user, inputs).Some? && i < |inputs| && inputs[i].id.None?
    ensures NewRowWritten(s.next, user, inputs, i, ApplyInputs(s, user, inputs).value.rows)
  {
    hide ApplyInputs; hide NewRows; hide CreatedThenWritten; hide Sound; hide RowOf; hide DistinctIds;
    Rejoined(inputs, i);
    NewRowInParts(s, user, inputs, inputs[..i], inputs[i], inputs[i + 1..]);
  }

  lemma SoundRow(s: Store, row: Address)
    requires Sound(s) && row in s.rows
    ensures RowOf(s.rows, row.id) == Some(row)
  {
    hide RowOf;
    RowOfIs(s.rows, row);
  }

  /** All that accepted inputs do to the addresses: each old row is written column by column or destroyed, each input
      without id makes one new row of its own values, and no other row appears. */
  ghost predicate AddressesWritten(s: Store, user: int, inputs: seq<AddressInput>, rows: seq<Address>) {
    && (forall a :: a in s.rows ==> RowWritten(a, inputs, RowOf(rows, a.id)))
    && (forall i {:trigger inputs[i]} :: 0 <= i < |inputs| && inputs[i].id.None? ==> NewRowWritten(s.next, user, inputs, i, rows))
    && (forall a :: a in rows ==> RowOf(s.rows, a.id).Some? || s.next <= a.id < s.next + NewRows(inputs))
  }

  /** Each row that was there is changed by the inputs naming it alone, whoever owns it, and the new rows are those asked for. */
  lemma EachRowForItself(s: Store, user: int, inputs: seq<AddressInput>)
    requires Sound(s) && ApplyInputs(s, user, inputs).Some?
    ensures AddressesWritten(s, user, inputs, ApplyInputs(s, user, inputs).value.rows)
  {
    var t := ApplyInputs(s, user, inputs).value;
    InputsKeepSound(s, user, inputs);
    NextCounts(s, user, inputs);
    hide ApplyInputs; hide RowAfter; hide RowWritten; hide NewRowWritten; hide NewRows; hide RowOf;
    forall a | a in s.rows ensures RowWritten(a, inputs, RowOf(t.rows, a.id)) {
      EachRowAfter(s, user, inputs, a.id);
      RowOfIs(s.rows, a);
      AfterIsWritten(a, inputs);
    }
    forall i | 0 <= i < |inputs| && inputs[i].id.None? ensures NewRowWritten(s.next, user, inputs, i, t.rows) {
      NewRowIsWritten(s, user, inputs, i);
    }
    forall a | a in t.rows ensures RowOf(s.rows, a.id).Some? || s.next <= a.id < s.next + NewRows(inputs) {
      if a.id < s.next {
        EachRowAfter(s, user, inputs, a.id);
        if RowOf(s.rows, a.id).None? { NoneStaysNone(a.id, inputs); }
      }
    }
  }

  lemma {:induction false} NoneStaysNone(id: int, inputs: seq<AddressInput>)
    ensures RowAfter(None, id, inputs) == None
  {
    if inputs != [] { NoneStaysNone(id, inputs[..|inputs| - 1]); }
  }

  // ----- requests ---------------------------------------------------------

  datatype SaveResult = NotFound | Rejected | Saved

  /** The address and number part of one member update. `otherErrors` stands for every other validation. */
  datatype Request = Request(inputs: seq<AddressInput>, mobile: Given<string>, otherErrors: bool)

  ghost predicate Synced(s: Store, user: int) {
    user in s.mobiles && IsMobileOf(s.rows, user, s.mobiles[user])
  }

  /** The rows of everyone else, in order. */
  function Others(rows: seq<Address>, user: int): seq<Address> {
    if rows == [] then [] else (if Mine(rows[0], user) then [] else [rows[0]]) + Others(rows[1..], user)
  }

  lemma {:induction false} OthersAppend(a: seq<Address>, b: seq<Address>, user: int)
    ensures Others(a + b, user) == Others(a, user) + Others(b, user)
  {
    if a == [] {
      assert a + b == b;
    } else {
      var head := if Mine(a[0], user) then [] else [a[0]];
      assert (a + b)[0] == a[0] && (a + b)[1..] == a[1..] + b;
      OthersAppend(a[1..], b, user);
      hide Mine;
      assert Others(a + b, user) == head + (Others(a[1..], user) + Others(b, user));
    }
  }

  lemma OthersSplice(before: seq<Address>, row: Address, after: seq<Address>, mid: seq<Address>, user: int)
    requires Mine(row, user) && Others(mid, user) == []
    ensures Others(before + mid + after, user) == Others(before + [row] + after, user)
  {
    OthersAppend(before + mid, after, user);
    OthersAppend(before, mid, user);
    OthersAppend(before + [row], after, user);
    OthersAppend(before, [row], user);
    assert Others([row], user) == [];
  }

  lemma InputLeavesOthers(s: Store, user: int, input: AddressInput)
    requires ApplyInput(s, user, input).Some?
    ensures Others(ApplyInput(s, user, input).value.rows, user) == Others(s.rows, user)
  {
    if input.id.None? {
      var a := Created(s.next, user, input);
      OthersAppend(s.rows, [a], user);
      assert Others([a], user) == [];
    } else {
      var i := Find(s.rows, user, input.id.value).value;
      var row, edited := s.rows[i], Edited(s.rows[i], input);
      var mid := if input.destroy then [] else [edited];
      assert Others([edited], user) == [];
      hide Others; hide Find; hide Edited;
      OthersSplice(s.rows[..i], row, s.rows[i + 1..], mid, user);
      assert s.rows[..i] + [row] + s.rows[i + 1..] == s.rows;
      if input.destroy {
        assert s.rows[..i] + [] + s.rows[i + 1..] == s.rows[..i] + s.rows[i + 1..];
      } else {
        assert s.rows[..i] + [edited] + s.rows[i + 1..] == s.rows[i := edited];
      }
    }
  }

  /** Nested inputs reach no address of anybody else. */
  lemma {:induction false} InputsLeaveOthers(s: Store, user: int, inputs: seq<AddressInput>)
    requires ApplyInputs(s, user, inputs).Some?
    ensures Others(ApplyInputs(s, user, inputs).value.rows, user) == Others(s.rows, user)
  {
    if inputs != [] {
      var n := |inputs| - 1;
      InputsLeaveOthers(s, user, inputs[..n]);
      InputLeavesOthers(ApplyInputs(s, user, inputs[..n]).value, user, inputs[n]);
    }
  }

  lemma {:induction false} OthersHold(rows: seq<Address>, user: int, v: int, kind: int)
    requires v != user
    ensures CountKind(Others(rows, user), v, kind) == CountKind(rows, v, kind)
    ensures forall a :: a in Others(rows, user) <==> a in rows && !Mine(a, user)
  {
    if rows != [] {
      OthersHold(rows[1..], user, v, kind);
      if Mine(rows[0], user) {
        assert Others(rows, user) == Others(rows[1..], user);
      } else {
        assert ([rows[0]] + Others(rows[1..], user))[1..] == Others(rows[1..], user);
      }
    }
  }

  /** The state a request leaves; a refused one leaves rows and numbers alone. */
  function Patched(s: Store, user: int, r: Request): Store
    requires user in s.mobiles
  {
    var applied := ApplyInputs(s, user, r.inputs);
    if applied.None? || r.otherErrors || (r.inputs != [] && !FewEnough(applied.value.rows, user)) then s
    else if r.inputs == [] then s.(mobiles := s.mobiles[user := Set(s.mobiles[user], r.mobile)])
    else applied.value.(mobiles := s.mobiles[user := ComputeUserMobile(Owned(applied.value.rows, user))])
  }

  /** What every request keeps, for the member it writes and for all others. */
  lemma PatchedKeeps(s: Store, user: int, r: Request, v: int)
    requires user in s.mobiles && v in s.mobiles && Sound(s)
    ensures var t := Patched(s, user, r);
            && Sound(t) && t.mobiles.Keys == s.mobiles.Keys
            && (FewEnough(s.rows, v) ==> FewEnough(t.rows, v))
            && (v != user ==> t.mobiles[v] == s.mobiles[v] && (Synced(t, v) <==> Synced(s, v)))
  {
    var t := Patched(s, user, r);
    if t.rows != s.rows || t.next != s.next {
      InputsKeepSound(s, user, r.inputs);
      InputsLeaveOthers(s, user, r.inputs);
      if v != user {
        OthersHold(s.rows, user, v, PRIVATE);
        OthersHold(s.rows, user, v, BUSINESS);
        OthersHold(t.rows, user, v, PRIVATE);
        OthersHold(t.rows, user, v, BUSINESS);
        SameCountsSameMobile(s.rows, t.rows, user, v);
      }
    }
  }

  lemma SameCountsSameMobile(a: seq<Address>, b: seq<Address>, user: int, v: int)
    requires v != user && forall x :: x in a && !Mine(x, user) <==> x in b && !Mine(x, user)
    ensures forall m :: IsMobileOf(a, v, m) <==> IsMobileOf(b, v, m)
  {
    forall x ensures IsBest(a, v, x) <==> IsBest(b, v, x) {
      assert forall y :: Counts(y, v) ==> !Mine(y, user);
    }
    hide IsBest;
  }

  /** After a request the stored number is the derived one exactly when addresses were written, or the direct edit
      happens to equal it, or there was no edit and it was before; a refused request changes nothing. */
  lemma SyncedExactly(s: Store, user: int, r: Request)
    requires user in s.mobiles && Sound(s)
    ensures var t := Patched(s, user, r);
            && (r.inputs != [] && t != s ==> Synced(t, user))
            && (r.inputs == [] && !r.otherErrors && r.mobile.Given? ==> (Synced(t, user) <==> IsMobileOf(s.rows, user, r.mobile.value)))
            && (t == s || r.inputs != [] || r.mobile.Given? || (Synced(t, user) <==> Synced(s, user)))
  {
    if r.inputs != [] && Patched(s, user, r) != s {
      InputsKeepSound(s, user, r.inputs);
      var rows := ApplyInputs(s, user, r.inputs).value.rows;
      ComputedIsBest(rows, user, Owned(rows, user));
    }
  }

  /** From every state some direct edit without addresses leaves another number than the derived one. */
  lemma DirectEditDesyncs(s: Store, user: int)
    requires user in s.mobiles && Sound(s)
    ensures exists r: Request :: r.inputs == [] && !r.otherErrors && !Synced(Patched(s, user, r), user)
  {
    var derived := ComputeUserMobile(Owned(s.rows, user));
    ComputedIsBest(s.rows, user, Owned(s.rows, user));
    var other := Some(if derived.Some? then derived.value + "0" else "0");
    var r := Request([], Given(other), false);
    SyncedExactly(s, user, r);
    if IsMobileOf(s.rows, user, other) { MobileIsUnique(s.rows, user, derived, other); }
    assert !Synced(Patched(s, user, r), user);
  }

  datatype Op = Op(user: int, r: Request)

  ghost predicate KnownUsers(s: Store, ops: seq<Op>) {
    forall i :: 0 <= i < |ops| ==> ops[i].user in s.mobiles
  }

  ghost function Run(s: Store, ops: seq<Op>): Store
    requires Sound(s) && KnownUsers(s, ops)
    decreases |ops|
  {
    if ops == [] then s
    else
      PatchedKeeps(s, ops[0].user, ops[0].r, ops[0].user);
      Run(Patched(s, ops[0].user, ops[0].r), ops[1..])
  }

  /** No request edits this member's number directly without also writing addresses. */
  ghost predicate NoDirectEdit(ops: seq<Op>, v: int) {
    forall i :: 0 <= i < |ops| && ops[i].user == v && ops[i].r.mobile.Given? ==> ops[i].r.inputs != []
  }

  /** Over every run: at most one private and one business address each, and a number that was derived stays derived
      unless it is edited directly. */
  lemma {:induction false} RunsKeep(s: Store, ops: seq<Op>, v: int)
    requires Sound(s) && KnownUsers(s, ops) && v in s.mobiles
    ensures Sound(Run(s, ops)) && v in Run(s, ops).mobiles
    ensures FewEnough(s.rows, v) ==> FewEnough(Run(s, ops).rows, v)
    ensures Synced(s, v) && NoDirectEdit(ops, v) ==> Synced(Run(s, ops), v)
    decreases |ops|
  {
    if ops != [] {
      PatchedKeeps(s, ops[0].user, ops[0].r, ops[0].user);
      PatchedKeeps(s, ops[0].user, ops[0].r, v);
      SyncedExactly(s, ops[0].user, ops[0].r);
      hide Patched; hide FewEnough; hide Synced; hide Sound;
      RunsKeep(Patched(s, ops[0].user, ops[0].r), ops[1..], v);
    }
  }

  class Members {
    var store: Store

    constructor (store: Store)
      ensures this.store == store
    {
      this.store := store;
    }

    /** `syncUserMobile`. */
    method SyncUserMobile(user: int)
      requires DistinctIds(store.rows)
      modifies this
      ensures store == old(store).(mobiles := store.mobiles)
      ensures exists m :: IsMobileOf(store.rows, user, m) && store.mobiles == old(store.mobiles)[user := m]
      ensures store.mobiles == old(store.mobiles)[user := ComputeUserMobile(Owned(store.rows, user))]
    {
      var addresses := Owned(store.rows, user);
      ComputedIsBest(store.rows, user, addresses);
      store := store.(mobiles := store.mobiles[user := ComputeUserMobile(addresses)]);
    }

    /** `applyAddresses`: the nested inputs in order, the two limits, then the derived number. */
    method ApplyAddresses(user: int, inputs: seq<AddressInput>) returns (found: bool, valid: bool)
      requires Sound(store)
      modifies this
      ensures found <==> ApplyInputs(old(store), user, inputs).Some?
      ensures found ==> AddressesWritten(old(store), user, inputs, store.rows)
      ensures found ==> (valid <==> FewEnough(store.rows, user))
      ensures found ==> store == ApplyInputs(old(store), user, inputs).value.(
                                   mobiles := old(store.mobiles)[user := ComputeUserMobile(Owned(store.rows, user))])
    {
      valid := false;
      for i := 0 to |inputs|
        invariant ApplyInputs(old(store), user, inputs[..i]) == Some(store)
      {
        assert inputs[..i + 1][..i] == inputs[..i] && inputs[..i + 1][i] == inputs[i];
        var next := ApplyInput(store, user, inputs[i]);
        if next.None? {
          StopsThere(old(store), user, inputs, i + 1);
          return false, false;
        }
        store := next.value;
      }
      assert inputs[..|inputs|] == inputs;
      InputsKeepSound(old(store), user, inputs);
      EachRowForItself(old(store), user, inputs);
      hide AddressesWritten;
      valid := FewEnough(store.rows, user);
      SyncUserMobile(user);
      found := true;
    }

    /** The transaction of a member update: any failure restores rows and numbers. */
    method Patch(user: int, r: Request) returns (result: SaveResult)
      requires user in store.mobiles && Sound(store)
      modifies this
      ensures store == Patched(old(store), user, r)
      ensures result == NotFound <==> ApplyInputs(old(store), user, r.inputs).None?
      ensures result == Saved <==> ApplyInputs(old(store), user, r.inputs).Some? && !r.otherErrors
                                   && (r.inputs != [] ==> FewEnough(ApplyInputs(old(store), user, r.inputs).value.rows, user))
      ensures result != Saved ==> store == old(store)
      ensures result == Saved && r.inputs != [] ==> Synced(store, user) && FewEnough(store.rows, user)
      ensures result == Saved ==> AddressesWritten(old(store), user, r.inputs, store.rows)
    {
      hide FewEnough; hide Owned; hide ComputeUserMobile; hide IsMobileOf; hide ApplyInputs; hide AddressesWritten;
      var before := store;
      NoInputs(before, user);
      if ApplyInputs(before, user, r.inputs).Some? { EachRowForItself(before, user, r.inputs); }
      var found, valid := true, true;
      if |r.inputs| > 0 {
        found, valid := ApplyAddresses(user, r.inputs);
      }
      if !found || !valid || r.otherErrors {
        store := before;
        return if found then Rejected else NotFound;
      }
      if r.mobile.Given? {
        store := store.(mobiles := store.mobiles[user := r.mobile.value]);
      }
      if |r.inputs| > 0 {
        InputsKeepSound(before, user, r.inputs);
        SyncUserMobile(user);
      }
      result := Saved;
    }

    /** The transaction that creates a member with its first addresses. */
    method Create(user: int, r: Request) returns (result: SaveResult)
      requires user !in store.mobiles && Sound(store)
      modifies this
      ensures result == Saved <==> ApplyInputs(old(store).(mobiles := old(store.mobiles)[user := Set(None, r.mobile)]), user, r.inputs).Some?
                                   && !r.otherErrors && (r.inputs != [] ==> FewEnough(ApplyInputs(old(store).(
                                        mobiles := old(store.mobiles)[user := Set(None, r.mobile)]), user, r.inputs).value.rows, user))
      ensures result != Saved ==> store == old(store)
      ensures result == Saved && r.inputs != [] ==> Synced(store, user) && FewEnough(store.rows, user)
      ensures result == Saved && r.inputs == [] ==> store == old(store).(mobiles := old(store.mobiles)[user := Set(None, r.mobile)])
      ensures Sound(store) && forall v :: v in old(store.mobiles) ==> v in store.mobiles && store.mobiles[v] == old(store.mobiles)[v]
      ensures result == Saved ==> AddressesWritten(old(store), user, r.inputs, store.rows)
    {
      hide AddressesWritten;
      var before := store;
      if r.otherErrors { return Rejected; }
      store := store.(mobiles := store.mobiles[user := Set(None, r.mobile)]);
      ghost var base := store;
      SameRowsWritten(before, base, user, r.inputs);
      if |r.inputs| > 0 {
        var found, valid := ApplyAddresses(user, r.inputs);
        if !found || !valid {
          store := before;
          return if found then Rejected else NotFound;
        }
        InputsKeepSound(base, user, r.inputs);
        ComputedIsBest(store.rows, user, Owned(store.rows, user));
      }
      result := Saved;
    }
  }

  lemma NoInputs(s: Store, user: int)
    ensures ApplyInputs(s, user, []) == Some(s)
  {
  }

  /** Numbers play no part in what is written to the addresses. */
  lemma SameRowsWritten(s: Store, t: Store, user: int, inputs: seq<AddressInput>)
    requires t == s.(mobiles := t.mobiles) && Sound(s)
    ensures forall rows :: AddressesWritten(t, user, inputs, rows) ==> AddressesWritten(s, user, inputs, rows)
    ensures inputs == [] ==> AddressesWritten(s, user, inputs, s.rows)
  {
    if inputs == [] { EachRowForItself(s, user, inputs); }
    hide RowWritten; hide NewRowWritten; hide RowOf;
  }

  /** Once an input is not found nothing later succeeds. */
  lemma {:induction false} StopsThere(s: Store, user: int, inputs: seq<AddressInput>, i: nat)
    requires i <= |inputs| && ApplyInputs(s, user, inputs[..i]).None?
    ensures ApplyInputs(s, user, inputs).None?
  {
    if i < |inputs| {
      var n := |inputs| - 1;
      assert inputs[..n][..i] == inputs[..i];
      StopsThere(s, user, inputs[..n], i);
    } else {
      assert inputs[..i] == inputs;
    }
  }
}
