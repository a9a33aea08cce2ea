/** `build_recipients`: turns the rows of the recipient table into the
    provider's recipient records, dropping rows whose address is missing or
    malformed. */
module Recipients {
  import opened Outcomes
  import opened Text
  import opened Email

  /** One table row, each cell already converted with `str(...)`; a missing
      cell reads as `"nan"` (pandas' NaN) or `""` (absent column). */
  datatype Row = Row(email: string, fullname: string, username: string)

  /** The `{"address", "name"}` object of the provider's payload. */
  datatype Address = Address(address: string, name: string)

  /** One entry of a batch payload's `to` list. */
  datatype Recipient = Recipient(emailAddress: Address, mergeInfo: map<string, string>)

  /** What happens to one row. */
  datatype Verdict = MissingEmail | InvalidEmail | Keep(recipient: Recipient)

  const FallbackName: string := "User"
  const NameKey: string := "name"

  /** A trimmed cell that carries a value: neither empty nor the "nan" marker. */
  predicate Usable(s: string)
  {
    s != "" && !IsNan(s)
  }

  /** The display name: the full name if usable, else the user name if usable,
      else "User". */
  function ResolveName(fullname: string, username: string): (name: string)
    ensures Usable(name)
    ensures Usable(fullname) ==> name == fullname
    ensures !Usable(fullname) && Usable(username) ==> name == username
    ensures !Usable(fullname) && !Usable(username) ==> name == FallbackName
  {
    var first := if fullname != "" && !IsNan(fullname) then fullname else username;
    if first == "" || IsNan(first) then FallbackName else first
  }

  /** `{**merge_info, "name": name}`: the campaign variables with only `name`
      set. */
  function WithName(merge: map<string, string>, name: string): (m: map<string, string>)
    ensures m.Keys == merge.Keys + {NameKey}
    ensures m[NameKey] == name
    ensures forall k :: k in merge && k != NameKey ==> m[k] == merge[k]
  {
    merge[NameKey := name]
  }

  /** A record the builder may emit for the campaign variables `merge`. */
  predicate WellFormed(r: Recipient, merge: map<string, string>)
  {
    && Shape(r.emailAddress.address)
    && Usable(r.emailAddress.address)
    && Usable(r.emailAddress.name)
    && r.mergeInfo == WithName(merge, r.emailAddress.name)
  }

  /** The loop body of `build_recipients` for one row. */
  function ClassifyRow(row: Row, merge: map<string, string>): (v: Verdict)
    ensures v.MissingEmail? <==> !Usable(Strip(row.email))
    ensures v.InvalidEmail? <==> Usable(Strip(row.email)) && !Shape(Strip(row.email))
    ensures v.Keep? ==>
      && WellFormed(v.recipient, merge)
      && v.recipient.emailAddress.address == Strip(row.email)
      && v.recipient.emailAddress.name == ResolveName(Strip(row.fullname), Strip(row.username))
  {
    var email := Strip(row.email);
    var fullname := Strip(row.fullname);
    var username := Strip(row.username);
    ValidTrimmedIsShape(email);
    if email == "" || IsNan(email) then MissingEmail
    else if !IsValidEmail(email) then InvalidEmail
    else
      var name := ResolveName(fullname, username);
      Keep(Recipient(Address(email, name), WithName(merge, name)))
  }

  /** The verdict on every row, in row order. */
  function Verdicts(rows: seq<Row>, merge: map<string, string>): (vs: seq<Verdict>)
    ensures |vs| == |rows|
    ensures forall i :: 0 <= i < |rows| ==> vs[i] == ClassifyRow(rows[i], merge)
  {
    seq(|rows|, i requires 0 <= i < |rows| => ClassifyRow(rows[i], merge))
  }

  /** The `recipients.append` loop: the records of the `Keep` verdicts, in
      order. */
  function Collect(vs: seq<Verdict>): (rs: seq<Recipient>)
    ensures |rs| <= |vs|
    decreases |vs|
  {
    if vs == [] then []
    else
      var rest := Collect(vs[1..]);
      if vs[0].Keep? then [vs[0].recipient] + rest else rest
  }

  /** Nothing is collected exactly when no verdict keeps a record. */
  lemma {:induction false} CollectEmpty(vs: seq<Verdict>)
    ensures Collect(vs) == [] <==> forall i :: 0 <= i < |vs| ==> !vs[i].Keep?
    decreases |vs|
  {
    if vs != [] {
      CollectEmpty(vs[1..]);
      assert forall i :: 1 <= i < |vs| ==> vs[i] == vs[1..][i - 1];
    }
  }

  lemma {:induction false} CollectAppend(a: seq<Verdict>, b: seq<Verdict>)
    ensures Collect(a + b) == Collect(a) + Collect(b)
    decreases |a|
  {
    if a == [] {
      assert a + b == b;
    } else {
      assert (a + b)[0] == a[0];
      assert (a + b)[1..] == a[1..] + b;
      CollectAppend(a[1..], b);
    }
  }

  lemma {:induction false} CollectMembership(vs: seq<Verdict>, r: Recipient)
    ensures r in Collect(vs) <==> Keep(r) in vs
    decreases |vs|
  {
    if vs != [] {
      CollectMembership(vs[1..], r);
      assert vs == [vs[0]] + vs[1..];
    }
  }

  /** The records `build_recipients` collects, in row order. */
  function Kept(rows: seq<Row>, merge: map<string, string>): (rs: seq<Recipient>)
    ensures |rs| <= |rows|
  {
    Collect(Verdicts(rows, merge))
  }

  /** Nothing is kept exactly when every row is dropped. */
  lemma KeptEmpty(rows: seq<Row>, merge: map<string, string>)
    ensures Kept(rows, merge) == [] <==> forall i :: 0 <= i < |rows| ==> !ClassifyRow(rows[i], merge).Keep?
  {
    CollectEmpty(Verdicts(rows, merge));
  }

  /** Every record the builder emits has a well-formed address, a usable
      name, and the campaign variables with that name. */
  lemma KeptWellFormed(rows: seq<Row>, merge: map<string, string>)
    ensures forall r :: r in Kept(rows, merge) ==> WellFormed(r, merge)
  {
    forall r | r in Kept(rows, merge)
      ensures WellFormed(r, merge)
    {
      KeptMembership(rows, merge, r);
      var i :| 0 <= i < |rows| && ClassifyRow(rows[i], merge) == Keep(r);
    }
  }

  /** `build_recipients`: the kept records, or `ValueError` when no row
      survives. */
  function BuildRecipients(rows: seq<Row>, merge: map<string, string>): (r: Result<seq<Recipient>>)
    ensures r.Failure? <==> forall i :: 0 <= i < |rows| ==> !ClassifyRow(rows[i], merge).Keep?
    ensures r.Failure? ==> r.error == NoValidRecipients
    ensures r.Success? ==> r.value == Kept(rows, merge) && r.value != []
  {
    var rs := Kept(rows, merge);
    KeptEmpty(rows, merge);
    if rs == [] then Failure(NoValidRecipients) else Success(rs)
  }

  /** The builder treats rows independently and keeps their order: the
      records for `a + b` are those for `a` followed by those for `b`. */
  lemma KeptAppend(a: seq<Row>, b: seq<Row>, merge: map<string, string>)
    ensures Kept(a + b, merge) == Kept(a, merge) + Kept(b, merge)
  {
    var va, vb, vab := Verdicts(a, merge), Verdicts(b, merge), Verdicts(a + b, merge);
    forall i | 0 <= i < |vab|
      ensures vab[i] == (va + vb)[i]
    {
      if i < |a| {
        assert (a + b)[i] == a[i];
      } else {
        assert (a + b)[i] == b[i - |a|];
      }
    }
    assert vab == va + vb;
    CollectAppend(Verdicts(a, merge), Verdicts(b, merge));
  }

  /** A record is emitted exactly when some row yields it. */
  lemma KeptMembership(rows: seq<Row>, merge: map<string, string>, r: Recipient)
    ensures r in Kept(rows, merge) <==>
      exists i :: 0 <= i < |rows| && ClassifyRow(rows[i], merge) == Keep(r)
  {
    CollectMembership(Verdicts(rows, merge), r);
  }

  /** A row whose e-mail cell is empty, whitespace or "nan" contributes
      nothing, wherever it sits. */
  lemma MissingEmailDropped(a: seq<Row>, row: Row, b: seq<Row>, merge: map<string, string>)
    requires !Usable(Strip(row.email))
    ensures Kept(a + [row] + b, merge) == Kept(a + b, merge)
  {
    assert !ClassifyRow([row][0], merge).Keep?;
    var none := Kept([row], merge);
    assert none == [];
    KeptAppend(a + [row], b, merge);
    KeptAppend(a, [row], merge);
    KeptAppend(a, b, merge);
    assert Kept(a, merge) + none == Kept(a, merge);
  }

  /** A row with a malformed address contributes nothing either. */
  lemma InvalidEmailDropped(a: seq<Row>, row: Row, b: seq<Row>, merge: map<string, string>)
    requires !Shape(Strip(row.email))
    ensures Kept(a + [row] + b, merge) == Kept(a + b, merge)
  {
    assert !ClassifyRow([row][0], merge).Keep?;
    var none := Kept([row], merge);
    assert none == [];
    KeptAppend(a + [row], b, merge);
    KeptAppend(a, [row], merge);
    KeptAppend(a, b, merge);
    assert Kept(a, merge) + none == Kept(a, merge);
  }

  /** The records of a one-row table. */
  lemma KeptOne(row: Row, merge: map<string, string>)
    ensures Kept([row], merge) == match ClassifyRow(row, merge)
      case Keep(r) => [r]
      case _ => []
  {
    var v := ClassifyRow(row, merge);
    assert Verdicts([row], merge) == [v];
    CollectOne(v);
  }

  lemma CollectOne(v: Verdict)
    ensures Collect([v]) == if v.Keep? then [v.recipient] else []
  {
    assert [v][1..] == [];
  }

  /** A row whose stripped address has the pattern's shape is kept, under its
      resolved name. */
  lemma ShapedRowKept(row: Row, merge: map<string, string>)
    requires Shape(Strip(row.email))
    ensures ClassifyRow(row, merge) == Keep(Recipient(
      Address(Strip(row.email), ResolveName(Strip(row.fullname), Strip(row.username))),
      merge[NameKey := ResolveName(Strip(row.fullname), Strip(row.username))]))
  {
    var email := Strip(row.email);
    assert '@' in multiset(email);
    assert email != [] && email[IndexOf(email, '@')] == '@';
  }

  /** A kept row produces exactly one record, addressed to its stripped
      e-mail under its resolved name. */
  lemma SingleRow(row: Row, merge: map<string, string>)
    requires Shape(Strip(row.email))
    ensures Kept([row], merge) == [Recipient(
      Address(Strip(row.email), ResolveName(Strip(row.fullname), Strip(row.username))),
      merge[NameKey := ResolveName(Strip(row.fullname), Strip(row.username))])]
  {
    ShapedRowKept(row, merge);
    KeptOne(row, merge);
  }

  /** A row whose names are both blank or "nan" is addressed to "User". */
  lemma NameFallback(row: Row, merge: map<string, string>)
    requires Shape(Strip(row.email))
    requires !Usable(Strip(row.fullname)) && !Usable(Strip(row.username))
    ensures Kept([row], merge)
         == [Recipient(Address(Strip(row.email), FallbackName), merge[NameKey := FallbackName])]
  {
    SingleRow(row, merge);
  }
}
