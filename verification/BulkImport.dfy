/**
 Bulk import of residents: a preview sorts the rows of an upload into valid and invalid ones, a commit
 inserts the valid ones row by row and may stop at any of them.
 */
module BulkImport {
  import opened Wrappers
  import opened Occupancy
  import opened Sequences

  /** Fields after trimming; e-mail and unit fields in lower case. */
  datatype RawRow = RawRow(fullName: string, email: string, unitLabel: string, block: string, floor: string)
  datatype UnitRow = UnitRow(id: Id, unitLabel: string, block: string, floor: string)

  datatype Issue = MissingName | InvalidEmail | MissingUnitLabel
    | DuplicateInUpload | EmailExists | NoSuchUnit | AlreadyAssigned

  datatype ValidRow = ValidRow(rowNo: nat, fullName: string, email: string, unitId: Id)
  datatype InvalidRow = InvalidRow(rowNo: nat, email: string, issues: seq<Issue>)

  type UnitIndex = map<(string, string, string), Id>

  /** What the preview reads from the workspace. */
  datatype Context = Context(index: UnitIndex, existingEmails: set<string>, occupiedUnits: set<Id>)

  /** The class \s of ECMA-262 section 22.2: white space and line terminators. */
  predicate IsSpace(c: char) {
    '\U{9}' <= c <= '\U{D}' || c == ' ' || c == '\U{A0}' || c == '\U{1680}' || '\U{2000}' <= c <= '\U{200A}'
    || c in {'\U{2028}', '\U{2029}', '\U{202F}', '\U{205F}', '\U{3000}', '\U{FEFF}'}
  }

  predicate PlainChar(c: char) { c != '@' && !IsSpace(c) }

  /** The pattern [^\s@]+@[^\s@]+\.[^\s@]+ on the whole text. */
  predicate LooksLikeEmail(s: string) {
    exists at, dot :: 0 < at && at + 1 < dot < |s| - 1 && s[at] == '@' && s[dot] == '.'
                      && forall k :: 0 <= k < |s| && k != at ==> PlainChar(s[k])
  }

  /** The white space of ECMA-262 by code point: tab to carriage return, space, no-break space and the rest. */
  lemma SpacesByCode(c: char)
    ensures IsSpace(c) <==> c as int in {9, 10, 11, 12, 13, 32, 160, 5760, 8192, 8193, 8194, 8195, 8196, 8197, 8198,
                                         8199, 8200, 8201, 8202, 8232, 8233, 8239, 8287, 12288, 65279}
  {
  }

  predicate IsPart(s: string) { s != "" && forall k :: 0 <= k < |s| ==> s[k] != '@' && !IsSpace(s[k]) }

  /** An address is three parts without spaces and @, the first two joined by @ and the last two by a dot. */
  lemma LooksLikeEmailIff(s: string)
    ensures LooksLikeEmail(s)
            <==> exists local, domain, top :: IsPart(local) && IsPart(domain) && IsPart(top)
                                              && s == local + "@" + domain + "." + top
  {
    SpacesByCode('.');
    hide IsSpace;
    if LooksLikeEmail(s) {
      var at, dot :| 0 < at && at + 1 < dot < |s| - 1 && s[at] == '@' && s[dot] == '.'
                     && forall k :: 0 <= k < |s| && k != at ==> PlainChar(s[k]);
      var local, domain, top := s[..at], s[at + 1..dot], s[dot + 1..];
      assert s == local + "@" + domain + "." + top;
      forall k | 0 <= k < |local| ensures PlainChar(local[k]) { assert local[k] == s[k]; }
      forall k | 0 <= k < |domain| ensures PlainChar(domain[k]) { assert domain[k] == s[at + 1 + k]; }
      forall k | 0 <= k < |top| ensures PlainChar(top[k]) { assert top[k] == s[dot + 1 + k]; }
      assert IsPart(local) && IsPart(domain) && IsPart(top);
    }
    if exists local, domain, top :: IsPart(local) && IsPart(domain) && IsPart(top)
                                    && s == local + "@" + domain + "." + top {
      var local, domain, top :| IsPart(local) && IsPart(domain) && IsPart(top)
                                && s == local + "@" + domain + "." + top;
      PartsMakeAnEmail(local, domain, top);
    }
  }

  lemma PartsMakeAnEmail(local: string, domain: string, top: string)
    requires IsPart(local) && IsPart(domain) && IsPart(top)
    requires !IsSpace('.')
    ensures LooksLikeEmail(local + "@" + domain + "." + top)
  {
    var s := local + "@" + domain + "." + top;
    var at, dot := |local|, |local| + 1 + |domain|;
    hide IsSpace;
    forall k | 0 <= k < |s| && k != at ensures PlainChar(s[k]) {
      if k < at {
        assert s[k] == local[k];
      } else if at < k < dot {
        assert s[k] == domain[k - at - 1];
      } else if dot < k {
        assert s[k] == top[k - dot - 1];
      }
    }
    assert s[at] == '@' && s[dot] == '.';
  }

  // ---- the unit lookup ----

  /** Each unit is entered under its full key and under its bare label; later units win. */
  function IndexOf(units: seq<UnitRow>): UnitIndex {
    if units == [] then map[]
    else
      var u := units[|units| - 1];
      IndexOf(units[..|units| - 1])[(u.unitLabel, u.block, u.floor) := u.id][(u.unitLabel, "", "") := u.id]
  }

  /** The full key first, then the bare label. */
  function FindUnit(index: UnitIndex, row: RawRow): Option<Id> {
    if (row.unitLabel, row.block, row.floor) in index then Some(index[(row.unitLabel, row.block, row.floor)])
    else if (row.unitLabel, "", "") in index then Some(index[(row.unitLabel, "", "")])
    else None
  }

  method BuildIndex(units: seq<UnitRow>) returns (index: UnitIndex)
    ensures index == IndexOf(units)
  {
    index := map[];
    for i := 0 to |units|
      invariant index == IndexOf(units[..i])
    {
      assert units[..i + 1][..i] == units[..i];
      var u := units[i];
      index := index[(u.unitLabel, u.block, u.floor) := u.id];
      index := index[(u.unitLabel, "", "") := u.id];
    }
    assert units[..|units|] == units;
  }

  /** Whatever the lookup finds is one of the units and has the label that was asked for. */
  lemma {:induction false} FoundUnitHasLabel(units: seq<UnitRow>, row: RawRow)
    ensures FindUnit(IndexOf(units), row).Some? ==>
              exists u <- units :: u.id == FindUnit(IndexOf(units), row).value && u.unitLabel == row.unitLabel
    ensures FindUnit(IndexOf(units), row).Some? <==> exists u <- units :: u.unitLabel == row.unitLabel
  {
    if units == [] {
    } else {
      var front, last := units[..|units| - 1], units[|units| - 1];
      FoundUnitHasLabel(front, row);
      IndexEntries(units, (row.unitLabel, row.block, row.floor));
      IndexEntries(units, (row.unitLabel, "", ""));
      assert forall u :: u in units <==> u in front || u == last;
    }
  }

  lemma {:induction false} IndexEntries(units: seq<UnitRow>, key: (string, string, string))
    ensures key in IndexOf(units) ==> exists u <- units :: u.id == IndexOf(units)[key] && u.unitLabel == key.0
    ensures key.1 == "" && key.2 == "" ==> (key in IndexOf(units) <==> exists u <- units :: u.unitLabel == key.0)
  {
    if units == [] {
    } else {
      var front, last := units[..|units| - 1], units[|units| - 1];
      IndexEntries(front, key);
      assert forall u :: u in units <==> u in front || u == last;
    }
  }

  predicate SameLabel(u: UnitRow, row: RawRow) { u.unitLabel == row.unitLabel }

  predicate SamePlace(u: UnitRow, row: RawRow) { SameLabel(u, row) && u.block == row.block && u.floor == row.floor }

  /** The row names a block or a floor, and a unit with that label, block and floor is listed. */
  predicate HasPlace(units: seq<UnitRow>, row: RawRow) {
    (row.block != "" || row.floor != "") && exists u <- units :: SamePlace(u, row)
  }

  /** The unit a row means: the last one at its place, or, when there is none, the last one with its label. */
  predicate IsMeant(units: seq<UnitRow>, row: RawRow, i: nat) {
    && i < |units|
    && if HasPlace(units, row)
       then SamePlace(units[i], row) && forall later :: i < later < |units| ==> !SamePlace(units[later], row)
       else SameLabel(units[i], row) && forall later :: i < later < |units| ==> !SameLabel(units[later], row)
  }

  lemma {:induction false} LastAtPlace(units: seq<UnitRow>, row: RawRow, i: nat)
    requires row.block != "" || row.floor != ""
    requires i < |units| && SamePlace(units[i], row)
    requires forall later :: i < later < |units| ==> !SamePlace(units[later], row)
    ensures var key := (row.unitLabel, row.block, row.floor);
            key in IndexOf(units) && IndexOf(units)[key] == units[i].id
  {
    if i == |units| - 1 {
    } else {
      LastAtPlace(units[..|units| - 1], row, i);
      assert !SamePlace(units[|units| - 1], row);
    }
  }

  lemma {:induction false} NoneAtPlace(units: seq<UnitRow>, row: RawRow)
    requires row.block != "" || row.floor != ""
    requires forall u <- units :: !SamePlace(u, row)
    ensures (row.unitLabel, row.block, row.floor) !in IndexOf(units)
  {
    if units == [] {
    } else {
      assert !SamePlace(units[|units| - 1], row);
      NoneAtPlace(units[..|units| - 1], row);
    }
  }

  lemma {:induction false} LastWithLabel(units: seq<UnitRow>, row: RawRow, i: nat)
    requires i < |units| && SameLabel(units[i], row)
    requires forall later :: i < later < |units| ==> !SameLabel(units[later], row)
    ensures var key := (row.unitLabel, "", "");
            key in IndexOf(units) && IndexOf(units)[key] == units[i].id
  {
    if i == |units| - 1 {
    } else {
      LastWithLabel(units[..|units| - 1], row, i);
      assert !SameLabel(units[|units| - 1], row);
    }
  }

  /** The lookup finds the unit that the row means. */
  lemma FindsMeantUnit(units: seq<UnitRow>, row: RawRow, i: nat)
    requires IsMeant(units, row, i)
    ensures FindUnit(IndexOf(units), row) == Some(units[i].id)
  {
    if HasPlace(units, row) {
      LastAtPlace(units, row, i);
    } else {
      LastWithLabel(units, row, i);
      if row.block != "" || row.floor != "" { NoneAtPlace(units, row); }
    }
    hide IndexOf;
  }

  lemma {:induction false} LastSuch(units: seq<UnitRow>, row: RawRow, exact: bool) returns (i: nat)
    requires exists u <- units :: if exact then SamePlace(u, row) else SameLabel(u, row)
    ensures i < |units| && (if exact then SamePlace(units[i], row) else SameLabel(units[i], row))
    ensures forall later :: i < later < |units| ==>
              !(if exact then SamePlace(units[later], row) else SameLabel(units[later], row))
  {
    var last := units[|units| - 1];
    if if exact then SamePlace(last, row) else SameLabel(last, row) {
      i := |units| - 1;
    } else {
      assert units == units[..|units| - 1] + [last];
      i := LastSuch(units[..|units| - 1], row, exact);
    }
  }

  /** A row means some unit exactly when the lookup finds one. */
  lemma MeantUnit(units: seq<UnitRow>, row: RawRow) returns (i: nat)
    requires FindUnit(IndexOf(units), row).Some?
    ensures IsMeant(units, row, i) && FindUnit(IndexOf(units), row) == Some(units[i].id)
  {
    FoundUnitHasLabel(units, row);
    assert exists u <- units :: SameLabel(u, row);
    i := LastSuch(units, row, HasPlace(units, row));
    FindsMeantUnit(units, row, i);
  }

  // ---- the preview ----

  /** The checks of one row, in the order of the code. */
  function Issues(row: RawRow, c: Context, seenEmails: set<string>): seq<Issue> {
    var unit := FindUnit(c.index, row);
    When(row.fullName == "", MissingName)
    + When(row.email == "" || !LooksLikeEmail(row.email), InvalidEmail)
    + When(row.unitLabel == "", MissingUnitLabel)
    + When(row.email != "" && row.email in seenEmails, DuplicateInUpload)
    + When(row.email != "" && row.email in c.existingEmails, EmailExists)
    + When(unit.None?, NoSuchUnit)
    + When(unit.Some? && unit.value in c.occupiedUnits, AlreadyAssigned)
  }

  function When(applies: bool, issue: Issue): seq<Issue> { if applies then [issue] else [] }

  /** A row without any issue of its own. */
  predicate Acceptable(row: RawRow, c: Context) { Issues(row, c, {}) == [] }

  /** A row is valid when it is the first acceptable one with its e-mail. */
  predicate IsValid(rows: seq<RawRow>, i: nat, c: Context)
    requires i < |rows|
  {
    Acceptable(rows[i], c) && forall j :: 0 <= j < i && Acceptable(rows[j], c) ==> rows[j].email != rows[i].email
  }

  ghost function SeenEmails(rows: seq<RawRow>, n: nat, c: Context): set<string>
    requires n <= |rows|
  {
    set j | 0 <= j < n && Acceptable(rows[j], c) :: rows[j].email
  }

  /** When each issue applies to a row. */
  predicate Applies(issue: Issue, row: RawRow, c: Context, seen: set<string>) {
    match issue
    case MissingName => row.fullName == ""
    case InvalidEmail => row.email == "" || !LooksLikeEmail(row.email)
    case MissingUnitLabel => row.unitLabel == ""
    case DuplicateInUpload => row.email in seen && row.email != ""
    case EmailExists => row.email in c.existingEmails && row.email != ""
    case NoSuchUnit => FindUnit(c.index, row).None?
    case AlreadyAssigned => FindUnit(c.index, row).Some? && FindUnit(c.index, row).value in c.occupiedUnits
  }

  /** A row's issues are exactly those that apply to it. */
  lemma ReportedIff(row: RawRow, c: Context, seen: set<string>, issue: Issue)
    ensures issue in Issues(row, c, seen) <==> Applies(issue, row, c, seen)
  {
    var unit := FindUnit(c.index, row);
    var (noName, badEmail) := (When(row.fullName == "", MissingName),
                          When(row.email == "" || !LooksLikeEmail(row.email), InvalidEmail));
    var noLabel := When(row.unitLabel == "", MissingUnitLabel);
    var seenBefore := When(row.email != "" && row.email in seen, DuplicateInUpload);
    var known := When(row.email != "" && row.email in c.existingEmails, EmailExists);
    var (noUnit, taken) := (When(unit.None?, NoSuchUnit),
                            When(unit.Some? && unit.value in c.occupiedUnits, AlreadyAssigned));
    assert Issues(row, c, seen) == noName + badEmail + noLabel + seenBefore + known + noUnit + taken;
    hide Issues;
    hide LooksLikeEmail;
    hide FindUnit;
    InOneOf(noName, badEmail, noLabel, seenBefore, known, noUnit, taken, issue);
  }

  lemma InOneOf(a: seq<Issue>, b: seq<Issue>, c: seq<Issue>, d: seq<Issue>, e: seq<Issue>, f: seq<Issue>, g: seq<Issue>,
                x: Issue)
    ensures x in a + b + c + d + e + f + g
            <==> x in a || x in b || x in c || x in d || x in e || x in f || x in g
  {
  }

  /** What a row needs to be acceptable, and that only a repeated e-mail can spoil it later. */
  lemma AcceptableMeans(row: RawRow, c: Context)
    ensures Acceptable(row, c) <==>
              row.fullName != "" && LooksLikeEmail(row.email) && row.email != "" && row.unitLabel != ""
              && row.email !in c.existingEmails && FindUnit(c.index, row).Some?
              && FindUnit(c.index, row).value !in c.occupiedUnits
    ensures forall seen :: Issues(row, c, seen) == [] <==> Acceptable(row, c) && row.email !in seen
  {
  }

  function ValidRowOf(rows: seq<RawRow>, i: nat, c: Context): ValidRow
    requires i < |rows| && FindUnit(c.index, rows[i]).Some?
  {
    ValidRow(i + 1, rows[i].fullName, rows[i].email, FindUnit(c.index, rows[i]).value)
  }

  /** The two lists hold the row numbers of the two kinds of rows, each in order. */
  ghost predicate Classified(rows: seq<RawRow>, n: nat, c: Context, valid: seq<ValidRow>, invalid: seq<InvalidRow>)
    requires n <= |rows|
  {
    && |valid| + |invalid| == n
    && (forall i, j :: 0 <= i < j < |valid| ==> valid[i].rowNo < valid[j].rowNo)
    && (forall i, j :: 0 <= i < j < |invalid| ==> invalid[i].rowNo < invalid[j].rowNo)
    && (forall k :: 0 <= k < |valid| ==> ValidEntry(rows, n, c, valid[k]))
    && (forall k :: 0 <= k < |invalid| ==> InvalidEntry(rows, n, c, invalid[k]))
  }

  ghost predicate ValidEntry(rows: seq<RawRow>, n: nat, c: Context, v: ValidRow)
    requires n <= |rows|
  {
    1 <= v.rowNo <= n && IsValid(rows, v.rowNo - 1, c)
    && FindUnit(c.index, rows[v.rowNo - 1]).Some? && v == ValidRowOf(rows, v.rowNo - 1, c)
  }

  ghost predicate InvalidEntry(rows: seq<RawRow>, n: nat, c: Context, v: InvalidRow)
    requires n <= |rows|
  {
    1 <= v.rowNo <= n && !IsValid(rows, v.rowNo - 1, c) && v.email == rows[v.rowNo - 1].email
    && v.issues == Issues(rows[v.rowNo - 1], c, SeenEmails(rows, v.rowNo - 1, c)) && v.issues != []
  }

  /** What one turn of the loop has to add. */
  lemma OneTurn(rows: seq<RawRow>, i: nat, c: Context, valid: seq<ValidRow>, invalid: seq<InvalidRow>)
    requires i < |rows| && Classified(rows, i, c, valid, invalid)
    ensures var row := rows[i];
            var issues := Issues(row, c, SeenEmails(rows, i, c));
            if |issues| > 0 then
              && SeenEmails(rows, i + 1, c) == SeenEmails(rows, i, c)
              && Classified(rows, i + 1, c, valid, invalid + [InvalidRow(i + 1, row.email, issues)])
            else
              && SeenEmails(rows, i + 1, c) == SeenEmails(rows, i, c) + {row.email}
              && FindUnit(c.index, row).Some?
              && Classified(rows, i + 1, c,
                            valid + [ValidRow(i + 1, row.fullName, row.email, FindUnit(c.index, row).value)], invalid)
  {
    ValidIff(rows, i, c);
    SeenGrows(rows, i, c);
    hide Issues;
    hide IsValid;
    hide SeenEmails;
    hide Classified;
    hide FindUnit;
    if IsValid(rows, i, c) {
      AddValid(rows, i, c, valid, invalid);
    } else {
      AddInvalid(rows, i, c, valid, invalid);
    }
  }

  method PreviewBulkTenantInvites(rows: seq<RawRow>, c: Context)
    returns (valid: seq<ValidRow>, invalid: seq<InvalidRow>)
    ensures Classified(rows, |rows|, c, valid, invalid)
  {
    valid, invalid := [], [];
    var seenEmails: set<string> := {};
    assert SeenEmails(rows, 0, c) == {};
    assert Classified(rows, 0, c, valid, invalid);
    hide *;
    for i := 0 to |rows|
      invariant seenEmails == SeenEmails(rows, i, c)
      invariant Classified(rows, i, c, valid, invalid)
    {
      var row := rows[i];
      var issues := Issues(row, c, seenEmails);
      OneTurn(rows, i, c, valid, invalid);
      if |issues| > 0 {
        invalid := invalid + [InvalidRow(i + 1, row.email, issues)];
      } else {
        seenEmails := seenEmails + {row.email};
        valid := valid + [ValidRow(i + 1, row.fullName, row.email, FindUnit(c.index, row).value)];
      }
    }
  }

  /** The loop tests against the valid rows so far; that is the same as against the acceptable ones. */
  lemma ValidIff(rows: seq<RawRow>, i: nat, c: Context)
    requires i < |rows|
    ensures IsValid(rows, i, c) <==> Issues(rows[i], c, SeenEmails(rows, i, c)) == []
    ensures IsValid(rows, i, c) ==> FindUnit(c.index, rows[i]).Some?
  {
  }

  lemma SeenGrows(rows: seq<RawRow>, i: nat, c: Context)
    requires i < |rows|
    ensures SeenEmails(rows, i + 1, c) == SeenEmails(rows, i, c) + if IsValid(rows, i, c) then {rows[i].email} else {}
  {
    hide Acceptable;
  }

  lemma AddValid(rows: seq<RawRow>, i: nat, c: Context, valid: seq<ValidRow>, invalid: seq<InvalidRow>)
    requires i < |rows| && Classified(rows, i, c, valid, invalid)
    requires IsValid(rows, i, c) && FindUnit(c.index, rows[i]).Some?
    ensures Classified(rows, i + 1, c, valid + [ValidRowOf(rows, i, c)], invalid)
  {
    hide IsValid;
    hide Issues;
    hide FindUnit;
    hide SeenEmails;
  }

  lemma AddInvalid(rows: seq<RawRow>, i: nat, c: Context, valid: seq<ValidRow>, invalid: seq<InvalidRow>)
    requires i < |rows| && Classified(rows, i, c, valid, invalid)
    requires !IsValid(rows, i, c) && Issues(rows[i], c, SeenEmails(rows, i, c)) != []
    ensures Classified(rows, i + 1, c, valid,
                   invalid + [InvalidRow(i + 1, rows[i].email, Issues(rows[i], c, SeenEmails(rows, i, c)))])
  {
    hide IsValid;
    hide Issues;
    hide FindUnit;
    hide SeenEmails;
  }

  // ---- what the preview promises ----

  ghost function ValidNumbers(valid: seq<ValidRow>): set<nat> {
    Members(seq(|valid|, k requires 0 <= k < |valid| => valid[k].rowNo))
  }

  ghost function InvalidNumbers(invalid: seq<InvalidRow>): set<nat> {
    Members(seq(|invalid|, k requires 0 <= k < |invalid| => invalid[k].rowNo))
  }

  lemma NumbersAreCounted(rows: seq<RawRow>, n: nat, c: Context, valid: seq<ValidRow>, invalid: seq<InvalidRow>)
    requires n <= |rows| && Classified(rows, n, c, valid, invalid)
    ensures |ValidNumbers(valid)| == |valid| && |InvalidNumbers(invalid)| == |invalid| && |valid| + |invalid| == n
  {
    hide ValidEntry;
    hide InvalidEntry;
    DistinctCardinality(seq(|valid|, k requires 0 <= k < |valid| => valid[k].rowNo));
    DistinctCardinality(seq(|invalid|, k requires 0 <= k < |invalid| => invalid[k].rowNo));
  }

  ghost function RowNumbers(n: nat): (s: set<nat>)
    ensures |s| == n && forall k: nat :: k in s <==> 1 <= k <= n
  {
    if n == 0 then {} else RowNumbers(n - 1) + {n}
  }

  lemma {:induction false} SubsetOfSameSize(a: set<nat>, b: set<nat>)
    requires a <= b && |a| == |b|
    ensures a == b
  {
    if a == {} {
    } else {
      var x :| x in a;
      SubsetOfSameSize(a - {x}, b - {x});
    }
  }

  lemma NoRowTwice(rows: seq<RawRow>, c: Context, valid: seq<ValidRow>, invalid: seq<InvalidRow>, n: nat)
    requires Classified(rows, |rows|, c, valid, invalid)
    ensures !(n in ValidNumbers(valid) && n in InvalidNumbers(invalid))
    ensures n in ValidNumbers(valid) || n in InvalidNumbers(invalid) ==> 1 <= n <= |rows|
  {
  }

  /** Valid and invalid rows partition the upload: every row number appears in exactly one list, once. */
  lemma RowsArePartitioned(rows: seq<RawRow>, c: Context, valid: seq<ValidRow>, invalid: seq<InvalidRow>)
    requires Classified(rows, |rows|, c, valid, invalid)
    ensures ValidNumbers(valid) * InvalidNumbers(invalid) == {}
    ensures ValidNumbers(valid) + InvalidNumbers(invalid) == RowNumbers(|rows|)
    ensures |ValidNumbers(valid)| == |valid| && |InvalidNumbers(invalid)| == |invalid|
  {
    hide *;
    NumbersAreCounted(rows, |rows|, c, valid, invalid);
    forall n ensures !(n in ValidNumbers(valid) && n in InvalidNumbers(invalid))
             ensures n in ValidNumbers(valid) || n in InvalidNumbers(invalid) ==> n in RowNumbers(|rows|)
    {
      if n in ValidNumbers(valid) || n in InvalidNumbers(invalid) { NoRowTwice(rows, c, valid, invalid, n); }
    }
    SubsetOfSameSize(ValidNumbers(valid) + InvalidNumbers(invalid), RowNumbers(|rows|));
  }

  /** A valid row has a new e-mail, and the unit it found is free. */
  lemma ValidRowIsNew(rows: seq<RawRow>, c: Context, valid: seq<ValidRow>, invalid: seq<InvalidRow>, i: nat)
    requires Classified(rows, |rows|, c, valid, invalid)
    requires i < |valid|
    ensures 1 <= valid[i].rowNo <= |rows|
    ensures valid[i].fullName == rows[valid[i].rowNo - 1].fullName && valid[i].fullName != ""
    ensures valid[i].email == rows[valid[i].rowNo - 1].email && valid[i].email != ""
            && valid[i].email !in c.existingEmails
    ensures FindUnit(c.index, rows[valid[i].rowNo - 1]) == Some(valid[i].unitId) && valid[i].unitId !in c.occupiedUnits
  {
  }

  /** Valid e-mails are pairwise distinct. */
  lemma ValidRowsAreFresh(rows: seq<RawRow>, c: Context, valid: seq<ValidRow>, invalid: seq<InvalidRow>, i: nat, j: nat)
    requires Classified(rows, |rows|, c, valid, invalid)
    requires i < j < |valid|
    ensures valid[i].rowNo < valid[j].rowNo && valid[i].email != valid[j].email
  {
  }

  // ---- the commit ----

  /** A valid row with the id its resident will get and whether its invite goes out. */
  datatype Commit = Commit(id: Id, email: string, unitId: Id, inviteOk: bool)

  function AfterCommits(s: State, commits: seq<Commit>): State {
    if commits == [] then s
    else
      var last := commits[|commits| - 1];
      RowCommitted(AfterCommits(s, commits[..|commits| - 1]), last.id, last.email, last.unitId)
  }

  /** How many rows are inserted: all of them, or those up to the first invite that throws. */
  function Inserted(commits: seq<Commit>): (n: nat)
    ensures n <= |commits|
  {
    if commits == [] then 0 else if commits[0].inviteOk then 1 + Inserted(commits[1..]) else 1
  }

  /** What the preview reads when the workspace is in state `s` and the unit query returns `units`. */
  function ReadBy(s: State, units: seq<UnitRow>): Context {
    Context(IndexOf(units), ExistingEmails(s.residents), OccupiedUnits(s.residents))
  }

  function ExistingEmails(residents: map<Id, Resident>): set<string> {
    set id | id in residents && residents[id].email.Some? && residents[id].email.value != ""
      :: residents[id].email.value
  }

  function OccupiedUnits(residents: map<Id, Resident>): set<Id> {
    set id | id in residents && residents[id].active && residents[id].home.Some? :: residents[id].home.value
  }

  ghost predicate ListsUnits(s: State, units: seq<UnitRow>) {
    forall id :: id in s.units <==> exists u <- units :: u.id == id
  }

  /** `ids` are the ids that the inserts of the rows would generate. */
  ghost predicate FreshIds(s: State, ids: seq<Id>) { Distinct(ids) && forall id <- ids :: id !in s.residents }

  predicate Numbered(valid: seq<ValidRow>, n: nat) { forall v <- valid :: 1 <= v.rowNo <= n }

  /** The inserts that the valid rows of a preview lead to. */
  function CommitsOf(valid: seq<ValidRow>, ids: seq<Id>, invitesOk: seq<bool>): seq<Commit>
    requires |ids| == |invitesOk| && Numbered(valid, |ids|)
  {
    seq(|valid|, k requires 0 <= k < |valid| =>
      assert valid[k] in valid;
      Commit(ids[valid[k].rowNo - 1], valid[k].email, valid[k].unitId, invitesOk[valid[k].rowNo - 1]))
  }

  /** Every invite but the last of those rows went out; the last one did exactly when all rows are inserted. */
  lemma {:induction false} InsertedMeans(commits: seq<Commit>)
    ensures forall i :: 0 <= i < Inserted(commits) - 1 ==> commits[i].inviteOk
    ensures commits != [] ==> Inserted(commits) > 0
    ensures Inserted(commits) < |commits| ==> !commits[Inserted(commits) - 1].inviteOk
  {
    if commits == [] {
    } else {
      InsertedMeans(commits[1..]);
    }
  }

  datatype CommitError = LimitExceeded | InviteThrew

  /** Fresh, distinct ids for units that exist. */
  ghost predicate Insertable(s: State, commits: seq<Commit>) {
    && (forall i, j :: 0 <= i < j < |commits| ==> commits[i].id != commits[j].id)
    && forall i :: 0 <= i < |commits| ==> commits[i].id !in s.residents && commits[i].unitId in s.units
  }

  /** The handler: a preview of its own, then the inserts. */
  method CommitBulkTenantInvites(registry: Registry, rows: seq<RawRow>, units: seq<UnitRow>, ids: seq<Id>,
                                 invitesOk: seq<bool>, residentsLimit: nat)
    returns (error: Option<CommitError>, sent: nat, valid: seq<ValidRow>, invalid: seq<InvalidRow>)
    requires ListsUnits(registry.Contents(), units) && FreshIds(registry.Contents(), ids)
    requires |ids| == |invitesOk| == |rows|
    modifies registry
    ensures Classified(rows, |rows|, ReadBy(old(registry.Contents()), units), valid, invalid) && Numbered(valid, |rows|)
    ensures error == Some(LimitExceeded) <==> |old(registry.residents)| + |valid| > residentsLimit
    ensures error == Some(LimitExceeded) ==> sent == 0 && registry.Contents() == old(registry.Contents())
    ensures var commits := CommitsOf(valid, ids, invitesOk);
            && (error != Some(LimitExceeded) ==>
                  registry.Contents() == AfterCommits(old(registry.Contents()), commits[..Inserted(commits)]))
            && (error.None? ==> sent == |valid| == Inserted(commits))
            && (error == Some(InviteThrew) ==> sent + 1 == Inserted(commits))
  {
    var index := BuildIndex(units);
    var c := Context(index, ExistingEmails(registry.residents), OccupiedUnits(registry.residents));
    valid, invalid := PreviewBulkTenantInvites(rows, c);
    PreviewIsInsertable(registry.Contents(), rows, units, valid, invalid, ids, invitesOk);
    hide *;
    error, sent := CommitRows(registry, CommitsOf(valid, ids, invitesOk), residentsLimit);
  }

  /** The cap and the loop. */
  method CommitRows(registry: Registry, commits: seq<Commit>, residentsLimit: nat)
    returns (error: Option<CommitError>, sent: nat)
    requires Insertable(registry.Contents(), commits)
    modifies registry
    ensures error == Some(LimitExceeded) <==> |old(registry.residents)| + |commits| > residentsLimit
    ensures error == Some(LimitExceeded) ==> sent == 0 && registry.Contents() == old(registry.Contents())
    ensures error != Some(LimitExceeded) ==>
              registry.Contents() == AfterCommits(old(registry.Contents()), commits[..Inserted(commits)])
    ensures error.None? ==> sent == |commits| == Inserted(commits)
    ensures error == Some(InviteThrew) ==> sent + 1 == Inserted(commits)
  {
    hide AfterCommits;
    hide Inserted;
    hide Insertable;
    hide RowCommitted;
    sent := 0;
    if |registry.residents| + |commits| > residentsLimit { return Some(LimitExceeded), 0; }
    ghost var before := registry.Contents();
    NoCommit(before, commits);
    while sent < |commits|
      invariant 0 <= sent <= |commits|
      invariant registry.Contents() == AfterCommits(before, commits[..sent])
      invariant Inserted(commits) == sent + Inserted(commits[sent..])
    {
      var row := commits[sent];
      CommitTurn(before, commits, sent);
      registry.CommitImportedRow(row.id, row.email, row.unitId);
      if !row.inviteOk { return Some(InviteThrew), sent; }
      sent := sent + 1;
    }
    return None, sent;
  }

  lemma NoCommit(s: State, commits: seq<Commit>)
    ensures AfterCommits(s, commits[..0]) == s && Inserted(commits[0..]) == Inserted(commits)
  {
    assert commits[0..] == commits;
  }

  /** What one turn of the loop has to add. */
  lemma CommitTurn(s: State, commits: seq<Commit>, k: nat)
    requires Insertable(s, commits) && k < |commits|
    ensures var s' := AfterCommits(s, commits[..k]);
            var row := commits[k];
            && row.id !in s'.residents && row.unitId in s'.units
            && AfterCommits(s, commits[..k + 1]) == RowCommitted(s', row.id, row.email, row.unitId)
            && Inserted(commits[k..]) == 1 + if row.inviteOk then Inserted(commits[k + 1..]) else 0
  {
    PrefixFacts(s, commits, k);
    assert commits[..k + 1][..k] == commits[..k];
    assert commits[k..][1..] == commits[k + 1..];
  }

  /** After k rows there are k more residents, the later ids are still free, and the units are the same. */
  lemma {:induction false} PrefixFacts(s: State, commits: seq<Commit>, k: nat)
    requires Insertable(s, commits) && k <= |commits|
    ensures var s' := AfterCommits(s, commits[..k]);
            && |s'.residents| == |s.residents| + k
            && s'.units.Keys == s.units.Keys
            && forall i :: k <= i < |commits| ==> commits[i].id !in s'.residents && commits[i].unitId in s'.units
    decreases k
  {
    if k == 0 {
    } else {
      PrefixFacts(s, commits, k - 1);
      assert commits[..k][..k - 1] == commits[..k - 1];
    }
  }

  ghost predicate EmailsUnique(s: State) {
    forall a, b :: a in s.residents && b in s.residents && a != b
                   && s.residents[a].email.Some?
                   ==> s.residents[a].email != s.residents[b].email
  }

  ghost predicate FreshEmails(s: State, commits: seq<Commit>) {
    && (forall i, j :: 0 <= i < j < |commits| ==> commits[i].email != commits[j].email)
    && forall i, a :: 0 <= i < |commits| && a in s.residents ==> s.residents[a].email != Some(commits[i].email)
  }

  lemma {:induction false} PrefixKeepsEmails(s: State, commits: seq<Commit>, k: nat)
    requires Insertable(s, commits) && k <= |commits|
    requires EmailsUnique(s) && FreshEmails(s, commits)
    ensures var s' := AfterCommits(s, commits[..k]);
            EmailsUnique(s')
            && forall i, a :: k <= i < |commits| && a in s'.residents ==>
                 s'.residents[a].email != Some(commits[i].email)
    decreases k
  {
    if k == 0 {
    } else {
      PrefixKeepsEmails(s, commits, k - 1);
      CommitTurn(s, commits, k - 1);
      hide AfterCommits;
      hide Inserted;
      hide Insertable;
    }
  }

  lemma {:induction false} PrefixKeepsAgreement(s: State, commits: seq<Commit>, k: nat)
    requires Insertable(s, commits) && k <= |commits| && Agrees(s)
    ensures Agrees(AfterCommits(s, commits[..k]))
    decreases k
  {
    if k == 0 {
    } else {
      PrefixKeepsAgreement(s, commits, k - 1);
      PrefixFacts(s, commits, k - 1);
      assert commits[..k][..k - 1] == commits[..k - 1];
      var last := commits[k - 1];
      CommitKeepsAgreement(AfterCommits(s, commits[..k - 1]), last.id, last.email, last.unitId);
    }
  }

  /** A lookup in the index that the preview builds finds a unit of the workspace. */
  lemma FoundUnitExists(s: State, units: seq<UnitRow>, row: RawRow)
    requires ListsUnits(s, units) && FindUnit(IndexOf(units), row).Some?
    ensures FindUnit(IndexOf(units), row).value in s.units
  {
    FoundUnitHasLabel(units, row);
  }

  /** Rows that a preview of the same residents found valid bring only new, distinct e-mails. */
  lemma PreviewedRowsAreFresh(s: State, rows: seq<RawRow>, c: Context, valid: seq<ValidRow>, invalid: seq<InvalidRow>,
                              commits: seq<Commit>)
    requires forall id <- s.residents ::
               s.residents[id].email.Some? && s.residents[id].email.value != ""
               ==> s.residents[id].email.value in c.existingEmails
    requires Classified(rows, |rows|, c, valid, invalid)
    requires |commits| == |valid| && forall i :: 0 <= i < |valid| ==> commits[i].email == valid[i].email
    ensures FreshEmails(s, commits)
  {
  }

  /** What a preview of this state finds valid can be inserted into it, and brings only new, distinct e-mails. */
  lemma PreviewIsInsertable(s: State, rows: seq<RawRow>, units: seq<UnitRow>, valid: seq<ValidRow>,
                            invalid: seq<InvalidRow>,
                            ids: seq<Id>, invitesOk: seq<bool>)
    requires ListsUnits(s, units) && FreshIds(s, ids) && |ids| == |invitesOk| == |rows|
    requires Classified(rows, |rows|, ReadBy(s, units), valid, invalid)
    ensures Numbered(valid, |rows|) && |CommitsOf(valid, ids, invitesOk)| == |valid|
    ensures Insertable(s, CommitsOf(valid, ids, invitesOk))
    ensures FreshEmails(s, CommitsOf(valid, ids, invitesOk))
  {
    var c := ReadBy(s, units);
    forall i | 0 <= i < |valid|
      ensures 1 <= valid[i].rowNo <= |rows| && valid[i].unitId in s.units
    {
      ValidRowIsNew(rows, c, valid, invalid, i);
      FoundUnitExists(s, units, rows[valid[i].rowNo - 1]);
    }
    forall i, j | 0 <= i < j < |valid| ensures valid[i].rowNo < valid[j].rowNo {
      ValidRowsAreFresh(rows, c, valid, invalid, i, j);
    }
    PreviewedRowsAreFresh(s, rows, c, valid, invalid, CommitsOf(valid, ids, invitesOk));
    hide Classified;
    hide IndexOf;
    assert forall id <- ids :: id !in s.residents;
  }

  /**
   Wherever the commit stops: k inserted rows mean k more residents, never more than the plan's cap;
   e-mails stay unique; and the unit statuses keep agreeing with a recount.
   */
  lemma EveryPrefixIsSafe(s: State, commits: seq<Commit>, k: nat, residentsLimit: nat)
    requires Insertable(s, commits) && FreshEmails(s, commits) && k <= |commits|
    requires |s.residents| + |commits| <= residentsLimit
    requires EmailsUnique(s) && Agrees(s)
    ensures var s' := AfterCommits(s, commits[..k]);
            |s'.residents| == |s.residents| + k <= residentsLimit && EmailsUnique(s') && Agrees(s')
  {
    PrefixFacts(s, commits, k);
    PrefixKeepsEmails(s, commits, k);
    PrefixKeepsAgreement(s, commits, k);
  }

  /** The residents after k rows: those from before, unchanged, and one ACTIVE resident for each of the k rows. */
  lemma {:induction false} PrefixResidents(s: State, commits: seq<Commit>, k: nat)
    requires Insertable(s, commits) && k <= |commits|
    ensures var s' := AfterCommits(s, commits[..k]);
            && (forall id <- s.residents :: id in s'.residents && s'.residents[id] == s.residents[id])
            && forall i :: 0 <= i < k ==>
                 commits[i].id in s'.residents
                 && s'.residents[commits[i].id] == Resident(Some(commits[i].email), Some(commits[i].unitId), true)
    decreases k
  {
    if k == 0 {
    } else {
      PrefixResidents(s, commits, k - 1);
      CommitTurn(s, commits, k - 1);
      hide AfterCommits;
      hide Inserted;
      assert forall i :: 0 <= i < k - 1 ==> commits[i].id != commits[k - 1].id;
    }
  }

  /** The preview's occupied units are those with an ACTIVE resident. */
  lemma FreeUnit(residents: map<Id, Resident>, u: Id)
    ensures u in OccupiedUnits(residents) <==> HasActive(residents, u)
  {
  }

  /** The resident of an inserted row: ACTIVE, with the row's e-mail, in the unit the row means, which was free. */
  ghost predicate MovedIn(before: State, after: State, units: seq<UnitRow>, row: RawRow, id: Id, v: ValidRow) {
    exists u: nat ::
      && IsMeant(units, row, u) && units[u].id in before.units && !HasActive(before.residents, units[u].id)
      && id in after.residents && after.residents[id] == Resident(Some(row.email), Some(units[u].id), true)
      && v.email == row.email && v.unitId == units[u].id
  }

  lemma RowMovesIn(s: State, s': State, rows: seq<RawRow>, units: seq<UnitRow>, valid: seq<ValidRow>,
                   invalid: seq<InvalidRow>, i: nat, id: Id)
    requires ListsUnits(s, units) && Classified(rows, |rows|, ReadBy(s, units), valid, invalid) && i < |valid|
    requires id in s'.residents && s'.residents[id] == Resident(Some(valid[i].email), Some(valid[i].unitId), true)
    ensures 1 <= valid[i].rowNo <= |rows|
    ensures MovedIn(s, s', units, rows[valid[i].rowNo - 1], id, valid[i])
  {
    ValidRowIsNew(rows, ReadBy(s, units), valid, invalid, i);
    var row := rows[valid[i].rowNo - 1];
    FoundUnitExists(s, units, row);
    FreeUnit(s.residents, valid[i].unitId);
    var u := MeantUnit(units, row);
    hide Classified;
    hide IsMeant;
    hide HasActive;
    assert IsMeant(units, row, u) && units[u].id == valid[i].unitId;
  }

  /**
   From upload to residents: when the rows inserted are those that a preview of the same residents and
   units found valid, then after every prefix of k inserts within the cap there are k more residents, the
   old ones unchanged and the k rows' ACTIVE, each with the e-mail of its row and in the unit that its row
   means, which exists and was free; e-mails stay unique and the unit statuses keep agreeing with a recount.
   */
  lemma ImportIsSafe(s: State, rows: seq<RawRow>, units: seq<UnitRow>, valid: seq<ValidRow>, invalid: seq<InvalidRow>,
                     ids: seq<Id>, invitesOk: seq<bool>, k: nat, residentsLimit: nat)
    requires ListsUnits(s, units) && FreshIds(s, ids) && |ids| == |invitesOk| == |rows|
    requires Classified(rows, |rows|, ReadBy(s, units), valid, invalid)
    requires k <= |valid| && |s.residents| + |valid| <= residentsLimit
    requires EmailsUnique(s) && Agrees(s)
    ensures Numbered(valid, |rows|) && |CommitsOf(valid, ids, invitesOk)| == |valid|
    ensures var s' := AfterCommits(s, CommitsOf(valid, ids, invitesOk)[..k]);
            && |s'.residents| == |s.residents| + k <= residentsLimit && EmailsUnique(s') && Agrees(s')
            && (forall id <- s.residents :: id in s'.residents && s'.residents[id] == s.residents[id])
            && forall i :: 0 <= i < k ==>
                 && 1 <= valid[i].rowNo <= |rows|
                 && MovedIn(s, s', units, rows[valid[i].rowNo - 1], ids[valid[i].rowNo - 1], valid[i])
  {
    hide Classified;
    hide AfterCommits;
    hide Insertable;
    hide FreshEmails;
    hide EmailsUnique;
    hide MovedIn;
    PreviewIsInsertable(s, rows, units, valid, invalid, ids, invitesOk);
    var commits := CommitsOf(valid, ids, invitesOk);
    EveryPrefixIsSafe(s, commits, k, residentsLimit);
    PrefixResidents(s, commits, k);
    forall i | 0 <= i < k
      ensures 1 <= valid[i].rowNo <= |rows|
      ensures MovedIn(s, AfterCommits(s, commits[..k]), units,
                      rows[valid[i].rowNo - 1], ids[valid[i].rowNo - 1], valid[i])
    {
      assert valid[i] in valid && commits[i].id == ids[valid[i].rowNo - 1];
      RowMovesIn(s, AfterCommits(s, commits[..k]), rows, units, valid, invalid, i, commits[i].id);
    }
  }
}
