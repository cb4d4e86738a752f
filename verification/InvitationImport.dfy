/**
 The import of invitation users from a spreadsheet (invitation-import.ts), from the cell matrix
 on: the one-pass loop, what its result is for any matrix, and the round trip through a matrix.
 */
module InvitationImport {
  import opened Common
  import opened Text

  /** A cell as the sheet reader gives it; a number comes with its printed form. */
  datatype Cell = Text(text: string) | Number(printed: string) | Other

  type Cells = seq<Cell>

  function Clean(c: Cell): Option<string> {
    match c
    case Other => None
    case Text(s) => if Trim(s) == "" then None else Some(Trim(s))
    case Number(s) => if Trim(s) == "" then None else Some(Trim(s))
  }

  /** What a cell comes to: its text, or its number's print, without the blanks around it, if anything is left. */
  lemma CleanIs(c: Cell, t: string)
    ensures Clean(c) == Some(t) <==>
            && t != "" && Trimmed(t)
            && ((c.Text? && exists i :: Surrounded(c.text, i, t)) ||
                 (c.Number? && exists i :: Surrounded(c.printed, i, t)))
  {
    match c
    case Text(s) => TrimIs(s, t);
    case Number(s) => TrimIs(s, t);
    case Other =>
  }

  /** replace(/\s+/g, "_"): every run of blanks becomes one underscore. */
  function Underscored(s: string, inRun: bool): string {
    if s == "" then ""
    else if IsBlank(s[0]) then (if inRun then "" else "_") + Underscored(s[1..], true)
    else [s[0]] + Underscored(s[1..], false)
  }

  function Header(c: Cell): string {
    var cleaned := Clean(c);
    Underscored(Lower(if cleaned.Some? then cleaned.value else ""), false)
  }

  function StripAt(s: string): string { if s != "" && s[0] == '@' then StripAt(s[1..]) else s }

  predicate NameChar(c: char) { 'a' <= c <= 'z' || '0' <= c <= '9' || c == '_' }

  predicate ValidName(s: string) { 5 <= |s| <= 32 && forall i :: 0 <= i < |s| ==> NameChar(s[i]) }

  function Username(c: Cell): (r: Option<string>)
    ensures r.Some? ==> ValidName(r.value) && Clean(c).Some?
  {
    var cleaned := Clean(c);
    if cleaned.None? then None
    else
      var name := Lower(StripAt(cleaned.value));
      if ValidName(name) then Some(name) else None
  }

  /** The text behind `k` leading `@`, in lower case, is this name. */
  predicate NamedBehind(text: string, k: nat, name: string) {
    k <= |text| && (forall i :: 0 <= i < k ==> text[i] == '@') && Lower(text[k..]) == name
  }

  lemma {:induction false} StripAtIsBehind(text: string)
    ensures var k := |text| - |StripAt(text)|;
            0 <= k && StripAt(text) == text[k..] && (forall i :: 0 <= i < k ==> text[i] == '@')
    ensures StripAt(text) == "" || StripAt(text)[0] != '@'
    decreases |text|
  {
    if text != "" && text[0] == '@' { StripAtIsBehind(text[1..]); }
  }

  lemma {:induction false} StripAtAt(text: string, k: nat)
    requires k < |text| && text[k] != '@' && forall i :: 0 <= i < k ==> text[i] == '@'
    ensures StripAt(text) == text[k..]
    decreases |text|
  {
    if k > 0 { StripAtAt(text[1..], k - 1); }
  }

  /**
   Which name a cell has: a name is its name if and only if the name is valid and the cell's trimmed
   text is some number of `@` and then the name, in any case.
   */
  lemma UsernameIs(c: Cell, name: string)
    ensures Username(c) == Some(name) <==>
            && 5 <= |name| <= 32 && (forall i :: 0 <= i < |name| ==>
                 'a' <= name[i] <= 'z' || '0' <= name[i] <= '9' || name[i] == '_')
            && Clean(c).Some? && exists k :: NamedBehind(Clean(c).value, k, name)
  {
    if Clean(c).Some? {
      var text := Clean(c).value;
      StripAtIsBehind(text);
      if Username(c) == Some(name) { assert NamedBehind(text, |text| - |StripAt(text)|, name); }
      forall k: nat | ValidName(name) && NamedBehind(text, k, name) ensures Username(c) == Some(name) {
        assert Lower(text[k..])[0] == LowerChar(text[k]) && NameChar(name[0]);
        StripAtAt(text, k);
      }
    }
  }

  /** `cells[i]`, which is undefined past the end of the row. */
  function At(cells: Cells, i: nat): Cell { if i < |cells| then cells[i] else Other }

  predicate NonBlank(cells: Cells) { exists i :: 0 <= i < |cells| && Clean(cells[i]).Some? }

  function Headers(row: Cells): (r: seq<string>)
    ensures |r| == |row| && forall i :: 0 <= i < |row| ==> r[i] == Header(row[i])
  {
    seq(|row|, i requires 0 <= i < |row| => Header(row[i]))
  }

  /** `indexOf`: the first position, if any. */
  function IndexOf(headers: seq<string>, name: string): (r: Option<nat>)
    ensures r.None? <==> name !in headers
    ensures r.Some? ==> r.value < |headers| && headers[r.value] == name && name !in headers[..r.value]
  {
    if headers == [] then None
    else if headers[0] == name then Some(0)
    else match IndexOf(headers[1..], name)
      case None => None
      case Some(i) => Some(i + 1)
  }

  datatype Row = Row(username: string, telegramId: Option<string>, accessHash: Option<string>,
                     firstName: Option<string>, lastName: Option<string>, note: Option<string>,
                     tag: Option<string>, source: Option<string>)

  datatype Reason = MissingUsername | InvalidUsername | DuplicateUsername

  datatype Issue = Issue(row: nat, reason: Reason)

  datatype Parsed = Parsed(rows: seq<Row>, issues: seq<Issue>, totalRows: nat, validRows: nat, invalidRows: nat,
      duplicateRows: nat)

  function Value(headers: seq<string>, cells: Cells, name: string): Option<string> {
    match IndexOf(headers, name)
    case None => None
    case Some(i) => Clean(At(cells, i))
  }

  function MakeRow(headers: seq<string>, cells: Cells, username: string): Row {
    Row(username, Value(headers, cells, "telegram_id"), Value(headers, cells, "access_hash"),
        Value(headers, cells, "first_name"), Value(headers, cells, "last_name"), Value(headers, cells, "note"),
        Value(headers, cells, "tag"), Value(headers, cells, "source"))
  }

  // ---------- What an import is, row by row ----------

  datatype Verdict = Blank | Missing | Invalid | Duplicate | Accepted

  /** The normalised username of data row `i`, when it has a valid one. */
  function NameOf(data: seq<Cells>, column: nat, i: nat): Option<string>
    requires i < |data|
  {
    Username(At(data[i], column))
  }

  /** Some earlier row has this username. */
  predicate SeenBefore(data: seq<Cells>, column: nat, i: nat, name: string)
    requires i <= |data|
  {
    exists j :: 0 <= j < i && NameOf(data, column, j) == Some(name)
  }

  /** The verdict on a row; only the first row with a username is accepted. */
  function Judge(data: seq<Cells>, column: nat, i: nat): Verdict
    requires i < |data|
  {
    if !NonBlank(data[i]) then Blank
    else if Clean(At(data[i], column)).None? then Missing
    else if NameOf(data, column, i).None? then Invalid
    else if SeenBefore(data, column, i, NameOf(data, column, i).value) then Duplicate
    else Accepted
  }

  /** The positions, in order, of the first `n` rows' verdicts of some kinds. */
  function Positions(data: seq<Cells>, column: nat, kinds: set<Verdict>, n: nat): (r: seq<nat>)
    requires n <= |data|
    ensures forall k :: 0 <= k < |r| ==> r[k] < n && Judge(data, column, r[k]) in kinds
    ensures forall k, l :: 0 <= k < l < |r| ==> r[k] < r[l]
    ensures forall i :: 0 <= i < n && Judge(data, column, i) in kinds ==> i in r
  {
    if n == 0 then []
    else Positions(data, column, kinds, n - 1) + (if Judge(data, column, n - 1) in kinds then [n - 1] else [])
  }

  function ReasonOf(v: Verdict): Reason {
    if v == Missing then MissingUsername else if v == Invalid then InvalidUsername else DuplicateUsername
  }

  const PROBLEMS: set<Verdict> := {Missing, Invalid, Duplicate}

  /** The rows accepted among the first `n`, in file order. */
  function RowsOf(headers: seq<string>, data: seq<Cells>, column: nat, n: nat): seq<Row>
    requires n <= |data|
  {
    if n == 0 then []
    else
      RowsOf(headers, data, column, n - 1) +
      if Judge(data, column, n - 1) == Accepted then [MakeRow(headers, data[n - 1], NameOf(data, column, n - 1).value)]
      else []
  }

  /** The issues of the first `n` rows; data row 0 is line 2 of the sheet. */
  function IssuesOf(data: seq<Cells>, column: nat, n: nat): seq<Issue>
    requires n <= |data|
  {
    if n == 0 then []
    else
      IssuesOf(data, column, n - 1) +
      if Judge(data, column, n - 1) in PROBLEMS then [Issue(n + 1, ReasonOf(Judge(data, column, n - 1)))] else []
  }

  function Import(headers: seq<string>, data: seq<Cells>, column: nat): Parsed {
    Parsed(RowsOf(headers, data, column, |data|), IssuesOf(data, column, |data|),
           |Positions(data, column, PROBLEMS + {Accepted}, |data|)|, |Positions(data, column, {Accepted}, |data|)|,
           |Positions(data, column, {Missing, Invalid}, |data|)|, |Positions(data, column, {Duplicate}, |data|)|)
  }

  // ---------- The loop ----------

  function CountReason(issues: seq<Issue>, duplicates: bool): nat {
    if issues == [] then 0
    else
      CountReason(issues[..|issues| - 1], duplicates) +
      (if issues[|issues| - 1].reason.DuplicateUsername? == duplicates then 1 else 0)
  }

  function CountNonBlank(data: seq<Cells>): nat {
    if data == [] then 0 else CountNonBlank(data[..|data| - 1]) + (if NonBlank(data[|data| - 1]) then 1 else 0)
  }

  lemma {:induction false} NonBlankCount(data: seq<Cells>, column: nat, n: nat)
    requires n <= |data|
    ensures CountNonBlank(data[..n]) == |Positions(data, column, PROBLEMS + {Accepted}, n)|
    decreases n
  {
    if n > 0 {
      NonBlankCount(data, column, n - 1);
      assert data[..n][..n - 1] == data[..n - 1];
    }
  }

  /** The kinds of verdict behind the two issue counters. */
  function Counted(duplicates: bool): set<Verdict> { if duplicates then {Duplicate} else {Missing, Invalid} }

  /** Counting the issues afterwards gives the same numbers as counting the verdicts. */
  lemma {:induction false} IssueCount(data: seq<Cells>, column: nat, n: nat, duplicates: bool)
    requires n <= |data|
    ensures CountReason(IssuesOf(data, column, n), duplicates) == |Positions(data, column, Counted(duplicates), n)|
    decreases n
  {
    if n > 0 {
      IssueCount(data, column, n - 1, duplicates);
      var v, before := Judge(data, column, n - 1), IssuesOf(data, column, n - 1);
      if v in PROBLEMS {
        CountAppend(before, Issue(n + 1, ReasonOf(v)), duplicates);
      } else {
        assert IssuesOf(data, column, n) == before;
      }
    }
  }

  lemma CountAppend(issues: seq<Issue>, issue: Issue, duplicates: bool)
    ensures CountReason(issues + [issue], duplicates) ==
            CountReason(issues, duplicates) + (if issue.reason.DuplicateUsername? == duplicates then 1 else 0)
  {
    assert (issues + [issue])[..|issues|] == issues;
  }

  lemma RowCount(headers: seq<string>, data: seq<Cells>, column: nat, n: nat)
    requires n <= |data|
    ensures |RowsOf(headers, data, column, n)| == |Positions(data, column, {Accepted}, n)|
  {
    RowsArePicked(headers, data, column, n);
    PositionsArePicked(data, column, {Accepted}, n);
    PickedAt(Picks(data, column, {Accepted}), Rows(headers, data, column), n);
  }

  /** The usernames seen after a row: those seen before it, and its own if it is accepted. */
  lemma SeenStep(data: seq<Cells>, column: nat, n: nat, name: string)
    requires n < |data|
    ensures SeenBefore(data, column, n + 1, name) <==>
            SeenBefore(data, column, n, name) ||
                (Judge(data, column, n) == Accepted && NameOf(data, column, n) == Some(name))
  {
    if !NonBlank(data[n]) { BlankHasNoName(data[n], column); }
  }

  /** With `seen` exact, the loop's tests on a row amount to its verdict. */
  lemma JudgeBySeen(data: seq<Cells>, column: nat, n: nat, seen: set<string>)
    requires n < |data| && forall name :: name in seen <==> SeenBefore(data, column, n, name)
    ensures Judge(data, column, n) ==
            if !NonBlank(data[n]) then Blank
            else if Clean(At(data[n], column)).None? then Missing
            else if Username(At(data[n], column)).None? then Invalid
            else if Username(At(data[n], column)).value in seen then Duplicate else Accepted
    ensures forall name :: SeenBefore(data, column, n + 1, name) <==>
              name in seen || (Judge(data, column, n) == Accepted && NameOf(data, column, n) == Some(name))
  {
    forall name ensures SeenBefore(data, column, n + 1, name) <==>
                        name in seen || (Judge(data, column, n) == Accepted && NameOf(data, column, n) == Some(name))
    {
      SeenStep(data, column, n, name);
    }
  }

  /** The loop over the data rows. */
  method GatherRows(headers: seq<string>, data: seq<Cells>, column: nat) returns (rows: seq<Row>, issues: seq<Issue>)
    ensures rows == RowsOf(headers, data, column, |data|) && issues == IssuesOf(data, column, |data|)
  {
    rows, issues := [], [];
    var seen: set<string> := {};
    for index := 0 to |data|
      invariant rows == RowsOf(headers, data, column, index)
      invariant issues == IssuesOf(data, column, index)
      invariant forall name :: name in seen <==> SeenBefore(data, column, index, name)
    {
      JudgeBySeen(data, column, index, seen);
      var cells := data[index];
      if !NonBlank(cells) { continue; }
      var name := Username(At(cells, column));
      if Clean(At(cells, column)).None? {
        issues := issues + [Issue(index + 2, MissingUsername)];
      } else if name.None? {
        issues := issues + [Issue(index + 2, InvalidUsername)];
      } else if name.value in seen {
        issues := issues + [Issue(index + 2, DuplicateUsername)];
      } else {
        seen := seen + {name.value};
        rows := rows + [MakeRow(headers, cells, name.value)];
      }
    }
  }

  /** `parseInvitationImport` from the matrix on; None is the thrown `username_column_required`. */
  method ParseMatrix(matrix: seq<Cells>) returns (result: Option<Parsed>)
    ensures result == Parse(matrix)
  {
    var headers: seq<string> := if matrix == [] then [] else Headers(matrix[0]);
    var data := if matrix == [] then [] else matrix[1..];
    var usernameIndex := UsernameColumn(headers);
    if usernameIndex.None? { return None; }
    var column := usernameIndex.value;
    var rows, issues := GatherRows(headers, data, column);
    assert data[..|data|] == data;
    NonBlankCount(data, column, |data|);
    RowCount(headers, data, column, |data|);
    IssueCount(data, column, |data|, true);
    IssueCount(data, column, |data|, false);
    return Some(Parsed(rows, issues, CountNonBlank(data), |rows|, CountReason(issues, false),
        CountReason(issues, true)));
  }

  function UsernameColumn(headers: seq<string>): Option<nat> { IndexOf(headers, "username") }

  function Parse(matrix: seq<Cells>): Option<Parsed> {
    var headers := if matrix == [] then [] else Headers(matrix[0]);
    var data := if matrix == [] then [] else matrix[1..];
    match UsernameColumn(headers)
    case None => None
    case Some(column) => Some(Import(headers, data, column))
  }

  lemma BlankHasNoName(cells: Cells, column: nat)
    requires !NonBlank(cells)
    ensures Username(At(cells, column)).None?
  {
  }

  // ---------- What the specification means ----------

  lemma {:induction false} PositionsSplit(data: seq<Cells>, column: nat, kinds: set<Verdict>, more: set<Verdict>,
      n: nat)
    requires n <= |data| && kinds !! more
    ensures |Positions(data, column, kinds + more, n)| ==
            |Positions(data, column, kinds, n)| + |Positions(data, column, more, n)|
    decreases n
  {
    if n > 0 { PositionsSplit(data, column, kinds, more, n - 1); }
  }

  /** What `make` says of the picked numbers below `n`, in order. */
  function Picked<T>(pick: nat -> bool, make: nat -> T, n: nat): seq<T> {
    if n == 0 then [] else Picked(pick, make, n - 1) + (if pick(n - 1) then [make(n - 1)] else [])
  }

  lemma {:induction false} PickedAt<T>(pick: nat -> bool, make: nat -> T, n: nat)
    ensures var where := Picked(pick, i => i, n); var made := Picked(pick, make, n);
            |made| == |where| && forall k :: 0 <= k < |made| ==> made[k] == make(where[k])
    decreases n
  {
    if n > 0 { PickedAt(pick, make, n - 1); }
  }

  function Picks(data: seq<Cells>, column: nat, kinds: set<Verdict>): nat -> bool {
    (i: nat) => i < |data| && Judge(data, column, i) in kinds
  }

  function Rows(headers: seq<string>, data: seq<Cells>, column: nat): nat -> Row {
    (i: nat) =>
      if i < |data| && NameOf(data, column, i).Some? then MakeRow(headers, data[i], NameOf(data, column, i).value)
      else Row("", None, None, None, None, None, None, None)
  }

  function Issues(data: seq<Cells>, column: nat): nat -> Issue {
    (i: nat) => Issue(i + 2, if i < |data| then ReasonOf(Judge(data, column, i)) else DuplicateUsername)
  }

  lemma {:induction false} PositionsArePicked(data: seq<Cells>, column: nat, kinds: set<Verdict>, n: nat)
    requires n <= |data|
    ensures Positions(data, column, kinds, n) == Picked(Picks(data, column, kinds), i => i, n)
    decreases n
  {
    if n > 0 { PositionsArePicked(data, column, kinds, n - 1); }
  }

  lemma {:induction false} RowsArePicked(headers: seq<string>, data: seq<Cells>, column: nat, n: nat)
    requires n <= |data|
    ensures RowsOf(headers, data, column, n) == Picked(Picks(data, column, {Accepted}), Rows(headers, data, column), n)
    decreases n
  {
    if n > 0 { RowsArePicked(headers, data, column, n - 1); }
  }

  lemma {:induction false} IssuesArePicked(data: seq<Cells>, column: nat, n: nat)
    requires n <= |data|
    ensures IssuesOf(data, column, n) == Picked(Picks(data, column, PROBLEMS), Issues(data, column), n)
    decreases n
  {
    if n > 0 { IssuesArePicked(data, column, n - 1); }
  }

  lemma RowAt(headers: seq<string>, data: seq<Cells>, column: nat, n: nat, k: nat)
    requires n <= |data| && k < |RowsOf(headers, data, column, n)|
    ensures |RowsOf(headers, data, column, n)| == |Positions(data, column, {Accepted}, n)|
    ensures RowsOf(headers, data, column, n)[k] ==
            Rows(headers, data, column)(Positions(data, column, {Accepted}, n)[k])
  {
    RowsArePicked(headers, data, column, n);
    PositionsArePicked(data, column, {Accepted}, n);
    PickedAt(Picks(data, column, {Accepted}), Rows(headers, data, column), n);
  }

  lemma IssueAt(data: seq<Cells>, column: nat, n: nat, k: nat)
    requires n <= |data| && k < |IssuesOf(data, column, n)|
    ensures |IssuesOf(data, column, n)| == |Positions(data, column, PROBLEMS, n)|
    ensures IssuesOf(data, column, n)[k] == Issues(data, column)(Positions(data, column, PROBLEMS, n)[k])
  {
    IssuesArePicked(data, column, n);
    PositionsArePicked(data, column, PROBLEMS, n);
    PickedAt(Picks(data, column, PROBLEMS), Issues(data, column), n);
  }

  lemma IssuesLength(data: seq<Cells>, column: nat, n: nat)
    requires n <= |data|
    ensures |IssuesOf(data, column, n)| == |Positions(data, column, PROBLEMS, n)|
  {
    IssuesArePicked(data, column, n);
    PositionsArePicked(data, column, PROBLEMS, n);
    PickedAt(Picks(data, column, PROBLEMS), Issues(data, column), n);
  }

  /** The first row with a given username is accepted. */
  lemma {:induction false} FirstWithName(data: seq<Cells>, column: nat, i: nat) returns (j: nat)
    requires i < |data| && NameOf(data, column, i).Some?
    ensures j <= i && NameOf(data, column, j) == NameOf(data, column, i) && Judge(data, column, j) == Accepted
    decreases i
  {
    if !NonBlank(data[i]) { BlankHasNoName(data[i], column); }
    if SeenBefore(data, column, i, NameOf(data, column, i).value) {
      var h :| 0 <= h < i && NameOf(data, column, h) == NameOf(data, column, i);
      j := FirstWithName(data, column, h);
    } else {
      j := i;
    }
  }

  /** The rows are the first occurrences of the valid usernames, in file order. */
  lemma RowsAreFirstOccurrences(headers: seq<string>, data: seq<Cells>, column: nat)
    ensures var rows := RowsOf(headers, data, column, |data|); var first := Positions(data, column, {Accepted}, |data|);
            && |rows| == |first|
            && (forall k :: 0 <= k < |first| ==>
                  && NameOf(data, column, first[k]) == Some(rows[k].username)
                  && rows[k] == MakeRow(headers, data[first[k]], rows[k].username)
                  && !SeenBefore(data, column, first[k], rows[k].username))
  {
    RowCount(headers, data, column, |data|);
    var rows := RowsOf(headers, data, column, |data|);
    var first := Positions(data, column, {Accepted}, |data|);
    forall k | 0 <= k < |first|
      ensures NameOf(data, column, first[k]).Some?
      ensures rows[k] == MakeRow(headers, data[first[k]], NameOf(data, column, first[k]).value)
    {
      assert Judge(data, column, first[k]) == Accepted;
      RowAt(headers, data, column, |data|, k);
    }
  }

  lemma RowsAreDistinct(headers: seq<string>, data: seq<Cells>, column: nat, k: nat, l: nat)
    requires k < l < |RowsOf(headers, data, column, |data|)|
    ensures RowsOf(headers, data, column, |data|)[k].username != RowsOf(headers, data, column, |data|)[l].username
  {
    RowsAreFirstOccurrences(headers, data, column);
    var first := Positions(data, column, {Accepted}, |data|);
    assert first[k] < first[l] && NameOf(data, column, first[k]).Some?;
  }

  lemma EveryNameIsKept(headers: seq<string>, data: seq<Cells>, column: nat, i: nat)
    requires i < |data| && NameOf(data, column, i).Some?
    ensures exists k :: 0 <= k < |RowsOf(headers, data, column, |data|)| &&
              Some(RowsOf(headers, data, column, |data|)[k].username) == NameOf(data, column, i)
  {
    RowsAreFirstOccurrences(headers, data, column);
    var first := Positions(data, column, {Accepted}, |data|);
    var j := FirstWithName(data, column, i);
    var k :| 0 <= k < |first| && first[k] == j;
    assert Some(RowsOf(headers, data, column, |data|)[k].username) == NameOf(data, column, i);
  }

  lemma IssuesIncrease(data: seq<Cells>, column: nat, k: nat, l: nat)
    requires k < l < |IssuesOf(data, column, |data|)|
    ensures IssuesOf(data, column, |data|)[k].row < IssuesOf(data, column, |data|)[l].row
  {
    IssueAt(data, column, |data|, k);
    IssueAt(data, column, |data|, l);
  }

  lemma CountersAddUp(data: seq<Cells>, column: nat, n: nat)
    requires n <= |data|
    ensures |Positions(data, column, PROBLEMS, n)| ==
            |Positions(data, column, {Missing, Invalid}, n)| + |Positions(data, column, {Duplicate}, n)|
    ensures |Positions(data, column, PROBLEMS + {Accepted}, n)| ==
            |Positions(data, column, PROBLEMS, n)| + |Positions(data, column, {Accepted}, n)|
  {
    PositionsSplit(data, column, {Missing, Invalid}, {Duplicate}, n);
    PositionsSplit(data, column, PROBLEMS, {Accepted}, n);
    assert {Missing, Invalid} + {Duplicate} == PROBLEMS;
  }

  /**
   The result of any import. The rows are the first occurrences, in file order, of the valid
   usernames, each once; every non-blank row is a row or an issue, so the three counters add up to
   the total; issue line numbers strictly increase.
   */
  lemma ImportIsExact(headers: seq<string>, data: seq<Cells>, column: nat)
    ensures var p := Import(headers, data, column); var first := Positions(data, column, {Accepted}, |data|);
            && |p.rows| == |first| == p.validRows
            && (forall k :: 0 <= k < |first| ==>
                  && NameOf(data, column, first[k]) == Some(p.rows[k].username)
                  && p.rows[k] == MakeRow(headers, data[first[k]], p.rows[k].username)
                  && !SeenBefore(data, column, first[k], p.rows[k].username))
            && (forall k, l :: 0 <= k < l < |p.rows| ==> p.rows[k].username != p.rows[l].username)
            && (forall i :: 0 <= i < |data| && NameOf(data, column, i).Some? ==>
                  exists k :: 0 <= k < |p.rows| && Some(p.rows[k].username) == NameOf(data, column, i))
            && p.totalRows == p.validRows + p.invalidRows + p.duplicateRows
            && |p.issues| == p.invalidRows + p.duplicateRows
            && (forall k, l :: 0 <= k < l < |p.issues| ==> p.issues[k].row < p.issues[l].row)
  {
    var p := Import(headers, data, column);
    RowsAreFirstOccurrences(headers, data, column);
    forall k, l | 0 <= k < l < |p.rows| ensures p.rows[k].username != p.rows[l].username {
      RowsAreDistinct(headers, data, column, k, l);
    }
    forall i | 0 <= i < |data| && NameOf(data, column, i).Some?
      ensures exists k :: 0 <= k < |p.rows| && Some(p.rows[k].username) == NameOf(data, column, i)
    {
      EveryNameIsKept(headers, data, column, i);
    }
    forall k, l | 0 <= k < l < |p.issues| ensures p.issues[k].row < p.issues[l].row {
      IssuesIncrease(data, column, k, l);
    }
    IssuesLength(data, column, |data|);
    CountersAddUp(data, column, |data|);
  }

  /** What is wrong with data row `i`, if it has something in it. */
  predicate HasFault(data: seq<Cells>, column: nat, i: nat, reason: Reason)
    requires i < |data|
  {
    && (exists c :: c in data[i] && Clean(c).Some?)
    && match reason
       case MissingUsername => Clean(At(data[i], column)).None?
       case InvalidUsername => Clean(At(data[i], column)).Some? && Username(At(data[i], column)).None?
       case DuplicateUsername =>
         && Username(At(data[i], column)).Some?
         && exists j :: 0 <= j < i && NameOf(data, column, j) == Username(At(data[i], column))
  }

  lemma FaultIsVerdict(data: seq<Cells>, column: nat, i: nat, reason: Reason)
    requires i < |data|
    ensures HasFault(data, column, i, reason) <==>
            Judge(data, column, i) in PROBLEMS && ReasonOf(Judge(data, column, i)) == reason
  {
    if exists c :: c in data[i] && Clean(c).Some? { assert NonBlank(data[i]); }
    if NonBlank(data[i]) {
      var k :| 0 <= k < |data[i]| && Clean(data[i][k]).Some?;
      assert data[i][k] in data[i];
    }
  }

  lemma ProblemIsReported(data: seq<Cells>, column: nat, i: nat, verdict: Verdict)
    requires i < |data| && Judge(data, column, i) == verdict && verdict in PROBLEMS
    ensures Issue(i + 2, ReasonOf(verdict)) in IssuesOf(data, column, |data|)
  {
    IssuesLength(data, column, |data|);
    var where := Positions(data, column, PROBLEMS, |data|);
    assert i in where;
    var k :| 0 <= k < |where| && where[k] == i;
    IssueAt(data, column, |data|, k);
  }

  lemma FaultIsReported(data: seq<Cells>, column: nat, i: nat, reason: Reason)
    requires i < |data| && HasFault(data, column, i, reason)
    ensures Issue(i + 2, reason) in IssuesOf(data, column, |data|)
  {
    FaultIsVerdict(data, column, i, reason);
    ProblemIsReported(data, column, i, Judge(data, column, i));
  }

  lemma ReportedIsFault(data: seq<Cells>, column: nat, k: nat)
    requires k < |IssuesOf(data, column, |data|)|
    ensures var issue := IssuesOf(data, column, |data|)[k];
            2 <= issue.row < |data| + 2 && HasFault(data, column, issue.row - 2, issue.reason)
  {
    IssueAt(data, column, |data|, k);
    var i := Positions(data, column, PROBLEMS, |data|)[k];
    FaultIsVerdict(data, column, i, ReasonOf(Judge(data, column, i)));
  }

  /** An import reports line `i + 2` with a reason exactly if that is what is wrong with data row `i`. */
  lemma IssueIff(data: seq<Cells>, column: nat, i: nat, reason: Reason)
    requires i < |data|
    ensures Issue(i + 2, reason) in IssuesOf(data, column, |data|) <==> HasFault(data, column, i, reason)
  {
    if HasFault(data, column, i, reason) { FaultIsReported(data, column, i, reason); }
    if k :| 0 <= k < |IssuesOf(data, column, |data|)| && IssuesOf(data, column, |data|)[k] == Issue(i + 2, reason) {
      ReportedIsFault(data, column, k);
    }
  }

  /** The issues that are, or are not, about duplicates. */
  function Matching(issues: seq<Issue>, duplicates: bool): set<nat> {
    set k: nat | k < |issues| && (issues[k].reason == DuplicateUsername) == duplicates
  }

  lemma {:induction false} CountReasonIs(issues: seq<Issue>, duplicates: bool)
    ensures CountReason(issues, duplicates) == |Matching(issues, duplicates)|
    decreases |issues|
  {
    if issues != [] {
      var n := |issues| - 1;
      CountReasonIs(issues[..n], duplicates);
      assert Matching(issues, duplicates) ==
             Matching(issues[..n], duplicates) +
             if (issues[n].reason == DuplicateUsername) == duplicates then {n} else {};
    }
  }

  function Elements(xs: seq<nat>): set<nat> { set x | x in xs }

  lemma {:induction false} SizeOfIncreasing(xs: seq<nat>)
    requires forall k, l :: 0 <= k < l < |xs| ==> xs[k] < xs[l]
    ensures |Elements(xs)| == |xs|
    decreases |xs|
  {
    if xs == [] {
      assert Elements(xs) == {};
    } else {
      var n := |xs| - 1;
      SizeOfIncreasing(xs[..n]);
      assert xs[n] !in Elements(xs[..n]);
      assert Elements(xs) == Elements(xs[..n]) + {xs[n]};
    }
  }

  /** The data rows with something in them. */
  function FilledRows(data: seq<Cells>): set<nat> {
    set i: nat | i < |data| && (exists c :: c in data[i] && Clean(c).Some?)
  }

  lemma InWhere(data: seq<Cells>, column: nat, i: nat)
    ensures i in Positions(data, column, PROBLEMS + {Accepted}, |data|) <==> i in FilledRows(data)
  {
    if i < |data| && NonBlank(data[i]) {
      var k :| 0 <= k < |data[i]| && Clean(data[i][k]).Some?;
      assert data[i][k] in data[i];
    }
  }

  lemma NonBlankRows(data: seq<Cells>, column: nat)
    ensures |Positions(data, column, PROBLEMS + {Accepted}, |data|)| == |FilledRows(data)|
  {
    var where := Positions(data, column, PROBLEMS + {Accepted}, |data|);
    SizeOfIncreasing(where);
    forall i: nat ensures i in where <==> i in FilledRows(data) { InWhere(data, column, i); }
    assert FilledRows(data) == Elements(where);
  }

  /** The counters are what they say: rows with something in them, and issues of each kind. */
  lemma CountersCount(headers: seq<string>, data: seq<Cells>, column: nat)
    ensures var p := Import(headers, data, column);
            && p.totalRows == |FilledRows(data)| && p.validRows == |p.rows|
            && p.invalidRows == |Matching(p.issues, false)| && p.duplicateRows == |Matching(p.issues, true)|
  {
    RowCount(headers, data, column, |data|);
    IssueCount(data, column, |data|, true);
    IssueCount(data, column, |data|, false);
    CountReasonIs(IssuesOf(data, column, |data|), true);
    CountReasonIs(IssuesOf(data, column, |data|), false);
    NonBlankRows(data, column);
  }

  // ---------- Round trip through a matrix ----------

  const COLUMNS: seq<string> :=
    ["username", "telegram_id", "access_hash", "first_name", "last_name", "note", "tag", "source"]

  function CellOf(o: Option<string>): Cell { Text(if o.Some? then o.value else "") }

  function CellsOf(r: Row): Cells {
    [Text(r.username), CellOf(r.telegramId), CellOf(r.accessHash), CellOf(r.firstName), CellOf(r.lastName),
     CellOf(r.note), CellOf(r.tag), CellOf(r.source)]
  }

  function Texts(names: seq<string>): (r: Cells)
    ensures |r| == |names| && forall i :: 0 <= i < |names| ==> r[i] == Text(names[i])
  {
    seq(|names|, i requires 0 <= i < |names| => Text(names[i]))
  }

  function Body(rows: seq<Row>): (r: seq<Cells>)
    ensures |r| == |rows| && forall i :: 0 <= i < |rows| ==> r[i] == CellsOf(rows[i])
  {
    seq(|rows|, i requires 0 <= i < |rows| => CellsOf(rows[i]))
  }

  /** A sheet with one header row and the rows as cells; absent values become empty cells. */
  function Sheet(rows: seq<Row>): seq<Cells> { [Texts(COLUMNS)] + Body(rows) }

  /** A value that cleaning keeps as it is. */
  predicate Kept(o: Option<string>) { o.Some? ==> o.value != "" && Trimmed(o.value) }

  predicate RowKept(r: Row) {
    && ValidName(r.username) && Kept(r.telegramId) && Kept(r.accessHash) && Kept(r.firstName) && Kept(r.lastName)
    && Kept(r.note) && Kept(r.tag) && Kept(r.source)
  }

  lemma CleanIsKept(c: Cell)
    ensures Kept(Clean(c))
  {
    match c
    case Other =>
    case Text(s) => TrimIsTrimmed(s);
    case Number(s) => TrimIsTrimmed(s);
  }

  lemma CleanCellOf(o: Option<string>)
    requires Kept(o)
    ensures Clean(CellOf(o)) == o
  {
  }

  lemma NameIsFixed(name: string)
    requires ValidName(name)
    ensures Clean(Text(name)) == Some(name) && Username(Text(name)) == Some(name)
  {
    assert NameChar(name[0]) && NameChar(name[|name| - 1]);
    TrimmedIsFixed(name);
    assert StripAt(name) == name;
    assert Lower(name) == name by {
      forall i | 0 <= i < |name| ensures LowerChar(name[i]) == name[i] { assert NameChar(name[i]); }
    }
  }

  lemma {:induction false} UnderscoredIsFixed(s: string)
    requires forall i :: 0 <= i < |s| ==> NameChar(s[i])
    ensures Underscored(s, false) == s
    decreases |s|
  {
    if s != "" {
      assert NameChar(s[0]);
      UnderscoredIsFixed(s[1..]);
      assert [s[0]] + s[1..] == s;
    }
  }

  lemma HeaderIsFixed(name: string)
    requires name != "" && forall i :: 0 <= i < |name| ==> NameChar(name[i])
    ensures Header(Text(name)) == name
  {
    assert NameChar(name[0]) && NameChar(name[|name| - 1]);
    TrimmedIsFixed(name);
    assert Lower(name) == name by {
      forall i | 0 <= i < |name| ensures LowerChar(name[i]) == name[i] { assert NameChar(name[i]); }
    }
    UnderscoredIsFixed(name);
  }

  /** Column names come back from the header row unchanged. */
  lemma ColumnFixed(k: nat)
    requires k < |COLUMNS|
    ensures Header(Text(COLUMNS[k])) == COLUMNS[k]
  {
    if k == 0 { HeaderIsFixed("username"); }
    else if k == 1 { HeaderIsFixed("telegram_id"); }
    else if k == 2 { HeaderIsFixed("access_hash"); }
    else if k == 3 { HeaderIsFixed("first_name"); }
    else if k == 4 { HeaderIsFixed("last_name"); }
    else if k == 5 { HeaderIsFixed("note"); }
    else if k == 6 { HeaderIsFixed("tag"); }
    else { HeaderIsFixed("source"); }
  }

  lemma {:induction false} IndexOfAt(headers: seq<string>, k: nat)
    requires k < |headers| && headers[k] !in headers[..k]
    ensures IndexOf(headers, headers[k]) == Some(k)
    decreases |headers|
  {
    if k > 0 {
      assert headers[..k][0] == headers[0];
      assert headers[1..][..k - 1] == headers[..k][1..];
      IndexOfAt(headers[1..], k - 1);
    }
  }

  lemma ColumnIndex(k: nat)
    requires k < |COLUMNS|
    ensures IndexOf(COLUMNS, COLUMNS[k]) == Some(k)
  {
    assert |COLUMNS[0]| == 8 && |COLUMNS[1]| == 11 && |COLUMNS[2]| == 11 && |COLUMNS[3]| == 10 && |COLUMNS[4]| == 9
        && |COLUMNS[5]| == 4 && |COLUMNS[6]| == 3 && |COLUMNS[7]| == 6;
    assert COLUMNS[1][0] == 't' && COLUMNS[2][0] == 'a';
    IndexOfAt(COLUMNS, k);
  }

  lemma ValueAt(r: Row, k: nat)
    requires k < |COLUMNS|
    ensures Value(COLUMNS, CellsOf(r), COLUMNS[k]) == Clean(CellsOf(r)[k])
  {
    ColumnIndex(k);
  }

  lemma RowIsFixed(r: Row)
    requires RowKept(r)
    ensures MakeRow(COLUMNS, CellsOf(r), r.username) == r
  {
    ValueAt(r, 1); CleanCellOf(r.telegramId);
    ValueAt(r, 2); CleanCellOf(r.accessHash);
    ValueAt(r, 3); CleanCellOf(r.firstName);
    ValueAt(r, 4); CleanCellOf(r.lastName);
    ValueAt(r, 5); CleanCellOf(r.note);
    ValueAt(r, 6); CleanCellOf(r.tag);
    ValueAt(r, 7); CleanCellOf(r.source);
  }

  /** Every accepted row holds values that cleaning keeps, and no username twice. */
  lemma ImportedRowsKept(headers: seq<string>, data: seq<Cells>, column: nat)
    ensures var rows := Import(headers, data, column).rows;
            RowsKept(rows)
  {
    ImportIsExact(headers, data, column);
    var rows := Import(headers, data, column).rows;
    var first := Positions(data, column, {Accepted}, |data|);
    forall k | 0 <= k < |rows| ensures RowKept(rows[k]) {
      assert rows[k] == MakeRow(headers, data[first[k]], rows[k].username);
      forall name ensures Kept(Value(headers, data[first[k]], name)) {
        if IndexOf(headers, name).Some? { CleanIsKept(At(data[first[k]], IndexOf(headers, name).value)); }
      }
    }
  }

  /** Rows that cleaning keeps, with usernames that do not repeat: what an import can produce. */
  ghost predicate RowsKept(rows: seq<Row>) {
    && (forall k :: 0 <= k < |rows| ==> RowKept(rows[k]))
    && (forall k, l :: 0 <= k < l < |rows| ==> rows[k].username != rows[l].username)
  }

  lemma SheetRowAccepted(rows: seq<Row>, n: nat)
    requires RowsKept(rows) && n < |rows|
    ensures NameOf(Body(rows), 0, n) == Some(rows[n].username) && Judge(Body(rows), 0, n) == Accepted
  {
    var data := Body(rows);
    forall k | 0 <= k < |rows| ensures NameOf(data, 0, k) == Some(rows[k].username) && Clean(At(data[k], 0)).Some? {
      NameIsFixed(rows[k].username);
    }
    assert Clean(data[n][0]).Some?;
  }

  /** Data row `k` is accepted, as this row. */
  ghost predicate AcceptedAs(headers: seq<string>, data: seq<Cells>, column: nat, k: nat, row: Row) {
    && k < |data| && Judge(data, column, k) == Accepted
    && NameOf(data, column, k) == Some(row.username) && MakeRow(headers, data[k], row.username) == row
  }

  lemma AcceptedStep(headers: seq<string>, data: seq<Cells>, column: nat, n: nat, row: Row)
    requires AcceptedAs(headers, data, column, n, row)
    ensures RowsOf(headers, data, column, n + 1) == RowsOf(headers, data, column, n) + [row]
    ensures IssuesOf(data, column, n + 1) == IssuesOf(data, column, n)
  {
    assert IssuesOf(data, column, n + 1) == IssuesOf(data, column, n) + [];
  }

  lemma {:induction false} AllAccepted(headers: seq<string>, data: seq<Cells>, column: nat, rows: seq<Row>, n: nat)
    requires n <= |rows| == |data| && forall k :: 0 <= k < |rows| ==> AcceptedAs(headers, data, column, k, rows[k])
    ensures RowsOf(headers, data, column, n) == rows[..n] && IssuesOf(data, column, n) == []
    decreases n
  {
    if n > 0 {
      AllAccepted(headers, data, column, rows, n - 1);
      AcceptedStep(headers, data, column, n - 1, rows[n - 1]);
      assert rows[..n] == rows[..n - 1] + [rows[n - 1]];
    }
  }

  lemma SheetImport(rows: seq<Row>)
    requires RowsKept(rows)
    ensures Import(COLUMNS, Body(rows), 0) == Parsed(rows, [], |rows|, |rows|, 0, 0)
  {
    forall k | 0 <= k < |rows| ensures AcceptedAs(COLUMNS, Body(rows), 0, k, rows[k]) {
      SheetRowAccepted(rows, k);
      RowIsFixed(rows[k]);
    }
    AllAccepted(COLUMNS, Body(rows), 0, rows, |rows|);
    assert rows[..|rows|] == rows;
    ImportIsExact(COLUMNS, Body(rows), 0);
  }

  lemma SheetParse(rows: seq<Row>)
    ensures Parse(Sheet(rows)) == Some(Import(COLUMNS, Body(rows), 0))
  {
    forall k | 0 <= k < |COLUMNS| ensures Header(Text(COLUMNS[k])) == COLUMNS[k] { ColumnFixed(k); }
    assert Headers(Texts(COLUMNS)) == COLUMNS;
    ColumnIndex(0);
    assert Sheet(rows)[0] == Texts(COLUMNS) && Sheet(rows)[1..] == Body(rows);
  }

  /** Writing the accepted rows of any import as a sheet and importing that gives the same rows and no issue. */
  lemma ImportRoundTrip(matrix: seq<Cells>)
    ensures Parse(matrix).Some? ==>
              var rows := Parse(matrix).value.rows;
              Parse(Sheet(rows)) == Some(Parsed(rows, [], |rows|, |rows|, 0, 0))
  {
    if Parse(matrix).Some? {
      var headers := if matrix == [] then [] else Headers(matrix[0]);
      var data := if matrix == [] then [] else matrix[1..];
      ImportedRowsKept(headers, data, UsernameColumn(headers).value);
      var rows := Parse(matrix).value.rows;
      SheetParse(rows);
      SheetImport(rows);
    }
  }

  /** `rows.length` and `validRows` of a result are the same number. */
  lemma ParsedRowCount(matrix: seq<Cells>)
    ensures Parse(matrix).Some? ==> |Parse(matrix).value.rows| == Parse(matrix).value.validRows
  {
    var headers := if matrix == [] then [] else Headers(matrix[0]);
    var data := if matrix == [] then [] else matrix[1..];
    if UsernameColumn(headers).Some? { RowCount(headers, data, UsernameColumn(headers).value, |data|); }
  }

  // ---------- The stored counters ----------

  datatype StoredImport = StoredImport(task: string, totalRows: nat, validRows: nat, invalidRows: nat,
      duplicateRows: nat)

  /** The sum of `validRows` over a task's imports among the first `n`. */
  function SumValid(imports: seq<StoredImport>, task: string, n: nat): nat
    requires n <= |imports|
  {
    if n == 0 then 0
    else SumValid(imports, task, n - 1) + (if imports[n - 1].task == task then imports[n - 1].validRows else 0)
  }

  /** Invitation tasks and imports of the in-memory store (store.ts). */
  class ImportStore {
    var userCounts: map<string, nat>
    var imports: seq<StoredImport>

    /** A task's `userCount` is the sum of `validRows` over its imports. */
    ghost predicate Valid()
      reads this
    {
      && (forall t :: t in userCounts ==> userCounts[t] == SumValid(imports, t, |imports|))
      && (forall i :: 0 <= i < |imports| ==> imports[i].task in userCounts)
    }

    constructor ()
      ensures Valid() && userCounts == map[] && imports == []
    {
      userCounts, imports := map[], [];
    }

    method CreateTask(task: string)
      requires Valid() && task !in userCounts
      modifies this
      ensures Valid() && userCounts == old(userCounts)[task := 0] && imports == old(imports)
    {
      NoImportsNoUsers(imports, task, |imports|);
      userCounts := userCounts[task := 0];
    }

    /** `createInvitationImport`: keep the counters, add the rows to the task's users. */
    method CreateInvitationImport(task: string, p: Parsed)
      requires Valid() && task in userCounts && |p.rows| == p.validRows
      modifies this
      ensures Valid()
      ensures userCounts == old(userCounts)[task := old(userCounts)[task] + p.validRows]
      ensures imports == old(imports) + [StoredImport(task, p.totalRows, p.validRows, p.invalidRows, p.duplicateRows)]
    {
      var stored := StoredImport(task, p.totalRows, p.validRows, p.invalidRows, p.duplicateRows);
      forall t ensures SumValid(imports + [stored], t, |imports|) == SumValid(imports, t, |imports|) {
        SumOfFront(imports, stored, t, |imports|);
      }
      imports := imports + [stored];
      userCounts := userCounts[task := userCounts[task] + |p.rows|];
    }

    /** POST /api/invitations/import on an owned task; an unreadable sheet changes nothing. */
    method ImportInto(task: string, matrix: seq<Cells>) returns (result: Option<Parsed>)
      requires Valid() && task in userCounts
      modifies this
      ensures Valid() && result == Parse(matrix)
      ensures userCounts ==
              if result.Some? then old(userCounts)[task := old(userCounts)[task] + result.value.validRows]
              else old(userCounts)
    {
      result := ParseMatrix(matrix);
      match result {
        case None => return;
        case Some(p) =>
          ParsedRowCount(matrix);
          ghost var counts := userCounts[task := userCounts[task] + p.validRows];
          CreateInvitationImport(task, p);
          assert userCounts == counts;
      }
    }
  }

  lemma {:induction false} SumOfFront(imports: seq<StoredImport>, stored: StoredImport, task: string, n: nat)
    requires n <= |imports|
    ensures SumValid(imports + [stored], task, n) == SumValid(imports, task, n)
    decreases n
  {
    if n > 0 { SumOfFront(imports, stored, task, n - 1); }
  }

  lemma {:induction false} NoImportsNoUsers(imports: seq<StoredImport>, task: string, n: nat)
    requires n <= |imports| && forall i :: 0 <= i < |imports| ==> imports[i].task != task
    ensures SumValid(imports, task, n) == 0
    decreases n
  {
    if n > 0 { NoImportsNoUsers(imports, task, n - 1); }
  }
}
