/** generate_inventory.py: the INI inventory built from the `Inventory`
    sheet (one line per host, grouped by its `group` column) and the
    `global_vars` sheet (variables shared by every host). */
module Inventory {
  import opened Text
  import opened Order
  import opened Seqs
  import opened Sheet

  /** The columns the Inventory sheet must have. */
  const Required: seq<string> :=
    ["hostname", "ip", "group", "ansible_user", "ansible_ssh_pass", "ansible_become_password"]

  /** The optional column giving a host's Python interpreter. */
  const Interpreter: string := "ansible_python_interpreter"

  const AllVarsHeader: string := "[all:vars]"
  const ChildrenHeader: string := "[all_servers:children]"

  // ---------------------------------------------------------------- globals

  /** `df.empty`: a sheet with no rows or no columns. */
  predicate IsEmpty(cols: seq<string>, rows: seq<Row>) {
    |cols| == 0 || |rows| == 0
  }

  /** The test `pd.notna(val)` for the cell of `row` in a column. */
  function PresentIn(row: Row): string -> bool {
    col => Get(row, col).Some?
  }

  /** The `col=val` line for a cell. */
  function VarLine(row: Row, col: string): string {
    col + "=" + Str(Get(row, col))
  }

  /** The lines of one global row: its cells in column order, NaN skipped. */
  function RowVars(cols: seq<string>, row: Row): seq<string> {
    if cols == [] then []
    else
      var col := cols[|cols| - 1];
      RowVars(cols[..|cols| - 1], row) + (if Get(row, col).Some? then [VarLine(row, col)] else [])
  }

  /** The lines of every global row, row after row. */
  function AllVars(cols: seq<string>, rows: seq<Row>): seq<string> {
    if rows == [] then []
    else AllVars(cols, rows[..|rows| - 1]) + RowVars(cols, rows[|rows| - 1])
  }

  /** The `[all:vars]` block, written only for a non-empty sheet. */
  function GlobalBlock(cols: seq<string>, rows: seq<Row>): seq<string> {
    if IsEmpty(cols, rows) then [] else [AllVarsHeader] + AllVars(cols, rows) + [""]
  }

  /** One global row gives exactly one `col=val` line per non-missing cell,
      in column order. */
  lemma {:induction false} RowVarsSpec(cols: seq<string>, row: Row)
    ensures var present := Filter(cols, PresentIn(row));
      RowVars(cols, row) == seq(|present|, k requires 0 <= k < |present| => VarLine(row, present[k]))
  {
    if cols != [] {
      var init := cols[..|cols| - 1];
      RowVarsSpec(init, row);
    }
  }

  /** The variable lines go row by row: all of a row's lines come before
      those of the next row. */
  lemma {:induction false} AllVarsRowMajor(cols: seq<string>, rows: seq<Row>)
    ensures AllVars(cols, rows) == Flatten(seq(|rows|, i requires 0 <= i < |rows| => RowVars(cols, rows[i])))
  {
    if rows != [] {
      var n := |rows| - 1;
      AllVarsRowMajor(cols, rows[..n]);
      var blocks := seq(|rows|, i requires 0 <= i < |rows| => RowVars(cols, rows[i]));
      assert blocks == seq(n, i requires 0 <= i < n => RowVars(cols, rows[..n][i])) + [RowVars(cols, rows[n])];
      FlattenAppend(seq(n, i requires 0 <= i < n => RowVars(cols, rows[..n][i])), RowVars(cols, rows[n]));
    }
  }

  /** The `[all:vars]` header appears exactly when the global sheet is
      non-empty, and then the block is the header, the variable lines and a
      blank line. */
  lemma GlobalBlockSpec(cols: seq<string>, rows: seq<Row>)
    ensures GlobalBlock(cols, rows) != [] <==> !IsEmpty(cols, rows)
    ensures !IsEmpty(cols, rows) ==>
      var block := GlobalBlock(cols, rows);
      && block[0] == AllVarsHeader
      && block[|block| - 1] == ""
      && block[1..|block| - 1] == AllVars(cols, rows)
  {
  }

  // ----------------------------------------------------------------- groups

  /** A row's `group` cell. */
  function GroupOf(row: Row): Cell {
    Get(row, "group")
  }

  /** `sorted(inv_df["group"].dropna().unique())`, built a row at a time. */
  function Groups(rows: seq<Row>): (groups: seq<string>)
    ensures StrictlySorted(groups)
  {
    if rows == [] then []
    else
      var prev := Groups(rows[..|rows| - 1]);
      match GroupOf(rows[|rows| - 1])
      case None => prev
      case Some(g) => Insert(prev, g)
  }

  /** The groups are exactly the non-missing `group` values. */
  lemma {:induction false} GroupsMembers(rows: seq<Row>)
    ensures forall g :: g in Groups(rows) <==> exists i :: 0 <= i < |rows| && GroupOf(rows[i]) == Some(g)
  {
    if rows != [] {
      var n := |rows| - 1;
      GroupsMembers(rows[..n]);
      forall g ensures g in Groups(rows) <==> exists i :: 0 <= i < |rows| && GroupOf(rows[i]) == Some(g) {
        if g in Groups(rows) && GroupOf(rows[n]) != Some(g) {
          var i :| 0 <= i < n && GroupOf(rows[..n][i]) == Some(g);
          assert GroupOf(rows[i]) == Some(g);
        }
        if i :| 0 <= i < |rows| && GroupOf(rows[i]) == Some(g) {
          if i < n {
            assert GroupOf(rows[..n][i]) == Some(g);
          }
        }
      }
    }
  }

  /** The group list is the only strictly ascending list of the non-missing
      group values: it is `sorted` applied to their set. */
  lemma GroupsAreSortedSet(rows: seq<Row>, groups: seq<string>)
    requires StrictlySorted(groups)
    requires forall g :: g in groups <==> exists i :: 0 <= i < |rows| && GroupOf(rows[i]) == Some(g)
    ensures groups == Groups(rows)
  {
    GroupsMembers(rows);
    SortedUnique(groups, Groups(rows));
  }

  // ------------------------------------------------------------------ hosts

  /** The fixed part of a host line. */
  function BaseLine(row: Row): string {
    Str(Get(row, "hostname"))
    + " ansible_host=" + Str(Get(row, "ip"))
    + " ansible_user=" + Str(Get(row, "ansible_user"))
    + " ansible_ssh_pass='" + Str(Get(row, "ansible_ssh_pass"))
    + "' ansible_become_password='" + Str(Get(row, "ansible_become_password")) + "'"
  }

  /** The interpreter attribute: written only for a present cell that is
      not all whitespace, and then with the value as it stands. */
  function InterpreterAttr(interp: Cell): string {
    if NotBlank(interp) then " ansible_python_interpreter=" + interp.value else ""
  }

  /** The line for one host: the fixed part, then the interpreter attribute
      (an absent column reads as ""). */
  function HostLine(row: Row): string {
    BaseLine(row) + InterpreterAttr(GetOr(row, Interpreter, ""))
  }

  /** The interpreter attribute is there exactly when the interpreter cell is
      present and not blank, and it is then ` ansible_python_interpreter=`
      followed by the cell as it stands; a NaN cell, a blank cell and an absent column
      all leave the host line at its fixed part. */
  lemma HostLineSpec(row: Row)
    ensures InterpreterAttr(GetOr(row, Interpreter, "")) != [] <==> NotBlank(GetOr(row, Interpreter, ""))
    ensures !NotBlank(GetOr(row, Interpreter, "")) ==> HostLine(row) == BaseLine(row)
    ensures Interpreter !in row ==> HostLine(row) == BaseLine(row)
    ensures NotBlank(GetOr(row, Interpreter, "")) ==>
      HostLine(row) == BaseLine(row) + " ansible_python_interpreter=" + GetOr(row, Interpreter, "").value
  {
    var interp := GetOr(row, Interpreter, "");
    if !NotBlank(interp) {
      assert BaseLine(row) + [] == BaseLine(row);
    }
    if Interpreter !in row {
      assert interp == Some("");
      assert Strip("") == [];
    }
  }

  /** The test `inv_df["group"] == group`. */
  function InGroup(g: string): Row -> bool {
    row => GroupOf(row) == Some(g)
  }

  /** `inv_df[inv_df["group"] == group]`: the group's rows in sheet order. */
  function Members(g: string, rows: seq<Row>): seq<Row> {
    Filter(rows, InGroup(g))
  }

  /** The host lines of some rows, in order. */
  function HostLines(rows: seq<Row>): seq<string> {
    seq(|rows|, k requires 0 <= k < |rows| => HostLine(rows[k]))
  }

  /** The section of one group: its header, a line per member, a blank. */
  function Section(g: string, rows: seq<Row>): seq<string> {
    ["[" + g + "]"] + HostLines(Members(g, rows)) + [""]
  }

  /** A section is its header, then exactly one line per member in member
      order, then a blank line. */
  lemma SectionLayout(g: string, rows: seq<Row>)
    ensures |Section(g, rows)| == |Members(g, rows)| + 2
    ensures Section(g, rows)[0] == "[" + g + "]" && Section(g, rows)[|Section(g, rows)| - 1] == ""
    ensures Section(g, rows)[1..|Section(g, rows)| - 1] == HostLines(Members(g, rows))
  {
    var hosts := HostLines(Members(g, rows));
    var sec := Section(g, rows);
    assert sec == ["[" + g + "]"] + hosts + [""];
    assert sec[1..|sec| - 1] == hosts;
  }

  /** The members of a group are exactly its rows, in sheet order: every
      row whose group is `g` is a member, at the place given by the rows of
      `g` before it; every member has group `g`; a row with no group is a
      member of no group. */
  lemma MembersOfGroup(g: string, rows: seq<Row>)
    ensures forall row :: row in Members(g, rows) ==> row in rows && GroupOf(row) == Some(g)
    ensures forall i :: 0 <= i < |rows| && GroupOf(rows[i]) == Some(g) ==>
      |Members(g, rows[..i])| < |Members(g, rows)| && Members(g, rows)[|Members(g, rows[..i])|] == rows[i]
    ensures forall row :: GroupOf(row).None? ==> row !in Members(g, rows)
    ensures forall k :: 0 <= k < |Members(g, rows)| ==>
      GroupOf(Members(g, rows)[k]) == Some(g) &&
      exists i :: 0 <= i < |rows| && GroupOf(rows[i]) == Some(g) &&
                  |Members(g, rows[..i])| == k && Members(g, rows)[k] == rows[i]
  {
    forall i | 0 <= i < |rows| && GroupOf(rows[i]) == Some(g)
      ensures |Members(g, rows[..i])| < |Members(g, rows)|
      ensures Members(g, rows)[|Members(g, rows[..i])|] == rows[i]
    {
      FilterPosition(rows, InGroup(g), i);
    }
    forall k | 0 <= k < |Members(g, rows)|
      ensures GroupOf(Members(g, rows)[k]) == Some(g)
      ensures exists i :: 0 <= i < |rows| && GroupOf(rows[i]) == Some(g) &&
                          |Members(g, rows[..i])| == k && Members(g, rows)[k] == rows[i]
    {
      MemberOrigin(g, rows, k);
    }
  }

  /** Each place of a group's member list holds one of the group's rows:
      the one with exactly that many rows of the group before it. */
  lemma MemberOrigin(g: string, rows: seq<Row>, k: nat)
    requires k < |Members(g, rows)|
    ensures GroupOf(Members(g, rows)[k]) == Some(g)
    ensures exists i :: 0 <= i < |rows| && GroupOf(rows[i]) == Some(g) &&
                        |Members(g, rows[..i])| == k && Members(g, rows)[k] == rows[i]
  {
    FilterOrigin(rows, InGroup(g), k);
    var i :| 0 <= i < |rows| && InGroup(g)(rows[i]) &&
             |Filter(rows[..i], InGroup(g))| == k && Filter(rows, InGroup(g))[k] == rows[i];
    assert GroupOf(rows[i]) == Some(g);
  }

  /** The group sections, one after the other in the order of `groups`. */
  function Sections(groups: seq<string>, rows: seq<Row>): seq<string> {
    Flatten(seq(|groups|, k requires 0 <= k < |groups| => Section(groups[k], rows)))
  }

  /** The trailing block: every group as a child of `all_servers`. */
  function Children(groups: seq<string>): seq<string> {
    [ChildrenHeader] + groups
  }

  /** The whole file, once the column check has passed. */
  function InventoryLines(gcols: seq<string>, grows: seq<Row>, rows: seq<Row>): seq<string> {
    GlobalBlock(gcols, grows) + Sections(Groups(rows), rows) + Children(Groups(rows))
  }

  /** The whole script: the column check on the Inventory sheet, then the
      file. */
  function Run(invHeader: seq<string>, rows: seq<Row>, globalHeader: seq<string>, grows: seq<Row>)
    : Result<seq<string>>
  {
    var missing := Missing(Required, StripColumns(invHeader));
    if missing != [] then MissingColumns(missing)
    else Success(InventoryLines(StripColumns(globalHeader), grows, rows))
  }

  /** The run stops, with no file, exactly when a required Inventory column
      is absent from the stripped header, and names the absent ones. */
  lemma RequiredColumnsChecked(invHeader: seq<string>, rows: seq<Row>, globalHeader: seq<string>, grows: seq<Row>)
    ensures var cols := StripColumns(invHeader);
      var r := Run(invHeader, rows, globalHeader, grows);
      && (r.MissingColumns? <==> exists c :: c in Required && c !in cols)
      && (r.MissingColumns? ==> forall c :: c in r.missing <==> c in Required && c !in cols)
  {
    MissingReport(Required, StripColumns(invHeader));
  }

  /** The file ends with the children block, which lists exactly the
      section groups, in the same order. */
  lemma ChildrenListGroups(gcols: seq<string>, grows: seq<Row>, rows: seq<Row>)
    ensures var lines := InventoryLines(gcols, grows, rows);
      var groups := Groups(rows);
      && |lines| >= |groups| + 1
      && lines[|lines| - |groups| - 1] == ChildrenHeader
      && lines[|lines| - |groups|..] == groups
  {
    var groups := Groups(rows);
    var front := GlobalBlock(gcols, grows) + Sections(groups, rows);
    assert InventoryLines(gcols, grows, rows) == front + ([ChildrenHeader] + groups);
    EndsWithBlock(front, ChildrenHeader, groups);
  }

  // ------------------------------------------------------------ the writer

  /** The column loop for one global row. */
  method WriteRowVars(cols: seq<string>, row: Row) returns (lines: seq<string>)
    ensures lines == RowVars(cols, row)
  {
    lines := [];
    for j := 0 to |cols|
      invariant lines == RowVars(cols[..j], row)
    {
      assert cols[..j + 1][..j] == cols[..j];
      var val := Get(row, cols[j]);
      if val.Some? {
        lines := lines + [cols[j] + "=" + val.value];
      }
    }
    assert cols[..|cols|] == cols;
  }

  /** The global-vars loops: row by row, then column by column. */
  method WriteGlobals(cols: seq<string>, rows: seq<Row>) returns (block: seq<string>)
    ensures block == GlobalBlock(cols, rows)
  {
    block := [];
    if !(|cols| == 0 || |rows| == 0) {
      var vars: seq<string> := [];
      for i := 0 to |rows|
        invariant vars == AllVars(cols, rows[..i])
      {
        assert rows[..i + 1][..i] == rows[..i];
        var rowLines := WriteRowVars(cols, rows[i]);
        vars := vars + rowLines;
      }
      assert rows[..|rows|] == rows;
      block := [AllVarsHeader] + vars + [""];
    }
  }

  /** `sorted(inv_df["group"].dropna().unique())`: each present group value
      is put in its place in an ascending list of distinct values. */
  method SortedGroups(rows: seq<Row>) returns (groups: seq<string>)
    ensures groups == Groups(rows)
  {
    groups := [];
    for i := 0 to |rows|
      invariant groups == Groups(rows[..i])
    {
      assert rows[..i + 1][..i] == rows[..i];
      var g := GroupOf(rows[i]);
      if g.Some? {
        groups := Insert(groups, g.value);
      }
    }
    assert rows[..|rows|] == rows;
  }

  /** The lines of one group's hosts: the attribute line, then the
      interpreter when it is set. */
  method WriteHosts(members: seq<Row>) returns (lines: seq<string>)
    ensures lines == HostLines(members)
  {
    lines := [];
    for k := 0 to |members|
      invariant lines == HostLines(members[..k])
    {
      assert HostLines(members[..k + 1]) == HostLines(members[..k]) + [HostLine(members[k])];
      var row := members[k];
      var interp := GetOr(row, Interpreter, "");
      var attr := "";
      if interp.Some? && Strip(interp.value) != [] {
        attr := " ansible_python_interpreter=" + interp.value;
      }
      assert attr == InterpreterAttr(interp);
      lines := lines + [BaseLine(row) + attr];
    }
    assert members[..|members|] == members;
  }

  /** The group loop: a section per group. */
  method WriteSections(groups: seq<string>, rows: seq<Row>) returns (lines: seq<string>)
    ensures lines == Sections(groups, rows)
  {
    lines := [];
    for k := 0 to |groups|
      invariant lines == Sections(groups[..k], rows)
    {
      var g := groups[k];
      var before := seq(k, j requires 0 <= j < k => Section(groups[j], rows));
      assert seq(k + 1, j requires 0 <= j < k + 1 => Section(groups[..k + 1][j], rows)) == before + [Section(g, rows)];
      assert seq(k, j requires 0 <= j < k => Section(groups[..k][j], rows)) == before;
      FlattenAppend(before, Section(g, rows));
      var members := Filter(rows, InGroup(g));
      var hosts := WriteHosts(members);
      lines := lines + (["[" + g + "]"] + hosts + [""]);
    }
    assert groups[..|groups|] == groups;
  }

  /** The children loop: every group under `[all_servers:children]`. */
  method WriteChildren(groups: seq<string>) returns (lines: seq<string>)
    ensures lines == Children(groups)
  {
    lines := [ChildrenHeader];
    for k := 0 to |groups|
      invariant lines == [ChildrenHeader] + groups[..k]
    {
      assert groups[..k + 1] == groups[..k] + [groups[k]];
      lines := lines + [groups[k]];
    }
    assert groups[..|groups|] == groups;
  }

  /** The script from the column check on. */
  method RenderInventory(invHeader: seq<string>, rows: seq<Row>, globalHeader: seq<string>, grows: seq<Row>)
    returns (r: Result<seq<string>>)
    ensures r == Run(invHeader, rows, globalHeader, grows)
  {
    var cols := StripColumns(invHeader);
    var gcols := StripColumns(globalHeader);
    var missing := Missing(Required, cols);
    if missing != [] {
      return MissingColumns(missing);
    }
    var global := WriteGlobals(gcols, grows);
    var groups := SortedGroups(rows);
    var sections := WriteSections(groups, rows);
    groups := SortedGroups(rows);
    var children := WriteChildren(groups);
    return Success(global + sections + children);
  }
}
