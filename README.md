# AMX Ansible generators — a Dafny model

This project models the two spreadsheet-to-Ansible generators of the AMX
repository:

- `generate_host_vars.py` reads the `host_vars` sheet. It writes one YAML
  variables file per host row, under `host_vars/` unless the hostname is an
  absolute path, and a run log. Each file
  holds:
  - the host's `deploy_*` flags as `true`/`false`;
  - an `apps:` section, built from the comma-separated `apps_list`;
  - a `ports:` section, built from the comma-separated `ip:port:name`
    triples of `ports_list`.

  A row without a hostname is skipped. A missing list or a malformed port
  is logged as a warning.
- `generate_inventory.py` reads the `Inventory` and `global_vars` sheets and
  writes one INI inventory. It holds:
  - an `[all:vars]` block of the global variables;
  - a `[group]` section per distinct group, in ascending order, with one
    attribute line per host;
  - an `[all_servers:children]` block listing every group.

Both scripts first check that their required columns exist. If any are
missing, they stop before writing anything.

A sheet, as pandas loads it with `dtype=str`, is modelled as follows:
- the header is a sequence of column names, which the model strips the way
  `df.columns.str.strip()` does;
- each row is a map from stripped column name to a cell;
- a cell is a string, or `None` for NaN.

An output file is modelled as its sequence of lines. Each `"...\n"` the
script writes becomes one element, with the newline dropped. The run log of
the host-vars generator is a sequence of `LogEvent`s, and `LogLine` renders
each one as the script writes it.

The Python built-ins the scripts rely on are written out:
- `str.strip` uses Python's whitespace set;
- `str.lower`;
- `str.split` with a one-character separator, which always gives one more
  piece than there are separators;
- `str.startswith`;
- `str(int)`;
- Python's code-point order on strings, which `sorted` uses;
- order-preserving selection, which both list comprehensions with `if` and
  pandas boolean row selection perform.

Modules:

| file | module | contents |
|---|---|---|
| text.dfy | Text | strip, lower, split/join, startswith, decimal digits |
| order.dfy | Order | string order, sorted insertion, uniqueness of a sorted list |
| seqs.dfy | Seqs | order-preserving filter, concatenation of blocks |
| sheet.dfy | Sheet | cells, rows, `Result`, the required-column check |
| host_vars.dfy | HostVars | `generate_host_vars.py` |
| inventory.dfy | Inventory | `generate_inventory.py` |

Each script is modelled twice:
- a specification function (`HostVars.Run`, `Inventory.Run`) gives the
  outcome of a whole run;
- a method with the script's loops (`HostVars.GenerateHostVars`,
  `Inventory.RenderInventory` and the methods they call) is proved equal to
  that function.

The lemmas then state what the output means: layout, order, selection and
the skip rules.

`generate_inventory.py` checks required columns on the `Inventory` sheet
only (`generate_inventory.py:26-30`). The `global_vars` sheet has no
required columns, and an empty one only drops the `[all:vars]` block.

## Model

| member | source | states |
|---|---|---|
| Sheet.StripColumns | ansible/AMX_Documents/generate_host_vars.py:23 | the stripped header has one name per column, each the stripped original |
| Sheet.MissingReport | ansible/AMX_Documents/generate_host_vars.py:28-32 | the missing list is empty iff every required name is a column; a name is in it iff it is required and absent; each absent name sits at the position given by the absent names before it in the required list, and every position holds such a name, so each is reported once, in required order |
| HostVars.RequiredColumnsChecked | ansible/AMX_Documents/generate_host_vars.py:28-32 | the run stops with no files and no log exactly when some required column is absent from the stripped header, and it reports exactly the absent ones |
| HostVars.DeployColumnsInSheetOrder | ansible/AMX_Documents/generate_host_vars.py:23-26 | the flag columns are exactly the stripped columns starting with "deploy_", each at the place given by the flag columns before it in the sheet; every position of the flag list holds such a column, so each appears exactly once, in sheet order |
| HostVars.ToBool | ansible/AMX_Documents/generate_host_vars.py:42-46 | the result is "true" or "false"; it is "true" iff the value is present and its stripped, lower-cased form is "true", "yes" or "1" |
| HostVars.ToBoolIdempotent | ansible/AMX_Documents/generate_host_vars.py:42-46 | feeding the function its own output returns that output again |
| HostVars.MissingHostnameSkipped | ansible/AMX_Documents/generate_host_vars.py:49-53 | a NaN hostname cell and an absent hostname column both count as a missing hostname |
| HostVars.SkipRule | ansible/AMX_Documents/generate_host_vars.py:48-94 | a row gets no file iff its stripped hostname is empty or reads "nan" in any case; then its only log event is SKIP with row number index + 2; otherwise its file goes to the `os.path.join` of `host_vars` and `<host>.yml` (just `<host>.yml` when the hostname is an absolute path), its log ends with exactly one OK naming that path, and everything logged before that is a warning |
| HostVars.YamlPathUnderDir | ansible/AMX_Documents/generate_host_vars.py:55 | a host's file is `host_vars/<host>.yml`; for an absolute hostname `os.path.join` drops the directory and the file is `<host>.yml` |
| HostVars.LogLine | ansible/AMX_Documents/generate_host_vars.py:52-94 | renders one log event as the script's SKIP, WARN or OK line; its properties are those of HostVars.LogLineTags and HostVars.SkipLineNamesRow |
| HostVars.LogLineTags | ansible/AMX_Documents/generate_host_vars.py:52-94 | a line starts with "SKIP: " iff it logs a skipped row, with "WARN: " iff it logs a missing apps list, a bad port or a missing ports list, and with "OK: " iff it logs a written file |
| HostVars.SkipLineNamesRow | ansible/AMX_Documents/generate_host_vars.py:52 | a SKIP line is "SKIP: Row ", the row number in decimal without leading zeros, then " missing hostname", and the number reads back from the line |
| HostVars.RenderRow | ansible/AMX_Documents/generate_host_vars.py:48-94 | one pass of the row loop, as a value: the file written for the row, if any, and the events it logs; its properties are those of HostVars.SkipRule |
| HostVars.RenderRowsLog | ansible/AMX_Documents/generate_host_vars.py:48-94 | the run log is each row's events, row after row in sheet order, with nothing added or dropped |
| HostVars.Run | ansible/AMX_Documents/generate_host_vars.py:23-94 | the whole script after reading the sheet, as a value; its properties are those of HostVars.RequiredColumnsChecked, HostVars.RenderRowsFiles and HostVars.RenderRowsLog |
| HostVars.FlagLinesLayout | ansible/AMX_Documents/generate_host_vars.py:62-63 | the flags section has exactly one `col: true/false` line per flag column, in column order, with the value given by to_bool |
| HostVars.WriteFlags | ansible/AMX_Documents/generate_host_vars.py:61-63 | the flags loop appends exactly the flags section |
| HostVars.AppEntriesLayout | ansible/AMX_Documents/generate_host_vars.py:68-72 | there are three lines per comma-separated segment; lines 3k to 3k+2 are the name, match and type lines of segment k, stripped |
| HostVars.AppsSpec | ansible/AMX_Documents/generate_host_vars.py:65-75 | a present, non-blank apps_list gives 3 × (number of commas + 1) lines, segment by segment, and no warning; otherwise the placeholder line and exactly one NoApps warning |
| HostVars.WriteApps | ansible/AMX_Documents/generate_host_vars.py:65-75 | the apps part of the loop appends the apps section and yields the apps warnings |
| HostVars.PortLinesAreBlocks | ansible/AMX_Documents/generate_host_vars.py:80-85 | the ports section is the four-line block of each item with exactly two colons, in input order, with the stripped parts as ip, port and name |
| HostVars.PortWarningsAreBad | ansible/AMX_Documents/generate_host_vars.py:80-88 | the ports warnings are one BadPort per item without exactly two colons, naming the unstripped item, in input order |
| HostVars.PortWarningsAreBadPorts | ansible/AMX_Documents/generate_host_vars.py:80-88 | the ports loop logs nothing but BadPort warnings |
| HostVars.PortsPartition | ansible/AMX_Documents/generate_host_vars.py:80-88 | every port item either becomes a block or a warning, never both and never neither |
| HostVars.WritePorts | ansible/AMX_Documents/generate_host_vars.py:77-91 | the ports part of the loop appends the ports section and yields the ports warnings: the blocks and BadPort warnings, or the placeholder and one NoPorts warning |
| HostVars.HostFileLayout | ansible/AMX_Documents/generate_host_vars.py:58-91 | a host file is, in this order: the header comment, `---`, one line per flag, a blank line, `apps:`, the apps section, a blank line, `ports:`, the ports section |
| HostVars.WriteHostFile | ansible/AMX_Documents/generate_host_vars.py:58-91 | the loop body writes exactly the host file and collects the row's warnings, apps before ports |
| HostVars.RenderRowsFiles | ansible/AMX_Documents/generate_host_vars.py:48-58 | the files written are exactly those of the rows with a hostname, one per row, in sheet order |
| HostVars.WriteAllRows | ansible/AMX_Documents/generate_host_vars.py:48-94 | the row loop, with its `continue`, produces exactly the files and log of the row-by-row specification |
| HostVars.GenerateHostVars | ansible/AMX_Documents/generate_host_vars.py:23-94 | the script from the header strip on yields exactly the specified run: the missing columns, or the files and the log |
| Inventory.RequiredColumnsChecked | ansible/AMX_Documents/generate_inventory.py:26-30 | the run stops with no file exactly when a required Inventory column is absent from the stripped header, and it reports exactly the absent ones |
| Inventory.GlobalBlockSpec | ansible/AMX_Documents/generate_inventory.py:35-41 | the `[all:vars]` block is written iff the global sheet has at least one row and one column; it is the header, the variable lines and a blank line |
| Inventory.RowVarsSpec | ansible/AMX_Documents/generate_inventory.py:38-40 | a global row gives exactly one `col=val` line per non-NaN cell, in column order |
| Inventory.AllVarsRowMajor | ansible/AMX_Documents/generate_inventory.py:37-40 | the variable lines go row by row: all lines of a row come before those of the next row |
| Inventory.WriteRowVars | ansible/AMX_Documents/generate_inventory.py:38-40 | the column loop writes exactly the `col=val` lines of one global row |
| Inventory.WriteGlobals | ansible/AMX_Documents/generate_inventory.py:35-41 | the nested row and column loops write exactly the global block |
| Inventory.Groups | ansible/AMX_Documents/generate_inventory.py:44 | the group list is strictly ascending, so it has no duplicates |
| Inventory.GroupsMembers | ansible/AMX_Documents/generate_inventory.py:44 | a value is in the group list iff some row has it as its non-NaN group |
| Inventory.GroupsAreSortedSet | ansible/AMX_Documents/generate_inventory.py:44 | any strictly ascending list of exactly the non-NaN group values is the group list, so the list is sorted(unique(dropna)) |
| Inventory.SortedGroups | ansible/AMX_Documents/generate_inventory.py:44 | inserting each row's group in place yields the group list |
| Inventory.HostLine | ansible/AMX_Documents/generate_inventory.py:49-61 | one host line, as a value: the fixed attributes, then the interpreter attribute; its properties are those of Inventory.HostLineSpec |
| Inventory.HostLineSpec | ansible/AMX_Documents/generate_inventory.py:49-61 | the interpreter attribute after the fixed attributes is there iff the interpreter cell is present and not all whitespace, and then the line is the fixed attributes, ` ansible_python_interpreter=` and the cell as it stands; with a NaN or blank cell, or without the column, the host line is just the fixed attributes |
| Inventory.WriteHosts | ansible/AMX_Documents/generate_inventory.py:48-61 | the host loop writes exactly one host line per member, in member order |
| Inventory.SectionLayout | ansible/AMX_Documents/generate_inventory.py:45-62 | a group section is `[group]`, then the host lines of the group's members in member order, then a blank line, so two lines more than the group has members |
| Inventory.MembersOfGroup | ansible/AMX_Documents/generate_inventory.py:46-48 | every member of a group has that group; every row with the group is a member, at the place given by the group's rows before it; a row with a NaN group is a member of no group; every place of the member list holds a row of the group, the one with that many rows of the group before it, so each row of the group appears exactly once |
| Inventory.WriteSections | ansible/AMX_Documents/generate_inventory.py:44-62 | the group loop writes the section of each group, one after the other, in list order |
| Inventory.ChildrenListGroups | ansible/AMX_Documents/generate_inventory.py:65-68 | the file ends with `[all_servers:children]` followed by exactly the section groups, in the same order |
| Inventory.WriteChildren | ansible/AMX_Documents/generate_inventory.py:66-68 | the children loop writes the children header and each group |
| Inventory.InventoryLines | ansible/AMX_Documents/generate_inventory.py:35-68 | the lines of inventory.ini, as a value: the global block, the group sections, the children list; their properties are those of Inventory.GlobalBlockSpec, Inventory.SectionLayout and Inventory.ChildrenListGroups |
| Inventory.Run | ansible/AMX_Documents/generate_inventory.py:26-68 | the whole script after reading the sheets, as a value; its properties are those of Inventory.RequiredColumnsChecked |
| Inventory.RenderInventory | ansible/AMX_Documents/generate_inventory.py:26-68 | the script from the column check on yields exactly the specified run: the missing columns, or the file |
| Text.StripSpec | ansible/AMX_Documents/generate_host_vars.py:45 | strip returns the slice of its input that neither starts nor ends with whitespace; everything cut from either end is whitespace |
| Text.StripEmpty | ansible/AMX_Documents/generate_host_vars.py:67 | a string strips to empty iff it is all whitespace, which is the blank test on apps_list and ports_list |
| Text.StripIdempotent | ansible/AMX_Documents/generate_host_vars.py:69 | stripping twice is stripping once |
| Text.Split | ansible/AMX_Documents/generate_host_vars.py:68 | a split yields exactly one more piece than there are separators |
| Text.SplitPiecesFree | ansible/AMX_Documents/generate_host_vars.py:80-81 | no piece of a split contains the separator |
| Text.JoinSplit | ansible/AMX_Documents/generate_host_vars.py:68 | joining the pieces of a split with the separator gives back the input |
| Text.SplitJoin | ansible/AMX_Documents/generate_host_vars.py:68 | splitting the join of separator-free pieces gives back the pieces |
| Text.SplitNoSeparator | ansible/AMX_Documents/generate_host_vars.py:81 | a string without the separator splits into itself alone |
| Text.NatToString | ansible/AMX_Documents/generate_host_vars.py:52 | the row number prints as a non-empty string of decimal digits |
| Text.NatToStringValue | ansible/AMX_Documents/generate_host_vars.py:52 | the printed digits read back as the number, and there is no leading zero except for 0 itself |
| Text.Strip | ansible/AMX_Documents/generate_host_vars.py:45 | the stripped string is no longer than the input and neither starts nor ends with whitespace |
| Text.Lower | ansible/AMX_Documents/generate_host_vars.py:45 | lower-casing keeps the length, turns each upper-case ASCII letter into its lower-case partner, and keeps every other character in place |
| Order.LessIrreflexive | ansible/AMX_Documents/generate_inventory.py:44 | no string is below itself in code-point order |
| Order.LessTransitive | ansible/AMX_Documents/generate_inventory.py:44 | code-point order on strings is transitive |
| Order.LessTotal | ansible/AMX_Documents/generate_inventory.py:44 | any two different strings are ordered one way or the other |
| Order.Insert | ansible/AMX_Documents/generate_inventory.py:44 | inserting into a strictly ascending list keeps it strictly ascending and adds exactly the new value |
| Order.SortedUnique | ansible/AMX_Documents/generate_inventory.py:44 | two strictly ascending lists with the same elements are equal |
| Seqs.Filter | ansible/AMX_Documents/generate_host_vars.py:26 | a selection keeps only elements of the input that pass the test, and is no longer than the input |
| Seqs.FilterPosition | ansible/AMX_Documents/generate_host_vars.py:26 | each element that passes lands at the position given by the number of elements that passed before it |
| Seqs.FilterOrigin | ansible/AMX_Documents/generate_inventory.py:46 | each position of a selection holds an input element that passed, one with exactly that many passing elements before it |
| Seqs.FilterKeeps | ansible/AMX_Documents/generate_host_vars.py:29 | every element that passes the test is kept |
| Seqs.FilterPartition | ansible/AMX_Documents/generate_host_vars.py:82-88 | a test and its negation split the input between them |

## Left out

- Reading the workbook (`pd.read_excel`) is not modelled: the sheets and
  the file name from the command line are parameters of the model.
- Only the missing-columns exit (`generate_host_vars.py:32`,
  `generate_inventory.py:30`) is modelled, as the `MissingColumns` result.
  The missing-file exit (line 14 of both scripts) and the unreadable-sheet
  exit (line 21 of both scripts) are not modelled.
- File system effects are not modelled: `os.makedirs`, opening and closing
  files, and the fact that a later file with the same path overwrites an
  earlier one. The model returns the files in the order they are written,
  duplicates included. A failing `open` (a hostname such as `a/b` names a
  directory that does not exist) stops the real run part-way with the
  earlier files and log lines kept; the model still returns a file for that
  row and goes on.
- Console output (`print`) is left out: it is presentation, not part of
  the files or the log. What it alone shows is lost with it: the row
  number of an invalid port item (`generate_host_vars.py:87`; the BadPort
  log event names only the item and the host), and the missing-columns
  message of either script, printed before any log is opened.
- The timestamp line at the head of the host-vars log is left out. It reads
  the clock.
- Duplicate column names are not modelled, because a row is a map from
  column name to cell.
- The pandas row index is taken to be the default `0..n-1`, which is what
  `read_excel` gives, so the logged row number is position + 2.
- NaN and an empty cell are the same `None`. Cells are the strings pandas
  yields with `dtype=str`.
- Text.Lower: lower-cases ASCII letters only, not all of Unicode. No
  non-ASCII character lower-cases to a letter of "true", "yes" or "nan",
  so every comparison the scripts make with the result comes out the same.
- An output line that itself contains a newline (a cell with an embedded
  line break) stays one element of the line sequence. The real file would
  show it as two lines.
