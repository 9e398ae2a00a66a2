/** generate_host_vars.py: one YAML variables file per host row of the
    `host_vars` sheet, and a run log of the rows skipped, the warnings and
    the files written. */
module HostVars {
  import opened Text
  import opened Seqs
  import opened Sheet

  /** The columns the sheet must have. */
  const Required: seq<string> := ["hostname", "apps_list", "ports_list"]

  /** The directory the YAML files go to. */
  const OutputDir: string := "host_vars"

  /** The spellings `to_bool` reads as true, once stripped and lower-cased. */
  const TrueWords: seq<string> := ["true", "yes", "1"]

  const NoAppsLine: string := "  # No apps configured"
  const NoPortsLine: string := "  # No ports configured"

  /** A deployment flag column: its stripped name starts with "deploy_". */
  predicate IsDeployColumn(col: string) {
    StartsWith(col, "deploy_")
  }

  /** `[col for col in df.columns if col.startswith("deploy_")]`. */
  function DeployColumns(cols: seq<string>): seq<string> {
    Filter(cols, IsDeployColumn)
  }

  /** The flag columns of the (stripped) header `cols` are exactly its
      "deploy_" columns, once each and in sheet order: every "deploy_"
      column sits at the place given by the "deploy_" columns before it, and
      every place holds such a column. */
  lemma DeployColumnsInSheetOrder(cols: seq<string>)
    ensures forall c :: c in DeployColumns(cols) <==> c in cols && IsDeployColumn(c)
    ensures forall i :: 0 <= i < |cols| && IsDeployColumn(cols[i]) ==>
      |Filter(cols[..i], IsDeployColumn)| < |DeployColumns(cols)| &&
      DeployColumns(cols)[|Filter(cols[..i], IsDeployColumn)|] == cols[i]
    ensures forall k :: 0 <= k < |DeployColumns(cols)| ==>
      IsDeployColumn(DeployColumns(cols)[k]) &&
      exists i :: 0 <= i < |cols| && IsDeployColumn(cols[i]) &&
                  |Filter(cols[..i], IsDeployColumn)| == k && DeployColumns(cols)[k] == cols[i]
  {
    DeployColumnsMembers(cols);
    DeployColumnsPositions(cols);
    DeployColumnsOrigins(cols);
    forall k | 0 <= k < |DeployColumns(cols)|
      ensures IsDeployColumn(DeployColumns(cols)[k])
      ensures exists i :: 0 <= i < |cols| && IsDeployColumn(cols[i]) &&
                          |Filter(cols[..i], IsDeployColumn)| == k && DeployColumns(cols)[k] == cols[i]
    {
      var i :| 0 <= i < |cols| && IsDeployColumn(cols[i]) &&
               |Filter(cols[..i], IsDeployColumn)| == k && DeployColumns(cols)[k] == cols[i];
    }
  }

  /** A column is a flag column iff it is a "deploy_" column of the sheet. */
  lemma DeployColumnsMembers(cols: seq<string>)
    ensures forall c :: c in DeployColumns(cols) <==> c in cols && IsDeployColumn(c)
  {
    forall c | c in cols && IsDeployColumn(c) ensures c in DeployColumns(cols) {
      FilterKeeps(cols, IsDeployColumn, c);
    }
  }

  /** Each "deploy_" column sits at the place given by those before it. */
  lemma DeployColumnsPositions(cols: seq<string>)
    ensures forall i :: 0 <= i < |cols| && IsDeployColumn(cols[i]) ==>
      |Filter(cols[..i], IsDeployColumn)| < |DeployColumns(cols)| &&
      DeployColumns(cols)[|Filter(cols[..i], IsDeployColumn)|] == cols[i]
  {
    forall i | 0 <= i < |cols| && IsDeployColumn(cols[i])
      ensures |Filter(cols[..i], IsDeployColumn)| < |DeployColumns(cols)|
      ensures DeployColumns(cols)[|Filter(cols[..i], IsDeployColumn)|] == cols[i]
    {
      FilterPosition(cols, IsDeployColumn, i);
    }
  }

  /** Each place of the flag list holds a "deploy_" column of the sheet. */
  lemma DeployColumnsOrigins(cols: seq<string>)
    ensures forall k :: 0 <= k < |DeployColumns(cols)| ==>
      IsDeployColumn(DeployColumns(cols)[k]) &&
      exists i :: 0 <= i < |cols| && IsDeployColumn(cols[i]) &&
                  |Filter(cols[..i], IsDeployColumn)| == k && DeployColumns(cols)[k] == cols[i]
  {
    forall k | 0 <= k < |DeployColumns(cols)|
      ensures IsDeployColumn(DeployColumns(cols)[k])
      ensures exists i :: 0 <= i < |cols| && IsDeployColumn(cols[i]) &&
                          |Filter(cols[..i], IsDeployColumn)| == k && DeployColumns(cols)[k] == cols[i]
    {
      FilterOrigin(cols, IsDeployColumn, k);
      var i :| 0 <= i < |cols| && IsDeployColumn(cols[i]) &&
               |Filter(cols[..i], IsDeployColumn)| == k && Filter(cols, IsDeployColumn)[k] == cols[i];
      assert DeployColumns(cols)[k] == cols[i];
    }
  }

  /** `to_bool`: "true" for a present value whose stripped, lower-cased form
      is one of TrueWords, "false" for anything else, NaN included. */
  function ToBool(val: Cell): (r: string)
    ensures r == "true" || r == "false"
    ensures r == "true" <==> val.Some? && Lower(Strip(val.value)) in TrueWords
  {
    if val.None? then "false"
    else
      var v := Lower(Strip(val.value));
      if v in TrueWords then "true" else "false"
  }

  /** Feeding `to_bool` its own output changes nothing. */
  lemma ToBoolIdempotent(val: Cell)
    ensures ToBool(Some(ToBool(val))) == ToBool(val)
  {
    if ToBool(val) == "true" {
      StripUnchanged("true");
      LowerUnchanged("true");
    } else {
      StripUnchanged("false");
      LowerUnchanged("false");
      assert "false" !in TrueWords by {
        assert |"false"| == 5;
      }
    }
  }

  /** One line of the run log, before it is rendered by `LogLine`. */
  datatype LogEvent =
    | Skip(rowNumber: nat)
    | NoApps(host: string)
    | BadPort(item: string, host: string)
    | NoPorts(host: string)
    | Ok(path: string)

  /** The text written to the log for an event. */
  function LogLine(e: LogEvent): string {
    match e
    case Skip(n) => "SKIP: Row " + NatToString(n) + " missing hostname"
    case NoApps(h) => "WARN: No apps_list for " + h
    case BadPort(item, h) => "WARN: Bad port '" + item + "' for " + h
    case NoPorts(h) => "WARN: No ports_list for " + h
    case Ok(path) => "OK: " + path
  }

  /** Each log line starts with the tag of its kind of event: "SKIP: " for a
      skipped row, "WARN: " for each of the three warnings, "OK: " for a
      written file. */
  lemma LogLineTags(e: LogEvent)
    ensures StartsWith(LogLine(e), "SKIP: ") <==> e.Skip?
    ensures StartsWith(LogLine(e), "WARN: ") <==> e.NoApps? || e.BadPort? || e.NoPorts?
    ensures StartsWith(LogLine(e), "OK: ") <==> e.Ok?
  {
    var line := LogLine(e);
    match e
    case Skip(n) =>
      assert line == "SKIP: Row " + NatToString(n) + " missing hostname";
      assert line[0] == 'S';
    case NoApps(h) =>
      assert line == "WARN: No apps_list for " + h;
      assert line[0] == 'W';
    case BadPort(item, h) =>
      assert line == "WARN: Bad port '" + item + "' for " + h;
      assert line[0] == 'W';
    case NoPorts(h) =>
      assert line == "WARN: No ports_list for " + h;
      assert line[0] == 'W';
    case Ok(path) =>
      assert line == "OK: " + path;
      assert line[0] == 'O';
  }

  /** A SKIP line names the row: the text between "SKIP: Row " and
      " missing hostname" is a decimal number without leading zeros that
      reads back as the row number. */
  lemma SkipLineNamesRow(n: nat)
    ensures var line := LogLine(Skip(n));
      var pre, post := "SKIP: Row ", " missing hostname";
      && |pre| + |post| < |line|
      && line[..|pre|] == pre && line[|line| - |post|..] == post
      && DigitsValue(line[|pre|..|line| - |post|]) == n
      && (line[|pre|] == '0' <==> n == 0)
  {
    var pre, post := "SKIP: Row ", " missing hostname";
    var digits := NatToString(n);
    var line := LogLine(Skip(n));
    assert line == pre + digits + post;
    assert line[..|pre|] == pre;
    assert line[|line| - |post|..] == post;
    assert line[|pre|..|line| - |post|] == digits;
    NatToStringValue(n);
  }

  /** `str(row.get("hostname", "")).strip()`. */
  function Hostname(row: Row): string {
    Strip(Str(GetOr(row, "hostname", "")))
  }

  /** The skip test: an empty hostname, or one that reads "nan" in any case. */
  predicate IsMissingHost(host: string) {
    host == [] || Lower(host) == "nan"
  }

  /** `os.path.join(dir, name)`: an absolute name replaces the directory. */
  function JoinPath(dir: string, name: string): string {
    if name != [] && name[0] == '/' then name else dir + "/" + name
  }

  /** The YAML file a host's variables go to. */
  function YamlPath(host: string): string {
    JoinPath(OutputDir, host + ".yml")
  }

  /** A host's file is `host_vars/<host>.yml`, unless the hostname is an
      absolute path, when the directory is dropped and the file is
      `<host>.yml`. */
  lemma YamlPathUnderDir(host: string)
    ensures (host == [] || host[0] != '/') ==> YamlPath(host) == "host_vars/" + host + ".yml"
    ensures (host != [] && host[0] == '/') ==> YamlPath(host) == host + ".yml"
  {
    var name := host + ".yml";
    assert name[0] == if host == [] then '.' else host[0];
  }

  /** The flag line for one "deploy_" column: `col: ` and the column's
      value through `to_bool`. */
  function FlagLine(col: string, row: Row): string {
    col + ": " + ToBool(Get(row, col))
  }

  /** The flags section, a line per flag column. */
  function FlagLines(deploy: seq<string>, row: Row): seq<string> {
    if deploy == [] then []
    else FlagLines(deploy[..|deploy| - 1], row) + [FlagLine(deploy[|deploy| - 1], row)]
  }

  /** The flags section has exactly one `col: true|false` line per flag
      column, in column order. */
  lemma {:induction false} FlagLinesLayout(deploy: seq<string>, row: Row)
    ensures |FlagLines(deploy, row)| == |deploy|
    ensures forall k :: 0 <= k < |deploy| ==> FlagLines(deploy, row)[k] == FlagLine(deploy[k], row)
  {
    if deploy != [] {
      var n := |deploy| - 1;
      var init := deploy[..n];
      FlagLinesLayout(init, row);
      var lines := FlagLines(deploy, row);
      assert lines == FlagLines(init, row) + [FlagLine(deploy[n], row)];
      forall k | 0 <= k < |deploy| ensures lines[k] == FlagLine(deploy[k], row) {
        if k < n {
          assert lines[k] == FlagLines(init, row)[k] && init[k] == deploy[k];
        }
      }
    }
  }

  /** The three lines of one application entry. */
  function AppEntry(app: string): seq<string> {
    ["  - name: \"" + app + "\"", "    match: \"" + app + "\"", "    type: \"pattern\""]
  }

  /** The entries for the comma-separated segments of `apps_list`. */
  function AppEntries(segments: seq<string>): seq<string> {
    if segments == [] then []
    else AppEntries(segments[..|segments| - 1]) + AppEntry(Strip(segments[|segments| - 1]))
  }

  /** An entry per segment, in order: lines 3k to 3k+2 give the k-th
      segment, stripped, as name and match. */
  lemma {:induction false} AppEntriesLayout(segments: seq<string>)
    ensures |AppEntries(segments)| == 3 * |segments|
    ensures forall k :: 0 <= k < |segments| ==>
      AppEntries(segments)[3 * k..3 * k + 3] == AppEntry(Strip(segments[k]))
  {
    if segments != [] {
      var init := segments[..|segments| - 1];
      AppEntriesLayout(init);
      var prev := AppEntries(init);
      var last := AppEntry(Strip(segments[|init|]));
      var lines := AppEntries(segments);
      assert lines == prev + last;
      forall k | 0 <= k < |segments|
        ensures lines[3 * k..3 * k + 3] == AppEntry(Strip(segments[k]))
      {
        if k < |init| {
          assert lines[3 * k..3 * k + 3] == prev[3 * k..3 * k + 3];
          assert init[k] == segments[k];
        } else {
          assert lines[3 * k..3 * k + 3] == last;
        }
      }
    }
  }

  /** `[p.strip() for p in item.split(":")]`. */
  function PortParts(item: string): seq<string> {
    var raw := Split(item, ':');
    seq(|raw|, k requires 0 <= k < |raw| => Strip(raw[k]))
  }

  /** `len(parts) == 3`: the item has exactly two colons. */
  predicate IsPortTriple(item: string) {
    |Split(item, ':')| == 3
  }

  predicate IsBadPort(item: string) {
    !IsPortTriple(item)
  }

  /** The four lines of one port block: ip, port and name are the stripped
      colon-separated parts, in order. */
  function PortBlock(item: string): seq<string>
    requires IsPortTriple(item)
  {
    var parts := PortParts(item);
    ["  - ip: \"" + parts[0] + "\"", "    port: " + parts[1], "    name: \"" + parts[2] + "\"", ""]
  }

  /** The ports section for the comma-separated items of `ports_list`: a
      block for each well-formed item. */
  function PortLines(items: seq<string>): seq<string> {
    if items == [] then []
    else
      var last := items[|items| - 1];
      PortLines(items[..|items| - 1]) + (if IsPortTriple(last) then PortBlock(last) else [])
  }

  /** The log events for the comma-separated items of `ports_list`: a
      warning, naming the unstripped item, for each malformed one. */
  function PortWarnings(items: seq<string>, host: string): seq<LogEvent> {
    if items == [] then []
    else
      var last := items[|items| - 1];
      PortWarnings(items[..|items| - 1], host) + (if IsPortTriple(last) then [] else [BadPort(last, host)])
  }

  /** One more item adds its block, or its warning, at the end. */
  lemma PortStep(items: seq<string>, k: nat, host: string)
    requires k < |items|
    ensures PortLines(items[..k + 1]) ==
            PortLines(items[..k]) + (if IsPortTriple(items[k]) then PortBlock(items[k]) else [])
    ensures PortWarnings(items[..k + 1], host) ==
            PortWarnings(items[..k], host) + (if IsPortTriple(items[k]) then [] else [BadPort(items[k], host)])
  {
    assert items[..k + 1][..k] == items[..k];
  }

  /** The block of each well-formed item, in order. */
  function PortBlocksOf(triples: seq<string>): (blocks: seq<seq<string>>)
    requires forall t :: t in triples ==> IsPortTriple(t)
  {
    seq(|triples|, k requires 0 <= k < |triples| => PortBlock(triples[k]))
  }

  lemma PortBlocksOfAppend(triples: seq<string>, t: string)
    requires forall x :: x in triples ==> IsPortTriple(x)
    requires IsPortTriple(t)
    ensures PortBlocksOf(triples + [t]) == PortBlocksOf(triples) + [PortBlock(t)]
  {
  }

  /** The well-formed port items become blocks, in input order. */
  lemma {:induction false} PortLinesAreBlocks(items: seq<string>)
    ensures PortLines(items) == Flatten(PortBlocksOf(Filter(items, IsPortTriple)))
  {
    if items != [] {
      var init := items[..|items| - 1];
      var last := items[|items| - 1];
      PortLinesAreBlocks(init);
      var good := Filter(init, IsPortTriple);
      if IsPortTriple(last) {
        assert Filter(items, IsPortTriple) == good + [last];
        PortBlocksOfAppend(good, last);
        FlattenAppend(PortBlocksOf(good), PortBlock(last));
      } else {
        assert Filter(items, IsPortTriple) == good;
        assert PortLines(items) == PortLines(init) + [];
      }
    }
  }

  /** The malformed port items become warnings, in input order. */
  lemma {:induction false} PortWarningsAreBad(items: seq<string>, host: string)
    ensures var bad := Filter(items, IsBadPort);
      PortWarnings(items, host) == seq(|bad|, k requires 0 <= k < |bad| => BadPort(bad[k], host))
  {
    if items != [] {
      PortWarningsAreBad(items[..|items| - 1], host);
    }
  }

  /** Each port item meets exactly one of the two fates. */
  lemma PortsPartition(items: seq<string>)
    ensures |Filter(items, IsPortTriple)| + |Filter(items, IsBadPort)| == |items|
  {
    FilterPartition(items, IsPortTriple, IsBadPort);
  }

  /** The apps section of the file: the entries, or the placeholder. */
  function AppsSection(apps: Cell): seq<string> {
    if NotBlank(apps) then AppEntries(Split(apps.value, ',')) else [NoAppsLine]
  }

  /** What the apps section logs: a warning when there are no apps. */
  function AppsLog(apps: Cell, host: string): seq<LogEvent> {
    if NotBlank(apps) then [] else [NoApps(host)]
  }

  /** The ports section of the file: the blocks, or the placeholder. */
  function PortsSection(ports: Cell): seq<string> {
    if NotBlank(ports) then PortLines(Split(ports.value, ',')) else [NoPortsLine]
  }

  /** What the ports section logs. */
  function PortsLog(ports: Cell, host: string): seq<LogEvent> {
    if NotBlank(ports) then PortWarnings(Split(ports.value, ','), host) else [NoPorts(host)]
  }

  /** For a present, non-blank `apps_list` there are `count(',') + 1`
      entries, each the stripped segment; otherwise the placeholder line and
      one warning. */
  lemma AppsSpec(apps: Cell, host: string)
    ensures NotBlank(apps) ==>
      var segments := Split(apps.value, ',');
      && |AppsSection(apps)| == 3 * (Count(apps.value, ',') + 1)
      && (forall k :: 0 <= k < |segments| ==> AppsSection(apps)[3 * k..3 * k + 3] == AppEntry(Strip(segments[k])))
      && AppsLog(apps, host) == []
    ensures !NotBlank(apps) ==> AppsSection(apps) == [NoAppsLine] && AppsLog(apps, host) == [NoApps(host)]
  {
    if NotBlank(apps) {
      AppEntriesLayout(Split(apps.value, ','));
    }
  }

  /** The lines of a host's YAML file. */
  function HostFileLines(deploy: seq<string>, row: Row, host: string): seq<string> {
    ["# Variables for " + host, "---"]
    + FlagLines(deploy, row)
    + ["", "apps:"] + AppsSection(GetOr(row, "apps_list", ""))
    + ["", "ports:"] + PortsSection(GetOr(row, "ports_list", ""))
  }

  /** A written file always has its sections in the order header, flags,
      apps, ports, each introduced by its blank line and its key. */
  lemma HostFileLayout(deploy: seq<string>, row: Row, host: string)
    ensures var lines := HostFileLines(deploy, row, host);
      var n := |deploy|;
      var apps := AppsSection(GetOr(row, "apps_list", ""));
      var ports := PortsSection(GetOr(row, "ports_list", ""));
      && |lines| == 6 + n + |apps| + |ports|
      && lines[..2] == ["# Variables for " + host, "---"]
      && (forall k :: 0 <= k < n ==> lines[2 + k] == FlagLine(deploy[k], row))
      && lines[2 + n..4 + n] == ["", "apps:"]
      && lines[4 + n..4 + n + |apps|] == apps
      && lines[4 + n + |apps|..6 + n + |apps|] == ["", "ports:"]
      && lines[6 + n + |apps|..] == ports
  {
    FlagLinesLayout(deploy, row);
    var lines := HostFileLines(deploy, row, host);
    var flags := FlagLines(deploy, row);
    var apps := AppsSection(GetOr(row, "apps_list", ""));
    var ports := PortsSection(GetOr(row, "ports_list", ""));
    PartsLayout(["# Variables for " + host, "---"], flags, ["", "apps:"], apps, ["", "ports:"], ports);
    forall k | 0 <= k < |deploy| ensures lines[2 + k] == FlagLine(deploy[k], row) {
      assert lines[2 + k] == lines[2..2 + |deploy|][k];
    }
  }

  datatype HostFile = HostFile(path: string, lines: seq<string>)

  /** What one row leaves behind: a file, unless it was skipped, and its
      log events. */
  datatype RowOutput = RowOutput(file: Option<HostFile>, log: seq<LogEvent>)

  /** The warnings a written row logs, apps first, then ports. */
  function RowWarnings(row: Row, host: string): seq<LogEvent> {
    AppsLog(GetOr(row, "apps_list", ""), host) + PortsLog(GetOr(row, "ports_list", ""), host)
  }

  /** One pass of the loop body for the row at position `index`. */
  function RenderRow(deploy: seq<string>, row: Row, index: nat): RowOutput {
    var host := Hostname(row);
    if IsMissingHost(host) then RowOutput(None, [Skip(index + 2)])
    else
      RowOutput(Some(HostFile(YamlPath(host), HostFileLines(deploy, row, host))),
                RowWarnings(row, host) + [Ok(YamlPath(host))])
  }

  /** Only bad-port warnings come out of the ports loop. */
  lemma {:induction false} PortWarningsAreBadPorts(items: seq<string>, host: string)
    ensures forall e :: e in PortWarnings(items, host) ==> e.BadPort?
  {
    if items != [] {
      PortWarningsAreBadPorts(items[..|items| - 1], host);
    }
  }

  /** A row is skipped, with exactly one SKIP event and no file, exactly when
      its stripped hostname is empty or "nan"; any other row writes its file
      and ends with exactly one OK event naming it. */
  lemma SkipRule(deploy: seq<string>, row: Row, index: nat)
    ensures var out := RenderRow(deploy, row, index);
      && (out.file.None? <==> IsMissingHost(Hostname(row)))
      && (out.file.None? ==> out.log == [Skip(index + 2)])
      && (out.file.Some? ==>
            && out.file.value.path == YamlPath(Hostname(row))
            && |out.log| >= 1 && out.log[|out.log| - 1] == Ok(out.file.value.path)
            && forall k :: 0 <= k < |out.log| - 1 ==> out.log[k].NoApps? || out.log[k].BadPort? || out.log[k].NoPorts?)
  {
    var out := RenderRow(deploy, row, index);
    var ports := GetOr(row, "ports_list", "");
    if NotBlank(ports) {
      PortWarningsAreBadPorts(Split(ports.value, ','), Hostname(row));
    }
    if out.file.Some? {
      var body := out.log[..|out.log| - 1];
      forall k | 0 <= k < |out.log| - 1
        ensures out.log[k].NoApps? || out.log[k].BadPort? || out.log[k].NoPorts?
      {
        assert out.log[k] in body;
      }
    }
  }

  /** An empty hostname cell (NaN reads "nan") or an absent column is
      skipped. */
  lemma MissingHostnameSkipped(row: Row)
    requires ("hostname" in row && row["hostname"].None?) || "hostname" !in row
    ensures IsMissingHost(Hostname(row))
  {
    if "hostname" in row {
      StripUnchanged("nan");
      LowerUnchanged("nan");
    }
  }

  /** Everything a run produces. */
  datatype Generated = Generated(files: seq<HostFile>, log: seq<LogEvent>)

  /** Adds what one row leaves behind to what the earlier rows left. */
  function Then(prev: Generated, out: RowOutput): Generated {
    Generated(prev.files + (match out.file case Some(f) => [f] case None => []), prev.log + out.log)
  }

  /** The loop over the rows, a row at a time. */
  function RenderRows(deploy: seq<string>, rows: seq<Row>): Generated {
    if rows == [] then Generated([], [])
    else Then(RenderRows(deploy, rows[..|rows| - 1]), RenderRow(deploy, rows[|rows| - 1], |rows| - 1))
  }

  /** A row that gets a file. */
  predicate HasHost(row: Row) {
    !IsMissingHost(Hostname(row))
  }

  /** The file a row with a hostname gets. */
  function FileFor(deploy: seq<string>, row: Row): HostFile {
    var host := Hostname(row);
    HostFile(YamlPath(host), HostFileLines(deploy, row, host))
  }

  /** The files for the rows with a hostname, in order. */
  function FilesFor(deploy: seq<string>, hosts: seq<Row>): seq<HostFile> {
    seq(|hosts|, k requires 0 <= k < |hosts| => FileFor(deploy, hosts[k]))
  }

  lemma FilesForAppend(deploy: seq<string>, hosts: seq<Row>, row: Row)
    ensures FilesFor(deploy, hosts + [row]) == FilesFor(deploy, hosts) + [FileFor(deploy, row)]
  {
  }

  /** The files written are those of the rows with a hostname, one each, in
      sheet order. */
  lemma {:induction false} RenderRowsFiles(deploy: seq<string>, rows: seq<Row>)
    ensures RenderRows(deploy, rows).files == FilesFor(deploy, Filter(rows, HasHost))
  {
    if rows != [] {
      var init := rows[..|rows| - 1];
      var last := rows[|rows| - 1];
      RenderRowsFiles(deploy, init);
      var hosts := Filter(init, HasHost);
      var out := RenderRow(deploy, last, |rows| - 1);
      assert RenderRows(deploy, rows).files == RenderRows(deploy, init).files + (match out.file case Some(f) => [f] case None => []);
      if HasHost(last) {
        assert out.file == Some(FileFor(deploy, last));
        assert Filter(rows, HasHost) == hosts + [last];
        FilesForAppend(deploy, hosts, last);
      } else {
        assert out.file == None;
        assert Filter(rows, HasHost) == hosts;
      }
    }
  }

  /** The log of each row, in sheet order. */
  function RowLogs(deploy: seq<string>, rows: seq<Row>): seq<seq<LogEvent>> {
    seq(|rows|, i requires 0 <= i < |rows| => RenderRow(deploy, rows[i], i).log)
  }

  /** The run log is the log of each row, one row after the other, in sheet
      order, each row numbered by its position. */
  lemma {:induction false} RenderRowsLog(deploy: seq<string>, rows: seq<Row>)
    ensures RenderRows(deploy, rows).log == Flatten(RowLogs(deploy, rows))
  {
    if rows != [] {
      var n := |rows| - 1;
      var init := rows[..n];
      RenderRowsLog(deploy, init);
      var last := RenderRow(deploy, rows[n], n).log;
      assert RenderRows(deploy, rows).log == RenderRows(deploy, init).log + last;
      RowLogsAppend(deploy, rows);
      FlattenAppend(RowLogs(deploy, init), last);
    }
  }

  /** Adding a row adds its log at the end of the per-row logs. */
  lemma RowLogsAppend(deploy: seq<string>, rows: seq<Row>)
    requires rows != []
    ensures RowLogs(deploy, rows) ==
            RowLogs(deploy, rows[..|rows| - 1]) + [RenderRow(deploy, rows[|rows| - 1], |rows| - 1).log]
  {
    var n := |rows| - 1;
    var a, b := RowLogs(deploy, rows), RowLogs(deploy, rows[..n]) + [RenderRow(deploy, rows[n], n).log];
    forall i | 0 <= i < |a| ensures a[i] == b[i] {
      if i < n {
        assert rows[..n][i] == rows[i];
      }
    }
  }

  /** The whole script: the required-column check, then the row loop. */
  function Run(header: seq<string>, rows: seq<Row>): Result<Generated> {
    var cols := StripColumns(header);
    var missing := Missing(Required, cols);
    if missing != [] then MissingColumns(missing)
    else Success(RenderRows(DeployColumns(cols), rows))
  }

  /** The run stops, with nothing written or logged, exactly when a
      required column is absent from the stripped header, and it names the
      absent ones. */
  lemma RequiredColumnsChecked(header: seq<string>, rows: seq<Row>)
    ensures var cols := StripColumns(header);
      && (Run(header, rows).MissingColumns? <==> exists c :: c in Required && c !in cols)
      && (Run(header, rows).MissingColumns? ==>
            forall c :: c in Run(header, rows).missing <==> c in Required && c !in cols)
  {
    MissingReport(Required, StripColumns(header));
  }

  /** The flags loop: appends one line per flag column. */
  method WriteFlags(lines0: seq<string>, deploy: seq<string>, row: Row) returns (lines: seq<string>)
    ensures lines == lines0 + FlagLines(deploy, row)
  {
    lines := lines0;
    for k := 0 to |deploy|
      invariant lines == lines0 + FlagLines(deploy[..k], row)
    {
      assert deploy[..k + 1][..k] == deploy[..k];
      lines := lines + [deploy[k] + ": " + ToBool(Get(row, deploy[k]))];
    }
    assert deploy[..|deploy|] == deploy;
  }

  /** The apps part of the loop body: the entries, or the placeholder and a
      warning. */
  method WriteApps(lines0: seq<string>, apps: Cell, host: string)
    returns (lines: seq<string>, events: seq<LogEvent>)
    ensures lines == lines0 + AppsSection(apps)
    ensures events == AppsLog(apps, host)
  {
    lines := lines0;
    events := [];
    if apps.Some? && Strip(apps.value) != [] {
      var segments := Split(apps.value, ',');
      for k := 0 to |segments|
        invariant lines == lines0 + AppEntries(segments[..k])
      {
        assert segments[..k + 1][..k] == segments[..k];
        var app := Strip(segments[k]);
        lines := lines + ["  - name: \"" + app + "\""];
        lines := lines + ["    match: \"" + app + "\""];
        lines := lines + ["    type: \"pattern\""];
      }
      assert segments[..|segments|] == segments;
    } else {
      lines := lines + [NoAppsLine];
      events := events + [NoApps(host)];
    }
  }

  /** The ports part of the loop body: a block per well-formed item and a
      warning per malformed one, or the placeholder and a warning. */
  method WritePorts(lines0: seq<string>, ports: Cell, host: string)
    returns (lines: seq<string>, events: seq<LogEvent>)
    ensures lines == lines0 + PortsSection(ports)
    ensures events == PortsLog(ports, host)
  {
    lines := lines0;
    events := [];
    if ports.Some? && Strip(ports.value) != [] {
      var items := Split(ports.value, ',');
      for k := 0 to |items|
        invariant lines == lines0 + PortLines(items[..k])
        invariant events == PortWarnings(items[..k], host)
      {
        PortStep(items, k, host);
        var item := items[k];
        var parts := PortParts(item);
        if |parts| == 3 {
          var block := ["  - ip: \"" + parts[0] + "\"", "    port: " + parts[1], "    name: \"" + parts[2] + "\"", ""];
          assert block == PortBlock(item);
          lines := lines + block;
        } else {
          events := events + [BadPort(item, host)];
        }
      }
      assert items[..|items|] == items;
    } else {
      lines := lines + [NoPortsLine];
      events := events + [NoPorts(host)];
    }
  }

  /** The body of the loop for a row with a hostname: writes the file, a
      section at a time, and collects the warnings. */
  method WriteHostFile(deploy: seq<string>, row: Row, host: string)
    returns (lines: seq<string>, events: seq<LogEvent>)
    ensures lines == HostFileLines(deploy, row, host)
    ensures events == RowWarnings(row, host)
  {
    lines := ["# Variables for " + host, "---"];
    lines := WriteFlags(lines, deploy, row);
    lines := lines + ["", "apps:"];
    var appEvents, portEvents;
    lines, appEvents := WriteApps(lines, GetOr(row, "apps_list", ""), host);
    lines := lines + ["", "ports:"];
    lines, portEvents := WritePorts(lines, GetOr(row, "ports_list", ""), host);
    events := appEvents + portEvents;
  }

  /** The row loop, with `continue` for the rows it skips. */
  method WriteAllRows(deploy: seq<string>, rows: seq<Row>) returns (g: Generated)
    ensures g == RenderRows(deploy, rows)
  {
    var files: seq<HostFile> := [];
    var log: seq<LogEvent> := [];
    for i := 0 to |rows|
      invariant Generated(files, log) == RenderRows(deploy, rows[..i])
    {
      assert rows[..i + 1][..i] == rows[..i];
      assert RenderRows(deploy, rows[..i + 1]) == Then(RenderRows(deploy, rows[..i]), RenderRow(deploy, rows[i], i));
      var row := rows[i];
      var host := Hostname(row);
      if IsMissingHost(host) {
        assert RenderRow(deploy, row, i) == RowOutput(None, [Skip(i + 2)]);
        log := log + [Skip(i + 2)];
        continue;
      }
      var path := YamlPath(host);
      var lines, events := WriteHostFile(deploy, row, host);
      assert RenderRow(deploy, row, i) == RowOutput(Some(HostFile(path, lines)), events + [Ok(path)]);
      files := files + [HostFile(path, lines)];
      log := log + (events + [Ok(path)]);
    }
    assert rows[..|rows|] == rows;
    g := Generated(files, log);
  }

  /** The script from the column check on. */
  method GenerateHostVars(header: seq<string>, rows: seq<Row>) returns (r: Result<Generated>)
    ensures r == Run(header, rows)
  {
    var cols := StripColumns(header);
    var deploy := DeployColumns(cols);
    var missing := Missing(Required, cols);
    if missing != [] {
      return MissingColumns(missing);
    }
    var g := WriteAllRows(deploy, rows);
    return Success(g);
  }
}
