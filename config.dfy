/**
 * The FiveM `.cfg` loader: the configuration record, the directive
 * dispatcher and the recursive file loader (`parse_file`), and the entry
 * point `read_config_file`.
 *
 * The file system is a map from path to contents. Opening a path that is not
 * in the map, or indexing a missing argument of a recognised directive, is a
 * panic in the program and a `Panic` outcome here. `exec` nesting is bounded
 * by `depth`; the program itself has no bound and overflows its stack on a
 * cyclic `exec` chain, which the `IncludeTooDeep` outcome stands for.
 */
module Config {
  import opened Numbers
  import opened Tokenizer

  type FileSystem = map<string, string>

  /** The accumulated settings (`FivemConfig`), as a value. */
  datatype Record = Record(
    hostname: string,
    resources: seq<string>,
    convars: map<string, string>,
    convarsReplicated: map<string, string>,
    allowScripthook: bool,
    rconPassword: string,
    licenseKey: string,
    serverIcon: string,
    maxClients: U16)

  /** The record `read_config_file` starts from. */
  const Defaults := Record("", [], map[], map[], true, "", "", "", 0)

  datatype PanicReason =
    | OpenFailed(fileName: string)
    | IndexOutOfBounds(index: nat, len: nat)
    | IncludeTooDeep(fileName: string)

  /** `Result<(), &str>`, with the panics the loader can raise beside it. */
  datatype Status = Ok | Err(msg: string) | Panic(reason: PanicReason)

  const MaxClientsNotANumber := "Max clients is not a number!"

  // ---------------------------------------------------------------------
  // Reading a file into lines.

  /** Every carriage return turned into a line feed. */
  function Normalized(s: string): (r: string)
    ensures |r| == |s| && '\r' !in r
    ensures forall i :: 0 <= i < |s| && s[i] != '\r' ==> r[i] == s[i]
    ensures forall i :: 0 <= i < |s| && s[i] == '\r' ==> r[i] == '\n'
  {
    seq(|s|, i requires 0 <= i < |s| => if s[i] == '\r' then '\n' else s[i])
  }

  /** A text cut at its line feeds so far: the finished lines and the
      line still open. */
  datatype Cut = Cut(done: seq<string>, open: string)

  /** The cut of `s`, read left to right. */
  function CutLines(s: string): Cut
  {
    if |s| == 0 then Cut([], "")
    else
      var c, last := CutLines(s[..|s| - 1]), s[|s| - 1];
      if last == '\n' then Cut(c.done + [c.open], "") else Cut(c.done, c.open + [last])
  }

  /** `split("\n")`: the pieces between line feeds, empty ones included. */
  function SplitOn(s: string): (pieces: seq<string>)
    ensures |pieces| > 0
  {
    var c := CutLines(s);
    c.done + [c.open]
  }

  function SplitLines(contents: string): seq<string>
  {
    SplitOn(Normalized(contents))
  }

  // ---------------------------------------------------------------------
  // The dispatcher and the loader, as functions on the record.

  /** A comment: the line's first character is `#`. */
  predicate IsComment(line: string)
  {
    |line| > 0 && line[0] == '#'
  }

  /** The first tokens `parse_file` recognises; any other is `Unrecognised`. */
  datatype Keyword =
    | SvHostname | Start | Set | Setr | SvScriptHookAllowed | RconPassword
    | SvLicenseKey | LoadServerIcon | SvMaxclients | Exec | Unrecognised

  /** The branch of the keyword chain of `parse_file` that a first token takes
      (the match is exact and case-sensitive). */
  function KeywordOf(token: string): Keyword
  {
    if token == "sv_hostname" then SvHostname
    else if token == "start" then Start
    else if token == "set" then Set
    else if token == "setr" then Setr
    else if token == "sv_scriptHookAllowed" then SvScriptHookAllowed
    else if token == "rcon_password" then RconPassword
    else if token == "sv_licenseKey" then SvLicenseKey
    else if token == "load_server_icon" then LoadServerIcon
    else if token == "sv_maxclients" then SvMaxclients
    else if token == "exec" then Exec
    else Unrecognised
  }

  /** The effect of one tokenized line whose keyword is not `exec`:
      the branch chain of `parse_file` with Rust's bounds checks on `parts`. */
  function Dispatch(parts: seq<string>, rec: Record): (Status, Record)
    requires |parts| > 0 && KeywordOf(parts[0]) != Exec
  {
    match KeywordOf(parts[0])
    case SvHostname =>
      if |parts| < 2 then (Panic(IndexOutOfBounds(1, |parts|)), rec)
      else (Ok, rec.(hostname := parts[1]))
    case Start =>
      if |parts| < 2 then (Panic(IndexOutOfBounds(1, |parts|)), rec)
      else (Ok, rec.(resources := rec.resources + [parts[1]]))
    case Set =>
      if |parts| < 3 then (Panic(IndexOutOfBounds(|parts|, |parts|)), rec)
      else (Ok, rec.(convars := rec.convars[parts[1] := parts[2]]))
    case Setr =>
      if |parts| < 3 then (Panic(IndexOutOfBounds(|parts|, |parts|)), rec)
      else (Ok, rec.(convarsReplicated := rec.convarsReplicated[parts[1] := parts[2]]))
    case SvScriptHookAllowed =>
      if |parts| < 2 then (Panic(IndexOutOfBounds(1, |parts|)), rec)
      else (Ok, rec.(allowScripthook := parts[1] == "1"))
    case RconPassword =>
      if |parts| < 2 then (Panic(IndexOutOfBounds(1, |parts|)), rec)
      else (Ok, rec.(rconPassword := parts[1]))
    case SvLicenseKey =>
      if |parts| < 2 then (Panic(IndexOutOfBounds(1, |parts|)), rec)
      else (Ok, rec.(licenseKey := parts[1]))
    case LoadServerIcon =>
      if |parts| < 2 then (Panic(IndexOutOfBounds(1, |parts|)), rec)
      else (Ok, rec.(serverIcon := parts[1]))
    case SvMaxclients =>
      if |parts| < 2 then (Panic(IndexOutOfBounds(1, |parts|)), rec)
      else (match ParseU16(parts[1])
        case Some(n) => (Ok, rec.(maxClients := n))
        case None => (Err(MaxClientsNotANumber), rec))
    case Exec | Unrecognised => (Ok, rec)
  }

  /** `parse_file`: load the named file into `rec`. */
  function Load(fs: FileSystem, fileName: string, depth: nat, rec: Record): (Status, Record)
    decreases depth, 1, 0
  {
    if fileName !in fs then (Panic(OpenFailed(fileName)), rec)
    else LoadLines(fs, SplitLines(fs[fileName]), depth, rec)
  }

  /** The line loop of `parse_file`: the first status other than `Ok` stops it. */
  function LoadLines(fs: FileSystem, lines: seq<string>, depth: nat, rec: Record): (Status, Record)
    decreases depth, 0, |lines|
  {
    if |lines| == 0 then (Ok, rec)
    else
      var step := ApplyLine(fs, lines[0], depth, rec);
      if step.0.Ok? then LoadLines(fs, lines[1..], depth, step.1) else step
  }

  /** One line: comments and token-less lines are skipped, `exec` loads
      another file into the same record, the rest go to `Dispatch`. */
  function ApplyLine(fs: FileSystem, line: string, depth: nat, rec: Record): (Status, Record)
    decreases depth, 0, 0
  {
    if IsComment(line) then (Ok, rec)
    else
      var parts := Tokens(line);
      if |parts| == 0 then (Ok, rec)
      else if KeywordOf(parts[0]) == Exec then
        if |parts| < 2 then (Panic(IndexOutOfBounds(1, |parts|)), rec)
        else if depth == 0 then (Panic(IncludeTooDeep(parts[1])), rec)
        else Load(fs, parts[1], depth - 1, rec)
      else Dispatch(parts, rec)
  }

  datatype ConfigResult = Loaded(config: Record) | Failed(msg: string) | Aborted(reason: PanicReason)

  /** `read_config_file`: the loaded record, or the first error and no record. */
  function ReadConfig(fs: FileSystem, fileName: string, depth: nat): ConfigResult
  {
    var (status, rec) := Load(fs, fileName, depth, Defaults);
    match status
    case Ok => Loaded(rec)
    case Err(msg) => Failed(msg)
    case Panic(reason) => Aborted(reason)
  }

  // ---------------------------------------------------------------------
  // The program's own form: one record mutated in place.

  class FivemConfig {
    var hostname: string
    var resources: seq<string>
    var convars: map<string, string>
    var convarsReplicated: map<string, string>
    var allowScripthook: bool
    var rconPassword: string
    var licenseKey: string
    var serverIcon: string
    var maxClients: U16

    function Snapshot(): Record
      reads this
    {
      Record(hostname, resources, convars, convarsReplicated, allowScripthook,
             rconPassword, licenseKey, serverIcon, maxClients)
    }

    /** The defaults of `read_config_file`. */
    constructor ()
      ensures Snapshot() == Defaults
    {
      hostname, resources, convars, convarsReplicated := "", [], map[], map[];
      allowScripthook := true;
      rconPassword, licenseKey, serverIcon := "", "", "";
      maxClients := 0;
    }

    /** The directive chain of `parse_file` for every keyword but `exec`. */
    method Apply(parts: seq<string>) returns (status: Status)
      requires |parts| > 0 && KeywordOf(parts[0]) != Exec
      modifies this
      ensures (status, Snapshot()) == Dispatch(parts, old(Snapshot()))
    {
      status := Ok;
      match KeywordOf(parts[0]) {
        case SvHostname =>
          if |parts| < 2 { return Panic(IndexOutOfBounds(1, |parts|)); }
          hostname := parts[1];
        case Start =>
          if |parts| < 2 { return Panic(IndexOutOfBounds(1, |parts|)); }
          resources := resources + [parts[1]];
        case Set =>
          if |parts| < 3 { return Panic(IndexOutOfBounds(|parts|, |parts|)); }
          convars := convars[parts[1] := parts[2]];
        case Setr =>
          if |parts| < 3 { return Panic(IndexOutOfBounds(|parts|, |parts|)); }
          convarsReplicated := convarsReplicated[parts[1] := parts[2]];
        case SvScriptHookAllowed =>
          if |parts| < 2 { return Panic(IndexOutOfBounds(1, |parts|)); }
          if parts[1] == "1" {
            allowScripthook := true;
          } else {
            allowScripthook := false;
          }
        case RconPassword =>
          if |parts| < 2 { return Panic(IndexOutOfBounds(1, |parts|)); }
          rconPassword := parts[1];
        case SvLicenseKey =>
          if |parts| < 2 { return Panic(IndexOutOfBounds(1, |parts|)); }
          licenseKey := parts[1];
        case LoadServerIcon =>
          if |parts| < 2 { return Panic(IndexOutOfBounds(1, |parts|)); }
          serverIcon := parts[1];
        case SvMaxclients =>
          if |parts| < 2 { return Panic(IndexOutOfBounds(1, |parts|)); }
          var parsed := ParseU16(parts[1]);
          if parsed.Some? {
            maxClients := parsed.value;
          } else {
            return Err(MaxClientsNotANumber);
          }
        case Exec() | Unrecognised() =>
      }
    }

    /** `parse_file`: read the file, then each line in turn, recursing on
        `exec` into this same record; stop at the first failure. */
    method ParseFile(fs: FileSystem, fileName: string, depth: nat) returns (status: Status)
      modifies this
      decreases depth
      ensures (status, Snapshot()) == Load(fs, fileName, depth, old(Snapshot()))
    {
      if fileName !in fs {
        return Panic(OpenFailed(fileName));
      }
      var lines := SplitLines(fs[fileName]);
      var i := 0;
      while i < |lines|
        invariant i <= |lines|
        invariant Load(fs, fileName, depth, old(Snapshot())) == LoadLines(fs, lines[i..], depth, Snapshot())
      {
        var line := lines[i];
        assert lines[i..][0] == line && lines[i..][1..] == lines[i + 1..];
        if IsComment(line) {
          i := i + 1;
          continue;
        }
        var parts := ConfigLineSplit(line);
        if |parts| == 0 {
          i := i + 1;
          continue;
        }
        if KeywordOf(parts[0]) == Exec {
          if |parts| < 2 {
            return Panic(IndexOutOfBounds(1, |parts|));
          }
          if depth == 0 {
            return Panic(IncludeTooDeep(parts[1]));
          }
          status := ParseFile(fs, parts[1], depth - 1);
        } else {
          status := Apply(parts);
        }
        if !status.Ok? {
          return;
        }
        i := i + 1;
      }
      return Ok;
    }
  }

  /** `read_config_file`: a fresh record with the defaults, loaded from
      `fileName`; on failure no record is returned. */
  method ReadConfigFile(fs: FileSystem, fileName: string, depth: nat) returns (result: ConfigResult)
    ensures result == ReadConfig(fs, fileName, depth)
    ensures result.Loaded? <==> Load(fs, fileName, depth, Defaults).0 == Ok
  {
    var config := new FivemConfig();
    var status := config.ParseFile(fs, fileName, depth);
    match status
    case Ok => result := Loaded(config.Snapshot());
    case Err(msg) => result := Failed(msg);
    case Panic(reason) => result := Aborted(reason);
  }
}
