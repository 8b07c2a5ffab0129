/**
 * What the `.cfg` loader promises, proved about the functions of `Config`:
 * lines run in order and the first failure stops everything, `exec` runs a
 * whole file into the same record before the next line, `start` only ever
 * appends, the last directive for a setting wins, comments and blank lines
 * do nothing, and CR, LF and CRLF line endings load alike.
 */
module ConfigProperties {
  import opened Numbers
  import opened Tokenizer
  import opened Config

  // ---------------------------------------------------------------------
  // Sequencing.

  /** Continue with `lines` after a step, unless the step failed. */
  function Then(fs: FileSystem, step: (Status, Record), lines: seq<string>, depth: nat): (Status, Record)
  {
    if step.0.Ok? then LoadLines(fs, lines, depth, step.1) else step
  }

  /** Loading `a + b` loads `a`, then `b` from where `a` left the record,
      unless `a` failed, in which case `b` is never looked at. */
  lemma {:induction false} LoadLinesAppend(fs: FileSystem, a: seq<string>, b: seq<string>, depth: nat, rec: Record)
    ensures LoadLines(fs, a + b, depth, rec) == Then(fs, LoadLines(fs, a, depth, rec), b, depth)
  {
    if |a| == 0 {
      assert a + b == b;
    } else {
      assert (a + b)[0] == a[0] && (a + b)[1..] == a[1..] + b;
      var step := ApplyLine(fs, a[0], depth, rec);
      if step.0.Ok? {
        LoadLinesAppend(fs, a[1..], b, depth, step.1);
      }
    }
  }

  /** The line `line` seen between `pre` and `post`. */
  lemma {:induction false} LoadLinesAround(fs: FileSystem, pre: seq<string>, line: string, post: seq<string>, depth: nat, rec: Record)
    requires LoadLines(fs, pre, depth, rec).0 == Ok
    ensures LoadLines(fs, pre + [line] + post, depth, rec)
         == Then(fs, ApplyLine(fs, line, depth, LoadLines(fs, pre, depth, rec).1), post, depth)
  {
    LoadLinesAppend(fs, pre, [line] + post, depth, rec);
    assert pre + [line] + post == pre + ([line] + post);
    var mid := LoadLines(fs, pre, depth, rec).1;
    assert ([line] + post)[0] == line && ([line] + post)[1..] == post;
  }

  /** The first line that does not succeed ends the load with its own status;
      no later line of the file is processed. */
  lemma {:induction false} FirstFailureStops(fs: FileSystem, pre: seq<string>, line: string, post: seq<string>, depth: nat, rec: Record)
    requires LoadLines(fs, pre, depth, rec).0 == Ok
    requires ApplyLine(fs, line, depth, LoadLines(fs, pre, depth, rec).1).0 != Ok
    ensures LoadLines(fs, pre + [line] + post, depth, rec) == ApplyLine(fs, line, depth, LoadLines(fs, pre, depth, rec).1)
  {
    LoadLinesAround(fs, pre, line, post, depth, rec);
  }

  /** A line whose keyword is `sv_maxclients` and whose argument is not a
      16-bit number ends the load with "Max clients is not a number!",
      leaving the record as the earlier lines made it. */
  lemma {:induction false} BadMaxClientsAborts(fs: FileSystem, pre: seq<string>, line: string, post: seq<string>, depth: nat, rec: Record)
    requires LoadLines(fs, pre, depth, rec).0 == Ok
    requires !IsComment(line) && |Tokens(line)| >= 2 && Tokens(line)[0] == "sv_maxclients"
    requires ParseU16(Tokens(line)[1]) == None
    ensures LoadLines(fs, pre + [line] + post, depth, rec) == (Err(MaxClientsNotANumber), LoadLines(fs, pre, depth, rec).1)
  {
    LoadLinesAround(fs, pre, line, post, depth, rec);
  }

  /** `sv_maxclients A` with a 16-bit number `A` sets `max_clients` to it and changes nothing else. */
  lemma {:induction false} GoodMaxClientsSets(fs: FileSystem, line: string, depth: nat, rec: Record, n: U16)
    requires !IsComment(line) && |Tokens(line)| >= 2 && Tokens(line)[0] == "sv_maxclients"
    requires ParseU16(Tokens(line)[1]) == Some(n)
    ensures ApplyLine(fs, line, depth, rec) == (Ok, rec.(maxClients := n))
  {
  }

  /** `exec F` runs all of `F` into the same record before the next line of
      the including file; if `F` fails, that status is the result,
      unchanged, and no later line is processed. */
  lemma {:induction false} ExecRunsChildFirst(fs: FileSystem, pre: seq<string>, line: string, post: seq<string>, depth: nat, rec: Record)
    requires LoadLines(fs, pre, depth, rec).0 == Ok
    requires !IsComment(line) && |Tokens(line)| >= 2 && KeywordOf(Tokens(line)[0]) == Exec && depth > 0
    ensures LoadLines(fs, pre + [line] + post, depth, rec)
         == Then(fs, Load(fs, Tokens(line)[1], depth - 1, LoadLines(fs, pre, depth, rec).1), post, depth)
  {
    LoadLinesAround(fs, pre, line, post, depth, rec);
  }

  // ---------------------------------------------------------------------
  // Lines without effect.

  /** A comment line, or a line with no tokens (empty or all spaces), changes nothing. */
  lemma {:induction false} IgnoredLineHasNoEffect(fs: FileSystem, line: string, depth: nat, rec: Record)
    requires IsComment(line) || forall i :: 0 <= i < |line| ==> line[i] == ' '
    ensures ApplyLine(fs, line, depth, rec) == (Ok, rec)
  {
    if !IsComment(line) {
      BlankLineHasNoTokens(line);
    }
  }

  /** An unknown keyword changes nothing. */
  lemma {:induction false} UnknownKeywordHasNoEffect(fs: FileSystem, line: string, depth: nat, rec: Record)
    requires !IsComment(line) && |Tokens(line)| > 0
    requires Tokens(line)[0] !in {"sv_hostname", "start", "set", "setr", "sv_scriptHookAllowed",
                                  "rcon_password", "sv_licenseKey", "load_server_icon", "sv_maxclients", "exec"}
    ensures ApplyLine(fs, line, depth, rec) == (Ok, rec)
  {
  }

  // ---------------------------------------------------------------------
  // Resources: append-only, in file order, no deduplication.

  predicate IsPrefix(a: seq<string>, b: seq<string>)
  {
    |a| <= |b| && b[..|a|] == a
  }

  lemma {:induction false} PrefixTransitive(a: seq<string>, b: seq<string>, c: seq<string>)
    requires IsPrefix(a, b) && IsPrefix(b, c)
    ensures IsPrefix(a, c)
  {
    assert c[..|a|] == c[..|b|][..|a|];
  }

  /** Whatever happens, even a failure part-way, the resources list only grows at its end. */
  lemma {:induction false} LoadKeepsResources(fs: FileSystem, fileName: string, depth: nat, rec: Record)
    ensures IsPrefix(rec.resources, Load(fs, fileName, depth, rec).1.resources)
    decreases depth, 1, 0
  {
    if fileName in fs {
      LoadLinesKeepResources(fs, SplitLines(fs[fileName]), depth, rec);
    }
  }

  lemma {:induction false} LoadLinesKeepResources(fs: FileSystem, lines: seq<string>, depth: nat, rec: Record)
    ensures IsPrefix(rec.resources, LoadLines(fs, lines, depth, rec).1.resources)
    decreases depth, 0, |lines|
  {
    if |lines| > 0 {
      var step := ApplyLine(fs, lines[0], depth, rec);
      ApplyLineKeepsResources(fs, lines[0], depth, rec);
      if step.0.Ok? {
        LoadLinesKeepResources(fs, lines[1..], depth, step.1);
        PrefixTransitive(rec.resources, step.1.resources, LoadLines(fs, lines, depth, rec).1.resources);
      }
    }
  }

  lemma {:induction false} ApplyLineKeepsResources(fs: FileSystem, line: string, depth: nat, rec: Record)
    ensures IsPrefix(rec.resources, ApplyLine(fs, line, depth, rec).1.resources)
    decreases depth, 0, 0
  {
    var parts := Tokens(line);
    if !IsComment(line) && |parts| >= 2 && KeywordOf(parts[0]) == Exec && depth > 0 {
      LoadKeepsResources(fs, parts[1], depth - 1, rec);
    }
  }

  predicate IsExec(line: string)
  {
    !IsComment(line) && |Tokens(line)| > 0 && KeywordOf(Tokens(line)[0]) == Exec
  }

  /** The arguments of the `start` lines, in order, repeats included. */
  function Started(lines: seq<string>): seq<string>
  {
    if |lines| == 0 then []
    else
      var line := lines[|lines| - 1];
      var parts := Tokens(line);
      Started(lines[..|lines| - 1])
        + (if !IsComment(line) && |parts| >= 2 && KeywordOf(parts[0]) == Start then [parts[1]] else [])
  }

  lemma {:induction false} LoadLinesSnoc(fs: FileSystem, lines: seq<string>, depth: nat, rec: Record)
    requires |lines| > 0
    ensures LoadLines(fs, lines, depth, rec)
         == Then(fs, LoadLines(fs, lines[..|lines| - 1], depth, rec), [lines[|lines| - 1]], depth)
  {
    assert lines == lines[..|lines| - 1] + [lines[|lines| - 1]];
    LoadLinesAppend(fs, lines[..|lines| - 1], [lines[|lines| - 1]], depth, rec);
  }

  /** A successful line other than `exec` adds the `start` argument, if it is a `start` line, and nothing else. */
  lemma {:induction false} StartStep(fs: FileSystem, line: string, depth: nat, rec: Record)
    requires !IsExec(line)
    requires ApplyLine(fs, line, depth, rec).0 == Ok
    ensures ApplyLine(fs, line, depth, rec).1.resources == rec.resources + Started([line])
  {
    assert [line][..0] == [];
    var parts := Tokens(line);
    if !IsComment(line) && |parts| > 0 && KeywordOf(parts[0]) != Start {
      assert ApplyLine(fs, line, depth, rec) == Dispatch(parts, rec);
    }
  }

  /** In a file without `exec` that loads successfully, the resources gain
      exactly the `start` arguments, in file order, with no deduplication. */
  lemma {:induction false} StartAppendsInOrder(fs: FileSystem, lines: seq<string>, depth: nat, rec: Record)
    requires forall i :: 0 <= i < |lines| ==> !IsExec(lines[i])
    requires LoadLines(fs, lines, depth, rec).0 == Ok
    ensures LoadLines(fs, lines, depth, rec).1.resources == rec.resources + Started(lines)
  {
    if |lines| > 0 {
      var front := lines[..|lines| - 1];
      var line := lines[|lines| - 1];
      LoadLinesSnoc(fs, lines, depth, rec);
      var mid := LoadLines(fs, front, depth, rec);
      assert mid.0 == Ok;
      StartAppendsInOrder(fs, front, depth, rec);
      assert !IsExec(line);
      assert LoadLines(fs, [line], depth, mid.1) == ApplyLine(fs, line, depth, mid.1);
      StartStep(fs, line, depth, mid.1);
      assert Started(lines) == Started(front) + Started([line]) by {
        assert [line][..0] == [];
      }
    }
  }

  // ---------------------------------------------------------------------
  // Settings: the last directive for a setting wins.

  /** A setting that one directive assigns. */
  datatype Setting =
    | Hostname | Rcon | LicenseKey | ServerIcon | ScriptHook | MaxClients
    | Convar(key: string) | ReplicatedConvar(key: string)

  datatype Value = Text(text: string) | Flag(flag: bool) | Number(number: U16) | Unset

  function Get(rec: Record, s: Setting): Value
  {
    match s
    case Hostname => Text(rec.hostname)
    case Rcon => Text(rec.rconPassword)
    case LicenseKey => Text(rec.licenseKey)
    case ServerIcon => Text(rec.serverIcon)
    case ScriptHook => Flag(rec.allowScripthook)
    case MaxClients => Number(rec.maxClients)
    case Convar(k) => if k in rec.convars then Text(rec.convars[k]) else Unset
    case ReplicatedConvar(k) => if k in rec.convarsReplicated then Text(rec.convarsReplicated[k]) else Unset
  }

  /** The keyword of the directives that assign `s`. */
  function KeywordFor(s: Setting): Keyword
  {
    match s
    case Hostname => SvHostname
    case Rcon => RconPassword
    case LicenseKey => SvLicenseKey
    case ServerIcon => LoadServerIcon
    case ScriptHook => SvScriptHookAllowed
    case MaxClients => SvMaxclients
    case Convar(_) => Set
    case ReplicatedConvar(_) => Setr
  }

  /** The line is a directive for setting `s`. */
  predicate Sets(line: string, s: Setting)
  {
    var parts := Tokens(line);
    && !IsComment(line) && |parts| > 0 && KeywordOf(parts[0]) == KeywordFor(s)
    && (s.Convar? || s.ReplicatedConvar? ==> |parts| >= 2 && parts[1] == s.key)
  }

  /** The value a directive line gives its setting: the argument itself,
      `true` exactly for the argument "1", or the argument read as a `u16`. */
  function Assigned(parts: seq<string>, s: Setting): Value
  {
    if |parts| < 2 then Unset
    else match s
      case ScriptHook => Flag(parts[1] == "1")
      case MaxClients => (match ParseU16(parts[1]) case Some(n) => Number(n) case None => Unset)
      case Convar(_) => if |parts| < 3 then Unset else Text(parts[2])
      case ReplicatedConvar(_) => if |parts| < 3 then Unset else Text(parts[2])
      case _ => Text(parts[1])
  }

  /** A successful directive line for `s` leaves `s` holding the value it assigns. */
  lemma {:induction false} DirectiveAssigns(fs: FileSystem, line: string, depth: nat, rec: Record, s: Setting)
    requires Sets(line, s)
    requires ApplyLine(fs, line, depth, rec).0 == Ok
    ensures Get(ApplyLine(fs, line, depth, rec).1, s) == Assigned(Tokens(line), s)
  {
  }

  /** A successful directive that is not one for `s` leaves `s` as it was. */
  lemma {:induction false} DispatchKeeps(parts: seq<string>, rec: Record, s: Setting)
    requires |parts| > 0 && KeywordOf(parts[0]) != Exec
    requires KeywordOf(parts[0]) == KeywordFor(s) ==> (s.Convar? || s.ReplicatedConvar?) && (|parts| < 2 || parts[1] != s.key)
    requires Dispatch(parts, rec).0 == Ok
    ensures Get(Dispatch(parts, rec).1, s) == Get(rec, s)
  {
    if s.Convar? || s.ReplicatedConvar? {
      DispatchKeepsConvars(parts, rec, s);
    } else {
      DispatchKeepsFields(parts, rec, s);
    }
  }

  lemma {:induction false} DispatchKeepsConvars(parts: seq<string>, rec: Record, s: Setting)
    requires |parts| > 0 && KeywordOf(parts[0]) != Exec
    requires s.Convar? || s.ReplicatedConvar?
    requires KeywordOf(parts[0]) == KeywordFor(s) ==> |parts| < 2 || parts[1] != s.key
    requires Dispatch(parts, rec).0 == Ok
    ensures Get(Dispatch(parts, rec).1, s) == Get(rec, s)
  {
  }

  lemma {:induction false} DispatchKeepsFields(parts: seq<string>, rec: Record, s: Setting)
    requires |parts| > 0 && KeywordOf(parts[0]) != Exec && KeywordOf(parts[0]) != KeywordFor(s)
    requires !s.Convar? && !s.ReplicatedConvar?
    requires Dispatch(parts, rec).0 == Ok
    ensures Get(Dispatch(parts, rec).1, s) == Get(rec, s)
  {
  }

  /** A successful line that is neither a directive for `s` nor an `exec` leaves `s` as it was. */
  lemma {:induction false} OtherLinesKeep(fs: FileSystem, line: string, depth: nat, rec: Record, s: Setting)
    requires !Sets(line, s) && !IsExec(line)
    requires ApplyLine(fs, line, depth, rec).0 == Ok
    ensures Get(ApplyLine(fs, line, depth, rec).1, s) == Get(rec, s)
  {
    var parts := Tokens(line);
    if !IsComment(line) && |parts| > 0 {
      assert ApplyLine(fs, line, depth, rec) == Dispatch(parts, rec);
      DispatchKeeps(parts, rec, s);
    }
  }

  /** The line never assigns `s`: it is not a directive for `s`, and if it is
      an `exec` that `ApplyLine` would follow, the file it names never
      assigns `s` either. */
  predicate NeverSetsLine(fs: FileSystem, line: string, depth: nat, s: Setting)
    decreases depth, 0
  {
    && !Sets(line, s)
    && (IsExec(line) && |Tokens(line)| >= 2 && depth > 0 ==> NeverSetsFile(fs, Tokens(line)[1], depth - 1, s))
  }

  /** No line of the file, nor of any file it includes, assigns `s`. */
  predicate NeverSetsFile(fs: FileSystem, fileName: string, depth: nat, s: Setting)
    decreases depth, 1
  {
    fileName in fs ==>
      var lines := SplitLines(fs[fileName]);
      forall i :: 0 <= i < |lines| ==> NeverSetsLine(fs, lines[i], depth, s)
  }

  /** A file that never assigns `s`, included files and all, leaves `s` as it
      was, whatever the outcome of the load. */
  lemma {:induction false} LoadKeepsSetting(fs: FileSystem, fileName: string, depth: nat, rec: Record, s: Setting)
    requires NeverSetsFile(fs, fileName, depth, s)
    ensures Get(Load(fs, fileName, depth, rec).1, s) == Get(rec, s)
    decreases depth, 1, 0
  {
    if fileName in fs {
      LoadLinesKeepSetting(fs, SplitLines(fs[fileName]), depth, rec, s);
    }
  }

  /** A run of lines none of which assigns `s` leaves `s` as it was, whatever
      its outcome. */
  lemma {:induction false} LoadLinesKeepSetting(fs: FileSystem, lines: seq<string>, depth: nat, rec: Record, s: Setting)
    requires forall i :: 0 <= i < |lines| ==> NeverSetsLine(fs, lines[i], depth, s)
    ensures Get(LoadLines(fs, lines, depth, rec).1, s) == Get(rec, s)
    decreases depth, 0, |lines|
  {
    if |lines| > 0 {
      var step := ApplyLine(fs, lines[0], depth, rec);
      ApplyLineKeepsSetting(fs, lines[0], depth, rec, s);
      if step.0.Ok? {
        assert forall i :: 0 <= i < |lines| - 1 ==> lines[1..][i] == lines[i + 1];
        LoadLinesKeepSetting(fs, lines[1..], depth, step.1, s);
      }
    }
  }

  /** One line that never assigns `s`, an `exec` included, leaves `s` as it
      was, whatever its outcome. */
  lemma {:induction false} ApplyLineKeepsSetting(fs: FileSystem, line: string, depth: nat, rec: Record, s: Setting)
    requires NeverSetsLine(fs, line, depth, s)
    ensures Get(ApplyLine(fs, line, depth, rec).1, s) == Get(rec, s)
    decreases depth, 0, 0
  {
    var parts := Tokens(line);
    if !IsComment(line) && |parts| > 0 {
      if KeywordOf(parts[0]) == Exec {
        if |parts| >= 2 && depth > 0 {
          LoadKeepsSetting(fs, parts[1], depth - 1, rec, s);
        }
      } else if Dispatch(parts, rec).0 == Ok {
        DispatchKeeps(parts, rec, s);
      } else {
        DispatchFailureKeeps(parts, rec);
      }
    }
  }

  /** A directive that does not succeed leaves the record as it was. */
  lemma {:induction false} DispatchFailureKeeps(parts: seq<string>, rec: Record)
    requires |parts| > 0 && KeywordOf(parts[0]) != Exec
    requires Dispatch(parts, rec).0 != Ok
    ensures Dispatch(parts, rec).1 == rec
  {
  }

  /** A successful run of lines that are neither directives for `s` nor
      `exec`s leaves `s` as it was. */
  lemma {:induction false} UntouchedLinesKeep(fs: FileSystem, lines: seq<string>, depth: nat, rec: Record, s: Setting)
    requires forall i :: 0 <= i < |lines| ==> !Sets(lines[i], s) && !IsExec(lines[i])
    requires LoadLines(fs, lines, depth, rec).0 == Ok
    ensures Get(LoadLines(fs, lines, depth, rec).1, s) == Get(rec, s)
  {
    if |lines| > 0 {
      var step := ApplyLine(fs, lines[0], depth, rec);
      OtherLinesKeep(fs, lines[0], depth, rec, s);
      UntouchedLinesKeep(fs, lines[1..], depth, step.1, s);
    }
  }

  /** Last write wins: after a successful load, a setting holds the value
      given by the last directive for it. The lines after that directive may
      include other files with `exec`, as long as none of those files, at any
      nesting, assigns the setting again. */
  lemma {:induction false} LastDirectiveWins(fs: FileSystem, pre: seq<string>, line: string, post: seq<string>,
                          depth: nat, rec: Record, s: Setting)
    requires Sets(line, s)
    requires forall i :: 0 <= i < |post| ==> NeverSetsLine(fs, post[i], depth, s)
    requires LoadLines(fs, pre + [line] + post, depth, rec).0 == Ok
    ensures Get(LoadLines(fs, pre + [line] + post, depth, rec).1, s) == Assigned(Tokens(line), s)
  {
    LoadLinesAppend(fs, pre, [line] + post, depth, rec);
    assert pre + [line] + post == pre + ([line] + post);
    var mid := LoadLines(fs, pre, depth, rec);
    assert mid.0 == Ok;
    LoadLinesAround(fs, pre, line, post, depth, rec);
    var step := ApplyLine(fs, line, depth, mid.1);
    assert step.0 == Ok;
    DirectiveAssigns(fs, line, depth, mid.1, s);
    LoadLinesKeepSetting(fs, post, depth, step.1, s);
  }

  // ---------------------------------------------------------------------
  // Line endings.

  /** Lines joined with a separator. */
  function JoinLines(lines: seq<string>, sep: string): string
    requires |lines| > 0
  {
    if |lines| == 1 then lines[0]
    else JoinLines(lines[..|lines| - 1], sep) + sep + lines[|lines| - 1]
  }

  predicate NoBreaks(lines: seq<string>)
  {
    forall i :: 0 <= i < |lines| ==> '\r' !in lines[i] && '\n' !in lines[i]
  }

  /** The lines with an empty line after each but the last (what CRLF becomes). */
  function Spaced(lines: seq<string>): seq<string>
    requires |lines| > 0
  {
    if |lines| == 1 then lines
    else Spaced(lines[..|lines| - 1]) + ["", lines[|lines| - 1]]
  }

  function LoadText(fs: FileSystem, text: string, depth: nat, rec: Record): (Status, Record)
  {
    LoadLines(fs, SplitLines(text), depth, rec)
  }

  /** One more character: a line feed finishes the open line, any other
      character extends it. */
  lemma {:induction false} CutSnoc(s: string, c: char)
    ensures CutLines(s + [c]) ==
            var k := CutLines(s);
            if c == '\n' then Cut(k.done + [k.open], "") else Cut(k.done, k.open + [c])
  {
    assert (s + [c])[..|s|] == s;
  }

  /** Text without line feeds only extends the open line. */
  lemma {:induction false} CutPlain(s: string, t: string)
    requires '\n' !in t
    ensures CutLines(s + t) == CutLines(s).(open := CutLines(s).open + t)
  {
    if |t| == 0 {
      assert s + t == s;
      assert CutLines(s).open + t == CutLines(s).open;
    } else {
      var p, last := t[..|t| - 1], t[|t| - 1];
      assert t == p + [last];
      assert '\n' !in p && last != '\n';
      CutPlain(s, p);
      assert s + t == (s + p) + [last];
      CutSnoc(s + p, last);
      assert CutLines(s).open + t == (CutLines(s).open + p) + [last];
    }
  }

  /** Cutting lines joined with line feeds gives them back, the last one open. */
  lemma {:induction false} CutJoin(lines: seq<string>)
    requires |lines| > 0 && NoBreaks(lines)
    ensures CutLines(JoinLines(lines, "\n")) == Cut(lines[..|lines| - 1], lines[|lines| - 1])
  {
    var n := |lines|;
    if n == 1 {
      CutPlain("", lines[0]);
      assert "" + lines[0] == lines[0];
    } else {
      var front, last := lines[..n - 1], lines[n - 1];
      assert NoBreaks(front);
      CutJoin(front);
      var a := JoinLines(front, "\n");
      assert (a + "\n")[..|a|] == a;
      assert front[..n - 2] + [front[n - 2]] == front;
      assert CutLines(a + "\n") == Cut(front, "");
      CutPlain(a + "\n", last);
      assert JoinLines(lines, "\n") == (a + "\n") + last;
    }
  }

  /** Splitting lines joined with line feeds gives the lines back. */
  lemma {:induction false} SplitJoin(lines: seq<string>)
    requires |lines| > 0 && NoBreaks(lines)
    ensures SplitOn(JoinLines(lines, "\n")) == lines
  {
    CutJoin(lines);
    assert lines[..|lines| - 1] + [lines[|lines| - 1]] == lines;
  }

  lemma {:induction false} NormalizedAppend(a: string, b: string)
    ensures Normalized(a + b) == Normalized(a) + Normalized(b)
  {
  }

  lemma {:induction false} NormalizedIdempotent(s: string)
    ensures Normalized(Normalized(s)) == Normalized(s)
  {
  }

  lemma {:induction false} NormalizedCR(lines: seq<string>)
    requires |lines| > 0 && NoBreaks(lines)
    ensures Normalized(JoinLines(lines, "\r")) == JoinLines(lines, "\n")
  {
    var n := |lines|;
    assert Normalized(lines[n - 1]) == lines[n - 1];
    if n > 1 {
      NormalizedCR(lines[..n - 1]);
      var a := JoinLines(lines[..n - 1], "\r");
      NormalizedAppend(a + "\r", lines[n - 1]);
      NormalizedAppend(a, "\r");
    }
  }

  lemma {:induction false} NormalizedCRLF(lines: seq<string>)
    requires |lines| > 0 && NoBreaks(lines)
    ensures |Spaced(lines)| > 0 && NoBreaks(Spaced(lines))
    ensures Normalized(JoinLines(lines, "\r\n")) == JoinLines(Spaced(lines), "\n")
  {
    var n := |lines|;
    assert Normalized(lines[n - 1]) == lines[n - 1];
    if n > 1 {
      var front := lines[..n - 1];
      NormalizedCRLF(front);
      var a := JoinLines(front, "\r\n");
      NormalizedAppend(a + "\r\n", lines[n - 1]);
      NormalizedAppend(a, "\r\n");
      var sp := Spaced(lines);
      var sf := Spaced(front);
      assert sp == sf + ["", lines[n - 1]];
      assert sp[..|sp| - 1] == sf + [""];
      assert (sf + [""])[..|sf|] == sf;
      assert JoinLines(sp, "\n") == JoinLines(sf, "\n") + "\n" + "" + "\n" + lines[n - 1];
    }
  }

  lemma {:induction false} EmptyLinesAddNothing(fs: FileSystem, lines: seq<string>, depth: nat, rec: Record)
    requires |lines| > 0
    ensures LoadLines(fs, Spaced(lines), depth, rec) == LoadLines(fs, lines, depth, rec)
  {
    var n := |lines|;
    if n > 1 {
      var front := lines[..n - 1];
      EmptyLinesAddNothing(fs, front, depth, rec);
      LoadLinesAppend(fs, Spaced(front), ["", lines[n - 1]], depth, rec);
      LoadLinesAppend(fs, front, [lines[n - 1]], depth, rec);
      assert front + [lines[n - 1]] == lines;
      var mid := LoadLines(fs, front, depth, rec);
      if mid.0.Ok? {
        assert ["", lines[n - 1]][1..] == [lines[n - 1]];
        assert Tokens("") == [];
        assert ApplyLine(fs, "", depth, mid.1) == (Ok, mid.1);
      }
    }
  }

  /** A file loads the same whether its lines end in LF, CRLF or CR. */
  lemma {:induction false} LineEndingsAgree(fs: FileSystem, lines: seq<string>, depth: nat, rec: Record)
    requires |lines| > 0 && NoBreaks(lines)
    ensures LoadText(fs, JoinLines(lines, "\n"), depth, rec) == LoadLines(fs, lines, depth, rec)
    ensures LoadText(fs, JoinLines(lines, "\r\n"), depth, rec) == LoadLines(fs, lines, depth, rec)
    ensures LoadText(fs, JoinLines(lines, "\r"), depth, rec) == LoadLines(fs, lines, depth, rec)
  {
    NormalizedCR(lines);
    NormalizedCRLF(lines);
    NormalizedIdempotent(JoinLines(lines, "\r"));
    SplitJoin(lines);
    SplitJoin(Spaced(lines));
    EmptyLinesAddNothing(fs, lines, depth, rec);
  }

  // ---------------------------------------------------------------------
  // The nesting bound only matters when it is reached.

  predicate TooDeep(st: Status)
  {
    st.Panic? && st.reason.IncludeTooDeep?
  }

  /** A load that did not run into the nesting bound gives the same outcome under any larger bound. */
  lemma {:induction false} LoadDepthMonotone(fs: FileSystem, fileName: string, depth: nat, more: nat, rec: Record)
    requires depth <= more && !TooDeep(Load(fs, fileName, depth, rec).0)
    ensures Load(fs, fileName, more, rec) == Load(fs, fileName, depth, rec)
    decreases depth, 1, 0
  {
    if fileName in fs {
      LoadLinesDepthMonotone(fs, SplitLines(fs[fileName]), depth, more, rec);
    }
  }

  lemma {:induction false} LoadLinesDepthMonotone(fs: FileSystem, lines: seq<string>, depth: nat, more: nat, rec: Record)
    requires depth <= more && !TooDeep(LoadLines(fs, lines, depth, rec).0)
    ensures LoadLines(fs, lines, more, rec) == LoadLines(fs, lines, depth, rec)
    decreases depth, 0, |lines|
  {
    if |lines| > 0 {
      var step := ApplyLine(fs, lines[0], depth, rec);
      ApplyLineDepthMonotone(fs, lines[0], depth, more, rec);
      if step.0.Ok? {
        LoadLinesDepthMonotone(fs, lines[1..], depth, more, step.1);
      }
    }
  }

  lemma {:induction false} ApplyLineDepthMonotone(fs: FileSystem, line: string, depth: nat, more: nat, rec: Record)
    requires depth <= more && !TooDeep(ApplyLine(fs, line, depth, rec).0)
    ensures ApplyLine(fs, line, more, rec) == ApplyLine(fs, line, depth, rec)
    decreases depth, 0, 0
  {
    var parts := Tokens(line);
    if !IsComment(line) && |parts| >= 2 && KeywordOf(parts[0]) == Exec && depth > 0 {
      LoadDepthMonotone(fs, parts[1], depth - 1, more - 1, rec);
    }
  }

  // ---------------------------------------------------------------------
  // The entry point.

  /** `read_config_file` gives the record loaded from the defaults on
      success, the loader's error message unchanged on failure, and no
      record in either failure case. */
  lemma {:induction false} ReadConfigOutcome(fs: FileSystem, fileName: string, depth: nat)
    ensures var loaded := Load(fs, fileName, depth, Defaults);
            && (ReadConfig(fs, fileName, depth).Loaded? <==> loaded.0 == Ok)
            && (loaded.0 == Ok ==> ReadConfig(fs, fileName, depth) == Loaded(loaded.1))
            && (forall m :: ReadConfig(fs, fileName, depth) == Failed(m) <==> loaded.0 == Err(m))
  {
  }
}
