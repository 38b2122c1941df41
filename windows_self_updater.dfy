/**
 * The pure part of the Windows self-updater: the PowerShell script that
 * swaps a staged build into the install directory starts by assigning the
 * plan's values to PowerShell variables. Paths and the exe name go between
 * double quotes, escaped; the preserve list is an array of single-quoted,
 * unescaped items. An exe name that does not end in `.exe` is refused before
 * anything is written.
 */
module WindowsSelfUpdater {
  import opened Wrappers
  import opened Strings

  /** What survives an update when the plan names nothing: `DEFAULT_PRESERVE_PATHS`. */
  const DefaultPreservePaths: seq<string> := ["logs", "config_data", "config_dir.txt"]

  // Escaping

  /** Every occurrence of the character `c` replaced by `r`. */
  function ReplaceChar(s: string, c: char, r: string): string {
    if |s| == 0 then "" else (if s[0] == c then r else [s[0]]) + ReplaceChar(s[1..], c, r)
  }

  /** `_ps_escape`: backticks are doubled first, then every `"` gets a backtick. */
  function PsEscape(value: string): string {
    Replace(Replace(value, "`", "``"), "\"", "`\"")
  }

  /** The escape of one character. */
  function EscapeChar(c: char): string {
    if c == '`' then "``" else if c == '\"' then "`\"" else [c]
  }

  /** The escape as a map over characters. */
  function EscapeEach(s: string): string {
    if |s| == 0 then "" else EscapeChar(s[0]) + EscapeEach(s[1..])
  }

  function Count(s: string, c: char): nat {
    if |s| == 0 then 0 else (if s[0] == c then 1 else 0) + Count(s[1..], c)
  }

  /** Reading back: a backtick stands for the character after it. */
  function Unescape(s: string): string {
    if |s| == 0 then ""
    else if s[0] == '`' && |s| >= 2 then [s[1]] + Unescape(s[2..])
    else [s[0]] + Unescape(s[1..])
  }

  /** Reading left to right, each backtick escapes the next character and no `"` is left bare. */
  predicate QuotesEscaped(s: string) {
    if |s| == 0 then true
    else if s[0] == '`' then |s| >= 2 && QuotesEscaped(s[2..])
    else s[0] != '\"' && QuotesEscaped(s[1..])
  }

  lemma {:induction false} ReplaceSingle(s: string, c: char, r: string)
    ensures Replace(s, [c], r) == ReplaceChar(s, c, r)
  {
    if |s| > 0 {
      ReplaceSingle(s[1..], c, r);
      assert s[..1] == [c] <==> s[0] == c by {
        assert s[..1] == [s[0]];
      }
    }
  }

  lemma {:induction false} ReplaceCharAppend(a: string, b: string, c: char, r: string)
    ensures ReplaceChar(a + b, c, r) == ReplaceChar(a, c, r) + ReplaceChar(b, c, r)
  {
    if |a| > 0 {
      ReplaceCharAppend(a[1..], b, c, r);
      assert (a + b)[1..] == a[1..] + b;
    } else {
      assert a + b == b;
    }
  }

  lemma {:induction false} TwoPasses(v: string)
    ensures ReplaceChar(ReplaceChar(v, '`', "``"), '\"', "`\"") == EscapeEach(v)
  {
    if |v| > 0 {
      var head := if v[0] == '`' then "``" else [v[0]];
      var tail := ReplaceChar(v[1..], '`', "``");
      assert ReplaceChar(v, '`', "``") == head + tail;
      ReplaceCharAppend(head, tail, '\"', "`\"");
      TwoPasses(v[1..]);
      assert ReplaceChar(head, '\"', "`\"") == EscapeChar(v[0]) by {
        if v[0] == '`' {
          assert head[1..] == "`";
          assert ReplaceChar("`", '\"', "`\"") == "`";
        }
      }
    }
  }

  /** The two chained replacements escape each character on its own: neither pass sees the other's output. */
  lemma PsEscapeEach(v: string)
    ensures PsEscape(v) == EscapeEach(v)
  {
    ReplaceSingle(v, '`', "``");
    ReplaceSingle(ReplaceChar(v, '`', "``"), '\"', "`\"");
    TwoPasses(v);
  }

  lemma {:induction false} EscapeEachLength(v: string)
    ensures |EscapeEach(v)| == |v| + Count(v, '`') + Count(v, '\"')
  {
    if |v| > 0 {
      EscapeEachLength(v[1..]);
    }
  }

  /** The escape adds one character per backtick and per double quote. */
  lemma PsEscapeLength(v: string)
    ensures |PsEscape(v)| == |v| + Count(v, '`') + Count(v, '\"')
  {
    PsEscapeEach(v);
    EscapeEachLength(v);
  }

  lemma {:induction false} UnescapeEach(v: string)
    ensures Unescape(EscapeEach(v)) == v
    ensures QuotesEscaped(EscapeEach(v))
  {
    if |v| > 0 {
      var e := EscapeEach(v);
      var rest := EscapeEach(v[1..]);
      UnescapeEach(v[1..]);
      if v[0] == '`' || v[0] == '\"' {
        assert e == [e[0], e[1]] + rest && e[0] == '`' && e[1] == v[0];
        assert e[2..] == rest;
      } else {
        assert e == [v[0]] + rest;
        assert e[1..] == rest;
      }
    }
  }

  /** Un-escaping the output gives the input back, and no double quote in the output is bare. */
  lemma UnescapeRoundTrip(v: string)
    ensures Unescape(PsEscape(v)) == v
    ensures QuotesEscaped(PsEscape(v))
  {
    PsEscapeEach(v);
    UnescapeEach(v);
  }

  // How PowerShell reads a double-quoted literal

  /** The characters PowerShell accepts as a double quote. */
  predicate QuoteChar(c: char) {
    c == '\"' || c == '“' || c == '”' || c == '„'
  }

  /** A character after `$` that makes it a variable reference or a subexpression. */
  predicate ExpansionStart(c: char) {
    IsAsciiLetter(c) || IsDigit(c) || c == '_' || c == '{' || c == '(' || c == '?' || c == '^' || c == '$'
  }

  function Prepend(c: char, o: Option<string>): Option<string> {
    match o
    case None => None
    case Some(t) => Some([c] + t)
  }

  /**
   * The value of a double-quoted literal whose body is `s`; `None` when the
   * body would end the literal early, ends in a lone backtick, expands a
   * variable or a subexpression, or uses a backtick escape other than those
   * of a backtick, a quote or a dollar (control-character escapes are not
   * modelled).
   */
  function ReadLiteral(s: string): Option<string> {
    if |s| == 0 then Some("")
    else if s[0] == '`' then
      if |s| < 2 || !(s[1] == '`' || s[1] == '$' || QuoteChar(s[1])) then None
      else Prepend(s[1], ReadLiteral(s[2..]))
    else if QuoteChar(s[0]) then None
    else if s[0] == '$' && |s| >= 2 && ExpansionStart(s[1]) then None
    else Prepend(s[0], ReadLiteral(s[1..]))
  }

  lemma {:induction false} ReadEach(v: string)
    requires forall k :: 0 <= k < |v| ==> v[k] != '$' && (QuoteChar(v[k]) ==> v[k] == '\"')
    ensures ReadLiteral(EscapeEach(v)) == Some(v)
  {
    if |v| > 0 {
      var e := EscapeEach(v);
      var rest := EscapeEach(v[1..]);
      ReadEach(v[1..]);
      if v[0] == '`' || v[0] == '\"' {
        assert e == [e[0], e[1]] + rest && e[0] == '`' && e[1] == v[0];
        assert e[2..] == rest;
      } else {
        assert v[0] != '$' && !QuoteChar(v[0]);
        assert e == [v[0]] + rest;
        assert e[1..] == rest;
      }
      assert v == [v[0]] + v[1..];
    }
  }

  /** Without `$` and typographic quotes in the value, PowerShell reads the escaped literal as the value. */
  lemma PsEscapeReadsBack(v: string)
    requires forall k :: 0 <= k < |v| ==> v[k] != '$' && (QuoteChar(v[k]) ==> v[k] == '\"')
    ensures ReadLiteral(PsEscape(v)) == Some(v)
  {
    PsEscapeEach(v);
    ReadEach(v);
  }

  /** A `$` before a name is left for PowerShell to expand, and a typographic quote ends the literal. */
  lemma PsEscapeExpands()
    ensures PsEscape("$x") == "$x" && ReadLiteral(PsEscape("$x")) == None
    ensures PsEscape("a”b") == "a”b" && ReadLiteral(PsEscape("a”b")) == None
  {
    PsEscapeEach("$x");
    PsEscapeEach("a”b");
    assert EscapeEach("$x") == "$" + EscapeEach("x");
    assert EscapeEach("a”b") == "a" + EscapeEach("”b");
    assert EscapeEach("”b") == "”" + EscapeEach("b");
    assert "a”b"[1..] == "”b";
  }

  /** The escape PowerShell needs: a backtick before every backtick, dollar and quote character. */
  function PsEscapeLiteral(v: string): string {
    if |v| == 0 then ""
    else (if v[0] == '`' || v[0] == '$' || QuoteChar(v[0]) then ['`', v[0]] else [v[0]]) + PsEscapeLiteral(v[1..])
  }

  /** PowerShell reads every escaped literal back as the value. */
  lemma {:induction false} PsEscapeLiteralReadsBack(v: string)
    ensures ReadLiteral(PsEscapeLiteral(v)) == Some(v)
  {
    if |v| > 0 {
      var e := PsEscapeLiteral(v);
      var rest := PsEscapeLiteral(v[1..]);
      PsEscapeLiteralReadsBack(v[1..]);
      if v[0] == '`' || v[0] == '$' || QuoteChar(v[0]) {
        assert e == ['`', v[0]] + rest;
        assert e[2..] == rest;
      } else {
        assert e == [v[0]] + rest;
        assert e[1..] == rest;
      }
      assert v == [v[0]] + v[1..];
    }
  }

  /** Where the value holds no `$` and no typographic quote, the corrected escape is `_ps_escape`. */
  lemma {:induction false} PsEscapeLiteralAgrees(v: string)
    requires forall k :: 0 <= k < |v| ==> v[k] != '$' && (QuoteChar(v[k]) ==> v[k] == '\"')
    ensures PsEscapeLiteral(v) == PsEscape(v)
  {
    PsEscapeEach(v);
    LiteralEach(v);
  }

  lemma {:induction false} LiteralEach(v: string)
    requires forall k :: 0 <= k < |v| ==> v[k] != '$' && (QuoteChar(v[k]) ==> v[k] == '\"')
    ensures PsEscapeLiteral(v) == EscapeEach(v)
  {
    if |v| > 0 {
      LiteralEach(v[1..]);
    }
  }

  // The exe name and the preserve list

  /** The exe-name check: `Failure` is the `WindowsUpdateScriptError`. */
  function CheckExeName(exeName: string): (r: Result<(), string>)
    ensures r.Success? <==> EndsWith(Lower(exeName), ".exe")
    ensures r.Failure? ==> r.error == "Unexpected exe name: " + exeName
  {
    if EndsWith(Lower(exeName), ".exe") then Success(()) else Failure("Unexpected exe name: " + exeName)
  }

  /** The check ignores case: a name passes exactly when its lower-case form does. */
  lemma ExeNameCase(exeName: string)
    ensures CheckExeName(exeName).Success? == CheckExeName(Lower(exeName)).Success?
  {
    LowerIdempotent(exeName);
  }

  /** `plan.preserve_paths or DEFAULT_PRESERVE_PATHS` */
  function PreservePaths(paths: seq<string>): (r: seq<string>)
    ensures r != []
    ensures paths != [] ==> r == paths
    ensures paths == [] ==> r == DefaultPreservePaths
  {
    if paths == [] then DefaultPreservePaths else paths
  }

  function Quote(p: string): string {
    "'" + p + "'"
  }

  function QuoteAll(ps: seq<string>): (qs: seq<string>)
    ensures |qs| == |ps| && forall i :: 0 <= i < |ps| ==> qs[i] == Quote(ps[i])
  {
    if |ps| == 0 then [] else [Quote(ps[0])] + QuoteAll(ps[1..])
  }

  /** `"@(" + ", ".join(f"'{p}'" ...) + ")"` */
  function RenderPreserve(ps: seq<string>): string {
    "@(" + Join(QuoteAll(ps), ", ") + ")"
  }

  /** Reads an array literal of single-quoted items back. */
  function ParsePreserve(s: string): Option<seq<string>> {
    if |s| < 3 || s[..2] != "@(" || s[|s| - 1] != ')' then None
    else if |s| == 3 then Some([])
    else ParseItems(s[2..|s| - 1])
  }

  function ParseItems(body: string): Option<seq<string>>
    decreases |body|
  {
    if |body| == 0 || body[0] != '\'' then None
    else
      match IndexOf(body[1..], '\'')
      case None => None
      case Some(k) =>
        var item := body[1..k + 1];
        var rest := body[k + 2..];
        if rest == "" then Some([item])
        else if |rest| >= 2 && rest[..2] == ", " then
          match ParseItems(rest[2..])
          case None => None
          case Some(more) => Some([item] + more)
        else None
  }

  predicate Unquoted(ps: seq<string>) {
    forall i :: 0 <= i < |ps| ==> '\'' !in ps[i]
  }

  lemma QuotedHead(p: string, tail: string)
    requires '\'' !in p
    ensures var body := Quote(p) + tail;
            body[0] == '\'' && IndexOf(body[1..], '\'') == Some(|p|)
            && body[1..|p| + 1] == p && body[|p| + 2..] == tail
  {
    var body := Quote(p) + tail;
    var s := body[1..];
    assert s == p + "'" + tail;
    assert s[|p|] == '\'';
    forall k | 0 <= k < |p|
      ensures s[k] != '\''
    {
      assert s[k] == p[k];
    }
  }

  lemma ParseItemsLast(p: string)
    requires '\'' !in p
    ensures ParseItems(Quote(p)) == Some([p])
  {
    QuotedHead(p, "");
    assert Quote(p) + "" == Quote(p);
  }

  lemma ParseItemsStep(p: string, more: string)
    requires '\'' !in p
    ensures ParseItems(Quote(p) + (", " + more))
         == match ParseItems(more) case None => None case Some(m) => Some([p] + m)
  {
    var tail := ", " + more;
    QuotedHead(p, tail);
    assert tail[2..] == more && tail[..2] == ", ";
  }

  lemma JoinCons(qs: seq<string>, sep: string)
    requires |qs| >= 2
    ensures Join(qs, sep) == qs[0] + (sep + Join(qs[1..], sep))
  {
  }

  lemma {:induction false} ItemsRoundTrip(ps: seq<string>)
    requires |ps| > 0 && Unquoted(ps)
    ensures ParseItems(Join(QuoteAll(ps), ", ")) == Some(ps)
  {
    var qs := QuoteAll(ps);
    if |ps| == 1 {
      ParseItemsLast(ps[0]);
      assert Join(qs, ", ") == Quote(ps[0]) && ps == [ps[0]];
    } else {
      var p, rest := ps[0], ps[1..];
      assert ps == [p] + rest;
      assert '\'' !in p by {
        assert ps[0] == p;
      }
      assert Unquoted(rest) by {
        forall i | 0 <= i < |rest|
          ensures '\'' !in rest[i]
        {
          assert rest[i] == ps[i + 1];
        }
      }
      assert qs[0] == Quote(p) && qs[1..] == QuoteAll(rest);
      ItemsRoundTrip(rest);
      JoinCons(qs, ", ");
      ParseItemsStep(p, Join(qs[1..], ", "));
    }
  }

  /** The rendered list reads back, in order, when no item holds a single quote. */
  lemma PreserveRoundTrip(ps: seq<string>)
    requires Unquoted(ps)
    ensures ParsePreserve(RenderPreserve(ps)) == Some(ps)
  {
    var s := RenderPreserve(ps);
    var qs := QuoteAll(ps);
    var body := Join(qs, ", ");
    assert s == "@(" + body + ")";
    assert s[..2] == "@(" && s[2..|s| - 1] == body && s[|s| - 1] == ')';
    if ps == [] {
      assert body == "";
    } else {
      ItemsRoundTrip(ps);
      JoinFirst(qs, ", ");
      assert |qs[0]| == |Quote(ps[0])| >= 2;
    }
  }

  lemma JoinFirst(qs: seq<string>, sep: string)
    requires |qs| > 0
    ensures Join(qs, sep) == qs[0] + Join(qs, sep)[|qs[0]|..]
  {
  }

  // The script

  /** A value `_ps_escape` renders faithfully: it holds no `$` and no typographic quote. */
  predicate Plain(v: string) {
    forall k :: 0 <= k < |v| ==> v[k] != '$' && (QuoteChar(v[k]) ==> v[k] == '\"')
  }

  /**
   * The variable assignments the script opens with, as the source writes
   * them: the resolved install and staging directories as text and the exe
   * name, each escaped with `_ps_escape`. `Failure` is the
   * `WindowsUpdateScriptError` for an exe name without `.exe`.
   */
  function ScriptHeader(installDir: string, stagedRoot: string, exeName: string, appPid: int,
                        preserve: seq<string>): (r: Result<seq<string>, string>)
    ensures r.Success? <==> CheckExeName(exeName).Success?
    ensures r.Failure? ==> r.error == "Unexpected exe name: " + exeName
    ensures r.Success? ==> |r.value| == 7 && r.value[0] == "$ErrorActionPreference = \"Stop\""
  {
    match CheckExeName(exeName)
    case Failure(e) => Failure(e)
    case Success(_) => Success(HeaderLines(installDir, stagedRoot, exeName, appPid, preserve, false))
  }

  /** The same header with the corrected escape `PsEscapeLiteral`. */
  function CorrectedScriptHeader(installDir: string, stagedRoot: string, exeName: string, appPid: int,
                                 preserve: seq<string>): (r: Result<seq<string>, string>)
    ensures r.Success? <==> CheckExeName(exeName).Success?
    ensures r.Failure? ==> r.error == "Unexpected exe name: " + exeName
    ensures r.Success? ==> |r.value| == 7 && r.value[0] == "$ErrorActionPreference = \"Stop\""
  {
    match CheckExeName(exeName)
    case Failure(e) => Failure(e)
    case Success(_) => Success(HeaderLines(installDir, stagedRoot, exeName, appPid, preserve, true))
  }

  function HeaderLines(installDir: string, stagedRoot: string, exeName: string, appPid: int,
                       preserve: seq<string>, corrected: bool): seq<string> {
    [ "$ErrorActionPreference = \"Stop\"",
      "",
      StringAssignment(InstallDirVar, installDir, corrected),
      StringAssignment(StagedDirVar, stagedRoot, corrected),
      StringAssignment(ExeNameVar, exeName, corrected),
      AppPidVar + IntToString(appPid),
      PreserveVar + RenderPreserve(PreservePaths(preserve)) ]
  }

  /** `<head>"<escaped value>"`, escaped with `_ps_escape` or, when `corrected`, with `PsEscapeLiteral`. */
  function StringAssignment(head: string, v: string, corrected: bool): string {
    head + "\"" + (if corrected then PsEscapeLiteral(v) else PsEscape(v)) + "\""
  }

  const InstallDirVar := "$InstallDir = "
  const StagedDirVar := "$StagedDir  = "
  const ExeNameVar := "$ExeName    = "
  const AppPidVar := "$AppPid     = "
  const PreserveVar := "$Preserve   = "

  /** The string a line `<head>"<literal>"` assigns, as PowerShell reads it. */
  function AssignedString(line: string, head: string): Option<string> {
    if |line| >= |head| + 2 && line[..|head|] == head && line[|head|] == '\"' && line[|line| - 1] == '\"'
    then ReadLiteral(line[|head| + 1..|line| - 1])
    else None
  }

  /** The integer a line `<head><digits>` assigns. */
  function AssignedInt(line: string, head: string): Option<int> {
    if |line| >= |head| && line[..|head|] == head then ParseSigned(line[|head|..]) else None
  }

  /** The array a line `<head>@(...)` assigns. */
  function AssignedArray(line: string, head: string): Option<seq<string>> {
    if |line| >= |head| && line[..|head|] == head then ParsePreserve(line[|head|..]) else None
  }

  /** What PowerShell reads from a string assignment line is what it reads from the escaped literal. */
  lemma AssignedLiteral(head: string, v: string, corrected: bool)
    ensures AssignedString(StringAssignment(head, v, corrected), head)
         == ReadLiteral(if corrected then PsEscapeLiteral(v) else PsEscape(v))
  {
    var e := if corrected then PsEscapeLiteral(v) else PsEscape(v);
    var line := head + "\"" + e + "\"";
    assert line[..|head|] == head && line[|head| + 1..|line| - 1] == e;
  }

  /** As written, a string assignment reads back as its value when the value is plain. */
  lemma StringLine(head: string, v: string)
    requires Plain(v)
    ensures AssignedString(StringAssignment(head, v, false), head) == Some(v)
  {
    AssignedLiteral(head, v, false);
    PsEscapeReadsBack(v);
  }

  /** With the corrected escape, a string assignment reads back as its value for every value. */
  lemma CorrectedStringLine(head: string, v: string)
    ensures AssignedString(StringAssignment(head, v, true), head) == Some(v)
  {
    AssignedLiteral(head, v, true);
    PsEscapeLiteralReadsBack(v);
  }

  lemma IntLine(head: string, n: int)
    ensures AssignedInt(head + IntToString(n), head) == Some(n)
  {
    var line := head + IntToString(n);
    assert line[..|head|] == head && line[|head|..] == IntToString(n);
    ParseSignedOfString(n);
  }

  lemma ArrayLine(head: string, ps: seq<string>)
    requires Unquoted(ps)
    ensures AssignedArray(head + RenderPreserve(ps), head) == Some(ps)
  {
    var line := head + RenderPreserve(ps);
    assert line[..|head|] == head && line[|head|..] == RenderPreserve(ps);
    PreserveRoundTrip(ps);
  }

  /**
   * As written, each variable of the header holds the plan's value as
   * PowerShell reads it (both directories, the exe name, the pid, and the
   * preserve list, the default list standing in for an empty one) provided
   * that the directories and the exe name are plain.
   */
  lemma HeaderReadsBack(installDir: string, stagedRoot: string, exeName: string, appPid: int,
                        preserve: seq<string>)
    requires CheckExeName(exeName).Success?
    requires Unquoted(preserve)
    requires Plain(installDir) && Plain(stagedRoot) && Plain(exeName)
    ensures var r := ScriptHeader(installDir, stagedRoot, exeName, appPid, preserve);
            && r.Success?
            && AssignedString(r.value[2], InstallDirVar) == Some(installDir)
            && AssignedString(r.value[3], StagedDirVar) == Some(stagedRoot)
            && AssignedString(r.value[4], ExeNameVar) == Some(exeName)
            && AssignedInt(r.value[5], AppPidVar) == Some(appPid)
            && AssignedArray(r.value[6], PreserveVar) == Some(PreservePaths(preserve))
  {
    CorrectedHeaderAgrees(installDir, stagedRoot, exeName, appPid, preserve);
    CorrectedHeaderReadsBack(installDir, stagedRoot, exeName, appPid, preserve);
  }

  /** As written, an install directory `$x` does not read back: PowerShell expands it. */
  lemma HeaderExpands(stagedRoot: string, exeName: string, appPid: int, preserve: seq<string>)
    requires CheckExeName(exeName).Success?
    ensures var r := ScriptHeader("$x", stagedRoot, exeName, appPid, preserve);
            r.Success? && AssignedString(r.value[2], InstallDirVar) == None
  {
    var lines := HeaderLines("$x", stagedRoot, exeName, appPid, preserve, false);
    assert ScriptHeader("$x", stagedRoot, exeName, appPid, preserve) == Success(lines);
    assert lines[2] == StringAssignment(InstallDirVar, "$x", false);
    AssignedLiteral(InstallDirVar, "$x", false);
    PsEscapeExpands();
  }

  /** With the corrected escape, the header reads back for every directory and exe name. */
  lemma CorrectedHeaderReadsBack(installDir: string, stagedRoot: string, exeName: string, appPid: int,
                                 preserve: seq<string>)
    requires CheckExeName(exeName).Success?
    requires Unquoted(preserve)
    ensures var r := CorrectedScriptHeader(installDir, stagedRoot, exeName, appPid, preserve);
            && r.Success?
            && AssignedString(r.value[2], InstallDirVar) == Some(installDir)
            && AssignedString(r.value[3], StagedDirVar) == Some(stagedRoot)
            && AssignedString(r.value[4], ExeNameVar) == Some(exeName)
            && AssignedInt(r.value[5], AppPidVar) == Some(appPid)
            && AssignedArray(r.value[6], PreserveVar) == Some(PreservePaths(preserve))
  {
    var lines := HeaderLines(installDir, stagedRoot, exeName, appPid, preserve, true);
    assert CorrectedScriptHeader(installDir, stagedRoot, exeName, appPid, preserve) == Success(lines);
    CorrectedStringLine(InstallDirVar, installDir);
    CorrectedStringLine(StagedDirVar, stagedRoot);
    CorrectedStringLine(ExeNameVar, exeName);
    HeaderPid(installDir, stagedRoot, exeName, appPid, preserve, true);
    HeaderPreserve(installDir, stagedRoot, exeName, appPid, preserve, true);
  }

  /** On plain directories and exe names the corrected header is the header as written. */
  lemma CorrectedHeaderAgrees(installDir: string, stagedRoot: string, exeName: string, appPid: int,
                              preserve: seq<string>)
    requires Plain(installDir) && Plain(stagedRoot) && Plain(exeName)
    ensures CorrectedScriptHeader(installDir, stagedRoot, exeName, appPid, preserve)
         == ScriptHeader(installDir, stagedRoot, exeName, appPid, preserve)
  {
    PsEscapeLiteralAgrees(installDir);
    PsEscapeLiteralAgrees(stagedRoot);
    PsEscapeLiteralAgrees(exeName);
  }

  lemma HeaderPid(installDir: string, stagedRoot: string, exeName: string, appPid: int,
                  preserve: seq<string>, corrected: bool)
    ensures AssignedInt(HeaderLines(installDir, stagedRoot, exeName, appPid, preserve, corrected)[5], AppPidVar) == Some(appPid)
  {
    IntLine(AppPidVar, appPid);
  }

  lemma HeaderPreserve(installDir: string, stagedRoot: string, exeName: string, appPid: int,
                       preserve: seq<string>, corrected: bool)
    requires Unquoted(preserve)
    ensures AssignedArray(HeaderLines(installDir, stagedRoot, exeName, appPid, preserve, corrected)[6], PreserveVar)
         == Some(PreservePaths(preserve))
  {
    PreserveUnquoted(preserve);
    ArrayLine(PreserveVar, PreservePaths(preserve));
  }

  lemma PreserveUnquoted(preserve: seq<string>)
    requires Unquoted(preserve)
    ensures Unquoted(PreservePaths(preserve))
  {
    if preserve == [] {
      assert Unquoted(DefaultPreservePaths);
    }
  }
}
