/**
 The text helpers of the turbo-log editor extension: the settings record, the
 choice of comment pattern from a file's extension, the comment test for a
 line, the indentation of a line, and the construction of the debug
 statement that the extension inserts below the current line.
 */
module TurboLog {
  import opened JsText

  // ---------------------------------------------------------------------------
  // Settings
  // ---------------------------------------------------------------------------

  /** The settings record. The extension never changes it, so every
      operation takes it as a parameter. `quoteStyle` is free text:
      "single" selects `'` and any other value selects `"`. */
  datatype Config = Config(
    logMessagePrefix: string,
    logMessageSuffix: string,
    wrapLogMessage: bool,
    logFunction: string,
    quoteStyle: string,
    includeFileInfo: bool,
    includeLineInfo: bool,
    delimiterInsideMessage: string,
    includeTimestamp: bool)

  /** The settings the extension ships with (a rocket emoji and a space on each side). */
  const DefaultConfig: Config := Config(
    logMessagePrefix := "\U{1F680} ",
    logMessageSuffix := " \U{1F680}",
    wrapLogMessage := true,
    logFunction := "console.log",
    quoteStyle := "single",
    includeFileInfo := true,
    includeLineInfo := true,
    delimiterInsideMessage := ":",
    includeTimestamp := false)

  // ---------------------------------------------------------------------------
  // Comment patterns
  // ---------------------------------------------------------------------------

  /** The four entries of the comment-pattern table. */
  datatype CommentPattern = JavaScript | Python | Ruby | Php

  /** The alternatives that each pattern accepts after the leading whitespace:
      `^\s*(\/\/|\/\*|\*)` for JavaScript, `^\s*#` for Python and Ruby, and
      all four markers for PHP. */
  function Markers(p: CommentPattern): (markers: seq<string>)
    ensures |markers| >= 1
    ensures forall i :: 0 <= i < |markers| ==>
      markers[i] != "" && (markers[i][0] == '/' || markers[i][0] == '*' || markers[i][0] == '#')
  {
    match p
    case JavaScript => ["//", "/*", "*"]
    case Python => ["#"]
    case Ruby => ["#"]
    case Php => ["//", "/*", "*", "#"]
  }

  /** The text starts with one of the pattern's markers, so with `/`, `*` or `#`. */
  predicate StartsWithMarker(p: CommentPattern, s: string)
    ensures StartsWithMarker(p, s) ==> |s| > 0 && (s[0] == '/' || s[0] == '*' || s[0] == '#')
  {
    exists i :: 0 <= i < |Markers(p)| && StartsWith(s, Markers(p)[i])
  }

  /** What the regular expression of pattern `p` matches: some prefix of the
      line made of whitespace, followed by one of the pattern's markers. */
  ghost predicate PatternMatches(p: CommentPattern, line: string) {
    exists k :: 0 <= k <= |line| && AllSpace(line[..k]) && StartsWithMarker(p, line[k..])
  }

  /** The PHP pattern accepts exactly what the JavaScript or the Python pattern accepts. */
  lemma PhpMarkersAreUnion(s: string)
    ensures StartsWithMarker(Php, s) <==> StartsWithMarker(JavaScript, s) || StartsWithMarker(Python, s)
  {
    if StartsWithMarker(Php, s) {
      var i :| 0 <= i < 4 && StartsWith(s, Markers(Php)[i]);
      if i < 3 {
        assert StartsWith(s, Markers(JavaScript)[i]);
      } else {
        assert StartsWith(s, Markers(Python)[0]);
      }
    }
    if StartsWithMarker(JavaScript, s) {
      var i :| 0 <= i < 3 && StartsWith(s, Markers(JavaScript)[i]);
      assert StartsWith(s, Markers(Php)[i]);
    }
    if StartsWithMarker(Python, s) {
      assert StartsWith(s, Markers(Php)[3]);
    }
  }

  /** `filePath.split(".").pop().toLowerCase()`. */
  function FileExtension(filePath: string): (ext: string)
    ensures '.' !in ext
    ensures forall i :: 0 <= i < |ext| ==> !('A' <= ext[i] <= 'Z')
  {
    ToLower(AfterLast(filePath, '.'))
  }

  /** The `switch` on the extension, with JavaScript as its default. */
  function PatternForExtension(ext: string): (p: CommentPattern)
    ensures p == Python <==> ext == "py"
    ensures p == Ruby <==> ext == "rb"
    ensures p == Php <==> ext == "php"
  {
    if ext == "js" || ext == "jsx" || ext == "ts" || ext == "tsx" then JavaScript
    else if ext == "py" then Python
    else if ext == "rb" then Ruby
    else if ext == "php" then Php
    else JavaScript
  }

  /** The comment pattern for a file, chosen by its extension. */
  function GetCommentPattern(filePath: string): (p: CommentPattern)
    ensures p == JavaScript <==> FileExtension(filePath) !in ["py", "rb", "php"]
  {
    PatternForExtension(FileExtension(filePath))
  }

  /** The extension of `stem.ext` is `ext` lower-cased, whatever the stem holds. */
  lemma ExtensionOfNamedFile(stem: string, ext: string)
    requires '.' !in ext
    ensures FileExtension(stem + "." + ext) == ToLower(ext)
  {
    AfterLastOfAppended(stem, '.', ext);
  }

  /** The table of the `switch`, read from a file name `stem.ext`: each
      pattern is chosen for exactly its extensions, in any letter case, and
      every other extension falls back to JavaScript. */
  lemma CommentPatternTable(stem: string, ext: string)
    requires '.' !in ext
    ensures GetCommentPattern(stem + "." + ext) == Python <==> ToLower(ext) == "py"
    ensures GetCommentPattern(stem + "." + ext) == Ruby <==> ToLower(ext) == "rb"
    ensures GetCommentPattern(stem + "." + ext) == Php <==> ToLower(ext) == "php"
    ensures GetCommentPattern(stem + "." + ext) == JavaScript <==> ToLower(ext) !in {"py", "rb", "php"}
  {
    ExtensionOfNamedFile(stem, ext);
  }

  /** The choice does not depend on letter case: `A.JS` and `a.js` agree. */
  lemma CommentPatternIgnoresCase(filePath: string)
    ensures GetCommentPattern(ToLower(filePath)) == GetCommentPattern(filePath)
  {
    AfterLastToLower(filePath, '.');
    ToLowerIdempotent(AfterLast(filePath, '.'));
  }

  /** A path with a directory part and no `.` at all falls back to JavaScript.
      (Without a `/` the whole path is taken as the extension, so a file
      named `py` is treated as Python.) */
  lemma CommentPatternWithoutDot(filePath: string)
    requires '.' !in filePath && '/' in filePath
    ensures GetCommentPattern(filePath) == JavaScript
  {
    AfterLastNoSeparator(filePath, '.');
    var i :| 0 <= i < |filePath| && filePath[i] == '/';
    assert FileExtension(filePath)[i] == '/';
  }

  // ---------------------------------------------------------------------------
  // Indentation and the comment test
  // ---------------------------------------------------------------------------

  /** The longest prefix of `line` made of whitespace (`line.match(/^(\s*)/)[1]`). */
  function GetIndentation(line: string): (indent: string)
    ensures StartsWith(line, indent)
    ensures AllSpace(indent)
    ensures |indent| < |line| ==> !IsSpace(line[|indent|])
  {
    if |line| > 0 && IsSpace(line[0]) then [line[0]] + GetIndentation(line[1..]) else ""
  }

  /** The three properties of GetIndentation single out its result. */
  lemma {:induction false} IndentationUnique(line: string, indent: string)
    requires StartsWith(line, indent)
    requires AllSpace(indent)
    requires |indent| < |line| ==> !IsSpace(line[|indent|])
    ensures indent == GetIndentation(line)
    decreases |line|
  {
    if |indent| > 0 {
      assert line[0] == indent[0];
      assert line[1..][..|indent| - 1] == indent[1..];
      IndentationUnique(line[1..], indent[1..]);
      assert indent == [line[0]] + indent[1..];
    }
  }

  /** Extra leading whitespace becomes part of the indentation. */
  lemma IndentationOfPrefixed(ws: string, line: string)
    requires AllSpace(ws)
    ensures GetIndentation(ws + line) == ws + GetIndentation(line)
  {
    var g := GetIndentation(line);
    assert (ws + line)[..|ws + g|] == ws + line[..|g|];
    IndentationUnique(ws + line, ws + g);
  }

  /** The indentation of an indentation is itself. */
  lemma IndentationIdempotent(line: string)
    ensures GetIndentation(GetIndentation(line)) == GetIndentation(line)
  {
    IndentationUnique(GetIndentation(line), GetIndentation(line));
  }

  /** Whether the line is a comment in the language of `filePath`: after its
      indentation it starts with one of the pattern's markers. */
  predicate IsCommentedLine(line: string, filePath: string)
    ensures IsCommentedLine(line, filePath) ==>
      var k := |GetIndentation(line)|;
      k < |line| && (line[k] == '/' || line[k] == '*' || line[k] == '#')
  {
    StartsWithMarker(GetCommentPattern(filePath), line[|GetIndentation(line)|..])
  }

  /** A whitespace prefix followed by a visible character is the indentation. */
  lemma IndentationBeforeVisible(line: string, k: nat)
    requires k < |line| && AllSpace(line[..k]) && !IsSpace(line[k])
    ensures |GetIndentation(line)| == k
  {
    IndentationUnique(line, line[..k]);
  }

  /** IsCommentedLine is exactly the regular-expression test of the pattern
      chosen for the file: the backtracking `\s*` can only succeed at the end
      of the indentation, because no marker begins with whitespace. */
  lemma IsCommentedLineMatchesPattern(line: string, filePath: string)
    ensures IsCommentedLine(line, filePath) <==> PatternMatches(GetCommentPattern(filePath), line)
  {
    var p := GetCommentPattern(filePath);
    var ind := GetIndentation(line);
    if IsCommentedLine(line, filePath) {
      assert line[..|ind|] == ind;
    }
    if PatternMatches(p, line) {
      var k :| 0 <= k <= |line| && AllSpace(line[..k]) && StartsWithMarker(p, line[k..]);
      assert line[k..][0] == line[k];
      IndentationBeforeVisible(line, k);
    }
  }

  /** Indenting a line further never changes whether it is a comment. */
  lemma CommentedLineIgnoresIndent(ws: string, line: string, filePath: string)
    requires AllSpace(ws)
    ensures IsCommentedLine(ws + line, filePath) <==> IsCommentedLine(line, filePath)
  {
    IndentationOfPrefixed(ws, line);
    var ind := GetIndentation(line);
    assert (ws + line)[|ws + ind|..] == line[|ind|..];
  }

  // ---------------------------------------------------------------------------
  // The debug statement
  // ---------------------------------------------------------------------------

  /** The quote character around the message. */
  function Quote(cfg: Config): (q: char)
    ensures q == '\'' <==> cfg.quoteStyle == "single"
    ensures q == '\'' || q == '"'
  {
    if cfg.quoteStyle == "single" then '\'' else '"'
  }

  /** The file name `filePath.split("/").pop()`. */
  function BaseName(filePath: string): (name: string)
    ensures '/' !in name
    ensures EndsWith(filePath, name)
    ensures |name| == |filePath| || filePath[|filePath| - |name| - 1] == '/'
  {
    AfterLastIsLastSegment(filePath, '/');
    AfterLast(filePath, '/')
  }

  /** The location part of the message: the file name when it is asked for,
      then `:<line>` after a non-empty file name, or `line:<line>` alone. */
  function FileInfo(cfg: Config, filePath: string, lineNumber: int): (info: string)
    ensures info == "" <==> !cfg.includeLineInfo && (!cfg.includeFileInfo || BaseName(filePath) == "")
  {
    var fileInfo := if cfg.includeFileInfo then BaseName(filePath) else "";
    if cfg.includeLineInfo then
      if fileInfo != "" then fileInfo + ":" + IntToDecimal(lineNumber)
      else "line:" + IntToDecimal(lineNumber)
    else fileInfo
  }

  /** With line info the location ends in `:<line>`; with file info it
      starts with the file name. */
  lemma FileInfoParts(cfg: Config, filePath: string, lineNumber: int)
    ensures cfg.includeLineInfo ==> EndsWith(FileInfo(cfg, filePath, lineNumber), ":" + IntToDecimal(lineNumber))
    ensures cfg.includeFileInfo ==> StartsWith(FileInfo(cfg, filePath, lineNumber), BaseName(filePath))
  {
    var base := BaseName(filePath);
    var n := IntToDecimal(lineNumber);
    var info := FileInfo(cfg, filePath, lineNumber);
    if cfg.includeLineInfo {
      if cfg.includeFileInfo && base != "" {
        assert info == base + (":" + n);
        EndsWithConcat(base, ":" + n);
        StartsWithConcat(base, ":" + n);
      } else {
        assert info == "line" + (":" + n);
        EndsWithConcat("line", ":" + n);
      }
    }
  }

  /** The file name of `dir/name` is `name`. */
  lemma BaseNameOfPath(dir: string, name: string)
    requires '/' !in name
    ensures BaseName(dir + "/" + name) == name
  {
    AfterLastOfAppended(dir, '/', name);
  }

  /** The location for a path `dir/name` with both kinds of information. */
  lemma FileInfoOfNamedFile(cfg: Config, dir: string, name: string, lineNumber: int)
    requires cfg.includeFileInfo && cfg.includeLineInfo
    requires '/' !in name
    ensures FileInfo(cfg, dir + "/" + name, lineNumber) ==
      if name == "" then "line:" + IntToDecimal(lineNumber) else name + ":" + IntToDecimal(lineNumber)
  {
    BaseNameOfPath(dir, name);
  }

  /** The location for every combination of the two settings, for any path:
      the file name alone, `<name>:<line>`, `line:<line>` when the file name
      is off or empty, or nothing. */
  lemma FileInfoCases(cfg: Config, filePath: string, lineNumber: int)
    ensures var n := IntToDecimal(lineNumber);
      var info := FileInfo(cfg, filePath, lineNumber);
      && (cfg.includeFileInfo && !cfg.includeLineInfo ==> info == BaseName(filePath))
      && (!cfg.includeFileInfo && cfg.includeLineInfo ==> info == "line:" + n)
      && (cfg.includeFileInfo && cfg.includeLineInfo ==>
            info == if BaseName(filePath) == "" then "line:" + n else BaseName(filePath) + ":" + n)
      && (!cfg.includeFileInfo && !cfg.includeLineInfo ==> info == "")
  {
  }

  /** The last step of the message: the prefix and suffix, when asked for, go around it. */
  function Wrapped(cfg: Config, logMessage: string): (r: string)
    ensures cfg.wrapLogMessage ==> StartsWith(r, cfg.logMessagePrefix) && EndsWith(r, cfg.logMessageSuffix)
    ensures cfg.wrapLogMessage ==> |r| == |cfg.logMessagePrefix| + |logMessage| + |cfg.logMessageSuffix|
    ensures cfg.wrapLogMessage ==> r[|cfg.logMessagePrefix|..|r| - |cfg.logMessageSuffix|] == logMessage
    ensures !cfg.wrapLogMessage ==> r == logMessage
  {
    if cfg.wrapLogMessage then cfg.logMessagePrefix + logMessage + cfg.logMessageSuffix else logMessage
  }

  /** The message between the quotes, built in the order of the source:
      `<name><delimiter> `, then the location, then the timestamp, then the
      prefix and suffix. `timestamp` stands for the clock reading
      `new Date().toISOString()`, used only when the settings ask for it. */
  function LogMessage(cfg: Config, variableName: string, filePath: string, lineNumber: int, timestamp: string): (msg: string)
    ensures cfg.wrapLogMessage ==> StartsWith(msg, cfg.logMessagePrefix) && EndsWith(msg, cfg.logMessageSuffix)
  {
    var logMessage := variableName + cfg.delimiterInsideMessage + " ";
    var fileInfo := FileInfo(cfg, filePath, lineNumber);
    var logMessage := if fileInfo != "" then fileInfo + " - " + logMessage else logMessage;
    var logMessage := if cfg.includeTimestamp then "[" + timestamp + "] " + logMessage else logMessage;
    Wrapped(cfg, logMessage)
  }

  /** The whole message in the fixed order of the source: the prefix, the
      timestamp, the location, the variable name and delimiter, the suffix;
      each part is empty when its setting is off. */
  lemma LogMessageLayout(cfg: Config, variableName: string, filePath: string, lineNumber: int, timestamp: string)
    ensures var info := FileInfo(cfg, filePath, lineNumber);
      var head := if cfg.wrapLogMessage then cfg.logMessagePrefix else "";
      var stamp := if cfg.includeTimestamp then "[" + timestamp + "] " else "";
      var location := if info != "" then info + " - " else "";
      var tail := if cfg.wrapLogMessage then cfg.logMessageSuffix else "";
      LogMessage(cfg, variableName, filePath, lineNumber, timestamp) ==
        head + stamp + location + (variableName + cfg.delimiterInsideMessage + " ") + tail
  {
    var info := FileInfo(cfg, filePath, lineNumber);
    var core := variableName + cfg.delimiterInsideMessage + " ";
    var located := if info != "" then info + " - " + core else core;
    var stamped := if cfg.includeTimestamp then "[" + timestamp + "] " + located else located;
    assert LogMessage(cfg, variableName, filePath, lineNumber, timestamp) == Wrapped(cfg, stamped);
    StepsInOrder(cfg, timestamp, info, core);
  }

  /** The three steps of the message body, flattened into one concatenation. */
  lemma StepsInOrder(cfg: Config, timestamp: string, info: string, core: string)
    ensures var head := if cfg.wrapLogMessage then cfg.logMessagePrefix else "";
      var stamp := if cfg.includeTimestamp then "[" + timestamp + "] " else "";
      var location := if info != "" then info + " - " else "";
      var tail := if cfg.wrapLogMessage then cfg.logMessageSuffix else "";
      var located := if info != "" then info + " - " + core else core;
      var stamped := if cfg.includeTimestamp then "[" + timestamp + "] " + located else located;
      Wrapped(cfg, stamped) == head + stamp + location + core + tail
  {
    var head := if cfg.wrapLogMessage then cfg.logMessagePrefix else "";
    var stamp := if cfg.includeTimestamp then "[" + timestamp + "] " else "";
    var location := if info != "" then info + " - " else "";
    var tail := if cfg.wrapLogMessage then cfg.logMessageSuffix else "";
    var located := if info != "" then info + " - " + core else core;
    LocationStep(info, core);
    var stamped := if cfg.includeTimestamp then "[" + timestamp + "] " + located else located;
    TimestampStep(cfg, timestamp, located);
    assert Wrapped(cfg, stamped) == head + stamped + tail by {
      if !cfg.wrapLogMessage { assert head + stamped + tail == stamped; }
    }
    Regroup(head, stamp, location, core, tail);
  }

  /** Concatenation regrouped. */
  lemma Regroup(a: string, b: string, c: string, d: string, e: string)
    ensures a + (b + (c + d)) + e == a + b + c + d + e
  {
  }

  /** The ends of a message made of five parts. */
  lemma FiveParts(a: string, b: string, c: string, d: string, e: string)
    ensures StartsWith(a + b + c + d + e, a + b)
    ensures StartsWith(a + b + c + d + e, a + b + c)
    ensures EndsWith(a + b + c + d + e, d + e)
  {
    assert a + b + c + d + e == (a + b) + (c + d + e);
    StartsWithConcat(a + b, c + d + e);
    assert a + b + c + d + e == (a + b + c) + (d + e);
    StartsWithConcat(a + b + c, d + e);
    EndsWithConcat(a + b + c, d + e);
  }

  /** The location step as a concatenation. */
  lemma LocationStep(info: string, core: string)
    ensures (if info != "" then info + " - " + core else core) == (if info != "" then info + " - " else "") + core
  {
    if info == "" { assert "" + core == core; }
  }

  /** The timestamp step as a concatenation. */
  lemma TimestampStep(cfg: Config, timestamp: string, located: string)
    ensures (if cfg.includeTimestamp then "[" + timestamp + "] " + located else located) ==
            (if cfg.includeTimestamp then "[" + timestamp + "] " else "") + located
  {
    if !cfg.includeTimestamp { assert "" + located == located; }
  }

  /** The message (inside the prefix and suffix, when they are used) ends
      with the variable name and the delimiter. */
  lemma LogMessageEndsWithName(cfg: Config, variableName: string, filePath: string, lineNumber: int, timestamp: string)
    ensures var tail := if cfg.wrapLogMessage then cfg.logMessageSuffix else "";
      EndsWith(LogMessage(cfg, variableName, filePath, lineNumber, timestamp),
               variableName + cfg.delimiterInsideMessage + " " + tail)
  {
    var info := FileInfo(cfg, filePath, lineNumber);
    var head := if cfg.wrapLogMessage then cfg.logMessagePrefix else "";
    var stamp := if cfg.includeTimestamp then "[" + timestamp + "] " else "";
    var location := if info != "" then info + " - " else "";
    var tail := if cfg.wrapLogMessage then cfg.logMessageSuffix else "";
    var core := variableName + cfg.delimiterInsideMessage + " ";
    LogMessageLayout(cfg, variableName, filePath, lineNumber, timestamp);
    FiveParts(head, stamp, location, core, tail);
  }

  /** The timestamp, when there is one, comes first (after the prefix). */
  lemma LogMessageStartsWithTimestamp(cfg: Config, variableName: string, filePath: string, lineNumber: int, timestamp: string)
    requires cfg.includeTimestamp
    ensures var head := if cfg.wrapLogMessage then cfg.logMessagePrefix else "";
      StartsWith(LogMessage(cfg, variableName, filePath, lineNumber, timestamp), head + "[" + timestamp + "] ")
  {
    var info := FileInfo(cfg, filePath, lineNumber);
    var head := if cfg.wrapLogMessage then cfg.logMessagePrefix else "";
    var stamp := "[" + timestamp + "] ";
    var location := if info != "" then info + " - " else "";
    var tail := if cfg.wrapLogMessage then cfg.logMessageSuffix else "";
    var core := variableName + cfg.delimiterInsideMessage + " ";
    LogMessageLayout(cfg, variableName, filePath, lineNumber, timestamp);
    FiveParts(head, stamp, location, core, tail);
    assert head + stamp == head + "[" + timestamp + "] ";
  }

  /** A non-empty location opens the message, after the prefix and the
      timestamp when they are used. */
  lemma LogMessageStartsWithLocation(cfg: Config, variableName: string, filePath: string, lineNumber: int, timestamp: string)
    requires FileInfo(cfg, filePath, lineNumber) != ""
    ensures var head := if cfg.wrapLogMessage then cfg.logMessagePrefix else "";
      var stamp := if cfg.includeTimestamp then "[" + timestamp + "] " else "";
      StartsWith(LogMessage(cfg, variableName, filePath, lineNumber, timestamp),
                 head + stamp + FileInfo(cfg, filePath, lineNumber) + " - ")
  {
    var info := FileInfo(cfg, filePath, lineNumber);
    var head := if cfg.wrapLogMessage then cfg.logMessagePrefix else "";
    var stamp := if cfg.includeTimestamp then "[" + timestamp + "] " else "";
    var tail := if cfg.wrapLogMessage then cfg.logMessageSuffix else "";
    var core := variableName + cfg.delimiterInsideMessage + " ";
    LogMessageLayout(cfg, variableName, filePath, lineNumber, timestamp);
    FiveParts(head, stamp, info + " - ", core, tail);
    assert head + stamp + (info + " - ") == head + stamp + info + " - ";
  }

  /** With no file name, line number, timestamp or wrapping, the message is
      just the variable name and the delimiter. */
  lemma PlainLogMessage(cfg: Config, variableName: string, filePath: string, lineNumber: int, timestamp: string)
    requires !cfg.includeFileInfo && !cfg.includeLineInfo && !cfg.includeTimestamp && !cfg.wrapLogMessage
    ensures LogMessage(cfg, variableName, filePath, lineNumber, timestamp) == variableName + cfg.delimiterInsideMessage + " "
  {
  }

  /** What the shipped settings select: single quotes, a location that is
      never empty, a message inside the rocket prefix and suffix, and no
      use of the clock. */
  lemma DefaultSettings(variableName: string, filePath: string, lineNumber: int, timestamp: string)
    ensures Quote(DefaultConfig) == '\''
    ensures FileInfo(DefaultConfig, filePath, lineNumber) != ""
    ensures var msg := LogMessage(DefaultConfig, variableName, filePath, lineNumber, timestamp);
      StartsWith(msg, "\U{1F680} ") && EndsWith(msg, " \U{1F680}")
    ensures LogMessage(DefaultConfig, variableName, filePath, lineNumber, timestamp) ==
            LogMessage(DefaultConfig, variableName, filePath, lineNumber, "")
  {
  }

  /** The debug statement: `<indent><logFunction>(<q><message><q>, <name>);`. */
  function CreateLogStatement(cfg: Config, variableName: string, filePath: string, lineNumber: int,
                              indentation: string, timestamp: string): (stmt: string)
    ensures StartsWith(stmt, indentation + cfg.logFunction + "(" + [Quote(cfg)])
    ensures EndsWith(stmt, [Quote(cfg)] + ", " + variableName + ");")
  {
    var quote := Quote(cfg);
    var head := indentation + cfg.logFunction + "(" + [quote];
    var msg := LogMessage(cfg, variableName, filePath, lineNumber, timestamp);
    var tail := [quote] + ", " + variableName + ");";
    head + msg + tail
  }

  /** The statement the default settings give for variable `v` on line `n`
      of a file `dir/name`: for `x`, line 10 of `/a/b/foo.js` and two spaces
      of indentation, `  console.log('🚀 foo.js:10 - x:  🚀', x);`. */
  lemma DefaultStatement(v: string, dir: string, name: string, n: int, indentation: string)
    requires '/' !in name && name != ""
    ensures CreateLogStatement(DefaultConfig, v, dir + "/" + name, n, indentation, "")
      == indentation + "console.log('\U{1F680} " + name + ":" + IntToDecimal(n) + " - " + v + ":  \U{1F680}', " + v + ");"
  {
    var cfg := DefaultConfig;
    var path := dir + "/" + name;
    var info := name + ":" + IntToDecimal(n);
    var msg := "\U{1F680} " + (info + " - " + (v + ":" + " ")) + " \U{1F680}";
    assert LogMessage(cfg, v, path, n, "") == msg by {
      FileInfoOfNamedFile(cfg, dir, name, n);
      WrappedLocatedMessage(cfg, v, path, n, info);
    }
    assert CreateLogStatement(cfg, v, path, n, indentation, "")
      == indentation + "console.log" + "(" + "'" + msg + "'" + ", " + v + ");" by {
      StatementAround(cfg, v, path, n, indentation, "", msg);
    }
    DefaultShapeText(indentation, name, IntToDecimal(n), v);
  }

  // Helpers for DefaultStatement: each unfolds one step on its own, so that
  // no single proof obligation has to unfold the whole statement.

  lemma DefaultShapeText(indentation: string, name: string, line: string, v: string)
    ensures var msg := "\U{1F680} " + (name + ":" + line + " - " + (v + ":" + " ")) + " \U{1F680}";
      indentation + "console.log" + "(" + "'" + msg + "'" + ", " + v + ");"
      == indentation + "console.log('\U{1F680} " + name + ":" + line + " - " + v + ":  \U{1F680}', " + v + ");"
  {
  }

  lemma WrappedLocatedMessage(cfg: Config, v: string, filePath: string, n: int, info: string)
    requires FileInfo(cfg, filePath, n) == info && info != ""
    requires cfg.wrapLogMessage && !cfg.includeTimestamp
    ensures LogMessage(cfg, v, filePath, n, "")
      == cfg.logMessagePrefix + (info + " - " + (v + cfg.delimiterInsideMessage + " ")) + cfg.logMessageSuffix
  {
  }

  lemma StatementAround(cfg: Config, v: string, filePath: string, n: int, indentation: string, timestamp: string, msg: string)
    requires LogMessage(cfg, v, filePath, n, timestamp) == msg
    ensures CreateLogStatement(cfg, v, filePath, n, indentation, timestamp)
      == indentation + cfg.logFunction + "(" + [Quote(cfg)] + msg + [Quote(cfg)] + ", " + v + ");"
  {
  }

  /** The statement is one line when nothing it is built from holds a line feed. */
  lemma StatementIsOneLine(cfg: Config, variableName: string, filePath: string, lineNumber: int,
                           indentation: string, timestamp: string)
    requires '\n' !in cfg.logMessagePrefix && '\n' !in cfg.logMessageSuffix
    requires '\n' !in cfg.logFunction && '\n' !in cfg.delimiterInsideMessage
    requires '\n' !in variableName && '\n' !in filePath
    requires '\n' !in indentation && '\n' !in timestamp
    ensures '\n' !in CreateLogStatement(cfg, variableName, filePath, lineNumber, indentation, timestamp)
  {
    var base := BaseName(filePath);
    AfterLastIsLastSegment(filePath, '/');
    if '\n' in base {
      InSuffix(filePath, base, '\n');
    }
    var info := FileInfo(cfg, filePath, lineNumber);
    assert '\n' !in info;
    var msg := LogMessage(cfg, variableName, filePath, lineNumber, timestamp);
    assert '\n' !in msg;
  }

  /** A statement whose log function starts with a visible character that is
      not a comment marker keeps the indentation it was given. */
  lemma StatementIndentation(cfg: Config, variableName: string, filePath: string, lineNumber: int,
                             indentation: string, timestamp: string)
    requires AllSpace(indentation)
    requires |cfg.logFunction| > 0 && !IsSpace(cfg.logFunction[0])
    ensures GetIndentation(CreateLogStatement(cfg, variableName, filePath, lineNumber, indentation, timestamp)) == indentation
  {
    var stmt := CreateLogStatement(cfg, variableName, filePath, lineNumber, indentation, timestamp);
    assert stmt[|indentation|] == cfg.logFunction[0];
    IndentationUnique(stmt, indentation);
  }

  /** Such a statement is never taken for a comment, in any language. */
  lemma StatementIsNotComment(cfg: Config, variableName: string, filePath: string, lineNumber: int,
                              indentation: string, timestamp: string, anyPath: string)
    requires AllSpace(indentation)
    requires |cfg.logFunction| > 0 && !IsSpace(cfg.logFunction[0])
    requires cfg.logFunction[0] != '/' && cfg.logFunction[0] != '*' && cfg.logFunction[0] != '#'
    ensures !IsCommentedLine(CreateLogStatement(cfg, variableName, filePath, lineNumber, indentation, timestamp), anyPath)
  {
    var stmt := CreateLogStatement(cfg, variableName, filePath, lineNumber, indentation, timestamp);
    StatementIndentation(cfg, variableName, filePath, lineNumber, indentation, timestamp);
    var rest := stmt[|indentation|..];
    assert rest[0] == cfg.logFunction[0];
  }

  /** The statement inserted below a line with the default settings takes the
      line's indentation and is not itself a comment. */
  lemma InsertedStatementBelowLine(line: string, variableName: string, filePath: string, lineNumber: int, anyPath: string)
    ensures var stmt := CreateLogStatement(DefaultConfig, variableName, filePath, lineNumber, GetIndentation(line), "");
      GetIndentation(stmt) == GetIndentation(line) && !IsCommentedLine(stmt, anyPath)
  {
    StatementIndentation(DefaultConfig, variableName, filePath, lineNumber, GetIndentation(line), "");
    StatementIsNotComment(DefaultConfig, variableName, filePath, lineNumber, GetIndentation(line), "", anyPath);
  }
}
