# turbo-log text helpers, modelled in Dafny

turbo-log is an editor extension. It inserts a debug statement such as
`console.log('🚀 foo.js:10 - x:  🚀', x);` below the line that holds a
selected variable. It also has a command meant to delete such statements
again, but as written that command's pattern matches nothing (see Left
out), so only its blank-line pass changes the document. This project
models the pure text helpers in `turbo_log.js` and proves what they do:

- the settings record and its defaults (`TurboLog.Config`, `TurboLog.DefaultConfig`).
  The extension never changes this record, so every operation takes it as a
  parameter;
- `getCommentPattern`: the choice of a comment pattern from the lower-cased
  text after the last `.` of the file path;
- `isCommentedLine` and the `commentPatterns` table. Each regular expression
  `^\s*(markers)` becomes a predicate: the line's indentation, then one of the
  pattern's markers;
- `getIndentation`: the longest leading-whitespace prefix of a line;
- `createLogStatement`: the message `<name><delimiter> `, then the file name
  and line, then the optional timestamp, then the optional prefix/suffix
  wrap, then the quote, then `<indent><logFunction>(<q><message><q>, <name>);`.

`js_text.dfy` (module `JsText`) models the JavaScript built-ins these helpers
use:
- the `\s` class of regular expressions;
- `split` with a one-character separator, followed by `pop`;
- `toLowerCase` on ASCII letters;
- the decimal text of an integer in a template literal.

Each built-in comes with a partner:
- `Join` is the inverse of `Split`, proved in both directions;
- the segment after the last separator is also described without `Split`;
- `DecimalValue` reads decimal text back, and a round trip is proved.

`turbo_log.dfy` (module `TurboLog`) models the helpers themselves.

The code has no error results, and the model follows the code in this:
- `createLogStatement` does not reject an empty variable name or a line number below 1. Only its caller checks that the selection is non-empty (turbo_log.js:125).
- A `quoteStyle` other than `"single"` is not rejected: it yields `"`.

A path without any `.` is classified by the whole path, lower-cased. So a path
with a directory part and no `.` falls back to JavaScript
(`CommentPatternWithoutDot`). A bare file name `py`, however, is treated as
Python.

## Model

| member | source | states |
|---|---|---|
| JsText.IsSpace | turbo_log.js:48 | `\s` holds no printable ASCII character, and holds the space and the tab |
| JsText.Split | turbo_log.js:61 | `split` with a one-character separator always yields at least one piece, and no piece holds the separator |
| JsText.JoinSplit | turbo_log.js:61 | joining the pieces of a split with the separator gives back the original text |
| JsText.SplitJoin | turbo_log.js:61 | splitting the join of separator-free pieces gives back those pieces |
| JsText.AfterLast | turbo_log.js:61 | `split(sep).pop()` holds no separator |
| JsText.AfterLastIsLastSegment | turbo_log.js:61 | `split(sep).pop()` is a suffix of the text with no separator in it, and it is either the whole text or preceded by a separator |
| JsText.LastSegmentUnique | turbo_log.js:61 | any suffix with no separator that is the whole text or preceded by a separator is `split(sep).pop()` |
| JsText.AfterLastNoSeparator | turbo_log.js:27 | text without the separator is its own last segment |
| JsText.AfterLastOfAppended | turbo_log.js:27 | the last segment of `front + sep + tail` is `tail` when `tail` holds no separator, whatever `front` holds |
| JsText.ToLower | turbo_log.js:27 | lower-casing keeps the length, turns each `A`-`Z` into its `a`-`z` letter and keeps every other character, so no upper-case ASCII letter is left |
| JsText.ToLowerIdempotent | turbo_log.js:27 | lower-casing twice is lower-casing once |
| JsText.AfterLastToLower | turbo_log.js:27 | for a separator that is not a letter, lower-casing commutes with taking the last segment |
| JsText.NatToDecimal | turbo_log.js:66 | the decimal text of a natural number is non-empty, all digits, and starts with `0` only for zero |
| JsText.DecimalRoundTrip | turbo_log.js:66 | reading the decimal text of `n` back gives `n` |
| JsText.IntToDecimal | turbo_log.js:66 | the text of an integer is non-empty, has no line feed, and starts with `-` exactly when the number is negative |
| JsText.IntToDecimalInjective | turbo_log.js:66 | distinct line numbers print as distinct text |
| TurboLog.Markers | turbo_log.js:17-23 | every pattern has at least one marker, and every marker is non-empty and begins with `/`, `*` or `#` |
| TurboLog.StartsWithMarker | turbo_log.js:18-21 | text that starts with a marker of a pattern starts with `/`, `*` or `#`, never with whitespace |
| TurboLog.PhpMarkersAreUnion | turbo_log.js:18-21 | the PHP pattern accepts exactly what the JavaScript or the Python pattern accepts |
| TurboLog.FileExtension | turbo_log.js:27 | the extension holds no `.` and no upper-case ASCII letter |
| TurboLog.PatternForExtension | turbo_log.js:29-43 | the `switch` picks Python exactly for `py`, Ruby exactly for `rb`, PHP exactly for `php`, and JavaScript otherwise |
| TurboLog.GetCommentPattern | turbo_log.js:26-44 | the pattern is JavaScript exactly when the lower-cased extension is none of `py`, `rb` and `php` |
| TurboLog.ExtensionOfNamedFile | turbo_log.js:27 | the extension of `stem.ext` is `ext` lower-cased, whatever the stem holds |
| TurboLog.CommentPatternTable | turbo_log.js:29-43 | for `stem.ext`, Python is chosen exactly for `py`, Ruby exactly for `rb`, PHP exactly for `php` (any letter case), and JavaScript for every other extension |
| TurboLog.CommentPatternIgnoresCase | turbo_log.js:27 | the pattern of a lower-cased path equals the pattern of the path, so `A.JS` and `a.js` agree |
| TurboLog.CommentPatternWithoutDot | turbo_log.js:27-43 | a path with a `/` and no `.` falls back to JavaScript |
| TurboLog.GetIndentation | turbo_log.js:47-50 | the result is a prefix of the line made only of whitespace, and the character after it, if any, is not whitespace |
| TurboLog.IndentationUnique | turbo_log.js:47-50 | any prefix that has those three properties is the indentation |
| TurboLog.IndentationOfPrefixed | turbo_log.js:48 | prepending whitespace to a line prepends it to the indentation |
| TurboLog.IndentationIdempotent | turbo_log.js:48 | the indentation of an indentation is itself |
| TurboLog.IsCommentedLine | turbo_log.js:87-90 | a commented line has a visible character after its indentation, and that character is `/`, `*` or `#` |
| TurboLog.IsCommentedLineMatchesPattern | turbo_log.js:87-90 | the comment test holds exactly when the regular expression of the file's pattern matches: some whitespace prefix followed by a marker |
| TurboLog.CommentedLineIgnoresIndent | turbo_log.js:18-21 | prepending whitespace to a line never changes whether it is a comment |
| TurboLog.Quote | turbo_log.js:54 | the quote is `'` exactly when `quoteStyle` is `"single"`, and `"` for every other value |
| TurboLog.BaseName | turbo_log.js:61 | the file name holds no `/`, ends the path, and is either the whole path or preceded by a `/` |
| TurboLog.FileInfo | turbo_log.js:59-69 | the location is empty, and so left out of the message, exactly when line info is off and the file name is off or empty |
| TurboLog.FileInfoParts | turbo_log.js:59-67 | with line info the location ends in `:<line>`; with file info it starts with the file name |
| TurboLog.BaseNameOfPath | turbo_log.js:61 | the file name of `dir/name` is `name` |
| TurboLog.FileInfoCases | turbo_log.js:59-67 | for any path: file info alone gives the file name; line info alone gives `line:<line>`; both give `<name>:<line>`, or `line:<line>` when the file name is empty; neither gives nothing |
| TurboLog.FileInfoOfNamedFile | turbo_log.js:60-67 | with both kinds of info, the location of `dir/name` is `name:<line>`, or `line:<line>` when the name is empty (a path ending in `/`) |
| TurboLog.Wrapped | turbo_log.js:79-81 | with the setting on, the result is the message between the prefix and the suffix; otherwise it is the message |
| TurboLog.LogMessage | turbo_log.js:78-81 | when wrapping is on, the message starts with the prefix and ends with the suffix |
| TurboLog.LogMessageEndsWithName | turbo_log.js:56-81 | the message ends with `<name><delimiter> `, followed by the suffix when wrapping is on |
| TurboLog.LogMessageStartsWithTimestamp | turbo_log.js:74-81 | with a timestamp, the message starts with `[<timestamp>] `, after the prefix when wrapping is on |
| TurboLog.LogMessageLayout | turbo_log.js:56-81 | the message is prefix, timestamp, location, `<name><delimiter> `, suffix, in that order, each part present exactly when its setting is on (the location when it is non-empty) |
| TurboLog.LogMessageStartsWithLocation | turbo_log.js:69-81 | a non-empty location appears as `<location> - ` right after the prefix and the timestamp, when those are used |
| TurboLog.PlainLogMessage | turbo_log.js:56-81 | with file info, line info, timestamp and wrapping all off, the message is exactly `<name><delimiter> ` |
| TurboLog.DefaultSettings | turbo_log.js:4-14 | the shipped settings give single quotes, a location that is never empty, a message between the rocket prefix and suffix, and no use of the clock |
| TurboLog.CreateLogStatement | turbo_log.js:83 | the statement starts with `<indent><logFunction>(<q>` and ends with `<q>, <name>);`, with the same quote on both sides |
| TurboLog.DefaultStatement | turbo_log.js:4-14 | with the default settings, variable `v` on line `n` of `dir/name` gives `<indent>console.log('🚀 name:n - v:  🚀', v);` |
| TurboLog.StatementIsOneLine | turbo_log.js:53-84 | the statement holds no line feed when none of the settings, the name, the path, the indentation or the timestamp does |
| TurboLog.StatementIndentation | turbo_log.js:83 | given whitespace indentation and a log function that starts with a visible character, the statement's own indentation is the one it was given |
| TurboLog.StatementIsNotComment | turbo_log.js:83 | such a statement, with a log function that does not start with `/`, `*` or `#`, is not a comment line in any language |
| TurboLog.InsertedStatementBelowLine | turbo_log.js:105-131 | the default statement built with a line's indentation has that indentation and is not a comment line |

## Left out

- Editor plumbing: `insertTurboLog`, `deleteTurboLogs`, the active editor, selection and word lookup, `editor.edit`, notifications and command registration (turbo_log.js:1, 93-140, 143-190). They go through the editor's asynchronous host API, which is not part of this model. `InsertedStatementBelowLine` states only what the insertion path computes from the text.
- The statement-removal regular expression (turbo_log.js:154-160). It is built from unescaped prefix and suffix text. As written, `\$$(` in the template literal puts `$$(` into the pattern, which anchors at the end of input and cannot match a statement as intended. The model has no removal operation, because the code does not implement a working one.
- The blank-line cleanup loop (turbo_log.js:172-180). It deletes lines through the editor on a live document.
- The timestamp clock: `new Date().toISOString()` (turbo_log.js:75) is the `timestamp` parameter of `LogMessage` and `CreateLogStatement`. Nothing is assumed about its format.
- JsText.ToLower: maps only `A`-`Z`. JavaScript lower-cases all of Unicode. The only non-ASCII letter that lower-cases to plain ASCII is the Kelvin sign (to `k`), and no recognised extension holds a `k`. So the comment-pattern choice is unaffected.
- JsText.IntToDecimal: prints every integer in plain decimal. JavaScript switches to exponential notation from 10^21 up and prints fractions, and neither can come from an editor line number. The line number is modelled as an `int`.
- Strings are sequences of Unicode scalar values, while JavaScript counts UTF-16 code units. No modelled operation indexes into text by position. The separators `/` and `.` and all whitespace characters are single code units. So the results are the same.
