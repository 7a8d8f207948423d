/**
 * The file tools: reading the lines of a file (all of them or a range) and writing or
 * appending text. The file system is a map from path to the text stored there; a missing
 * file or a start line past the end is reported in the returned string, not raised.
 */
module FileOperations {
  import opened Wrappers
  import opened Text

  /** Text-mode reading: "\r\n" and a lone "\r" both come back as "\n". */
  function Translate(s: string): (r: string)
    ensures '\r' !in r
    ensures |r| <= |s|
  {
    if s == [] then []
    else if s[0] == '\r' then
      if |s| >= 2 && s[1] == '\n' then "\n" + Translate(s[2..]) else "\n" + Translate(s[1..])
    else [s[0]] + Translate(s[1..])
  }

  /** Text without a carriage return reads back unchanged. */
  lemma {:induction false} TranslatePlain(s: string)
    requires '\r' !in s
    ensures Translate(s) == s
  {
    if s != [] {
      assert s == [s[0]] + s[1..];
      TranslatePlain(s[1..]);
    }
  }

  /** One line as `readlines` yields it: not empty, and a newline can only be its last character. */
  predicate IsLine(l: string) {
    l != [] && '\n' !in l[..|l| - 1]
  }

  /** A line ended by a newline. */
  predicate EndsLine(l: string) {
    l != [] && l[|l| - 1] == '\n'
  }

  /**
   * `readlines()`: the text cut after every newline. Every element is a line, every line but
   * the last ends with a newline, and the lines put back together give the text.
   */
  function ReadLines(text: string): (lines: seq<string>)
    ensures Concat(lines) == text
    ensures forall k :: 0 <= k < |lines| ==> IsLine(lines[k])
    ensures forall k :: 0 <= k < |lines| - 1 ==> EndsLine(lines[k])
    decreases |text|
  {
    if text == [] then []
    else
      match IndexOfChar(text, '\n')
      case None =>
        ConcatSingle(text);
        [text]
      case Some(i) =>
        var line := text[..i + 1];
        var rest := ReadLines(text[i + 1..]);
        ConcatCons(line, rest);
        assert line + text[i + 1..] == text;
        assert line[..i] == text[..i];
        LinesCons(line, rest);
        [line] + rest
  }

  lemma LinesCons(line: string, rest: seq<string>)
    requires IsLine(line) && EndsLine(line)
    requires forall k :: 0 <= k < |rest| ==> IsLine(rest[k])
    requires forall k :: 0 <= k < |rest| - 1 ==> EndsLine(rest[k])
    ensures var lines := [line] + rest;
            (forall k :: 0 <= k < |lines| ==> IsLine(lines[k])) &&
            (forall k :: 0 <= k < |lines| - 1 ==> EndsLine(lines[k]))
  {
    var lines := [line] + rest;
    forall k | 0 <= k < |lines| ensures IsLine(lines[k]) {
      if k > 0 { assert lines[k] == rest[k - 1]; }
    }
    forall k | 0 <= k < |lines| - 1 ensures EndsLine(lines[k]) {
      if k > 0 { assert lines[k] == rest[k - 1]; }
    }
  }

  /** The lines of an empty file: none. */
  lemma ReadLinesEmpty()
    ensures ReadLines("") == []
  {
  }

  /** Python's normalisation of a slice bound against a length `n`: negative bounds count from the end. */
  function SliceBound(i: int, n: nat): (b: nat)
    ensures b <= n
    ensures 0 <= i <= n ==> b == i
    ensures -(n as int) <= i < 0 ==> b == n + i
  {
    if i < 0 then (if n + i < 0 then 0 else n + i) else if i > n then n else i
  }

  /** `xs[start:stop]`. */
  function PySlice<T>(xs: seq<T>, start: int, stop: int): seq<T>
  {
    var a := SliceBound(start, |xs|);
    var b := SliceBound(stop, |xs|);
    if a <= b then xs[a..b] else []
  }

  /** `xs[start:]`. */
  function PySliceFrom<T>(xs: seq<T>, start: int): seq<T>
  {
    xs[SliceBound(start, |xs|)..]
  }

  function NotFound(path: string): string {
    "Error: File not found: " + path
  }

  function OutOfRange(startLine: int, count: nat): string {
    "Error: Start line " + IntToString(startLine) + " is out of range (file has " + NatToString(count) + " lines)"
  }

  /** The lines of the file at `path` as text mode reads them. */
  function LinesOf(files: map<string, string>, path: string): seq<string>
    requires path in files
  {
    ReadLines(Translate(files[path]))
  }

  /** The lines the read tool selects: `lines[startLine:]`, or `lines[startLine:startLine + numLines]`. */
  function Selection(lines: seq<string>, startLine: int, numLines: Option<int>): seq<string>
  {
    if numLines.None? then PySliceFrom(lines, startLine)
    else PySlice(lines, startLine, startLine + numLines.value)
  }

  /** Where a selection from an existing line `startLine` ends. */
  function SelectionEnd(n: nat, startLine: nat, numLines: Option<int>): (e: nat)
    requires startLine <= n
    ensures startLine <= e <= n
    ensures numLines.None? ==> e == n
    ensures numLines.Some? && 0 <= numLines.value && startLine + numLines.value <= n ==> e == startLine + numLines.value
    ensures numLines.Some? && 0 <= numLines.value && startLine + numLines.value > n ==> e == n
  {
    if numLines.None? then n
    else
      var b := SliceBound(startLine + numLines.value, n);
      if startLine <= b then b else startLine
  }

  /** From an existing line, the selection is a contiguous run of lines starting there. */
  lemma SelectionRun(lines: seq<string>, startLine: nat, numLines: Option<int>)
    requires startLine < |lines|
    ensures Selection(lines, startLine, numLines) == lines[startLine..SelectionEnd(|lines|, startLine, numLines)]
  {
  }

  /**
   * The read tool: lines `startLine` onwards (Python slice semantics, so a negative start
   * counts from the end), at most `numLines` of them when given, joined back into one string.
   */
  function Read(files: map<string, string>, path: string, startLine: int, numLines: Option<int>): (r: string)
    ensures path !in files ==> r == NotFound(path)
    ensures path in files && startLine >= |LinesOf(files, path)| ==> r == OutOfRange(startLine, |LinesOf(files, path)|)
    ensures path in files && 0 <= startLine < |LinesOf(files, path)| ==>
              r == Concat(LinesOf(files, path)[startLine..SelectionEnd(|LinesOf(files, path)|, startLine, numLines)])
  {
    if path !in files then NotFound(path)
    else
      var lines := LinesOf(files, path);
      if startLine >= |lines| then OutOfRange(startLine, |lines|)
      else if startLine >= 0 then
        SelectionRun(lines, startLine, numLines);
        Concat(Selection(lines, startLine, numLines))
      else Concat(Selection(lines, startLine, numLines))
  }

  /** A read from a line that exists is a prefix of the file's text from the start of that line. */
  lemma ReadFromLine(files: map<string, string>, path: string, startLine: nat, numLines: Option<int>)
    requires path in files && startLine < |LinesOf(files, path)|
    ensures var lines := LinesOf(files, path);
            |Concat(lines[..startLine])| <= |Translate(files[path])| &&
            Read(files, path, startLine, numLines) <= Translate(files[path])[|Concat(lines[..startLine])|..]
  {
    var lines := LinesOf(files, path);
    var e := SelectionEnd(|lines|, startLine, numLines);
    SelectionRun(lines, startLine, numLines);
    assert lines == lines[..startLine] + lines[startLine..e] + lines[e..];
    ConcatAppend(lines[..startLine] + lines[startLine..e], lines[e..]);
    ConcatAppend(lines[..startLine], lines[startLine..e]);
  }

  /** Reading a non-empty file from line 0 with no count gives back its whole text. */
  lemma ReadWhole(files: map<string, string>, path: string)
    requires path in files && Translate(files[path]) != []
    ensures Read(files, path, 0, None) == Translate(files[path])
  {
    var lines := LinesOf(files, path);
    assert lines != [];
    assert lines[0..] == lines;
  }

  /** An empty file has no line 0: every non-negative start is out of range. */
  lemma ReadEmptyFile(files: map<string, string>, path: string, startLine: int, numLines: Option<int>)
    requires path in files && files[path] == []
    requires startLine >= 0
    ensures Read(files, path, startLine, numLines) == OutOfRange(startLine, 0)
  {
    assert LinesOf(files, path) == [];
  }

  /** Adjacent selections of lines put together give the selection spanning both. */
  lemma SelectionsJoin(lines: seq<string>, startLine: nat, n1: nat, n2: nat)
    requires startLine + n1 < |lines|
    ensures Concat(Selection(lines, startLine, Some(n1))) + Concat(Selection(lines, startLine + n1, Some(n2)))
            == Concat(Selection(lines, startLine, Some(n1 + n2)))
  {
    var e := SelectionEnd(|lines|, startLine, Some(n1 + n2));
    var first, second := Selection(lines, startLine, Some(n1)), Selection(lines, startLine + n1, Some(n2));
    var both := Selection(lines, startLine, Some(n1 + n2));
    SelectionRun(lines, startLine, Some(n1));
    SelectionRun(lines, startLine + n1, Some(n2));
    SelectionRun(lines, startLine, Some(n1 + n2));
    assert first == lines[startLine..startLine + n1];
    assert second == lines[startLine + n1..e];
    assert both == lines[startLine..e];
    SliceSplit(lines, startLine, startLine + n1, e);
    assert both == first + second;
    ConcatAppend(first, second);
  }

  /** Two adjacent ranges of lines read one after the other give the range that spans both. */
  lemma ReadRangesJoin(files: map<string, string>, path: string, startLine: nat, n1: nat, n2: nat)
    requires path in files && startLine + n1 < |LinesOf(files, path)|
    ensures Read(files, path, startLine, Some(n1)) + Read(files, path, startLine + n1, Some(n2))
            == Read(files, path, startLine, Some(n1 + n2))
  {
    SelectionsJoin(LinesOf(files, path), startLine, n1, n2);
  }

  /** A bounded read is a prefix of the unbounded read from the same line. */
  lemma ReadRangeIsPrefix(files: map<string, string>, path: string, startLine: nat, n: nat)
    requires path in files && startLine < |LinesOf(files, path)|
    ensures Read(files, path, startLine, Some(n)) <= Read(files, path, startLine, None)
  {
    var lines := LinesOf(files, path);
    var e := SelectionEnd(|lines|, startLine, Some(n));
    SelectionRun(lines, startLine, Some(n));
    SelectionRun(lines, startLine, None);
    assert lines[startLine..] == lines[startLine..e] + lines[e..];
    ConcatAppend(lines[startLine..e], lines[e..]);
  }

  /** A negative start `-k` reads the last `k` lines. */
  lemma ReadLastLines(files: map<string, string>, path: string, k: nat)
    requires path in files && 1 <= k <= |LinesOf(files, path)|
    ensures var lines := LinesOf(files, path);
            Read(files, path, -(k as int), None) == Concat(lines[|lines| - k..])
  {
  }

  function WriteMessage(path: string): string {
    "Successfully wrote to " + path
  }

  /**
   * The file map after the write tool: `path` holds `content`, or its old text followed by
   * `content` when appending to an existing file; no other file changes.
   */
  function Written(files: map<string, string>, path: string, content: string, append: bool): (r: map<string, string>)
    ensures r.Keys == files.Keys + {path}
    ensures forall p :: p in files && p != path ==> r[p] == files[p]
    ensures append && path in files ==> r[path] == files[path] + content
    ensures !(append && path in files) ==> r[path] == content
  {
    files[path := if append && path in files then files[path] + content else content]
  }

  /** What opening the empty path for writing reports (POSIX). */
  const EmptyPathError := "Error writing to file: [Errno 2] No such file or directory: ''"

  /**
   * The write tool's report and the files afterwards: the empty path cannot be opened and
   * changes nothing; any other path is written as `Written` says.
   */
  function WriteOutcome(files: map<string, string>, path: string, content: string, append: bool): (o: (string, map<string, string>))
    ensures path == [] ==> o == (EmptyPathError, files)
    ensures path != [] ==> o.0 == WriteMessage(path) && o.1 == Written(files, path, content, append)
  {
    if path == [] then (EmptyPathError, files) else (WriteMessage(path), Written(files, path, content, append))
  }

  /** The files the tools work on. */
  class FileStore {
    var files: map<string, string>

    constructor (files: map<string, string>)
      ensures this.files == files
    {
      this.files := files;
    }

    /** The write tool: opens `path` for writing (or appending) and reports what happened. */
    method Write(path: string, content: string, append: bool := false) returns (r: string)
      modifies this
      ensures (r, files) == WriteOutcome(old(files), path, content, append)
    {
      if path == [] {
        r := EmptyPathError;
      } else {
        var text := if append && path in files then files[path] + content else content;
        files := files[path := text];
        r := WriteMessage(path);
      }
    }
  }

  /** Overwriting a file with non-empty text free of carriage returns and reading it back gives that text. */
  lemma ReadAfterWrite(files: map<string, string>, path: string, content: string)
    requires content != [] && '\r' !in content
    ensures Read(Written(files, path, content, false), path, 0, None) == content
  {
    TranslatePlain(content);
    ReadWhole(Written(files, path, content, false), path);
  }

  /** Appending to an existing file and reading it back gives the old text followed by the new. */
  lemma ReadAfterAppend(files: map<string, string>, path: string, content: string)
    requires path in files
    requires files[path] + content != [] && '\r' !in files[path] + content
    ensures Read(Written(files, path, content, true), path, 0, None) == files[path] + content
  {
    TranslatePlain(files[path] + content);
    ReadWhole(Written(files, path, content, true), path);
  }
}
