/**
 * The skip listener of the ingestion step: every line the file reader could
 * not parse is appended, as "{lineNumber}|{rawLine}", to a fixed log file.
 */
module SkipLog {
  import opened Wrappers
  import opened BillingRecords
  import opened Paths
  import opened Files
  import opened Decimal

  /** `System.lineSeparator()`, taken as the Unix one. */
  const LineSeparator: string := "\n"

  const WriteFailurePrefix: string := "Unable to write skipped item "

  /** What a read reports when it skips an item. */
  datatype Throwable =
    | FlatFileParseException(input: string, lineNumber: Int32)
    | OtherThrowable(message: string)

  /** The log line for a parse failure at `lineNumber` on `rawLine`. */
  function SkipLine(lineNumber: int, rawLine: string): string
  {
    IntString(lineNumber) + "|" + rawLine + LineSeparator
  }

  /** The log content after one skip event whose write succeeds. */
  function LogAfter(log: string, throwable: Throwable): string
  {
    match throwable
    case FlatFileParseException(input, lineNumber) => log + SkipLine(lineNumber, input)
    case OtherThrowable(_) => log
  }

  /** The log content after a series of skip events, in order, whose writes succeed. */
  function LogAfterAll(log: string, events: seq<Throwable>): string
    decreases |events|
  {
    if events == [] then log else LogAfterAll(LogAfter(log, events[0]), events[1..])
  }

  /** One decoded log line. */
  datatype SkipEntry = SkipEntry(lineNumber: int, rawLine: string)

  /** Reference list: one entry per parse failure among `events`, in order. */
  function ParseFailures(events: seq<Throwable>): seq<SkipEntry>
  {
    if events == [] then [] else FailureEntries(events[0]) + ParseFailures(events[1..])
  }

  /** The entry one event contributes: one for a parse failure, none otherwise. */
  function FailureEntries(event: Throwable): seq<SkipEntry>
  {
    match event
    case FlatFileParseException(input, lineNumber) => [SkipEntry(lineNumber, input)]
    case OtherThrowable(_) => []
  }

  /** Parse failures whose raw line is a single line, as a line-by-line reader yields. */
  predicate SingleLineInputs(events: seq<Throwable>)
  {
    forall i :: 0 <= i < |events| && events[i].FlatFileParseException? ==> Lacks(events[i].input, '\n')
  }

  /** Reads one log line, without its separator, as "{lineNumber}|{rawLine}". */
  function DecodeLine(line: string): Option<SkipEntry>
  {
    match IndexOf(line, '|')
    case None => None
    case Some(i) =>
      match ParseInt(line[..i])
      case None => None
      case Some(n) => Some(SkipEntry(n, line[i + 1..]))
  }

  /** A decoded line before decoded lines; `None` when either failed. */
  function Prepend(entry: Option<SkipEntry>, entries: Option<seq<SkipEntry>>): Option<seq<SkipEntry>>
  {
    if entry.Some? && entries.Some? then Some([entry.value] + entries.value) else None
  }

  /** Reads a whole log: separator-terminated lines, each decoded by DecodeLine. */
  function DecodeLog(log: string): Option<seq<SkipEntry>>
    decreases |log|
  {
    if log == "" then Some([])
    else
      match IndexOf(log, '\n')
      case None => None
      case Some(i) => Prepend(DecodeLine(log[..i]), DecodeLog(log[i + 1..]))
  }

  lemma IntStringHasNoDelimiters(n: int)
    ensures Lacks(IntString(n), '|') && Lacks(IntString(n), '\n')
  {
    var s := IntString(n);
    if n < 0 {
      assert forall i :: 1 <= i < |s| ==> s[i] == s[1..][i - 1];
    }
  }

  /** One skip line decodes to its line number and raw line. */
  lemma DecodeSkipLine(lineNumber: int, rawLine: string)
    requires Lacks(rawLine, '\n')
    ensures DecodeLine(IntString(lineNumber) + "|" + rawLine) == Some(SkipEntry(lineNumber, rawLine))
  {
    var digits := IntString(lineNumber);
    var line := digits + "|" + rawLine;
    IntStringHasNoDelimiters(lineNumber);
    IndexOfAfterPrefix(digits, '|', rawLine);
    assert line[..|digits|] == digits;
    assert line[|digits| + 1..] == rawLine;
    ParseIntString(lineNumber);
  }

  /** A log holding one skip line decodes to that line's entry. */
  lemma DecodeOneLine(lineNumber: int, rawLine: string)
    requires Lacks(rawLine, '\n')
    ensures DecodeLog(SkipLine(lineNumber, rawLine)) == Some([SkipEntry(lineNumber, rawLine)])
  {
    var line := SkipLine(lineNumber, rawLine);
    var body := IntString(lineNumber) + "|" + rawLine;
    IntStringHasNoDelimiters(lineNumber);
    assert Lacks(body, '\n');
    assert line == body + ['\n'] + "";
    IndexOfAfterPrefix(body, '\n', "");
    assert line[..|body|] == body;
    assert line[|body| + 1..] == "";
    DecodeSkipLine(lineNumber, rawLine);
    assert DecodeLog(line[|body| + 1..]) == Some([]);
    assert DecodeLog(line) == Prepend(DecodeLine(body), Some([]));
    assert [SkipEntry(lineNumber, rawLine)] + [] == [SkipEntry(lineNumber, rawLine)];
  }

  /** Text added after a log's first line does not move that line's end. */
  lemma DecodeFirstLineOfLonger(log: string, i: nat, tail: string)
    requires IndexOf(log, '\n') == Some(i)
    ensures DecodeLog(log + tail) == Prepend(DecodeLine(log[..i]), DecodeLog(log[i + 1..] + tail))
  {
    var s := log + tail;
    assert s == log[..i] + ['\n'] + (log[i + 1..] + tail);
    IndexOfAfterPrefix(log[..i], '\n', log[i + 1..] + tail);
    assert s[..i] == log[..i];
    assert s[i + 1..] == log[i + 1..] + tail;
  }

  /** A readable non-empty log is a readable first line followed by a readable rest. */
  lemma DecodeFirstLine(a: string, x: seq<SkipEntry>) returns (i: nat, first: SkipEntry, rest: seq<SkipEntry>)
    requires a != "" && DecodeLog(a) == Some(x)
    ensures IndexOf(a, '\n') == Some(i) && i < |a|
    ensures DecodeLine(a[..i]) == Some(first) && DecodeLog(a[i + 1..]) == Some(rest)
    ensures x == [first] + rest
  {
    i := IndexOf(a, '\n').value;
    first := DecodeLine(a[..i]).value;
    rest := DecodeLog(a[i + 1..]).value;
  }

  /** A readable first line before a readable rest reads as its entry before the rest's. */
  lemma DecodeAfterFirstLine(a: string, b: string, i: nat, first: SkipEntry, rest: seq<SkipEntry>)
    requires IndexOf(a, '\n') == Some(i)
    requires DecodeLine(a[..i]) == Some(first)
    requires DecodeLog(a[i + 1..] + b) == Some(rest)
    ensures DecodeLog(a + b) == Some([first] + rest)
  {
    DecodeFirstLineOfLonger(a, i, b);
  }

  /** Two readable logs, one after the other, read as their entries one after the other. */
  lemma {:induction false} DecodeConcat(a: string, b: string, x: seq<SkipEntry>, y: seq<SkipEntry>)
    requires DecodeLog(a) == Some(x) && DecodeLog(b) == Some(y)
    ensures DecodeLog(a + b) == Some(x + y)
    decreases |a|
  {
    if a == "" {
      assert a + b == b;
      assert x + y == y;
    } else {
      var i, first, rest := DecodeFirstLine(a, x);
      DecodeConcat(a[i + 1..], b, rest, y);
      DecodeAfterFirstLine(a, b, i, first, rest + y);
      SeqAppendAssoc([first], rest, y);
    }
  }

  /** Appending a skip line to a readable log adds exactly its entry at the end. */
  lemma DecodeAfterAppend(log: string, entries: seq<SkipEntry>, lineNumber: int, rawLine: string)
    requires DecodeLog(log) == Some(entries)
    requires Lacks(rawLine, '\n')
    ensures DecodeLog(log + SkipLine(lineNumber, rawLine)) == Some(entries + [SkipEntry(lineNumber, rawLine)])
  {
    DecodeOneLine(lineNumber, rawLine);
    DecodeConcat(log, SkipLine(lineNumber, rawLine), entries, [SkipEntry(lineNumber, rawLine)]);
  }

  /** One event adds the entries of its parse failure, if it is one, to a readable log. */
  lemma DecodeAfterOne(log: string, entries: seq<SkipEntry>, event: Throwable)
    requires DecodeLog(log) == Some(entries)
    requires event.FlatFileParseException? ==> Lacks(event.input, '\n')
    ensures DecodeLog(LogAfter(log, event)) == Some(entries + FailureEntries(event))
  {
    if event.FlatFileParseException? {
      var entry := SkipEntry(event.lineNumber, event.input);
      assert FailureEntries(event) == [entry];
      assert LogAfter(log, event) == log + SkipLine(event.lineNumber, event.input);
      DecodeAfterAppend(log, entries, event.lineNumber, event.input);
    } else {
      assert FailureEntries(event) == [];
      assert LogAfter(log, event) == log;
      assert entries + [] == entries;
    }
  }

  /**
   * n parse failures leave n more lines in the log, in event order, each
   * recovering its line number and raw line; other throwables leave no trace.
   */
  lemma {:induction false} DecodeAfterEvents(log: string, entries: seq<SkipEntry>, events: seq<Throwable>)
    requires DecodeLog(log) == Some(entries)
    requires SingleLineInputs(events)
    ensures DecodeLog(LogAfterAll(log, events)) == Some(entries + ParseFailures(events))
    decreases |events|
  {
    if events == [] {
      assert entries + ParseFailures(events) == entries;
    } else {
      var next := LogAfter(log, events[0]);
      var firsts := entries + FailureEntries(events[0]);
      assert SingleLineInputs(events[1..]) by {
        forall k | 0 <= k < |events[1..]| && events[1..][k].FlatFileParseException?
          ensures Lacks(events[1..][k].input, '\n')
        {
          assert events[1..][k] == events[k + 1];
        }
      }
      DecodeAfterOne(log, entries, events[0]);
      DecodeAfterEvents(next, firsts, events[1..]);
      calc {
        DecodeLog(LogAfterAll(log, events));
        DecodeLog(LogAfterAll(next, events[1..]));
        Some(firsts + ParseFailures(events[1..]));
        { SeqAppendAssoc(entries, FailureEntries(events[0]), ParseFailures(events[1..])); }
        Some(entries + ParseFailures(events));
      }
    }
  }

  /** Appending never rewrites: the earlier log is a prefix of the later one. */
  lemma {:induction false} LogOnlyGrows(log: string, events: seq<Throwable>)
    ensures |log| <= |LogAfterAll(log, events)|
    ensures LogAfterAll(log, events)[..|log|] == log
    decreases |events|
  {
    if events != [] {
      var next := LogAfter(log, events[0]);
      LogOnlyGrows(next, events[1..]);
      assert next[..|log|] == log;
      assert LogAfterAll(log, events)[..|log|] == LogAfterAll(log, events)[..|next|][..|log|];
    }
  }

  class BillingDataSkipListener {
    /** The log file, fixed when the listener is built. */
    const skippedItemsFile: Path

    constructor (skippedItemsFile: string)
      ensures this.skippedItemsFile == Get(skippedItemsFile)
    {
      this.skippedItemsFile := Get(skippedItemsFile);
    }

    /**
     * Appends the skip line of a parse failure to the log file, creating the
     * file when absent; any other throwable is ignored. A failed write is
     * turned into an error naming the line, and leaves the files as they were.
     */
    method OnSkipInRead(fs: FileSystem, throwable: Throwable, writeFails: bool) returns (r: Outcome<string>)
      modifies fs
      ensures r == if throwable.FlatFileParseException? && writeFails
                   then Fail(WriteFailurePrefix + SkipLine(throwable.lineNumber, throwable.input))
                   else Pass
      ensures fs.files == if throwable.FlatFileParseException? && !writeFails
                          then Appended(old(fs.files), skippedItemsFile, SkipLine(throwable.lineNumber, throwable.input))
                          else old(fs.files)
      ensures r.Pass? ==> ContentOf(fs.files, skippedItemsFile) == LogAfter(ContentOf(old(fs.files), skippedItemsFile), throwable)
    {
      r := Pass;
      if throwable.FlatFileParseException? {
        var rawLine := throwable.input;
        var lineNumber := throwable.lineNumber;
        var skippedLine := IntString(lineNumber) + "|" + rawLine + LineSeparator;
        var written := fs.AppendString(skippedItemsFile, skippedLine, writeFails);
        if written.Fail? {
          r := Fail(WriteFailurePrefix + skippedLine);
        }
      }
    }
  }
}
