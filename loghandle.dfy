/**
 * logkit's handlers: the console handler, which prints a coloured line, and
 * the file handler, which appends the line to `logkit.log` under the store
 * path. Printing and writing are not performed here: each handler returns
 * the `Effect` it would have, and the file system is the `Disk` it is given.
 */
module LogHandle {
  import opened LogLevel
  import Strconv
  import GoStrings
  import StrKit

  const TEXT_NONE: int := 0
  const TEXT_WHITE: int := 37
  const TEXT_YELLOW: int := 33
  const TEXT_RED: int := 31

  const ESC: char := 27 as char
  const LOG_FILE_NAME: string := "logkit.log"

  /** A handler of the chain: the two built in, or one supplied by the user under its own name. */
  datatype Handler = Console | File | Custom(name: string)

  /**
   * The key a handler is registered under. The two built-in handlers answer
   * to their fixed names and tell each other apart by them; a user handler
   * answers to its own name.
   */
  function Name(h: Handler): (r: string)
    ensures !h.Custom? ==> (r == "console" <==> h.Console?) && (r == "file" <==> h.File?)
    ensures h.Custom? ==> r == h.name
  {
    match h
    case Console => "console"
    case File => "file"
    case Custom(n) => n
  }

  /** What the file system says about a store path: whether it exists, and why opening the log file there fails. */
  datatype Disk = Disk(existing: set<string>, openErrors: map<string, string>)

  /** What handling a record does. */
  datatype Effect =
    | Stdout(text: string)                               // printed by consoleOut
    | AppendFile(dir: string, name: string, text: string) // appended to file `name` under `dir`
    | Delivered(handler: string, rec: Record)            // passed to a user handler's own code

  /** The colour of the console handler: red for ERROR, yellow for WARN, none otherwise. */
  function ColorOf(level: int): (c: int)
    ensures c == TEXT_RED <==> level == ERROR
    ensures c == TEXT_YELLOW <==> level == WARN
    ensures c == TEXT_NONE <==> level != ERROR && level != WARN
  {
    if level == ERROR then TEXT_RED
    else if level == WARN then TEXT_YELLOW
    else TEXT_NONE
  }

  /** consoleOut: the message between the colour escape and the reset escape, then a newline. */
  function ConsoleText(color: int, msg: string): string {
    [ESC] + "[" + Strconv.Itoa(color) + "m" + msg + [ESC] + "[0m\n"
  }

  /** The console text opens with the escape and `[`, closes with the reset sequence and a newline, and adds 8 characters. */
  lemma ConsoleTextShape(color: int, msg: string)
    ensures var r := ConsoleText(color, msg);
      |r| == |Strconv.Itoa(color)| + |msg| + 8 && r[..2] == [ESC, '['] && r[|r| - 5..] == [ESC] + "[0m\n"
  {
  }

  /** The decimal text of a number holds no `m`, so the first `m` after the escape ends it. */
  lemma MarkerAfterNumber(color: int, rest: string)
    ensures GoStrings.Index(Strconv.Itoa(color) + "m" + rest, "m") == |Strconv.Itoa(color)|
  {
    var a := Strconv.Itoa(color);
    assert !Strconv.IsDigit('m');
    assert 'm' !in a;
    GoStrings.FirstAtEndChar(a, 'm');
    GoStrings.IndexAfter(a, "m", rest);
  }

  /** The colour and the message can be read back from the printed text. */
  lemma ConsoleTextInjective(c1: int, m1: string, c2: int, m2: string)
    requires ConsoleText(c1, m1) == ConsoleText(c2, m2)
    ensures c1 == c2 && m1 == m2
  {
    var a1, a2 := Strconv.Itoa(c1), Strconv.Itoa(c2);
    var tail := [ESC] + "[0m\n";
    var r1, r2 := m1 + tail, m2 + tail;
    var t := ConsoleText(c1, m1)[2..];
    assert t == a1 + "m" + r1 by {
      assert ConsoleText(c1, m1) == [ESC] + "[" + (a1 + "m" + r1);
    }
    assert t == a2 + "m" + r2 by {
      assert ConsoleText(c2, m2) == [ESC] + "[" + (a2 + "m" + r2);
    }
    MarkerAfterNumber(c1, r1);
    MarkerAfterNumber(c2, r2);
    assert a1 == a2 by {
      assert a1 == t[..|a1|];
      assert a2 == t[..|a2|];
    }
    Strconv.ItoaInjective(c1, c2);
    assert r1 == r2 by {
      assert r1 == t[|a1| + 1..];
      assert r2 == t[|a2| + 1..];
    }
    assert m1 == r1[..|m1|];
    assert m2 == r2[..|m2|];
  }

  /** One stack frame as formatLog writes it. */
  function FrameText(f: Frame): string {
    "   " + f.file + ":" + Strconv.Itoa(f.line)
  }

  /** The frame lines, each after a newline, in the order given. */
  function StackText(frames: seq<Frame>): string {
    if |frames| == 0 then ""
    else StackText(frames[..|frames| - 1]) + "\n" + FrameText(frames[|frames| - 1])
  }

  function FrameTexts(frames: seq<Frame>): (r: seq<string>)
    ensures |r| == |frames| && forall i :: 0 <= i < |frames| ==> r[i] == FrameText(frames[i])
  {
    seq(|frames|, i requires 0 <= i < |frames| => FrameText(frames[i]))
  }

  /** The prefix and a space when the prefix is not blank; nothing otherwise. */
  function PrefixText(prefix: string): string {
    if StrKit.IsNotBlank(prefix) then prefix + " " else ""
  }

  /** The first line of a log entry after the prefix: level, time, caller and message. */
  function HeadBody(rec: Record): string {
    ("[" + LevelStr(rec.level) + "]") + " " + rec.time + " " + rec.file
    + (":" + Strconv.Itoa(rec.line)) + " : " + rec.message
  }

  /** The first line of a log entry. */
  function HeadText(rec: Record, prefix: string): string {
    PrefixText(prefix) + HeadBody(rec)
  }

  /** The text formatLog returns: the head line, and for ERROR the stack frames after it. */
  function LogLine(rec: Record, prefix: string, stack: seq<Frame>): string {
    HeadText(rec, prefix) + (if rec.level == ERROR then StackText(stack) else "")
  }

  /** formatLog, writing piece by piece into a builder as the source does. */
  method FormatLog(rec: Record, prefix: string, stack: seq<Frame>) returns (line: string)
    ensures line == LogLine(rec, prefix, stack)
  {
    var mb := "";
    if StrKit.IsNotBlank(prefix) {
      mb := mb + prefix;
      mb := mb + " ";
    }
    assert mb == PrefixText(prefix);
    mb := mb + ("[" + LevelStr(rec.level) + "]");
    mb := mb + " ";
    mb := mb + rec.time;
    mb := mb + " ";
    mb := mb + rec.file;
    mb := mb + (":" + Strconv.Itoa(rec.line));
    mb := mb + " : ";
    mb := mb + rec.message;
    HeadTextWritten(rec, prefix);
    assert mb == HeadText(rec, prefix);
    if ERROR == rec.level {
      mb := AppendStack(mb, stack);
    }
    line := mb;
  }

  /** Appending the head's pieces one by one to the prefix text yields the head line. */
  lemma HeadTextWritten(rec: Record, prefix: string)
    ensures HeadText(rec, prefix) == PrefixText(prefix) + ("[" + LevelStr(rec.level) + "]") + " " + rec.time + " "
      + rec.file + (":" + Strconv.Itoa(rec.line)) + " : " + rec.message
  {
    var pre, level, line := PrefixText(prefix), "[" + LevelStr(rec.level) + "]", ":" + Strconv.Itoa(rec.line);
    var body := level + " " + rec.time + " " + rec.file + line + " : " + rec.message;
    assert body == HeadBody(rec);
    assert pre + body == pre + level + " " + rec.time + " " + rec.file + line + " : " + rec.message;
  }

  /** formatLog's loop over the stack frames: each frame is written after a newline. */
  method AppendStack(head: string, stack: seq<Frame>) returns (mb: string)
    ensures mb == head + StackText(stack)
  {
    mb := head;
    var i := 0;
    while i < |stack|
      invariant 0 <= i <= |stack|
      invariant mb == head + StackText(stack[..i])
    {
      StackTextStep(stack, i);
      GoStrings.AppendAssoc(head, StackText(stack[..i]), "\n");
      mb := mb + "\n";
      GoStrings.AppendAssoc(head, StackText(stack[..i]) + "\n", FrameText(stack[i]));
      mb := mb + ("   " + stack[i].file + ":" + Strconv.Itoa(stack[i].line));
      i := i + 1;
    }
    assert stack[..|stack|] == stack;
  }

  lemma StackTextStep(stack: seq<Frame>, i: nat)
    requires i < |stack|
    ensures StackText(stack[..i + 1]) == StackText(stack[..i]) + "\n" + FrameText(stack[i])
  {
    assert stack[..i + 1][..i] == stack[..i];
  }

  /**
   * The prefix: a line starts with the prefix and a space exactly when the
   * prefix is not blank, and with `[` otherwise; the rest of the line does
   * not depend on the prefix.
   */
  lemma LogLinePrefix(rec: Record, prefix: string, stack: seq<Frame>)
    ensures prefix + " " <= LogLine(rec, prefix, stack) <==> StrKit.IsNotBlank(prefix)
    ensures StrKit.IsBlank(prefix) ==> LogLine(rec, prefix, stack)[0] == '['
    ensures StrKit.IsNotBlank(prefix) ==> LogLine(rec, prefix, stack) == prefix + " " + LogLine(rec, "", stack)
    ensures StrKit.IsBlank(prefix) ==> LogLine(rec, prefix, stack) == LogLine(rec, "", stack)
  {
    var line := LogLine(rec, prefix, stack);
    var rest := HeadBody(rec) + (if rec.level == ERROR then StackText(stack) else "");
    assert PrefixText("") == "";
    assert LogLine(rec, "", stack) == rest by {
      GoStrings.AppendAssoc("", HeadBody(rec), if rec.level == ERROR then StackText(stack) else "");
    }
    assert rest[0] == '[';
    GoStrings.AppendAssoc(PrefixText(prefix), HeadBody(rec), if rec.level == ERROR then StackText(stack) else "");
    if StrKit.IsNotBlank(prefix) {
      assert line == prefix + " " + rest;
    } else {
      assert line == rest;
      assert (prefix + " ")[0] == ' ' by {
        if |prefix| > 0 {
          assert (prefix + " ")[0] == prefix[0];
        }
      }
    }
  }

  /** The head text, when none of its parts holds a newline, is a single line. */
  lemma HeadHasNoNewline(rec: Record, prefix: string)
    requires '\n' !in prefix && '\n' !in rec.time && '\n' !in rec.file && '\n' !in rec.message
    ensures '\n' !in HeadText(rec, prefix)
  {
    var n := Strconv.Itoa(rec.line);
    assert !Strconv.IsDigit('\n');
    assert '\n' !in n;
    assert '\n' !in LevelStr(rec.level);
  }

  lemma FrameTextOneLine(f: Frame)
    requires '\n' !in f.file
    ensures '\n' !in FrameText(f)
  {
    var n := Strconv.Itoa(f.line);
    assert !Strconv.IsDigit('\n');
    assert '\n' !in n;
  }

  lemma FrameTextsSnoc(frames: seq<Frame>)
    requires |frames| > 0
    ensures FrameTexts(frames) == FrameTexts(frames[..|frames| - 1]) + [FrameText(frames[|frames| - 1])]
  {
  }

  lemma {:induction false} StackLines(head: string, frames: seq<Frame>)
    requires '\n' !in head
    requires forall i :: 0 <= i < |frames| ==> '\n' !in frames[i].file
    ensures GoStrings.Split(head + StackText(frames), '\n') == [head] + FrameTexts(frames)
  {
    if |frames| == 0 {
      assert head + StackText(frames) == head;
      assert FrameTexts(frames) == [];
      GoStrings.SplitNoSep(head, '\n');
    } else {
      var init, last := frames[..|frames| - 1], frames[|frames| - 1];
      StackLines(head, init);
      FrameTextOneLine(last);
      GoStrings.SplitNoSep(FrameText(last), '\n');
      GoStrings.SplitConcat(head + StackText(init), FrameText(last), '\n');
      GoStrings.AppendAssoc(head, StackText(init) + "\n", FrameText(last));
      GoStrings.AppendAssoc(head, StackText(init), "\n");
      FrameTextsSnoc(frames);
    }
  }

  /**
   * The lines of a log entry: the head line alone, or for ERROR the head
   * line followed by one line per stack frame, in order.
   */
  lemma LogLineLines(rec: Record, prefix: string, stack: seq<Frame>)
    requires '\n' !in prefix && '\n' !in rec.time && '\n' !in rec.file && '\n' !in rec.message
    requires forall i :: 0 <= i < |stack| ==> '\n' !in stack[i].file
    ensures rec.level == ERROR ==>
              GoStrings.Split(LogLine(rec, prefix, stack), '\n') == [HeadText(rec, prefix)] + FrameTexts(stack)
    ensures rec.level != ERROR ==>
              GoStrings.Split(LogLine(rec, prefix, stack), '\n') == [HeadText(rec, prefix)]
  {
    HeadHasNoNewline(rec, prefix);
    if rec.level == ERROR {
      StackLines(HeadText(rec, prefix), stack);
    } else {
      assert LogLine(rec, prefix, stack) == HeadText(rec, prefix);
      GoStrings.SplitNoSep(HeadText(rec, prefix), '\n');
    }
  }

  /** What consoleHandler.Handle prints. */
  function ConsoleOutcome(rec: Record, prefix: string, stack: seq<Frame>): (e: Effect)
    ensures e.Stdout?
  {
    Stdout(ConsoleText(ColorOf(rec.level), LogLine(rec, prefix, stack)))
  }

  /** The warning the file handler prints when it cannot write. */
  function FileWarning(storePath: string, disk: Disk): (w: string)
    ensures StrKit.IsBlank(storePath) ==> w == "log store path is empty!"
    ensures StrKit.IsNotBlank(storePath) && storePath !in disk.existing ==>
              w == "log store path " + storePath + " is not exist!"
    ensures StrKit.IsNotBlank(storePath) && storePath in disk.existing && storePath in disk.openErrors ==>
              w == "open log store path " + storePath + " error :" + disk.openErrors[storePath]
  {
    if StrKit.IsBlank(storePath) then "log store path is empty!"
    else if storePath !in disk.existing then "log store path " + storePath + " is not exist!"
    else if storePath in disk.openErrors then "open log store path " + storePath + " error :" + disk.openErrors[storePath]
    else ""
  }

  /** What fileHandler.Handle does. */
  function FileOutcome(rec: Record, prefix: string, storePath: string, stack: seq<Frame>, disk: Disk): (e: Effect)
    ensures e.AppendFile? <==>
              StrKit.IsNotBlank(storePath) && storePath in disk.existing && storePath !in disk.openErrors
    ensures e.AppendFile? ==> e == AppendFile(storePath, LOG_FILE_NAME, "\n" + LogLine(rec, prefix, stack))
    ensures !e.AppendFile? ==> e == Stdout(ConsoleText(TEXT_YELLOW, FileWarning(storePath, disk)))
  {
    if StrKit.IsBlank(storePath) || storePath !in disk.existing || storePath in disk.openErrors then
      Stdout(ConsoleText(TEXT_YELLOW, FileWarning(storePath, disk)))
    else
      AppendFile(storePath, LOG_FILE_NAME, "\n" + LogLine(rec, prefix, stack))
  }

  /** The three refusals of the file handler print three different warnings. */
  lemma FileWarningsDistinct(blank: string, missing: string, failing: string, disk: Disk)
    requires StrKit.IsBlank(blank)
    requires StrKit.IsNotBlank(missing) && missing !in disk.existing
    requires StrKit.IsNotBlank(failing) && failing in disk.existing && failing in disk.openErrors
    ensures FileWarning(blank, disk) != FileWarning(missing, disk)
    ensures FileWarning(blank, disk) != FileWarning(failing, disk)
    ensures FileWarning(missing, disk) != FileWarning(failing, disk)
  {
    var wb, wm, wf := FileWarning(blank, disk), FileWarning(missing, disk), FileWarning(failing, disk);
    assert |wb| == 24;
    assert |missing| > 0 && |wm| == 29 + |missing|;
    assert wm[0] == 'l' && wf[0] == 'o';
  }

  /** What a handler does with a record; a user handler's own code is not modelled. */
  function Outcome(h: Handler, rec: Record, prefix: string, storePath: string, stack: seq<Frame>, disk: Disk): Effect {
    match h
    case Console => ConsoleOutcome(rec, prefix, stack)
    case File => FileOutcome(rec, prefix, storePath, stack, disk)
    case Custom(n) => Delivered(n, rec)
  }

  /** consoleHandler.Handle. */
  method ConsoleHandle(rec: Record, prefix: string, stack: seq<Frame>) returns (e: Effect)
    ensures e == ConsoleOutcome(rec, prefix, stack)
  {
    var color := 0;
    if rec.level == ERROR {
      color := TEXT_RED;
    } else if rec.level == WARN {
      color := TEXT_YELLOW;
    } else {
      color := TEXT_NONE;
    }
    var line := FormatLog(rec, prefix, stack);
    e := Stdout(ConsoleText(color, line));
  }

  /** fileHandler.Handle. */
  method FileHandle(rec: Record, prefix: string, storePath: string, stack: seq<Frame>, disk: Disk) returns (e: Effect)
    ensures e == FileOutcome(rec, prefix, storePath, stack, disk)
  {
    if StrKit.IsBlank(storePath) {
      return Stdout(ConsoleText(TEXT_YELLOW, "log store path is empty!"));
    }
    if storePath !in disk.existing {
      return Stdout(ConsoleText(TEXT_YELLOW, "log store path " + storePath + " is not exist!"));
    }
    if storePath in disk.openErrors {
      return Stdout(ConsoleText(TEXT_YELLOW, "open log store path " + storePath + " error :" + disk.openErrors[storePath]));
    }
    var line := FormatLog(rec, prefix, stack);
    e := AppendFile(storePath, LOG_FILE_NAME, "\n" + line);
  }

  /** handler.Handle(record), dispatched on the kind of handler. */
  method HandleRecord(h: Handler, rec: Record, prefix: string, storePath: string, stack: seq<Frame>, disk: Disk)
    returns (e: Effect)
    ensures e == Outcome(h, rec, prefix, storePath, stack, disk)
  {
    match h
    case Console =>
      e := ConsoleHandle(rec, prefix, stack);
    case File =>
      e := FileHandle(rec, prefix, storePath, stack, disk);
    case Custom(n) =>
      e := Delivered(n, rec);
  }
}
