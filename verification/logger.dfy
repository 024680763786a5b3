/** The process-wide logger: an append-only list of report lines in insertion
    order, with a clear operation. Modelled as an immutable value; every
    operation returns the next logger. */
module Log {
  import opened Common
  import opened Text

  datatype Logger = Logger(messages: seq<string>)

  /** The logger as constructed: no messages. */
  const Fresh: Logger := Logger([])

  /** Line of a plain message from check `test`. */
  function MessageLine(test: string, message: string): string {
    test + ": " + message
  }

  /** Prefix of a workflow-command annotation of `kind` for `file`. */
  function AnnotationPrefix(kind: string, file: string): string {
    "::" + kind + " file=" + file + "::"
  }

  /** Annotation line: the prefix, one space, then the message; there is no
      `title=` field. */
  function Annotation(kind: string, file: string, message: string): string {
    AnnotationPrefix(kind, file) + " " + message
  }

  function WarningLine(file: string, message: string): string {
    Annotation("warning", file, message)
  }

  /** Also the body of the passkeys handler's 400 response. */
  function ErrorLine(file: string, message: string): string {
    Annotation("error", file, message)
  }

  /** `addMessage(test, message)`. */
  function AddMessage(l: Logger, test: string, message: string): (l': Logger)
    ensures |l'.messages| == |l.messages| + 1
    ensures l'.messages[..|l.messages|] == l.messages
    ensures l'.messages[|l.messages|] == MessageLine(test, message)
  {
    Logger(l.messages + [MessageLine(test, message)])
  }

  /** `addWarning(file, message)`; a third argument passed by a caller is
      ignored by the source, so it has no counterpart here. */
  function AddWarning(l: Logger, file: string, message: string): (l': Logger)
    ensures |l'.messages| == |l.messages| + 1
    ensures l'.messages[..|l.messages|] == l.messages
    ensures l'.messages[|l.messages|] == WarningLine(file, message)
  {
    Logger(l.messages + [WarningLine(file, message)])
  }

  /** `addError(file, message)`: called by the twofactorauth handler but not
      defined by the logger; assumed to mirror `addWarning` with `::error`. */
  function AddError(l: Logger, file: string, message: string): (l': Logger)
    ensures |l'.messages| == |l.messages| + 1
    ensures l'.messages[..|l.messages|] == l.messages
    ensures l'.messages[|l.messages|] == ErrorLine(file, message)
  {
    Logger(l.messages + [ErrorLine(file, message)])
  }

  /** `getMessages()`. */
  function GetMessages(l: Logger): seq<string> {
    l.messages
  }

  /** `clearMessages()`: later additions start from an empty list. */
  function Clear(l: Logger): (l': Logger)
    ensures l' == Fresh
  {
    Logger([])
  }

  /** One call of an add operation, as data. */
  datatype Event =
    | Message(test: string, message: string)
    | Warning(file: string, message: string)
    | Error(file: string, message: string)

  /** The line an event contributes. */
  function Render(e: Event): string {
    match e
    case Message(t, m) => MessageLine(t, m)
    case Warning(f, m) => WarningLine(f, m)
    case Error(f, m) => ErrorLine(f, m)
  }

  function Apply(l: Logger, e: Event): Logger {
    match e
    case Message(t, m) => AddMessage(l, t, m)
    case Warning(f, m) => AddWarning(l, f, m)
    case Error(f, m) => AddError(l, f, m)
  }

  /** Performs the add calls one after the other. */
  function Replay(l: Logger, events: seq<Event>): Logger
    decreases |events|
  {
    if |events| == 0 then l else Replay(Apply(l, events[0]), events[1..])
  }

  /** One add call appends its rendered line. */
  lemma ApplyAppends(l: Logger, e: Event)
    ensures Apply(l, e).messages == l.messages + [Render(e)]
  {
  }

  /** The rendered lines of a sequence of events, in order. */
  function Lines(events: seq<Event>): seq<string> {
    seq(|events|, i requires 0 <= i < |events| => Render(events[i]))
  }

  lemma {:induction false} ReplayIsAppend(l: Logger, events: seq<Event>)
    ensures Replay(l, events).messages == l.messages + Lines(events)
    decreases |events|
  {
    if |events| > 0 {
      ApplyAppends(l, events[0]);
      ReplayIsAppend(Apply(l, events[0]), events[1..]);
      assert Lines(events) == [Render(events[0])] + Lines(events[1..]);
    }
  }

  /** After any sequence of add calls, `getMessages` lists the earlier lines
      unchanged, followed by one rendered line per call in call order. */
  lemma ReplayAppendsInOrder(l: Logger, events: seq<Event>)
    ensures |Replay(l, events).messages| == |l.messages| + |events|
    ensures Replay(l, events).messages[..|l.messages|] == l.messages
    ensures forall i :: 0 <= i < |events| ==>
              Replay(l, events).messages[|l.messages| + i] == Render(events[i])
  {
    ReplayIsAppend(l, events);
  }

  /** Replaying two runs of events is replaying their concatenation. */
  lemma {:induction false} ReplayConcat(l: Logger, a: seq<Event>, b: seq<Event>)
    ensures Replay(l, a + b) == Replay(Replay(l, a), b)
    decreases |a|
  {
    if |a| == 0 {
      assert a + b == b;
    } else {
      assert (a + b)[1..] == a[1..] + b;
      ReplayConcat(Apply(l, a[0]), a[1..], b);
    }
  }

  /** A fresh or cleared logger that receives events holds exactly their lines. */
  lemma ClearThenReplay(l: Logger, events: seq<Event>)
    ensures |Replay(Clear(l), events).messages| == |events|
    ensures forall i :: 0 <= i < |events| ==>
              Replay(Clear(l), events).messages[i] == Render(events[i])
  {
    var c := Clear(l);
    assert |c.messages| == 0;
    ReplayAppendsInOrder(c, events);
    var r := Replay(c, events).messages;
    assert forall i :: 0 <= i < |events| ==> r[0 + i] == Render(events[i]);
  }

  /** Reads a line back as an annotation of `kind` for `file`: the message
      after the prefix and its space, if the line has that shape. */
  function AnnotationMessage(line: string, kind: string, file: string): (r: Option<string>)
    ensures r.Some? ==> line == Annotation(kind, file, r.value)
    ensures r.None? ==> forall m :: line != Annotation(kind, file, m)
  {
    var p := AnnotationPrefix(kind, file) + " ";
    if StartsWith(line, p) then
      assert line == p + line[|p|..];
      Some(line[|p|..])
    else
      assert forall m :: StartsWith(p + m, p) by {
        forall m ensures (p + m)[..|p|] == p { }
      }
      None
  }

  /** A warning line reads back as a warning of its file with its message,
      and never as an error. */
  lemma WarningRoundTrip(file: string, message: string, other: string)
    ensures AnnotationMessage(WarningLine(file, message), "warning", file) == Some(message)
    ensures AnnotationMessage(WarningLine(file, message), "error", other).None?
  {
    var line := WarningLine(file, message);
    var r := AnnotationMessage(line, "warning", file);
    if r.Some? {
      AnnotationInjective("warning", file, r.value, message);
    }
    assert line[2] == 'w';
    assert forall m :: Annotation("error", other, m)[2] == 'e';
  }

  /** An error line reads back as an error of its file with its message, and
      never as a warning. */
  lemma ErrorRoundTrip(file: string, message: string, other: string)
    ensures AnnotationMessage(ErrorLine(file, message), "error", file) == Some(message)
    ensures AnnotationMessage(ErrorLine(file, message), "warning", other).None?
  {
    var line := ErrorLine(file, message);
    var r := AnnotationMessage(line, "error", file);
    if r.Some? {
      AnnotationInjective("error", file, r.value, message);
    }
    assert line[2] == 'e';
    assert forall m :: Annotation("warning", other, m)[2] == 'w';
  }

  /** A plain message from a check whose name does not start with `:` is
      not an annotation of any kind. */
  lemma MessageIsNotAnnotation(test: string, message: string, kind: string, file: string)
    requires test != [] && test[0] != ':'
    ensures AnnotationMessage(MessageLine(test, message), kind, file).None?
  {
    assert MessageLine(test, message)[0] == test[0];
    assert forall m :: Annotation(kind, file, m)[0] == ':';
  }

  lemma AnnotationInjective(kind: string, file: string, m1: string, m2: string)
    requires Annotation(kind, file, m1) == Annotation(kind, file, m2)
    ensures m1 == m2
  {
    var p := AnnotationPrefix(kind, file) + " ";
    assert Annotation(kind, file, m1) == p + m1;
    assert Annotation(kind, file, m2) == p + m2;
    assert m1 == (p + m1)[|p|..];
    assert m2 == (p + m2)[|p|..];
  }
}
