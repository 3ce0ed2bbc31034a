/**
 * Reading ref commands line by line, whatever the lines look like: `next` takes one line off a stream,
 * given whether no command has been read yet.
 */
module CommandReading {
  import opened Wrappers
  import opened GitRefs

  datatype Line = Shallow | Update(command: RefCommand) | Malformed

  /** One line off the stream: refused, the end of the commands, or a line. */
  datatype Step = Refused | Flush(read: string, rest: string) | Took(read: string, line: Line, rest: string)

  type Next = (string, bool) -> Step

  datatype Receipt = Receipt(prefix: string, commands: seq<RefCommand>, rest: string)

  function Added(commands: seq<RefCommand>, line: Line): seq<RefCommand> {
    if line.Update? then commands + [line.command] else commands
  }

  function After(read: string, r: Option<Receipt>): Option<Receipt> {
    if r.None? then None else Some(r.value.(prefix := read + r.value.prefix))
  }

  /** The lines that may still be read, `budget` of them; None for every malformed request. */
  function Receive(next: Next, stream: string, budget: nat, commands: seq<RefCommand>): Option<Receipt>
    decreases budget
  {
    if budget == 0 then None
    else
      match next(stream, commands == [])
      case Refused => None
      case Flush(read, rest) => if commands == [] then None else Some(Receipt(read, commands, rest))
      case Took(read, line, rest) => After(read, Receive(next, rest, budget - 1, Added(commands, line)))
  }

  lemma AfterNothing(r: Option<Receipt>)
    ensures After("", r) == r
  {
    if r.Some? { assert "" + r.value.prefix == r.value.prefix; }
  }

  lemma AfterTwice(a: string, b: string, r: Option<Receipt>)
    ensures After(a, After(b, r)) == After(a + b, r)
  {
    if r.Some? { assert a + (b + r.value.prefix) == a + b + r.value.prefix; }
  }

  /** How a reading ends that has taken `prefix` so far and goes on from `rest`. */
  function Ending(next: Next, prefix: string, rest: string, budget: nat, commands: seq<RefCommand>): Option<Receipt> {
    After(prefix, Receive(next, rest, budget, commands))
  }

  lemma EndingStep(next: Next, prefix: string, rest: string, budget: nat, commands: seq<RefCommand>, first: bool)
    requires budget != 0 && first == (commands == [])
    ensures Ending(next, prefix, rest, budget, commands) ==
            match next(rest, first)
            case Refused => None
            case Flush(read, after) => if first then None else Some(Receipt(prefix + read, commands, after))
            case Took(read, line, after) => Ending(next, prefix + read, after, budget - 1, Added(commands, line))
  {
    var step := next(rest, first);
    if step.Took? {
      AfterTwice(prefix, step.read, Receive(next, step.rest, budget - 1, Added(commands, step.line)));
    }
  }

  // ---------------------------------------------------------------- nothing is lost

  predicate FaithfulAt(step: Step, stream: string, proper: RefCommand -> bool) {
    match step
    case Refused => true
    case Flush(read, rest) => stream == read + rest
    case Took(read, line, rest) => stream == read + rest && (line.Update? ==> proper(line.command))
  }

  ghost predicate Faithful(next: Next, proper: RefCommand -> bool) {
    forall stream, first :: FaithfulAt(next(stream, first), stream, proper)
  }

  predicate AllProper(commands: seq<RefCommand>, proper: RefCommand -> bool) {
    forall i :: 0 <= i < |commands| ==> proper(commands[i])
  }

  lemma {:induction false} ReceiveIsFaithful(
      next: Next, proper: RefCommand -> bool, stream: string, budget: nat, commands: seq<RefCommand>)
    requires Receive(next, stream, budget, commands).Some? && Faithful(next, proper) && AllProper(commands, proper)
    ensures var r := Receive(next, stream, budget, commands).value;
            && stream == r.prefix + r.rest && AllProper(r.commands, proper)
            && 0 < |r.commands| < |commands| + budget
    decreases budget
  {
    var step := next(stream, commands == []);
    assert FaithfulAt(step, stream, proper);
    if step.Took? {
      ReceiveIsFaithful(next, proper, step.rest, budget - 1, Added(commands, step.line));
      var later := Receive(next, step.rest, budget - 1, Added(commands, step.line)).value;
      assert step.read + (later.prefix + later.rest) == (step.read + later.prefix) + later.rest;
    }
  }

  // ---------------------------------------------------------------- what follows does not matter

  predicate StableAt(next: Next, stream: string, first: bool, tail: string) {
    match next(stream, first)
    case Refused => true
    case Flush(read, rest) => next(read + tail, first) == Flush(read, tail)
    case Took(read, line, rest) => next(read + tail, first) == Took(read, line, tail)
  }

  ghost predicate Stable(next: Next) {
    forall stream, first, tail :: StableAt(next, stream, first, tail)
  }

  lemma {:induction false} ReadingAgain(
      next: Next, stream: string, budget: nat, commands: seq<RefCommand>, tail: string)
    requires Receive(next, stream, budget, commands).Some? && Stable(next)
    ensures var r := Receive(next, stream, budget, commands).value;
            Receive(next, r.prefix + tail, budget, commands) == Some(Receipt(r.prefix, r.commands, tail))
    decreases budget
  {
    var step := next(stream, commands == []);
    if step.Flush? {
      assert StableAt(next, stream, commands == [], tail);
    } else {
      var later := Receive(next, step.rest, budget - 1, Added(commands, step.line)).value;
      ReadingAgain(next, step.rest, budget - 1, Added(commands, step.line), tail);
      assert StableAt(next, stream, commands == [], later.prefix + tail);
      assert step.read + (later.prefix + tail) == (step.read + later.prefix) + tail;
    }
  }

  // ---------------------------------------------------------------- what was written is read

  /** A line as written, and what it says. */
  datatype Written = Written(bytes: string, line: Line)

  function Bytes(lines: seq<Written>, end: string): string {
    if lines == [] then end else lines[0].bytes + Bytes(lines[1..], end)
  }

  function Commands(lines: seq<Written>): seq<RefCommand> {
    if lines == [] then [] else Added([], lines[0].line) + Commands(lines[1..])
  }

  predicate IsRead(next: Next, w: Written, first: bool, rest: string) {
    next(w.bytes + rest, first) == Took(w.bytes, w.line, rest)
  }

  /** Each line is read as what it says; a shallow one only before the first command. */
  ghost predicate Readable(next: Next, lines: seq<Written>, end: string) {
    && (forall i, first, rest :: 0 <= i < |lines| && (lines[i].line.Shallow? ==> first) ==>
          IsRead(next, lines[i], first, rest))
    && (forall first, rest :: next(end + rest, first) == Flush(end, rest))
  }

  /** Shallow lines first, then the commands. */
  predicate InOrder(lines: seq<Written>) {
    forall i, j :: 0 <= i < j < |lines| && lines[j].line.Shallow? ==> lines[i].line.Shallow?
  }

  lemma RestReadable(next: Next, lines: seq<Written>, end: string)
    requires lines != [] && Readable(next, lines, end) && InOrder(lines)
    ensures Readable(next, lines[1..], end) && InOrder(lines[1..])
    ensures !lines[0].line.Shallow? ==> forall i :: 0 <= i < |lines[1..]| ==> !lines[1..][i].line.Shallow?
  {
    var rest := lines[1..];
    assert forall i :: 0 <= i < |rest| ==> rest[i] == lines[i + 1];
  }

  lemma FirstIsRead(next: Next, lines: seq<Written>, end: string, tail: string, budget: nat, commands: seq<RefCommand>)
    requires lines != [] && Readable(next, lines, end) && budget != 0 && (lines[0].line.Shallow? ==> commands == [])
    ensures Receive(next, Bytes(lines, end) + tail, budget, commands) ==
            After(lines[0].bytes,
                  Receive(next, Bytes(lines[1..], end) + tail, budget - 1, Added(commands, lines[0].line)))
  {
    var rest := Bytes(lines[1..], end) + tail;
    assert Bytes(lines, end) + tail == lines[0].bytes + rest;
    assert IsRead(next, lines[0], commands == [], rest);
  }

  lemma EndIsRead(next: Next, lines: seq<Written>, end: string, tail: string, budget: nat, commands: seq<RefCommand>)
    requires Readable(next, lines, end) && budget != 0
    ensures Receive(next, end + tail, budget, commands) ==
            if commands == [] then None else Some(Receipt(end, commands, tail))
  {
    assert next(end + tail, commands == []) == Flush(end, tail);
  }

  /** What reading the lines after some commands gives. */
  function Expected(
      lines: seq<Written>, end: string, tail: string, budget: nat, commands: seq<RefCommand>): Option<Receipt> {
    if |lines| < budget && commands + Commands(lines) != []
    then Some(Receipt(Bytes(lines, end), commands + Commands(lines), tail)) else None
  }

  lemma EndExpected(end: string, tail: string, budget: nat, commands: seq<RefCommand>)
    requires budget != 0
    ensures Expected([], end, tail, budget, commands) ==
            if commands == [] then None else Some(Receipt(end, commands, tail))
  {
    assert commands + [] == commands;
  }

  lemma ExpectedStep(lines: seq<Written>, end: string, tail: string, budget: nat, commands: seq<RefCommand>)
    requires lines != [] && budget != 0
    ensures After(lines[0].bytes, Expected(lines[1..], end, tail, budget - 1, Added(commands, lines[0].line))) ==
            Expected(lines, end, tail, budget, commands)
  {
    AddedCommands(lines, commands);
  }

  lemma AddedCommands(lines: seq<Written>, commands: seq<RefCommand>)
    requires lines != []
    ensures Added(commands, lines[0].line) + Commands(lines[1..]) == commands + Commands(lines)
  {
    var rest, first := Commands(lines[1..]), Added([], lines[0].line);
    assert Commands(lines) == first + rest;
    assert Added(commands, lines[0].line) == commands + first;
    Regroup(commands, first, rest);
  }

  lemma Regroup(a: seq<RefCommand>, b: seq<RefCommand>, c: seq<RefCommand>)
    ensures a + b + c == a + (b + c)
  {
  }

  lemma {:induction false} WrittenIsRead(
      next: Next, lines: seq<Written>, end: string, tail: string, budget: nat, commands: seq<RefCommand>)
    requires Readable(next, lines, end) && InOrder(lines)
    requires commands != [] ==> forall i :: 0 <= i < |lines| ==> !lines[i].line.Shallow?
    ensures Receive(next, Bytes(lines, end) + tail, budget, commands) == Expected(lines, end, tail, budget, commands)
    decreases |lines|
  {
    if budget != 0 {
      if lines == [] {
        EndIsRead(next, lines, end, tail, budget, commands);
        EndExpected(end, tail, budget, commands);
      } else {
        FirstIsRead(next, lines, end, tail, budget, commands);
        RestReadable(next, lines, end);
        WrittenIsRead(next, lines[1..], end, tail, budget - 1, Added(commands, lines[0].line));
        ExpectedStep(lines, end, tail, budget, commands);
      }
    }
  }

  lemma {:induction false} CommandsCount(lines: seq<Written>)
    requires forall i :: 0 <= i < |lines| ==> !lines[i].line.Malformed?
    ensures Commands(lines) == [] <==> forall i :: 0 <= i < |lines| ==> lines[i].line.Shallow?
  {
    if lines != [] {
      CommandsCount(lines[1..]);
      assert forall i :: 0 < i < |lines| ==> lines[i] == lines[1..][i - 1];
    }
  }
}
