/** Which streams are taken for a push, exactly, and which of them go on to the repository. */
module ReceivedPushes {
  import opened Wrappers
  import opened Policies
  import opened GitRefs
  import opened CommandReading
  import opened ReceivePack

  predicate IsOid(s: string) {
    && (|s| == 40 || |s| == 64)
    && forall c :: c in s ==> '0' <= c <= '9' || 'a' <= c <= 'f' || 'A' <= c <= 'F'
  }

  lemma OidIsValid(s: string)
    ensures ValidGitOid(s) <==> IsOid(s)
  {
    forall i | 0 <= i < |s|
      ensures s[i] in s
    {
    }
  }

  /** What a payload says, by its words up to a NUL: "shallow" and an object, or two objects and a ref. */
  predicate Says(payload: string, line: Line) {
    var words := Fields(BeforeNul(TrimNewline(payload)));
    match line
    case Shallow => |words| == 2 && words[0] == "shallow" && IsOid(words[1])
    case Update(command) =>
      && |words| == 3 && IsOid(words[0]) && IsOid(words[1]) && "refs/" <= words[2]
      && command == RefCommand(words[1], words[2])
    case Malformed => false
  }

  lemma ParseSays(payload: string, first: bool, line: Line)
    requires !line.Malformed? && (line.Shallow? ==> first)
    ensures ParseLine(payload, first) == line <==> Says(payload, line)
  {
    var words := Fields(BeforeNul(TrimNewline(payload)));
    forall i | 0 <= i < |words|
      ensures ValidGitOid(words[i]) <==> IsOid(words[i])
    {
      OidIsValid(words[i]);
    }
  }

  /** A pkt-line: four digits that count the whole line, and a payload that says something. */
  predicate IsLine(w: Written) {
    && 4 < |w.bytes| <= MAX_COMMAND_BYTES && ParseHex(w.bytes[..4]) == Some(|w.bytes|)
    && Says(w.bytes[4..], w.line)
  }

  predicate IsEnd(end: string) {
    |end| == 4 && ParseHex(end) == Some(0)
  }

  /** Shallow lines, then at least one command, 255 lines at most, and a flush. */
  predicate IsHead(lines: seq<Written>, end: string) {
    && (forall i :: 0 <= i < |lines| ==> IsLine(lines[i])) && InOrder(lines)
    && 0 < |Commands(lines)| && |lines| <= 255 && IsEnd(end)
  }

  lemma TakenIsLine(stream: string, first: bool)
    requires NextLine(stream, first).Took?
    ensures var step := NextLine(stream, first);
            IsLine(Written(step.read, step.line)) && (step.line.Shallow? ==> first) && stream == step.read + step.rest
  {
    var step := NextLine(stream, first);
    assert step.read[..4] == stream[..4] && step.read[4..] == stream[4..|step.read|];
    EmptyIsMalformed(first);
    ParseSays(stream[4..|step.read|], first, step.line);
  }

  lemma EmptyIsMalformed(first: bool)
    ensures ParseLine("", first).Malformed?
  {
  }

  lemma LineIsNext(w: Written, first: bool, rest: string)
    requires IsLine(w) && (w.line.Shallow? ==> first)
    ensures IsRead(NextLine, w, first, rest)
  {
    ParseSays(w.bytes[4..], first, w.line);
    PrefixedIsTaken(w.bytes[..4], w.bytes[4..], rest, first);
    assert w.bytes[..4] + w.bytes[4..] == w.bytes;
  }

  lemma EndIsNext(end: string, first: bool, rest: string)
    requires IsEnd(end)
    ensures NextLine(end + rest, first) == Flush(end, rest)
  {
    assert (end + rest)[..4] == end && (end + rest)[4..] == rest;
  }

  /** Lines of which none is shallow once there are commands, or once a command came before it. */
  predicate Orderly(lines: seq<Written>, commands: seq<RefCommand>) {
    && (forall i :: 0 <= i < |lines| ==> IsLine(lines[i])) && InOrder(lines)
    && (commands != [] ==> forall i :: 0 <= i < |lines| ==> !lines[i].line.Shallow?)
  }

  lemma OneMoreLine(w: Written, more: seq<Written>, commands: seq<RefCommand>)
    requires IsLine(w) && (w.line.Shallow? ==> commands == []) && Orderly(more, Added(commands, w.line))
    ensures Orderly([w] + more, commands)
  {
    var lines := [w] + more;
    assert forall i :: 0 < i < |lines| ==> lines[i] == more[i - 1];
  }

  /** What a reading comes to that took these lines. */
  function Taken(lines: seq<Written>, end: string, rest: string, commands: seq<RefCommand>): Receipt {
    Receipt(Bytes(lines, end), commands + Commands(lines), rest)
  }

  /** A line read before a reading that came to these lines. */
  lemma TakenOneMore(next: Next, stream: string, budget: nat, commands: seq<RefCommand>,
                     w: Written, behind: string, more: seq<Written>, end: string, rest: string)
    requires budget > 0 && next(stream, commands == []) == Took(w.bytes, w.line, behind)
    requires Receive(next, behind, budget - 1, Added(commands, w.line)) ==
             Some(Taken(more, end, rest, Added(commands, w.line)))
    ensures Receive(next, stream, budget, commands) == Some(Taken([w] + more, end, rest, commands))
  {
    var lines := [w] + more;
    assert lines[1..] == more;
    AddedCommands(lines, commands);
  }

  predicate TakesLine(step: Step, first: bool) {
    match step
    case Refused => true
    case Flush(read, _) => IsEnd(read)
    case Took(read, line, _) => IsLine(Written(read, line)) && (line.Shallow? ==> first)
  }

  lemma TakenAtEnd(next: Next, stream: string, budget: nat, commands: seq<RefCommand>, end: string, rest: string)
    requires budget > 0 && commands != [] && next(stream, false) == Flush(end, rest)
    ensures Receive(next, stream, budget, commands) == Some(Taken([], end, rest, commands))
  {
    assert commands + [] == commands;
  }

  /** The lines that a reading took. */
  lemma {:induction false} LinesOf(next: Next, stream: string, budget: nat, commands: seq<RefCommand>)
    returns (lines: seq<Written>, end: string, rest: string)
    requires Receive(next, stream, budget, commands).Some?
    requires forall s, first :: TakesLine(next(s, first), first)
    ensures Orderly(lines, commands) && IsEnd(end) && |lines| < budget
    ensures Receive(next, stream, budget, commands) == Some(Taken(lines, end, rest, commands))
    decreases budget
  {
    var step := next(stream, commands == []);
    assert TakesLine(step, commands == []);
    if step.Flush? {
      lines, end, rest := [], step.read, step.rest;
      TakenAtEnd(next, stream, budget, commands, end, rest);
    } else {
      var w, more := Written(step.read, step.line), [];
      more, end, rest := LinesOf(next, step.rest, budget - 1, Added(commands, step.line));
      OneMoreLine(w, more, commands);
      TakenOneMore(next, stream, budget, commands, w, step.rest, more, end, rest);
      lines := [w] + more;
    }
  }

  lemma NextTakesLine(stream: string, first: bool)
    ensures TakesLine(NextLine(stream, first), first)
  {
    if NextLine(stream, first).Took? { TakenIsLine(stream, first); }
  }

  /** The receipt for a stream that begins with these lines. */
  predicate Reads(stream: string, receipt: Receipt, lines: seq<Written>, end: string) {
    && receipt.prefix == Bytes(lines, end) && receipt.commands == Commands(lines)
    && stream == Bytes(lines, end) + receipt.rest
  }

  lemma HeadIsRead(lines: seq<Written>, end: string, tail: string)
    requires IsHead(lines, end)
    ensures ReceiveCommands(Bytes(lines, end) + tail) == Some(Receipt(Bytes(lines, end), Commands(lines), tail))
  {
    forall i, first, rest | 0 <= i < |lines| && (lines[i].line.Shallow? ==> first)
      ensures IsRead(NextLine, lines[i], first, rest)
    {
      LineIsNext(lines[i], first, rest);
    }
    forall first, rest
      ensures NextLine(end + rest, first) == Flush(end, rest)
    {
      EndIsNext(end, first, rest);
    }
    WrittenIsRead(NextLine, lines, end, tail, MAX_COMMANDS, []);
    assert [] + Commands(lines) == Commands(lines);
  }

  /** A stream is taken for a push if and only if it begins with a proper head; then the head is what is read,
      its commands are those found, and what follows is left alone. */
  lemma PushIsHead(stream: string, receipt: Receipt)
    ensures ReceiveCommands(stream) == Some(receipt) <==>
            exists lines, end :: IsHead(lines, end) && Reads(stream, receipt, lines, end)
  {
    if ReceiveCommands(stream) == Some(receipt) {
      ReceivingIsFaithful(stream);
      forall s, first
        ensures TakesLine(NextLine(s, first), first)
      {
        NextTakesLine(s, first);
      }
      var lines, end, rest := LinesOf(NextLine, stream, MAX_COMMANDS, []);
      assert [] + Commands(lines) == Commands(lines);
      assert IsHead(lines, end) && Reads(stream, receipt, lines, end);
    }
    if lines, end :| IsHead(lines, end) && Reads(stream, receipt, lines, end) {
      HeadIsRead(lines, end, receipt.rest);
    }
  }

  /** A push goes on, unchanged, if and only if it can be read and the policy permits all of its commands. */
  lemma ForwardedIff(stream: string, defaultBranch: string, policy: GitPolicy)
    ensures Forwarded(stream, defaultBranch, policy) ==
            if ReceiveCommands(stream).Some?
               && forall command :: command in ReceiveCommands(stream).value.commands ==>
                    Permitted(command, defaultBranch, policy)
            then Some(stream) else None
  {
    if ReceiveCommands(stream).Some? {
      var r := ReceiveCommands(stream).value;
      ReceivingIsFaithful(stream);
      forall i | 0 <= i < |r.commands|
        ensures AuthorizeGitRef(r.commands[i], defaultBranch, policy) <==>
                Permitted(r.commands[i], defaultBranch, policy)
      {
        AuthorizedIsPermitted(r.commands[i], defaultBranch, policy);
      }
    }
  }
}
