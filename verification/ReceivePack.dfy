/**
 * Reading the ref commands at the head of a push. The request is a stream of pkt-lines: four
 * hexadecimal digits giving the length, themselves included, and the payload; "0000" ends the commands
 * (Git's gitprotocol-pack, "Reference Update Request"). Characters stand for bytes.
 */
module ReceivePack {
  import opened Wrappers
  import opened Strings
  import opened Policies
  import opened GitRefs
  import opened CommandReading

  const MAX_COMMAND_BYTES := 64 * 1024
  const MAX_COMMANDS := 256

  // ---------------------------------------------------------------- hexadecimal

  function ParseHex(s: string): Option<nat> {
    if s == "" then Some(0)
    else
      var high, low := ParseHex(s[..|s| - 1]), HexValue(s[|s| - 1]);
      if high.None? || low.None? then None else Some(16 * high.value + low.value)
  }

  function HexDigit(n: nat): (c: char)
    requires n < 16
    ensures HexValue(c) == Some(n)
  {
    if n < 10 then '0' + n as char else 'a' + (n - 10) as char
  }

  function Hex(n: nat, width: nat): (s: string)
    ensures |s| == width
  {
    if width == 0 then "" else Hex(n / 16, width - 1) + [HexDigit(n % 16)]
  }

  function Power16(width: nat): nat {
    if width == 0 then 1 else 16 * Power16(width - 1)
  }

  lemma {:induction false} HexReadsBack(n: nat, width: nat)
    requires n < Power16(width)
    ensures ParseHex(Hex(n, width)) == Some(n)
  {
    if width != 0 {
      HexReadsBack(n / 16, width - 1);
      var s := Hex(n, width);
      assert s[..|s| - 1] == Hex(n / 16, width - 1) && s[|s| - 1] == HexDigit(n % 16);
    }
  }

  predicate ValidGitOid(oid: string) {
    (|oid| == 40 || |oid| == 64) && forall i :: 0 <= i < |oid| ==> HexValue(oid[i]).Some?
  }

  // ---------------------------------------------------------------- words

  function WordEnd(s: string): (n: nat)
    ensures n <= |s| && (n < |s| ==> IsSpace(s[n])) && forall i :: 0 <= i < n ==> !IsSpace(s[i])
  {
    if s == "" || IsSpace(s[0]) then 0 else 1 + WordEnd(s[1..])
  }

  function Fields(s: string): seq<string> {
    if s == "" then []
    else if IsSpace(s[0]) then Fields(s[1..])
    else [s[..WordEnd(s)]] + Fields(s[WordEnd(s)..])
  }

  predicate IsWord(s: string) {
    s != "" && forall i :: 0 <= i < |s| ==> !IsSpace(s[i])
  }

  lemma WordThenFields(word: string, rest: string)
    requires IsWord(word) && (rest == "" || IsSpace(rest[0]))
    ensures Fields(word + rest) == [word] + Fields(rest)
  {
    var s := word + rest;
    var n := WordEnd(s);
    assert forall i :: 0 <= i < |word| ==> s[i] == word[i];
    assert n >= |word|;
    assert rest != "" ==> s[|word|] == rest[0];
    assert s[..n] == word && s[n..] == rest;
  }

  lemma TwoWords(a: string, b: string)
    requires IsWord(a) && IsWord(b)
    ensures Fields(a + " " + b) == [a, b]
  {
    assert a + " " + b == a + (" " + b);
    assert (" " + b)[1..] == b && b + "" == b;
    WordThenFields(a, " " + b);
    WordThenFields(b, "");
  }

  lemma ThreeWords(a: string, b: string, c: string)
    requires IsWord(a) && IsWord(b) && IsWord(c)
    ensures Fields(a + " " + b + " " + c) == [a, b, c]
  {
    var rest := b + " " + c;
    var spaced := " " + rest;
    Spaced(a, b, c);
    TwoWords(b, c);
    WordThenFields(a, spaced);
    assert spaced[1..] == rest;
    assert Fields(spaced) == Fields(rest);
  }

  lemma Spaced(a: string, b: string, c: string)
    ensures a + " " + b + " " + c == a + (" " + (b + " " + c))
  {
  }

  lemma {:induction false} FieldsAreWords(s: string)
    ensures forall i :: 0 <= i < |Fields(s)| ==> IsWord(Fields(s)[i])
    decreases |s|
  {
    if s != "" { FieldsAreWords(if IsSpace(s[0]) then s[1..] else s[WordEnd(s)..]); }
  }

  lemma OidIsWord(oid: string)
    requires ValidGitOid(oid)
    ensures IsWord(oid)
  {
    forall i | 0 <= i < |oid|
      ensures !IsSpace(oid[i])
    {
      assert HexValue(oid[i]).Some?;
    }
  }

  // ---------------------------------------------------------------- one line

  function TrimNewline(s: string): string {
    if s != "" && s[|s| - 1] == '\n' then s[..|s| - 1] else s
  }

  function BeforeNul(s: string): string {
    if s == "" || s[0] == '\0' then "" else [s[0]] + BeforeNul(s[1..])
  }

  /** A shallow line may only come before the first command. */
  function ParseLine(payload: string, first: bool): Line {
    var fields := Fields(BeforeNul(TrimNewline(payload)));
    if |fields| == 2 && fields[0] == "shallow" && ValidGitOid(fields[1]) && first then Shallow
    else if |fields| != 3 || !ValidGitOid(fields[0]) || !ValidGitOid(fields[1]) then Malformed
    else if !("refs/" <= fields[2]) then Malformed
    else Update(RefCommand(fields[1], fields[2]))
  }

  // ---------------------------------------------------------------- the whole head

  /** One pkt-line off the stream. */
  function NextLine(stream: string, first: bool): Step {
    if |stream| < 4 then Refused
    else
      var length := ParseHex(stream[..4]);
      if length.None? then Refused
      else if length.value == 0 then Flush(stream[..4], stream[4..])
      else if length.value < 4 || length.value > MAX_COMMAND_BYTES || |stream| < length.value then Refused
      else
        var line := ParseLine(stream[4..length.value], first);
        if line.Malformed? then Refused else Took(stream[..length.value], line, stream[length.value..])
  }

  predicate Proper(command: RefCommand) {
    ValidGitOid(command.newOid) && "refs/" <= command.ref && IsWord(command.ref)
  }

  lemma NextIsFaithful(stream: string, first: bool)
    ensures FaithfulAt(NextLine(stream, first), stream, Proper)
  {
    var step := NextLine(stream, first);
    if step.Took? {
      var length := ParseHex(stream[..4]).value;
      FieldsAreWords(BeforeNul(TrimNewline(stream[4..length])));
    }
  }

  lemma NextAgain(stream: string, first: bool, tail: string)
    ensures match NextLine(stream, first)
            case Refused => true
            case Flush(read, rest) => NextLine(read + tail, first) == Flush(read, tail)
            case Took(read, line, rest) => NextLine(read + tail, first) == Took(read, line, tail)
  {
    var step := NextLine(stream, first);
    if !step.Refused? {
      var s, n := step.read + tail, |step.read|;
      assert s[..n] == step.read && s[n..] == tail;
      assert s[..4] == step.read[..4] == stream[..4];
      assert s[4..n] == step.read[4..] == stream[4..n];
    }
  }

  function ReceiveCommands(stream: string): Option<Receipt> {
    Receive(NextLine, stream, MAX_COMMANDS, [])
  }

  /** Nothing of the stream is lost or changed, there is a command and at most 255 of them, and each
      names a full object and a ref under "refs/" without white space. */
  lemma ReceivingIsFaithful(stream: string)
    requires ReceiveCommands(stream).Some?
    ensures var r := ReceiveCommands(stream).value;
            stream == r.prefix + r.rest && AllProper(r.commands, Proper) && 1 <= |r.commands| <= 255
  {
    forall s, first
      ensures FaithfulAt(NextLine(s, first), s, Proper)
    {
      NextIsFaithful(s, first);
    }
    ReceiveIsFaithful(NextLine, Proper, stream, MAX_COMMANDS, []);
  }

  /** Whatever follows the part that was read, reading it again gives the same commands: a receiver of
      the forwarded bytes sees the commands that were checked. */
  lemma ReceivingAgain(stream: string, tail: string)
    requires ReceiveCommands(stream).Some?
    ensures var r := ReceiveCommands(stream).value;
            ReceiveCommands(r.prefix + tail) == Some(Receipt(r.prefix, r.commands, tail))
  {
    forall s, first, t
      ensures StableAt(NextLine, s, first, t)
    {
      NextAgain(s, first, t);
    }
    ReadingAgain(NextLine, stream, MAX_COMMANDS, [], tail);
  }

  // ---------------------------------------------------------------- what a client sends

  const FLUSH := "0000"

  function PktLine(payload: string): string {
    Hex(|payload| + 4, 4) + payload
  }

  /** A line as a client may write it, with or without capabilities behind a NUL and a newline. */
  datatype Sent =
    | SentShallow(oid: string, newline: bool)
    | SentUpdate(oldOid: string, newOid: string, ref: string, capabilities: Option<string>, newline: bool)

  function Payload(s: Sent): string {
    var body := if s.SentShallow? then "shallow " + s.oid
                else s.oldOid + " " + s.newOid + " " + s.ref +
                     (if s.capabilities.Some? then "\0" + s.capabilities.value else "");
    body + (if s.newline then "\n" else "")
  }

  predicate WellFormed(s: Sent) {
    && |Payload(s)| + 4 < 0x10000
    && (if s.SentShallow? then ValidGitOid(s.oid)
        else
          && ValidGitOid(s.oldOid) && ValidGitOid(s.newOid)
          && "refs/" <= s.ref && IsWord(s.ref) && forall i :: 0 <= i < |s.ref| ==> s.ref[i] != '\0')
  }

  function Meaning(s: Sent): Line {
    if s.SentShallow? then Shallow else Update(RefCommand(s.newOid, s.ref))
  }

  function Line(s: Sent): Written {
    Written(PktLine(Payload(s)), Meaning(s))
  }

  function Lines(sent: seq<Sent>): (r: seq<Written>)
    ensures |r| == |sent| && forall i :: 0 <= i < |sent| ==> r[i] == Line(sent[i])
  {
    seq(|sent|, i requires 0 <= i < |sent| => Line(sent[i]))
  }

  lemma {:induction false} NulCuts(text: string, rest: string)
    requires forall i :: 0 <= i < |text| ==> text[i] != '\0'
    requires rest == "" || rest[0] == '\0'
    ensures BeforeNul(text + rest) == text
  {
    if text != "" {
      assert (text + rest)[1..] == text[1..] + rest;
      NulCuts(text[1..], rest);
    } else {
      assert text + rest == rest;
    }
  }

  lemma TrimTakesNewline(body: string, newline: bool)
    requires body != "" && body[|body| - 1] != '\n'
    ensures TrimNewline(body + (if newline then "\n" else "")) == body
  {
    assert body + "" == body && (body + "\n")[..|body|] == body;
  }

  lemma TextOfShallow(s: Sent)
    requires s.SentShallow? && WellFormed(s)
    ensures BeforeNul(TrimNewline(Payload(s))) == "shallow" + " " + s.oid
  {
    var text := "shallow " + s.oid;
    OidHasNoBreaks(s.oid);
    assert forall i :: 0 <= i < |text| ==> text[i] != '\0' && text[i] != '\n' by {
      assert forall i :: 8 <= i < |text| ==> text[i] == s.oid[i - 8];
    }
    TrimTakesNewline(text, s.newline);
    assert text + "" == text;
    NulCuts(text, "");
    assert "shallow " == "shallow" + " ";
  }

  lemma OidHasNoBreaks(oid: string)
    requires ValidGitOid(oid)
    ensures forall i :: 0 <= i < |oid| ==> oid[i] != '\0' && oid[i] != '\n'
  {
    assert forall i :: 0 <= i < |oid| ==> HexValue(oid[i]).Some?;
  }

  lemma ShallowParses(s: Sent)
    requires s.SentShallow? && WellFormed(s)
    ensures ParseLine(Payload(s), true).Shallow?
  {
    TextOfShallow(s);
    FieldsOfShallow(s.oid);
  }

  lemma FieldsOfShallow(oid: string)
    requires ValidGitOid(oid)
    ensures Fields("shallow" + " " + oid) == ["shallow", oid]
  {
    OidIsWord(oid);
    TwoWords("shallow", oid);
  }

  /** A newline at the end is dropped, or is one inside the capabilities, which are cut off anyway. */
  lemma TextOfUpdate(s: Sent)
    requires s.SentUpdate? && WellFormed(s)
    ensures BeforeNul(TrimNewline(Payload(s))) == s.oldOid + " " + s.newOid + " " + s.ref
  {
    var text := s.oldOid + " " + s.newOid + " " + s.ref;
    assert forall i :: 0 <= i < |s.oldOid| ==> HexValue(s.oldOid[i]).Some?;
    assert forall i :: 0 <= i < |s.newOid| ==> HexValue(s.newOid[i]).Some?;
    assert text == s.oldOid + (" " + s.newOid + " " + s.ref);
    assert forall i :: 0 <= i < |text| ==> text[i] != '\0';
    var trimmed := TrimNewline(Payload(s));
    if s.capabilities.Some? {
      assert text <= trimmed && |text| < |trimmed| && trimmed[|text|] == '\0';
      assert trimmed == text + trimmed[|text|..];
      NulCuts(text, trimmed[|text|..]);
    } else {
      assert text + "" == text && text[|text| - 1] == s.ref[|s.ref| - 1];
      TrimTakesNewline(text, s.newline);
      NulCuts(text, "");
    }
  }

  lemma UpdateParses(s: Sent, first: bool)
    requires s.SentUpdate? && WellFormed(s)
    ensures ParseLine(Payload(s), first) == Meaning(s)
  {
    TextOfUpdate(s);
    OidIsWord(s.oldOid);
    OidIsWord(s.newOid);
    ThreeWords(s.oldOid, s.newOid, s.ref);
  }

  lemma LineParses(s: Sent, first: bool)
    requires WellFormed(s) && (s.SentShallow? ==> first)
    ensures ParseLine(Payload(s), first) == Meaning(s)
  {
    if s.SentShallow? { ShallowParses(s); } else { UpdateParses(s, first); }
  }

  /** A length prefix and the payload it counts, off the front of a stream. */
  lemma PrefixedIsTaken(hex: string, payload: string, rest: string, first: bool)
    requires |hex| == 4 && ParseHex(hex) == Some(|payload| + 4) && 4 < |payload| + 4 <= MAX_COMMAND_BYTES
    requires !ParseLine(payload, first).Malformed?
    ensures NextLine(hex + payload + rest, first) == Took(hex + payload, ParseLine(payload, first), rest)
  {
    var line := hex + payload;
    var stream := line + rest;
    assert stream[..4] == hex && stream[4..|line|] == payload;
    assert stream[..|line|] == line && stream[|line|..] == rest;
  }

  lemma LineIsTaken(s: Sent, rest: string, first: bool)
    requires WellFormed(s) && (s.SentShallow? ==> first)
    ensures NextLine(PktLine(Payload(s)) + rest, first) == Took(PktLine(Payload(s)), Meaning(s), rest)
  {
    assert Power16(4) == 0x10000;
    HexReadsBack(|Payload(s)| + 4, 4);
    LineParses(s, first);
    PrefixedIsTaken(Hex(|Payload(s)| + 4, 4), Payload(s), rest, first);
  }

  lemma FlushIsTaken(tail: string, first: bool)
    ensures NextLine(FLUSH + tail, first) == Flush(FLUSH, tail)
  {
    var stream := FLUSH + tail;
    assert stream[..4] == FLUSH && stream[4..] == tail;
    FlushParses();
  }

  lemma FlushParses()
    ensures ParseHex(FLUSH) == Some(0)
  {
    assert Hex(0, 4) == FLUSH;
    assert Power16(4) == 0x10000;
    HexReadsBack(0, 4);
  }

  /** Shallow lines and then updates, ended by a flush: reading them back gives exactly the updates' new
      objects and refs, and leaves what follows, if there is an update and there are at most 255 lines;
      otherwise they are refused. */
  lemma PushRoundTrip(sent: seq<Sent>, tail: string)
    requires (forall i :: 0 <= i < |sent| ==> WellFormed(sent[i])) && InOrder(Lines(sent))
    ensures var bytes := Bytes(Lines(sent), FLUSH);
            ReceiveCommands(bytes + tail) ==
            if |sent| <= 255 && (exists i :: 0 <= i < |sent| && sent[i].SentUpdate?)
            then Some(Receipt(bytes, Commands(Lines(sent)), tail)) else None
  {
    var lines := Lines(sent);
    forall i, first, rest | 0 <= i < |lines| && (lines[i].line.Shallow? ==> first)
      ensures IsRead(NextLine, lines[i], first, rest)
    {
      LineIsTaken(sent[i], rest, first);
    }
    forall first, rest
      ensures NextLine(FLUSH + rest, first) == Flush(FLUSH, rest)
    {
      FlushIsTaken(rest, first);
    }
    WrittenIsRead(NextLine, lines, FLUSH, tail, MAX_COMMANDS, []);
    CommandsCount(lines);
    assert [] + Commands(lines) == Commands(lines);
    assert forall i :: 0 <= i < |sent| ==> (lines[i].line.Shallow? <==> !sent[i].SentUpdate?);
  }

  // ---------------------------------------------------------------- the reader

  class Reader {
    var rest: string

    constructor (stream: string)
      ensures rest == stream
    {
      rest := stream;
    }

    /** Exactly n bytes, or failure with the stream used up. */
    method ReadFull(n: nat) returns (data: Option<string>)
      modifies this
      ensures data.None? <==> |old(rest)| < n
      ensures data.Some? ==> |data.value| == n && old(rest) == data.value + rest
      ensures data.None? ==> rest == ""
    {
      if |rest| < n {
        rest := "";
        return None;
      }
      data := Some(rest[..n]);
      rest := rest[n..];
    }
  }

  lemma LineTaken(here: string, header: string, payload: string, rest: string)
    requires |header| == 4 && here == header + (payload + rest)
    ensures var n := 4 + |payload|; here[..n] == header + payload && here[4..n] == payload && here[n..] == rest
  {
  }

  /** One pkt-line off the reader. */
  method ReadLine(body: Reader, first: bool) returns (step: Step)
    modifies body
    ensures step == NextLine(old(body.rest), first)
    ensures !step.Refused? ==> body.rest == step.rest
  {
    ghost var here := body.rest;
    var header := body.ReadFull(4);
    if header.None? { return Refused; }
    assert here[..4] == header.value && here[4..] == body.rest;
    var length := ParseHex(header.value);
    if length.None? { return Refused; }
    if length.value == 0 { return Flush(header.value, body.rest); }
    if length.value < 4 || length.value > MAX_COMMAND_BYTES { return Refused; }
    var payload := body.ReadFull(length.value - 4);
    if payload.None? { return Refused; }
    LineTaken(here, header.value, payload.value, body.rest);
    var line := ParseLine(payload.value, first);
    if line.Malformed? { return Refused; }
    return Took(header.value + payload.value, line, body.rest);
  }

  method ReadReceiveCommands(body: Reader) returns (r: Option<(string, seq<RefCommand>)>)
    modifies body
    ensures match ReceiveCommands(old(body.rest))
            case None => r.None?
            case Some(receipt) => r == Some((receipt.prefix, receipt.commands)) && body.rest == receipt.rest
    ensures r.Some? ==> r.value.0 + body.rest == old(body.rest)
  {
    var prefix := "";
    var commands := [];
    ghost var target := ReceiveCommands(body.rest);
    AfterNothing(target);
    if target.Some? { ReceivingIsFaithful(body.rest); }
    for k := 0 to MAX_COMMANDS
      invariant Ending(NextLine, prefix, body.rest, MAX_COMMANDS - k, commands) == target
    {
      ghost var here := body.rest;
      var first := commands == [];
      var step := ReadLine(body, first);
      EndingStep(NextLine, prefix, here, MAX_COMMANDS - k, commands, first);
      if step.Refused? { return None; }
      if step.Flush? {
        return if commands == [] then None else Some((prefix + step.read, commands));
      }
      prefix := prefix + step.read;
      commands := Added(commands, step.line);
    }
    return None;
  }

  // ---------------------------------------------------------------- what a push may do

  /** The bytes forwarded upstream for a push, None when it is refused. */
  function Forwarded(stream: string, defaultBranch: string, policy: GitPolicy): Option<string> {
    var r := ReceiveCommands(stream);
    if r.None? then None
    else if forall i :: 0 <= i < |r.value.commands| ==> AuthorizeGitRef(r.value.commands[i], defaultBranch, policy)
    then Some(r.value.prefix + r.value.rest) else None
  }

  /** What a policy permits a command to do: update a tag if tags are granted, or a branch if some push
      is, the default branch only if all are; never to delete. */
  predicate Permitted(command: RefCommand, defaultBranch: string, policy: GitPolicy) {
    && !AllZero(command.newOid)
    && ("refs/heads/" <= command.ref || "refs/tags/" <= command.ref)
    && ("refs/tags/" <= command.ref ==> policy.tags)
    && ("refs/heads/" <= command.ref ==> policy.push == PUSH_NON_DEFAULT || policy.push == PUSH_ALL)
    && (policy.push != PUSH_ALL ==> command.ref != "refs/heads/" + defaultBranch)
  }

  lemma AuthorizedIsPermitted(command: RefCommand, defaultBranch: string, policy: GitPolicy)
    ensures AuthorizeGitRef(command, defaultBranch, policy) <==> Permitted(command, defaultBranch, policy)
    ensures AuthorizeGitRef(command, defaultBranch, policy) ==> GitCanPush(policy)
  {
    BranchOfRef(defaultBranch);
    TagsAreNoBranches(command.ref);
    if "refs/heads/" <= command.ref && command.ref[|"refs/heads/"|..] == defaultBranch {
      assert command.ref == "refs/heads/" + defaultBranch;
    }
  }

  lemma TagsAreNoBranches(ref: string)
    ensures !("refs/heads/" <= ref && "refs/tags/" <= ref)
  {
    assert "refs/heads/"[5] == 'h' && "refs/tags/"[5] == 't';
  }

  lemma BranchOfRef(branch: string)
    ensures ("refs/heads/" + branch)[|"refs/heads/"|..] == branch && ("refs/heads/" + branch)[5] == 'h'
  {
  }

  /** A push is forwarded byte for byte, and a receiver reading it finds only permitted updates under
      branches and tags: no deletion, and none when the policy grants no push. */
  lemma ForwardedPushIsPermitted(stream: string, defaultBranch: string, policy: GitPolicy)
    requires Forwarded(stream, defaultBranch, policy).Some?
    ensures Forwarded(stream, defaultBranch, policy).value == stream && GitCanPush(policy)
    ensures var r := ReceiveCommands(stream).value;
            r.commands != [] && forall i :: 0 <= i < |r.commands| ==> Permitted(r.commands[i], defaultBranch, policy)
  {
    ReceivingIsFaithful(stream);
    CheckedCommands(ReceiveCommands(stream).value.commands, defaultBranch, policy);
  }

  lemma CheckedCommands(commands: seq<RefCommand>, defaultBranch: string, policy: GitPolicy)
    requires commands != [] && forall i :: 0 <= i < |commands| ==> AuthorizeGitRef(commands[i], defaultBranch, policy)
    ensures GitCanPush(policy) && forall i :: 0 <= i < |commands| ==> Permitted(commands[i], defaultBranch, policy)
  {
    forall i | 0 <= i < |commands|
      ensures Permitted(commands[i], defaultBranch, policy) && GitCanPush(policy)
    {
      AuthorizedIsPermitted(commands[i], defaultBranch, policy);
    }
    AuthorizedIsPermitted(commands[0], defaultBranch, policy);
  }
}
