/**
 * Agreement on one device ID without locks: every caller writes a complete ID to a file of its own
 * and hard-links it to the shared name, which fails when that name is taken.
 *
 * Files are inodes; the shared name and each caller's temporary name refer to them, so a link makes
 * the very file that was written visible under the shared name. Any number of callers take their
 * steps in any order, each system call may fail, and a caller may stop anywhere.
 */
module DeviceId {
  import opened Wrappers
  import opened Strings

  function TrimLeft(s: string): string {
    if s != [] && IsSpace(s[0]) then TrimLeft(s[1..]) else s
  }

  function TrimRight(s: string): string {
    if s != [] && IsSpace(s[|s| - 1]) then TrimRight(s[..|s| - 1]) else s
  }

  function TrimSpace(s: string): string {
    TrimRight(TrimLeft(s))
  }

  /** The textual form of a UUID. */
  predicate IsUuid(s: string) {
    |s| == 36 && forall c :: c in s ==> c == '-' || '0' <= c <= '9' || 'a' <= c <= 'f'
  }

  lemma UuidNeedsNoTrimming(s: string)
    requires IsUuid(s)
    ensures TrimSpace(s) == s
  {
    assert s[0] in s && s[|s| - 1] in s;
  }

  // ---------------------------------------------------------------- callers and the state directory

  datatype Caller =
    | Called
    | Opened(inode: int)
    | Missing
    | Generated(id: string)
    | Writing(id: string, inode: int)
    | Closed(id: string, inode: int)
    | Won(id: string)
    | Lost
    | Reopened(inode: int)
    | Returned(answer: string)
    | Failed

  datatype State = State(
    inodes: map<int, string>,      // file contents
    idFile: Option<int>,           // what the shared name refers to
    callers: map<int, Caller>,
    winners: set<int>)             // callers whose link succeeded

  datatype Move =
    | Open(works: bool)
    | Read(works: bool)
    | Generate(id: string, directory: bool)
    | CreateTemp(inode: int, works: bool)
    | Write(chunk: string, works: bool)
    | Close(works: bool)
    | Link(works: bool)

  datatype Action = Call(p: int) | Proceed(p: int, move: Move)

  /** A directory where the shared name is free, or already holds some file. */
  function Initial(content: Option<string>): State {
    match content
    case None => State(map[], None, map[], {})
    case Some(text) => State(map[0 := text], Some(0), map[], {})
  }

  function CallerNext(s: State, c: Caller, move: Move): Caller {
    match move
    case Open(works) =>
      if c.Called? then
        if !works then Failed else if s.idFile.Some? then Opened(s.idFile.value) else Missing
      else if c.Lost? then
        // The loser reads the winner's file; without one it reports its link error.
        if works && s.idFile.Some? then Reopened(s.idFile.value) else Failed
      else c
    case Read(works) =>
      if (c.Opened? || c.Reopened?) && c.inode in s.inodes then
        if works then Returned(TrimSpace(s.inodes[c.inode])) else Failed
      else if c.Won? then Returned(c.id)
      else c
    case Generate(id, directory) =>
      if c.Missing? && IsUuid(id) then (if directory then Generated(id) else Failed) else c
    case CreateTemp(inode, works) =>
      if !c.Generated? then c
      else if !works then Failed
      else if inode in s.inodes then c
      else Writing(c.id, inode)
    case Write(chunk, works) =>
      if c.Writing? && !works then Failed else c
    case Close(works) =>
      // Closing comes after a write that reported every byte.
      if !c.Writing? || c.inode !in s.inodes || s.inodes[c.inode] != c.id then c
      else if works then Closed(c.id, c.inode)
      else Failed
    case Link(works) =>
      if !c.Closed? then c
      else if works && s.idFile.None? then Won(c.id)
      else Lost
  }

  /** Bytes reach a temporary file piece by piece, and nothing else writes to a file. */
  function InodesAfter(s: State, a: Action): map<int, string> {
    if a.Proceed? && a.p in s.callers then
      var c := s.callers[a.p];
      match a.move
      case CreateTemp(inode, works) =>
        if c.Generated? && works && inode !in s.inodes then s.inodes[inode := ""] else s.inodes
      case Write(chunk, works) =>
        if c.Writing? && c.inode in s.inodes && s.inodes[c.inode] + chunk <= c.id
        then s.inodes[c.inode := s.inodes[c.inode] + chunk]
        else s.inodes
      case _ => s.inodes
    else s.inodes
  }

  predicate Links(s: State, a: Action) {
    && a.Proceed? && a.p in s.callers && s.callers[a.p].Closed?
    && a.move.Link? && a.move.works && s.idFile.None?
  }

  function Step(s: State, a: Action): State {
    State(
      InodesAfter(s, a),
      if Links(s, a) then Some(s.callers[a.p].inode) else s.idFile,
      match a
      case Call(p) => if p in s.callers then s.callers else s.callers[p := Called]
      case Proceed(p, move) => if p in s.callers then s.callers[p := CallerNext(s, s.callers[p], move)] else s.callers,
      if Links(s, a) then s.winners + {a.p} else s.winners)
  }

  datatype Run = Run(content: Option<string>, states: seq<State>, actions: seq<Action>)

  ghost predicate StepsAt(run: Run, k: nat)
    requires k < |run.actions| && |run.states| == |run.actions| + 1
  {
    run.states[k + 1] == Step(run.states[k], run.actions[k])
  }

  ghost predicate IsRun(run: Run) {
    && |run.states| == |run.actions| + 1 && run.states[0] == Initial(run.content)
    && forall k :: 0 <= k < |run.actions| ==> StepsAt(run, k)
  }

  // ---------------------------------------------------------------- what every run keeps

  predicate Holds(c: Caller, inode: int) {
    (c.Writing? || c.Closed?) && c.inode == inode
  }

  ghost predicate CallerOk(s: State, c: Caller) {
    match c
    case Generated(id) => IsUuid(id)
    case Writing(id, inode) =>
      IsUuid(id) && inode in s.inodes && s.inodes[inode] <= id && s.idFile != Some(inode)
    case Closed(id, inode) => IsUuid(id) && inode in s.inodes && s.inodes[inode] == id && s.idFile != Some(inode)
    case Won(id) => IsUuid(id) && s.idFile.Some? && s.idFile.value in s.inodes && s.inodes[s.idFile.value] == id
    case Opened(inode) => s.idFile == Some(inode)
    case Reopened(inode) => s.idFile == Some(inode)
    case Returned(answer) =>
      s.idFile.Some? && s.idFile.value in s.inodes && answer == TrimSpace(s.inodes[s.idFile.value])
    case _ => true
  }

  ghost predicate Inv(content: Option<string>, s: State) {
    && (s.idFile.Some? ==> s.idFile.value in s.inodes)
    && (forall p :: p in s.callers ==> CallerOk(s, s.callers[p]))
    && (forall p, q, inode ::
          p in s.callers && q in s.callers && Holds(s.callers[p], inode) && Holds(s.callers[q], inode) ==> p == q)
    && (content.Some? ==> s.winners == {} && s.idFile == Some(0) && s.inodes[0] == content.value)
    && (content.None? && s.idFile.None? ==> s.winners == {})
    && (content.None? && s.idFile.Some? ==> |s.winners| == 1 && IsUuid(s.inodes[s.idFile.value]))
  }

  /** Once the shared name exists it keeps its file, and that file keeps its content. */
  ghost predicate Stable(s: State, t: State) {
    s.idFile.Some? ==> s.idFile.value in s.inodes && t.idFile == s.idFile
                       && s.idFile.value in t.inodes && t.inodes[s.idFile.value] == s.inodes[s.idFile.value]
  }

  lemma StepIsStable(content: Option<string>, s: State, a: Action)
    requires Inv(content, s)
    ensures Stable(s, Step(s, a))
  {
    if a.Proceed? && a.p in s.callers { assert CallerOk(s, s.callers[a.p]); }
  }

  /** A file that some other caller still holds is not touched. */
  lemma OthersFilesStay(content: Option<string>, s: State, a: Action, p: int)
    requires Inv(content, s) && !(a.Proceed? && a.p == p)
    requires p in s.callers && (s.callers[p].Writing? || s.callers[p].Closed?)
    ensures var inode := s.callers[p].inode;
            inode in s.inodes && inode in Step(s, a).inodes && Step(s, a).inodes[inode] == s.inodes[inode]
            && Step(s, a).idFile != Some(inode)
  {
    assert CallerOk(s, s.callers[p]) && Holds(s.callers[p], s.callers[p].inode);
    if a.Proceed? && a.p in s.callers && (s.callers[a.p].Writing? || s.callers[a.p].Closed?) {
      assert Holds(s.callers[a.p], s.callers[a.p].inode);
    }
  }

  lemma MoverIsOk(content: Option<string>, s: State, a: Action)
    requires Inv(content, s) && a.Proceed? && a.p in s.callers
    ensures CallerOk(Step(s, a), Step(s, a).callers[a.p])
  {
    assert CallerOk(s, s.callers[a.p]);
    if s.callers[a.p].Won? { UuidNeedsNoTrimming(s.callers[a.p].id); }
  }

  lemma CallersStayOk(content: Option<string>, s: State, a: Action, p: int)
    requires Inv(content, s) && p in Step(s, a).callers
    ensures CallerOk(Step(s, a), Step(s, a).callers[p])
  {
    if a.Proceed? && a.p == p {
      MoverIsOk(content, s, a);
    } else if p in s.callers {
      assert CallerOk(s, s.callers[p]);
      StepIsStable(content, s, a);
      if s.callers[p].Writing? || s.callers[p].Closed? { OthersFilesStay(content, s, a, p); }
    }
  }

  lemma HoldersStayApart(content: Option<string>, s: State, a: Action, p: int, q: int, inode: int)
    requires Inv(content, s) && p in Step(s, a).callers && q in Step(s, a).callers
    requires Holds(Step(s, a).callers[p], inode) && Holds(Step(s, a).callers[q], inode)
    ensures p == q
  {
    assert p in s.callers && q in s.callers;
    assert CallerOk(s, s.callers[p]) && CallerOk(s, s.callers[q]);
    if Holds(s.callers[p], inode) && Holds(s.callers[q], inode) { assert p == q; }
  }

  lemma StepKeepsInv(content: Option<string>, s: State, a: Action)
    requires Inv(content, s)
    ensures Inv(content, Step(s, a))
  {
    var t := Step(s, a);
    StepIsStable(content, s, a);
    forall p | p in t.callers
      ensures CallerOk(t, t.callers[p])
    {
      CallersStayOk(content, s, a, p);
    }
    forall p, q, inode | p in t.callers && q in t.callers && Holds(t.callers[p], inode) && Holds(t.callers[q], inode)
      ensures p == q
    {
      HoldersStayApart(content, s, a, p, q, inode);
    }
    if Links(s, a) { assert CallerOk(s, s.callers[a.p]); }
  }

  lemma {:induction false} EveryRunKeepsInv(run: Run, k: nat)
    requires IsRun(run) && k < |run.states|
    ensures Inv(run.content, run.states[k])
  {
    if k > 0 {
      EveryRunKeepsInv(run, k - 1);
      assert StepsAt(run, k - 1);
      StepKeepsInv(run.content, run.states[k - 1], run.actions[k - 1]);
    }
  }

  // ---------------------------------------------------------------- main results

  /** Once present, the shared file is the same file with the same content in every later state. */
  lemma {:induction false} IdFileNeverChanges(run: Run, a: nat, b: nat)
    requires IsRun(run) && a <= b < |run.states|
    ensures Stable(run.states[a], run.states[b])
    decreases b
  {
    EveryRunKeepsInv(run, a);
    if a < b {
      IdFileNeverChanges(run, a, b - 1);
      EveryRunKeepsInv(run, b - 1);
      assert StepsAt(run, b - 1);
      StepIsStable(run.content, run.states[b - 1], run.actions[b - 1]);
    }
  }

  /** All callers that return, whenever they return, return the ID that the shared file holds. */
  lemma CallersAgree(run: Run, a: nat, b: nat, p: int, q: int)
    requires IsRun(run) && a <= b < |run.states|
    requires p in run.states[a].callers && run.states[a].callers[p].Returned?
    requires q in run.states[b].callers && run.states[b].callers[q].Returned?
    ensures run.states[a].callers[p].answer == run.states[b].callers[q].answer
    ensures run.states[b].idFile.Some? && run.states[b].idFile.value in run.states[b].inodes
    ensures run.states[b].callers[q].answer == TrimSpace(run.states[b].inodes[run.states[b].idFile.value])
  {
    EveryRunKeepsInv(run, a);
    EveryRunKeepsInv(run, b);
    IdFileNeverChanges(run, a, b);
    assert CallerOk(run.states[a], run.states[a].callers[p]) && CallerOk(run.states[b], run.states[b].callers[q]);
  }

  /** When the name starts free, it is taken exactly when one link has succeeded, never more than
      one does, and the file behind it is a complete ID, not a piece of one. When it starts taken no
      link succeeds. */
  lemma ExactlyOneLink(run: Run, k: nat)
    requires IsRun(run) && k < |run.states|
    ensures run.content.Some? ==> run.states[k].winners == {}
    ensures run.content.None? ==>
      && |run.states[k].winners| <= 1
      && (run.states[k].idFile.Some? <==> |run.states[k].winners| == 1)
    ensures run.content.None? && run.states[k].idFile.Some? ==>
      run.states[k].idFile.value in run.states[k].inodes && IsUuid(run.states[k].inodes[run.states[k].idFile.value])
  {
    EveryRunKeepsInv(run, k);
  }

  // ---------------------------------------------------------------- no caller fails or waits without a cause

  /** A system call that does not work; a link that meets a taken name is one that does. */
  predicate FaultIn(move: Move) {
    match move
    case Generate(_, directory) => !directory
    case Open(works) => !works
    case Read(works) => !works
    case CreateTemp(_, works) => !works
    case Write(_, works) => !works
    case Close(works) => !works
    case Link(works) => !works
  }

  /** A caller that lost with no shared file to lose to had its link fail. */
  lemma {:induction false} LostWithoutFile(run: Run, k: nat, p: int) returns (j: nat)
    requires IsRun(run) && k < |run.states| && p in run.states[k].callers && run.states[k].callers[p].Lost?
    requires run.states[k].idFile.None?
    ensures j < k && run.actions[j].Proceed? && run.actions[j].p == p && FaultIn(run.actions[j].move)
    decreases k
  {
    assert StepsAt(run, k - 1);
    var s := run.states[k - 1];
    if p in s.callers && s.callers[p].Lost? { j := LostWithoutFile(run, k - 1, p); } else { j := k - 1; }
  }

  /** A caller fails only after one of its own system calls did. */
  lemma {:induction false} FailureHasCause(run: Run, k: nat, p: int) returns (j: nat)
    requires IsRun(run) && k < |run.states| && p in run.states[k].callers && run.states[k].callers[p].Failed?
    ensures j < k && run.actions[j].Proceed? && run.actions[j].p == p && FaultIn(run.actions[j].move)
    decreases k
  {
    assert StepsAt(run, k - 1);
    var s, a := run.states[k - 1], run.actions[k - 1];
    if p in s.callers && s.callers[p].Failed? {
      j := FailureHasCause(run, k - 1, p);
    } else if FaultIn(a.move) {
      j := k - 1;
    } else {
      j := LostWithoutFile(run, k - 1, p);
    }
  }

  /** How far a caller still is from its answer. */
  function Distance(s: State, c: Caller): nat {
    match c
    case Called => 100
    case Missing => 90
    case Generated(_) => 80
    case Writing(id, inode) => if inode in s.inodes && s.inodes[inode] == id then 60 else 70
    case Closed(_, _) => 50
    case Won(_) => 40
    case Lost => 30
    case Opened(_) => 20
    case Reopened(_) => 20
    case Returned(_) => 0
    case Failed => 0
  }

  /** A caller that has not ended has a move that works and brings it nearer to its answer, whatever the
      others have done: nobody waits for anybody. */
  lemma CanMoveOn(content: Option<string>, s: State, p: int, id: string) returns (move: Move)
    requires Inv(content, s) && p in s.callers && !s.callers[p].Returned? && !s.callers[p].Failed?
    requires IsUuid(id) && (s.callers[p].Lost? ==> s.idFile.Some?)
    ensures !FaultIn(move) && p in Step(s, Proceed(p, move)).callers
    ensures var t := Step(s, Proceed(p, move)); Distance(t, t.callers[p]) < Distance(s, s.callers[p])
  {
    assert CallerOk(s, s.callers[p]);
    match s.callers[p]
    case Called => move := Open(true);
    case Opened(_) => move := Read(true);
    case Reopened(_) => move := Read(true);
    case Won(_) => move := Read(true);
    case Missing => move := Generate(id, true);
    case Generated(_) =>
      var inode := AboveAll(s.inodes.Keys);
      move := CreateTemp(inode, true);
    case Writing(text, inode) =>
      if s.inodes[inode] == text {
        move := Close(true);
      } else {
        var chunk := text[|s.inodes[inode]|..];
        assert s.inodes[inode] + chunk == text;
        move := Write(chunk, true);
      }
    case Closed(_, _) => move := Link(true);
    case Lost => move := Open(true);
  }

  // ---------------------------------------------------------------- what every move does

  /** A caller comes to a new stage only from the stage before it, by the call that belongs there. */
  lemma MoveIsInTurn(s: State, p: Caller, move: Move)
    requires CallerNext(s, p, move) != p
    ensures match CallerNext(s, p, move)
            case Called => false
            case Opened(inode) => p == Called && move == Open(true) && s.idFile == Some(inode)
            case Missing => p == Called && move == Open(true) && s.idFile == None
            case Generated(id) => p == Missing && move == Generate(id, true) && IsUuid(id)
            case Writing(id, inode) =>
              p == Generated(id) && move == CreateTemp(inode, true) && inode !in s.inodes
            case Closed(id, inode) =>
              p == Writing(id, inode) && move == Close(true) && inode in s.inodes && s.inodes[inode] == id
            case Won(id) => p.Closed? && p.id == id && move == Link(true) && s.idFile == None
            case Lost => p.Closed? && (move == Link(false) || (move == Link(true) && s.idFile.Some?))
            case Reopened(inode) => p == Lost && move == Open(true) && s.idFile == Some(inode)
            case Returned(answer) =>
              || (move.Read? && p == Won(answer))
              || (move == Read(true) && (p.Opened? || p.Reopened?) && p.inode in s.inodes
                  && answer == TrimSpace(s.inodes[p.inode]))
            case Failed => FaultIn(move) || (p == Lost && move == Open(true) && s.idFile == None)
  {
  }

  /** A call that does not work ends its caller, but for a link, which loses. */
  lemma FaultEnds(s: State, p: Caller, move: Move)
    requires FaultIn(move)
    requires match move
             case Open(_) => p.Called? || p.Lost?
             case Read(_) => (p.Opened? || p.Reopened?) && p.inode in s.inodes
             case Generate(id, _) => p.Missing? && IsUuid(id)
             case CreateTemp(_, _) => p.Generated?
             case Write(_, _) => p.Writing?
             case Close(_) => p.Writing? && p.inode in s.inodes && s.inodes[p.inode] == p.id
             case Link(_) => p.Closed?
    ensures CallerNext(s, p, move) == if move.Link? then Lost else Failed
  {
  }

  function Played(s: State, actions: seq<Action>): State
    decreases |actions|
  {
    if actions == [] then s else Played(Step(s, actions[0]), actions[1..])
  }

  lemma {:induction false} PlayedOn(s: State, first: seq<Action>, more: seq<Action>)
    ensures Played(s, first + more) == Played(Played(s, first), more)
    decreases |first|
  {
    if first == [] {
      assert first + more == more;
    } else {
      assert (first + more)[1..] == first[1..] + more;
      PlayedOn(Step(s, first[0]), first[1..], more);
    }
  }

  lemma PlayTwo(s: State, a: Action, b: Action)
    ensures Played(s, [a, b]) == Step(Step(s, a), b)
  {
    assert [a, b][1..] == [b] && [b][1..] == [];
    assert Played(Step(s, a), [b]) == Played(Step(Step(s, a), b), []);
  }

  lemma PlayOne(s: State, a: Action)
    ensures Played(s, [a]) == Step(s, a)
  {
    assert [a][1..] == [];
    assert Played(Step(s, a), []) == Step(s, a);
  }

  /** The calls one caller makes where there is an ID already, or none yet. */
  function CallsToRead(p: int): seq<Action> {
    [Call(p), Proceed(p, Open(true))] + [Proceed(p, Read(true))]
  }

  function CallsToWrite(p: int, id: string, inode: int): seq<Action> {
    [Call(p), Proceed(p, Open(true))] + ([Proceed(p, Generate(id, true)), Proceed(p, CreateTemp(inode, true))]
    + ([Proceed(p, Write(id, true)), Proceed(p, Close(true))] + [Proceed(p, Link(true)), Proceed(p, Read(true))]))
  }

  /** Left to itself, a caller returns the ID that is there. */
  lemma AloneItReads(content: Option<string>, s: State, p: int)
    requires Inv(content, s) && p !in s.callers && s.idFile.Some?
    ensures var t := Played(s, CallsToRead(p));
            && t.idFile == s.idFile && t.inodes == s.inodes && p in t.callers
            && t.callers[p] == Returned(TrimSpace(s.inodes[s.idFile.value]))
  {
    PlayedOn(s, [Call(p), Proceed(p, Open(true))], [Proceed(p, Read(true))]);
    PlayTwo(s, Call(p), Proceed(p, Open(true)));
    PlayOne(Played(s, [Call(p), Proceed(p, Open(true))]), Proceed(p, Read(true)));
  }

  /** Left to itself where there is none, it puts its own ID there, whole, and returns that. */
  lemma AloneItWrites(s: State, p: int, id: string, inode: int)
    requires p !in s.callers && s.idFile.None? && IsUuid(id) && inode !in s.inodes
    ensures var t := Played(s, CallsToWrite(p, id, inode));
            && t.idFile == Some(inode) && t.inodes == s.inodes[inode := id] && p in t.callers
            && t.callers[p] == Returned(id)
  {
    var first := [Call(p), Proceed(p, Open(true))];
    var second := [Proceed(p, Generate(id, true)), Proceed(p, CreateTemp(inode, true))];
    var third := [Proceed(p, Write(id, true)), Proceed(p, Close(true))];
    var last := [Proceed(p, Link(true)), Proceed(p, Read(true))];
    PlayedOn(s, first, second + (third + last));
    PlayTwo(s, Call(p), Proceed(p, Open(true)));
    var a := Played(s, first);
    PlayedOn(a, second, third + last);
    PlayTwo(a, Proceed(p, Generate(id, true)), Proceed(p, CreateTemp(inode, true)));
    var b := Played(a, second);
    PlayedOn(b, third, last);
    AloneItFinishes(b, p, id, inode);
    assert s.inodes[inode := ""][inode := id] == s.inodes[inode := id];
  }

  lemma AloneItFinishes(s: State, p: int, id: string, inode: int)
    requires p in s.callers && s.callers[p] == Writing(id, inode)
    requires inode in s.inodes && s.inodes[inode] == "" && s.idFile.None?
    ensures var t := Played(Played(s, [Proceed(p, Write(id, true)), Proceed(p, Close(true))]),
                            [Proceed(p, Link(true)), Proceed(p, Read(true))]);
            && t.idFile == Some(inode) && t.inodes == s.inodes[inode := id] && p in t.callers
            && t.callers[p] == Returned(id)
  {
    assert "" + id == id;
    PlayTwo(s, Proceed(p, Write(id, true)), Proceed(p, Close(true)));
    var a := Played(s, [Proceed(p, Write(id, true)), Proceed(p, Close(true))]);
    assert a.callers[p] == Closed(id, inode) && a.inodes == s.inodes[inode := id] && a.idFile.None?;
    PlayTwo(a, Proceed(p, Link(true)), Proceed(p, Read(true)));
  }

  // ---------------------------------------------------------------- reading a file back

  predicate AllSpace(s: string) {
    forall c :: c in s ==> IsSpace(c)
  }

  lemma {:induction false} LeftGoes(left: string, rest: string)
    requires AllSpace(left) && (rest != "" ==> !IsSpace(rest[0]))
    ensures TrimLeft(left + rest) == rest
    decreases |left|
  {
    if left == "" {
      assert left + rest == rest;
    } else {
      assert left[0] in left && (left + rest)[1..] == left[1..] + rest;
      LeftGoes(left[1..], rest);
    }
  }

  lemma {:induction false} RightGoes(rest: string, right: string)
    requires AllSpace(right) && (rest != "" ==> !IsSpace(rest[|rest| - 1]))
    ensures TrimRight(rest + right) == rest
    decreases |right|
  {
    var s, n := rest + right, |right| - 1;
    if right == "" {
      assert s == rest;
    } else {
      assert right[n] in right && s[|s| - 1] == right[n] && s[..|s| - 1] == rest + right[..n];
      RightGoes(rest, right[..n]);
    }
  }

  /** An ID is read without the white space around it, such as the newline of an editor. */
  lemma SpaceAroundGoes(left: string, core: string, right: string)
    requires AllSpace(left) && AllSpace(right) && core != ""
    requires !IsSpace(core[0]) && !IsSpace(core[|core| - 1])
    ensures TrimSpace(left + core + right) == core
  {
    assert left + core + right == left + (core + right) && (core + right)[0] == core[0];
    LeftGoes(left, core + right);
    RightGoes(core, right);
  }
}
