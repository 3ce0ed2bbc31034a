/**
 * Many requests handled at once: the authentication slots, the slots of each capability, the audit
 * record and the forwarding, as effects in one global order.
 *
 * The rate budget, cancelled contexts, the audit emitter and the audit store may refuse at any time.
 */
module RequestHandling {
  import opened Wrappers

  /** The key under which slots are counted: a capability's identifier, or "invalid". */
  datatype Key = Key(id: string)

  /** What resolving the token gave: the capability whose slots the request uses. A token that does not
      resolve uses those of "invalid" and is never served. */
  datatype Ticket = Ticket(capability: Key, mutation: bool, valid: bool)

  datatype Effect =
    | AuthTaken | AuthReturned
    | SlotTaken(capability: Key) | SlotReturned(capability: Key)
    | PreflightEmitted | PreflightStored
    | Forwarded
    | ResultRecorded(emitted: bool, stored: bool)

  /** The effects of one request, in order. */
  type Story = seq<Effect>

  datatype Phase =
    | Start
    | Authenticating
    | Resolved(t: Ticket)
    | Holding(t: Ticket)                              // has a slot
    | Admitted(t: Ticket)                             // within its rate budget
    | Emitted(t: Ticket)                              // preflight emitted, not yet stored
    | Serving(t: Ticket, stored: bool, sent: bool)
    | Closing(t: Ticket)                              // only the slot is left to give back
    | Finished(t: Ticket)
    | TurnedAway                                      // without ever having had a slot

  datatype Action =
    | TakeAuth | RefuseAuth
    | Resolve(outcome: Option<Ticket>)                // None: the repository's identity could not be verified
    | TakeSlot | RefuseSlot
    | Budget(allowed: bool)
    | Emit(works: bool)
    | Store(present: bool, works: bool)
    | Forward
    | Finish(emitted: bool, stored: bool)
    | ReturnSlot

  // ---------------------------------------------------------------- one request

  function Next(p: Phase, a: Action): Option<(Phase, Option<Effect>)> {
    if p.Start? && a.TakeAuth? then Some((Authenticating, Some(AuthTaken)))
    else if p.Start? && a.RefuseAuth? then Some((TurnedAway, None))
    else if p.Authenticating? && a.Resolve? then
      Some((if a.outcome.Some? then Resolved(a.outcome.value) else TurnedAway, Some(AuthReturned)))
    else if p.Resolved? && a.TakeSlot? && p.t.capability.id != "" then
      Some((Holding(p.t), Some(SlotTaken(p.t.capability))))
    else if p.Resolved? && a.RefuseSlot? then Some((TurnedAway, None))
    else if p.Holding? && a.Budget? then Some((if a.allowed && p.t.valid then Admitted(p.t) else Closing(p.t), None))
    else if p.Admitted? && a.Emit? then
      if a.works then Some((Emitted(p.t), Some(PreflightEmitted))) else Some((Closing(p.t), None))
    else if p.Emitted? && a.Store? then
      if a.present && a.works then Some((Serving(p.t, true, false), Some(PreflightStored)))
      else if p.t.mutation then Some((Closing(p.t), None))
      else Some((Serving(p.t, false, false), None))
    else if p.Serving? && a.Forward? && !p.sent then Some((p.(sent := true), Some(Forwarded)))
    else if p.Serving? && a.Finish? then Some((Closing(p.t), Some(ResultRecorded(a.emitted, a.stored))))
    else if p.Closing? && a.ReturnSlot? then Some((Finished(p.t), Some(SlotReturned(p.t.capability))))
    else None
  }

  function With(story: Story, e: Option<Effect>): Story {
    if e.Some? then story + [e.value] else story
  }

  function Count(story: Story, e: Effect): nat {
    if story == [] then 0 else Count(story[..|story| - 1], e) + (if story[|story| - 1] == e then 1 else 0)
  }

  function Results(story: Story): nat {
    if story == [] then 0 else Results(story[..|story| - 1]) + (if story[|story| - 1].ResultRecorded? then 1 else 0)
  }

  /** The preflight went through: emitted, and for a mutation stored as well. */
  predicate Succeeded(t: Ticket, story: Story) {
    PreflightEmitted in story && (t.mutation ==> PreflightStored in story)
  }

  /** Whatever is forwarded comes after the slot was taken and the preflight went through. */
  predicate ForwardsInOrder(t: Ticket, story: Story) {
    forall k :: 0 <= k < |story| && story[k].Forwarded? ==>
      Succeeded(t, story[..k]) && SlotTaken(t.capability) in story[..k]
  }

  predicate HadSlot(p: Phase, c: Key) {
    (p.Holding? || p.Admitted? || p.Emitted? || p.Serving? || p.Closing? || p.Finished?) && p.t.capability == c
  }

  predicate HasSlot(p: Phase, c: Key) {
    HadSlot(p, c) && !p.Finished?
  }

  function One(b: bool): nat {
    if b then 1 else 0
  }

  function SlotsTaken(p: Phase, c: Key): nat {
    One(HadSlot(p, c))
  }

  function SlotsReturned(p: Phase, c: Key): nat {
    One(HadSlot(p, c) && !HasSlot(p, c))
  }

  /** What the phase says about the slots of a capability, and about the authentication slot. */
  predicate SlotsFit(p: Phase, story: Story, c: Key) {
    Count(story, SlotTaken(c)) == SlotsTaken(p, c) && Count(story, SlotReturned(c)) == SlotsReturned(p, c)
  }

  predicate AuthFits(p: Phase, story: Story) {
    && Count(story, AuthTaken) == Count(story, AuthReturned) + One(p.Authenticating?)
    && Count(story, AuthTaken) <= One(!p.Start?)
  }

  predicate Quiet(story: Story) {
    PreflightEmitted !in story && PreflightStored !in story && Forwarded !in story && Results(story) == 0
  }

  /** What it says about the audit record and the forwarding. */
  predicate RecordFits(p: Phase, story: Story) {
    match p
    case Start => Quiet(story)
    case Authenticating => Quiet(story)
    case Resolved(t) => Quiet(story)
    case TurnedAway => Quiet(story)
    case Holding(t) => Quiet(story) && SlotTaken(t.capability) in story
    case Admitted(t) => Quiet(story) && SlotTaken(t.capability) in story && t.valid
    case Emitted(t) =>
      && PreflightEmitted in story && PreflightStored !in story && Forwarded !in story && Results(story) == 0
      && SlotTaken(t.capability) in story && t.valid
    case Serving(t, stored, sent) =>
      && Succeeded(t, story) && SlotTaken(t.capability) in story && t.valid && Results(story) == 0
      && ForwardsInOrder(t, story) && (Forwarded in story <==> sent)
    case Closing(t) => RecordClosed(t, story)
    case Finished(t) => RecordClosed(t, story)
  }

  predicate RecordClosed(t: Ticket, story: Story) {
    Results(story) == One(Succeeded(t, story)) && ForwardsInOrder(t, story) && (!t.valid ==> Forwarded !in story)
  }

  lemma CountGrows(story: Story, e: Option<Effect>, f: Effect)
    ensures Count(With(story, e), f) == Count(story, f) + One(e == Some(f))
  {
    if e.Some? { assert (story + [e.value])[..|story|] == story; }
  }

  lemma ResultsGrow(story: Story, e: Effect)
    ensures Results(story + [e]) == Results(story) + One(e.ResultRecorded?)
  {
    assert (story + [e])[..|story|] == story;
  }

  lemma OrderGrows(t: Ticket, story: Story, e: Effect)
    requires ForwardsInOrder(t, story)
    requires e.Forwarded? ==> Succeeded(t, story) && SlotTaken(t.capability) in story
    ensures ForwardsInOrder(t, story + [e])
  {
    var s := story + [e];
    forall k | 0 <= k < |s| && s[k].Forwarded?
      ensures Succeeded(t, s[..k]) && SlotTaken(t.capability) in s[..k]
    {
      assert s[..k] == story[..k];
    }
  }

  lemma NoForwardsInOrder(t: Ticket, story: Story)
    requires Forwarded !in story
    ensures ForwardsInOrder(t, story)
  {
  }

  lemma SlotsMove(p: Phase, a: Action, c: Key)
    requires Next(p, a).Some?
    ensures var (q, e) := Next(p, a).value;
            && SlotsTaken(q, c) == SlotsTaken(p, c) + One(e == Some(SlotTaken(c)))
            && SlotsReturned(q, c) == SlotsReturned(p, c) + One(e == Some(SlotReturned(c)))
  {
  }

  lemma SlotsStayFitting(p: Phase, a: Action, story: Story, c: Key)
    requires Next(p, a).Some? && SlotsFit(p, story, c)
    ensures var (q, e) := Next(p, a).value; SlotsFit(q, With(story, e), c)
  {
    SlotsMove(p, a, c);
    CountGrows(story, Next(p, a).value.1, SlotTaken(c));
    CountGrows(story, Next(p, a).value.1, SlotReturned(c));
  }

  lemma AuthMoves(p: Phase, a: Action)
    requires Next(p, a).Some?
    ensures var (q, e) := Next(p, a).value;
            && One(q.Authenticating?) ==
               One(p.Authenticating?) + One(e == Some(AuthTaken)) - One(e == Some(AuthReturned))
            && One(e == Some(AuthTaken)) + One(!p.Start?) <= One(!q.Start?)
  {
  }

  lemma AuthStaysFitting(p: Phase, a: Action, story: Story)
    requires Next(p, a).Some? && AuthFits(p, story)
    ensures var (q, e) := Next(p, a).value; AuthFits(q, With(story, e))
  {
    AuthMoves(p, a);
    CountGrows(story, Next(p, a).value.1, AuthTaken);
    CountGrows(story, Next(p, a).value.1, AuthReturned);
  }

  lemma RecordStaysFitting(p: Phase, a: Action, story: Story)
    requires Next(p, a).Some? && RecordFits(p, story)
    ensures var (q, e) := Next(p, a).value; RecordFits(q, With(story, e))
  {
    var (q, e) := Next(p, a).value;
    var after := With(story, e);
    assert Results(after) == Results(story) + (if e.Some? then One(e.value.ResultRecorded?) else 0) by {
      if e.Some? { ResultsGrow(story, e.value); }
    }
    assert forall f :: f in after <==> f in story || e == Some(f);
    if q.Serving? || q.Closing? || q.Finished? { RecordOrders(p, a, story, q.t); }
  }

  lemma RecordOrders(p: Phase, a: Action, story: Story, t: Ticket)
    requires Next(p, a).Some? && RecordFits(p, story)
    requires var q := Next(p, a).value.0; (q.Serving? || q.Closing? || q.Finished?) && t == q.t
    ensures ForwardsInOrder(t, With(story, Next(p, a).value.1))
  {
    var (q, e) := Next(p, a).value;
    if Forwarded !in story { NoForwardsInOrder(t, story); }
    if e.Some? { OrderGrows(t, story, e.value); }
  }

  // ---------------------------------------------------------------- many requests

  datatype Limits = Limits(concurrent: nat)

  function AuthLimit(limits: Limits): nat {
    if limits.concurrent > 64 then limits.concurrent else 64
  }

  /** The requests' phases, the slots in use, and all effects in order, each with its request. */
  datatype Broker = Broker(phases: seq<Phase>, auth: int, active: map<Key, int>, log: seq<(nat, Effect)>)

  function Active(active: map<Key, int>, c: Key): int {
    if c in active then active[c] else 0
  }

  function AuthAfter(auth: int, e: Option<Effect>): int {
    auth + One(e == Some(AuthTaken)) - One(e == Some(AuthReturned))
  }

  function ActiveAfter(active: map<Key, int>, e: Option<Effect>): map<Key, int> {
    match e
    case Some(SlotTaken(c)) => active[c := Active(active, c) + 1]
    case Some(SlotReturned(c)) => active[c := Active(active, c) - 1]
    case _ => active
  }

  function Logged(log: seq<(nat, Effect)>, p: nat, e: Option<Effect>): seq<(nat, Effect)> {
    if e.Some? then log + [(p, e.value)] else log
  }

  /** A slot is taken only while there is room, without waiting. */
  predicate HasRoom(limits: Limits, b: Broker, p: Phase, a: Action) {
    && (a.TakeAuth? ==> b.auth < AuthLimit(limits))
    && (a.TakeSlot? && p.Resolved? ==> Active(b.active, p.t.capability) < limits.concurrent)
  }

  predicate Possible(limits: Limits, b: Broker, p: nat, a: Action) {
    p < |b.phases| && Next(b.phases[p], a).Some? && HasRoom(limits, b, b.phases[p], a)
  }

  function After(b: Broker, p: nat, a: Action): Broker
    requires p < |b.phases| && Next(b.phases[p], a).Some?
  {
    var (q, e) := Next(b.phases[p], a).value;
    Broker(b.phases[p := q], AuthAfter(b.auth, e), ActiveAfter(b.active, e), Logged(b.log, p, e))
  }

  datatype Run = Run(limits: Limits, states: seq<Broker>, moves: seq<(nat, Action)>)

  ghost predicate StepsAt(run: Run, k: nat)
    requires k < |run.moves| && |run.states| == |run.moves| + 1
  {
    var (p, a) := run.moves[k];
    Possible(run.limits, run.states[k], p, a) && run.states[k + 1] == After(run.states[k], p, a)
  }

  /** Any number of requests, taking their steps in any order. */
  ghost predicate IsRun(run: Run) {
    && |run.states| == |run.moves| + 1
    && (forall p :: 0 <= p < |run.states[0].phases| ==> run.states[0].phases[p].Start?)
    && run.states[0].auth == 0 && run.states[0].active == map[] && run.states[0].log == []
    && forall k :: 0 <= k < |run.moves| ==> StepsAt(run, k)
  }

  // ---------------------------------------------------------------- counting slots

  function Holders(phases: seq<Phase>, c: Key): nat {
    if phases == [] then 0 else Holders(phases[..|phases| - 1], c) + One(HasSlot(phases[|phases| - 1], c))
  }

  function Checking(phases: seq<Phase>): nat {
    if phases == [] then 0 else Checking(phases[..|phases| - 1]) + One(phases[|phases| - 1].Authenticating?)
  }

  lemma {:induction false} HoldersMove(phases: seq<Phase>, p: nat, q: Phase, c: Key)
    requires p < |phases|
    ensures Holders(phases[p := q], c) + One(HasSlot(phases[p], c)) == Holders(phases, c) + One(HasSlot(q, c))
    ensures Checking(phases[p := q]) + One(phases[p].Authenticating?) == Checking(phases) + One(q.Authenticating?)
  {
    var n, moved := |phases| - 1, phases[p := q];
    if p == n {
      assert moved[..n] == phases[..n];
    } else {
      HoldersMove(phases[..n], p, q, c);
      assert moved[..n] == phases[..n][p := q];
    }
  }

  lemma {:induction false} NoHolders(phases: seq<Phase>, c: Key)
    requires forall p :: 0 <= p < |phases| ==> phases[p].Start? || phases[p].Finished? || phases[p].TurnedAway?
    ensures Holders(phases, c) == 0 && Checking(phases) == 0
  {
    if phases != [] { NoHolders(phases[..|phases| - 1], c); }
  }

  predicate CountsFit(limits: Limits, phases: seq<Phase>, auth: int, active: map<Key, int>, c: Key) {
    auth == Checking(phases) <= AuthLimit(limits) && Active(active, c) == Holders(phases, c) <= limits.concurrent
  }

  lemma SlotsHeldMove(p: Phase, a: Action, c: Key)
    requires Next(p, a).Some?
    ensures var (q, e) := Next(p, a).value;
            && One(HasSlot(q, c)) == One(HasSlot(p, c)) + One(e == Some(SlotTaken(c))) - One(e == Some(SlotReturned(c)))
            && One(q.Authenticating?) ==
               One(p.Authenticating?) + One(e == Some(AuthTaken)) - One(e == Some(AuthReturned))
            && (e == Some(AuthTaken) <==> a.TakeAuth?)
            && (e == Some(SlotTaken(c)) <==> a.TakeSlot? && p.t.capability == c)
  {
  }

  lemma ActiveMoves(active: map<Key, int>, e: Option<Effect>, c: Key)
    ensures Active(ActiveAfter(active, e), c) ==
            Active(active, c) + One(e == Some(SlotTaken(c))) - One(e == Some(SlotReturned(c)))
  {
  }

  lemma CountsStayFitting(limits: Limits, b: Broker, p: nat, a: Action, c: Key)
    requires Possible(limits, b, p, a) && CountsFit(limits, b.phases, b.auth, b.active, c)
    ensures var after := After(b, p, a); CountsFit(limits, after.phases, after.auth, after.active, c)
  {
    var (q, e) := Next(b.phases[p], a).value;
    HoldersMove(b.phases, p, q, c);
    SlotsHeldMove(b.phases[p], a, c);
    ActiveMoves(b.active, e, c);
  }

  // ---------------------------------------------------------------- each request's story in the log

  function Of(log: seq<(nat, Effect)>, p: nat): Story {
    if log == [] then []
    else
      var n := |log| - 1;
      if log[n].0 == p then Of(log[..n], p) + [log[n].1] else Of(log[..n], p)
  }

  lemma OfLogged(log: seq<(nat, Effect)>, p: nat, e: Option<Effect>, q: nat)
    ensures Of(Logged(log, p, e), q) == if p == q then With(Of(log, q), e) else Of(log, q)
  {
    if e.Some? { assert (log + [(p, e.value)])[..|log|] == log; }
  }

  lemma {:induction false} OfMember(log: seq<(nat, Effect)>, p: nat, e: Effect)
    ensures e in Of(log, p) <==> (p, e) in log
  {
    if log != [] {
      var n := |log| - 1;
      OfMember(log[..n], p, e);
      assert log == log[..n] + [log[n]];
    }
  }

  lemma {:induction false} OfPrefix(log: seq<(nat, Effect)>, i: nat, p: nat)
    requires i <= |log|
    ensures Of(log[..i], p) <= Of(log, p)
    decreases |log| - i
  {
    if i < |log| {
      OfPrefix(log, i + 1, p);
      assert log[..i + 1][..i] == log[..i];
    } else {
      assert log[..i] == log;
    }
  }

  // ---------------------------------------------------------------- what every run keeps

  ghost predicate RequestFits(p: Phase, story: Story) {
    (forall c :: SlotsFit(p, story, c)) && AuthFits(p, story) && RecordFits(p, story)
  }

  ghost predicate StoryFits(b: Broker, p: nat)
    requires p < |b.phases|
  {
    RequestFits(b.phases[p], Of(b.log, p))
  }

  ghost predicate Inv(limits: Limits, b: Broker) {
    && (forall c :: CountsFit(limits, b.phases, b.auth, b.active, c))
    && (forall i :: 0 <= i < |b.log| ==> b.log[i].0 < |b.phases|)
    && forall p :: 0 <= p < |b.phases| ==> StoryFits(b, p)
  }

  lemma RequestStaysFitting(p: Phase, a: Action, story: Story)
    requires Next(p, a).Some? && RequestFits(p, story)
    ensures RequestFits(Next(p, a).value.0, With(story, Next(p, a).value.1))
  {
    AuthStaysFitting(p, a, story);
    RecordStaysFitting(p, a, story);
    var (q, e) := Next(p, a).value;
    forall c
      ensures SlotsFit(q, With(story, e), c)
    {
      SlotsStayFitting(p, a, story, c);
    }
  }

  lemma StoryStays(b: Broker, p: nat, a: Action, q: nat)
    requires p < |b.phases| && q < |b.phases| && Next(b.phases[p], a).Some? && StoryFits(b, q)
    ensures StoryFits(After(b, p, a), q)
  {
    var after := After(b, p, a);
    var story, e := Of(b.log, q), Next(b.phases[p], a).value.1;
    OfLogged(b.log, p, e, q);
    if q == p {
      RequestStaysFitting(b.phases[p], a, story);
      assert Of(after.log, q) == With(story, e);
    } else {
      assert Of(after.log, q) == story;
    }
  }

  lemma StepKeepsInv(limits: Limits, b: Broker, p: nat, a: Action)
    requires Possible(limits, b, p, a) && Inv(limits, b)
    ensures Inv(limits, After(b, p, a))
  {
    var after := After(b, p, a);
    forall c
      ensures CountsFit(limits, after.phases, after.auth, after.active, c)
    {
      CountsStayFitting(limits, b, p, a, c);
    }
    forall q | 0 <= q < |after.phases|
      ensures StoryFits(after, q)
    {
      StoryStays(b, p, a, q);
    }
  }

  lemma {:induction false} EveryRunKeepsInv(run: Run, k: nat)
    requires IsRun(run) && k < |run.states|
    ensures Inv(run.limits, run.states[k])
  {
    if k == 0 {
      var b := run.states[0];
      forall c
        ensures CountsFit(run.limits, b.phases, b.auth, b.active, c)
      {
        NoHolders(b.phases, c);
      }
      forall p | 0 <= p < |b.phases|
        ensures StoryFits(b, p)
      {
        assert b.phases[p].Start?;
      }
    } else {
      EveryRunKeepsInv(run, k - 1);
      assert StepsAt(run, k - 1);
      StepKeepsInv(run.limits, run.states[k - 1], run.moves[k - 1].0, run.moves[k - 1].1);
    }
  }

  // ---------------------------------------------------------------- main results

  /** In every run the slots in use are those of the requests that hold them, and within the limits. */
  lemma SlotsAreConserved(run: Run, k: nat, c: Key)
    requires IsRun(run) && k < |run.states|
    ensures var b := run.states[k];
            && Active(b.active, c) == Holders(b.phases, c) <= run.limits.concurrent
            && b.auth == Checking(b.phases) <= AuthLimit(run.limits)
  {
    EveryRunKeepsInv(run, k);
    var b := run.states[k];
    assert CountsFit(run.limits, b.phases, b.auth, b.active, c);
  }

  /** Once no request is under way, every slot is free again. */
  lemma SlotsComeBack(run: Run, k: nat, c: Key)
    requires IsRun(run) && k < |run.states|
    requires var b := run.states[k];
             forall p :: 0 <= p < |b.phases| ==> b.phases[p].Start? || b.phases[p].Finished? || b.phases[p].TurnedAway?
    ensures Active(run.states[k].active, c) == 0 && run.states[k].auth == 0
  {
    SlotsAreConserved(run, k, c);
    NoHolders(run.states[k].phases, c);
  }

  /** Each request takes at most one slot of each kind, and when it is over has returned it exactly once. */
  lemma EachSlotIsReturnedOnce(run: Run, k: nat, p: nat, c: Key)
    requires IsRun(run) && k < |run.states| && p < |run.states[k].phases|
    requires var phase := run.states[k].phases[p]; phase.Finished? || phase.TurnedAway?
    ensures var story := Of(run.states[k].log, p);
            && Count(story, SlotReturned(c)) == Count(story, SlotTaken(c)) <= 1
            && Count(story, AuthReturned) == Count(story, AuthTaken) <= 1
  {
    EveryRunKeepsInv(run, k);
    assert StoryFits(run.states[k], p);
    assert SlotsFit(run.states[k].phases[p], Of(run.states[k].log, p), c);
  }

  /** Whatever is forwarded comes after its request took its slot and had its preflight emitted, and if
      it is a mutation after the preflight was stored as well. */
  lemma NothingIsForwardedUnrecorded(run: Run, k: nat, i: nat)
    requires IsRun(run) && k < |run.states| && i < |run.states[k].log| && run.states[k].log[i].1.Forwarded?
    ensures var b := run.states[k];
            var p := b.log[i].0;
            && p < |b.phases| && (b.phases[p].Serving? || b.phases[p].Closing? || b.phases[p].Finished?)
            && b.phases[p].t.valid
            && (p, PreflightEmitted) in b.log[..i] && (p, SlotTaken(b.phases[p].t.capability)) in b.log[..i]
            && (b.phases[p].t.mutation ==> (p, PreflightStored) in b.log[..i])
  {
    var b := run.states[k];
    var p := b.log[i].0;
    EveryRunKeepsInv(run, k);
    assert StoryFits(b, p);
    OfMember(b.log, p, Forwarded);
    assert b.log[i] in b.log;
    var before, through := Of(b.log[..i], p), Of(b.log[..i + 1], p);
    assert b.log[..i + 1][..i] == b.log[..i];
    assert through == before + [Forwarded];
    OfPrefix(b.log, i + 1, p);
    assert Of(b.log, p)[|before|] == Forwarded && Of(b.log, p)[..|before|] == before;
    OfMember(b.log[..i], p, PreflightEmitted);
    OfMember(b.log[..i], p, PreflightStored);
    OfMember(b.log[..i], p, SlotTaken(b.phases[p].t.capability));
  }

  /** A finished request has recorded one result if its preflight succeeded, and none otherwise. */
  lemma OneResultPerPreflight(run: Run, k: nat, p: nat)
    requires IsRun(run) && k < |run.states| && p < |run.states[k].phases| && run.states[k].phases[p].Finished?
    ensures var story := Of(run.states[k].log, p);
            Results(story) == if Succeeded(run.states[k].phases[p].t, story) then 1 else 0
  {
    EveryRunKeepsInv(run, k);
    assert StoryFits(run.states[k], p);
  }

  // ---------------------------------------------------------------- the handler

  /** What the handler meets: cancelled contexts, the rate budget, the audit emitter and store (None
      when there is no store), whether the operation forwards, and the audit of the result. */
  datatype World = World(
    authRefused: bool, slotRefused: bool, budget: bool, emits: bool, store: Option<bool>, forwards: bool,
    resultEmitted: bool, resultStored: bool)

  /** What the capability authority says about the token. */
  datatype Resolution = Unverified | BadToken | Granted(capability: string)

  function TicketOf(r: Resolution, mutation: bool): Ticket {
    if r.Granted? then Ticket(Key(r.capability), mutation, true) else Ticket(Key("invalid"), mutation, false)
  }

  /** Where the given actions take a request, and its effects on the way. */
  datatype Trail = Trail(phase: Phase, story: Story)

  function Follow(actions: seq<Action>): Option<Trail> {
    if actions == [] then Some(Trail(Start, []))
    else
      var t, a := Follow(actions[..|actions| - 1]), actions[|actions| - 1];
      if t.None? || Next(t.value.phase, a).None? then None
      else
        var (q, e) := Next(t.value.phase, a).value;
        Some(Trail(q, With(t.value.story, e)))
  }

  lemma {:induction false} FollowFits(actions: seq<Action>)
    requires Follow(actions).Some?
    ensures RequestFits(Follow(actions).value.phase, Follow(actions).value.story)
  {
    if actions != [] {
      var n := |actions| - 1;
      FollowFits(actions[..n]);
      RequestStaysFitting(Follow(actions[..n]).value.phase, actions[n], Follow(actions[..n]).value.story);
    }
  }

  /** All effects so far. */
  datatype Log = Log(effects: Story)

  function Plus(log: Log, story: Story): Log {
    Log(log.effects + story)
  }

  function Recorded(log: Log, e: Option<Effect>): Log {
    if e.Some? then Log(log.effects + [e.value]) else log
  }

  /** One action more, and the log that ends with its effect. */
  ghost method Move(
      before: Log, actions: seq<Action>, trail: Trail, a: Action) returns (longer: seq<Action>, end: Trail)
    requires Follow(actions) == Some(trail) && Next(trail.phase, a).Some?
    ensures var (q, e) := Next(trail.phase, a).value;
            && end.phase == q && Plus(before, end.story) == Recorded(Plus(before, trail.story), e)
    ensures Follow(longer) == Some(end) && (Forward in longer <==> Forward in actions || a.Forward?)
  {
    var (q, e) := Next(trail.phase, a).value;
    longer, end := actions + [a], Trail(q, With(trail.story, e));
    assert longer[..|actions|] == actions;
    if e.Some? { assert before.effects + (trail.story + [e.value]) == before.effects + trail.story + [e.value]; }
  }

  predicate Room(limits: Limits, active: map<Key, int>, t: Ticket, w: World) {
    t.capability.id != "" && !w.slotRefused && Active(active, t.capability) < limits.concurrent
  }

  predicate PreflightWorks(mutation: bool, w: World) {
    w.emits && (mutation ==> w.store == Some(true))
  }

  datatype Admission = NoSlot | OverBudget | Allowed

  // ---------------------------------------------------------------- what a request leaves behind

  /** The effects of the preflight. */
  function PreflightEffects(w: World): Story {
    (if w.emits then [PreflightEmitted] else []) + (if w.emits && w.store == Some(true) then [PreflightStored] else [])
  }

  /** Those of the operation and its result. */
  function ResultEffects(w: World): Story {
    (if w.forwards then [Forwarded] else []) + [ResultRecorded(w.resultEmitted, w.resultStored)]
  }

  /** Those of a request that is served: a preflight, and if it works the operation and its result. */
  function ServedEffects(mutation: bool, w: World): Story {
    PreflightEffects(w)
    + if w.emits && (!mutation || w.store == Some(true))
      then ResultEffects(w) else []
  }

  /** Those of a request with a ticket, if there is room for it. */
  function SlotEffectsOf(limits: Limits, active: map<Key, int>, t: Ticket, w: World): Story {
    if Room(limits, active, t, w) then SlotEffects(t.capability, t.valid, t.mutation, w) else []
  }

  /** Those from the slot of the capability to its return. */
  function SlotEffects(c: Key, valid: bool, mutation: bool, w: World): Story {
    [SlotTaken(c)] + (if w.budget && valid then ServedEffects(mutation, w) else []) + [SlotReturned(c)]
  }

  lemma EffectsOfSlot(log: Log, t: Ticket, w: World)
    ensures Plus(log, []) == log
    ensures var taken := Recorded(log, Some(SlotTaken(t.capability)));
            Plus(log, SlotEffects(t.capability, t.valid, t.mutation, w)) ==
            if w.budget && t.valid then Plus(taken, ServedEffects(t.mutation, w) + [SlotReturned(t.capability)])
            else Recorded(taken, Some(SlotReturned(t.capability)))
  {
    var taken, returned := [SlotTaken(t.capability)], [SlotReturned(t.capability)];
    PlusNothing(log);
    PlusTwice(log, taken, if w.budget && t.valid then ServedEffects(t.mutation, w) + returned else returned);
    assert taken + [] + returned == taken + returned;
    assert taken + ServedEffects(t.mutation, w) + returned == taken + (ServedEffects(t.mutation, w) + returned);
  }

  /** All effects of a request: those of authentication, if it gets that far, and then those of the slot that
      its token calls for, the capability's or the one for invalid tokens. */
  function AllEffects(authenticates: bool, limits: Limits, active: map<Key, int>, resolution: Resolution,
                      mutation: bool, w: World): Story
  {
    if !authenticates then []
    else
      [AuthTaken, AuthReturned] +
      match resolution
      case Unverified => []
      case BadToken =>
        if w.slotRefused || Active(active, Key("invalid")) >= limits.concurrent then []
        else SlotEffects(Key("invalid"), false, mutation, w)
      case Granted(id) =>
        if id == "" || w.slotRefused || Active(active, Key(id)) >= limits.concurrent then []
        else SlotEffects(Key(id), true, mutation, w)
  }

  lemma EffectsAfterAuthentication(
      log: Log, limits: Limits, active: map<Key, int>, resolution: Resolution, mutation: bool, w: World)
    ensures var authenticated := Recorded(Recorded(log, Some(AuthTaken)), Some(AuthReturned));
            Plus(log, AllEffects(true, limits, active, resolution, mutation, w)) ==
            if resolution.Unverified? then authenticated
            else Plus(authenticated, SlotEffectsOf(limits, active, TicketOf(resolution, mutation), w))
  {
    var authenticated := Recorded(Recorded(log, Some(AuthTaken)), Some(AuthReturned));
    PlusTwice(log, [AuthTaken], [AuthReturned]);
    PlusNothing(authenticated);
    PlusTwice(log, [AuthTaken, AuthReturned], SlotEffectsOf(limits, active, TicketOf(resolution, mutation), w));
    assert authenticated == Plus(log, [AuthTaken, AuthReturned]);
    assert [AuthTaken, AuthReturned] + [] == [AuthTaken, AuthReturned];
  }

  lemma PlusTwice(log: Log, a: Story, b: Story)
    ensures Plus(Plus(log, a), b) == Plus(log, a + b)
  {
    assert log.effects + a + b == log.effects + (a + b);
  }

  lemma PlusNothing(log: Log)
    ensures Plus(log, []) == log
  {
    assert log.effects + [] == log.effects;
  }

  class Handler {
    const limits: Limits
    var authentication: int
    var active: map<Key, int>
    var log: Log

    constructor (limits: Limits)
      ensures this.limits == limits && authentication == 0 && active == map[] && log == Log([])
    {
      this.limits := limits;
      authentication, active, log := 0, map[], Log([]);
    }

    method AcquireAuthentication(refused: bool) returns (ok: bool)
      modifies this`authentication, this`log
      ensures ok == (!refused && old(authentication) < AuthLimit(limits))
      ensures authentication == old(authentication) + One(ok)
      ensures log == Recorded(old(log), if ok then Some(AuthTaken) else None)
    {
      if refused || authentication >= AuthLimit(limits) { return false; }
      authentication := authentication + 1;
      log := Recorded(log, Some(AuthTaken));
      return true;
    }

    method ReleaseAuthentication()
      modifies this`authentication, this`log
      ensures authentication == old(authentication) - 1 && log == Recorded(old(log), Some(AuthReturned))
    {
      authentication := authentication - 1;
      log := Recorded(log, Some(AuthReturned));
    }

    method Release(c: Key)
      modifies this`active, this`log
      ensures active == old(active)[c := Active(old(active), c) - 1] && log == Recorded(old(log), Some(SlotReturned(c)))
    {
      active := active[c := Active(active, c) - 1];
      log := Recorded(log, Some(SlotReturned(c)));
    }

    /** A slot, and then a token of the rate budget; without the token the slot goes back at once. */
    method Acquire(c: Key, refused: bool, budget: bool) returns (r: Admission)
      modifies this`active, this`log
      ensures var room := c.id != "" && !refused && Active(old(active), c) < limits.concurrent;
              r == if !room then NoSlot else if budget then Allowed else OverBudget
      ensures match r
              case NoSlot => log == old(log)
              case Allowed => log == Recorded(old(log), Some(SlotTaken(c)))
              case OverBudget => log == Recorded(Recorded(old(log), Some(SlotTaken(c))), Some(SlotReturned(c)))
      ensures forall d :: Active(active, d) == Active(old(active), d) + One(r.Allowed? && c == d)
    {
      if c.id == "" || refused || Active(active, c) >= limits.concurrent { return NoSlot; }
      active := active[c := Active(active, c) + 1];
      log := Recorded(log, Some(SlotTaken(c)));
      if !budget {
        Release(c);
        return OverBudget;
      }
      return Allowed;
    }

    /** An emitted event is enough for a read; a mutation also needs it stored. */
    method Preflight(mutation: bool, emits: bool, store: Option<bool>) returns (ok: bool)
      modifies this`log
      ensures ok == (emits && (mutation ==> store == Some(true)))
      ensures var emitted := Recorded(old(log), if emits then Some(PreflightEmitted) else None);
              log == Recorded(emitted, if emits && store == Some(true) then Some(PreflightStored) else None)
      ensures log == Plus(old(log), (if emits then [PreflightEmitted] else [])
                                    + (if emits && store == Some(true) then [PreflightStored] else []))
    {
      PlusNothing(log);
      PlusTwice(log, [PreflightEmitted], [PreflightStored]);
      if !emits { return false; }
      log := Recorded(log, Some(PreflightEmitted));
      if store.None? { return !mutation; }
      if store.value { log := Recorded(log, Some(PreflightStored)); }
      return store.value || !mutation;
    }

    /** One request from beginning to end takes the steps of the machine above, leaves every slot as it
        found it, and forwards exactly when it has a ticket, a slot, its budget and its preflight. */
    method ServeHTTP(ready: bool, resolution: Resolution, mutation: bool, w: World)
      returns (ghost actions: seq<Action>, ghost end: Trail)
      modifies this
      ensures authentication == old(authentication) && forall c :: Active(active, c) == Active(old(active), c)
      ensures log == Plus(old(log), end.story) && Follow(actions) == Some(end)
      ensures end.phase == TurnedAway || end.phase == Finished(TicketOf(resolution, mutation))
      ensures Forward in actions <==>
                && ready && !w.authRefused && old(authentication) < AuthLimit(limits)
                && Room(limits, old(active), TicketOf(resolution, mutation), w) && resolution.Granted?
                && PreflightWorks(mutation, w) && w.budget && w.forwards
      ensures log == Plus(old(log), AllEffects(
                ready && !w.authRefused && (old(authentication) < 64 || old(authentication) < limits.concurrent),
                limits, old(active), resolution, mutation, w))
    {
      actions, end := [], Trail(Start, []);
      PlusNothing(log);
      if !ready {
        actions, end := Move(old(log), actions, end, RefuseAuth);
        return;
      }
      var ok := AcquireAuthentication(w.authRefused);
      actions, end := Move(old(log), actions, end, if ok then TakeAuth else RefuseAuth);
      if !ok { return; }
      ReleaseAuthentication();
      EffectsAfterAuthentication(old(log), limits, active, resolution, mutation, w);
      ghost var outcome := if resolution.Unverified? then None else Some(TicketOf(resolution, mutation));
      actions, end := Move(old(log), actions, end, Resolve(outcome));
      if resolution.Unverified? { return; }
      actions, end := ServeResolved(TicketOf(resolution, mutation), w, old(log), actions, end);
    }

    method ServeResolved(t: Ticket, w: World, ghost before: Log, ghost sofar: seq<Action>, ghost start: Trail)
      returns (ghost actions: seq<Action>, ghost end: Trail)
      requires log == Plus(before, start.story) && Follow(sofar) == Some(start) && start.phase == Resolved(t)
      modifies this`active, this`log
      ensures forall c :: Active(active, c) == Active(old(active), c)
      ensures log == Plus(before, end.story) && Follow(actions) == Some(end)
      ensures (end.phase == Finished(t) || end.phase == TurnedAway)
      ensures log == Plus(old(log), SlotEffectsOf(limits, old(active), t, w))
      ensures Forward in actions <==>
                || Forward in sofar
                || (&& Room(limits, old(active), t, w) && w.budget && t.valid
                    && PreflightWorks(t.mutation, w) && w.forwards)
    {
      actions, end := sofar, start;
      EffectsOfSlot(log, t, w);
      var r := Acquire(t.capability, w.slotRefused, w.budget);
      if r.NoSlot? {
        actions, end := Move(before, actions, end, RefuseSlot);
        return;
      }
      actions, end := Move(before, actions, end, TakeSlot);
      actions, end := Move(before, actions, end, Budget(r.Allowed?));
      if r.OverBudget? || !t.valid {
        if r.Allowed? { Release(t.capability); }
        actions, end := Move(before, actions, end, ReturnSlot);
        return;
      }
      actions, end := ServeAdmitted(t, w, before, actions, end);
    }

    method ServeAdmitted(t: Ticket, w: World, ghost before: Log, ghost sofar: seq<Action>, ghost start: Trail)
      returns (ghost actions: seq<Action>, ghost end: Trail)
      requires log == Plus(before, start.story) && Follow(sofar) == Some(start) && start.phase == Admitted(t) && t.valid
      modifies this`active, this`log
      ensures forall c :: Active(active, c) == Active(old(active), c) - One(c == t.capability)
      ensures log == Plus(before, end.story) && Follow(actions) == Some(end) && end.phase == Finished(t)
      ensures log == Plus(old(log), ServedEffects(t.mutation, w) + [SlotReturned(t.capability)])
      ensures Forward in actions <==> Forward in sofar || (PreflightWorks(t.mutation, w) && w.forwards)
    {
      var ok;
      PlusTwice(log, PreflightEffects(w), ResultEffects(w));
      PlusTwice(log, ServedEffects(t.mutation, w), [SlotReturned(t.capability)]);
      ok, actions, end := Audited(t, w, before, sofar, start);
      if ok { actions, end := Serve(w, before, actions, end); }
      Release(t.capability);
      actions, end := Move(before, actions, end, ReturnSlot);
    }

    method Audited(t: Ticket, w: World, ghost before: Log, ghost sofar: seq<Action>, ghost start: Trail)
      returns (ok: bool, ghost actions: seq<Action>, ghost end: Trail)
      requires log == Plus(before, start.story) && Follow(sofar) == Some(start) && start.phase == Admitted(t)
      modifies this`log
      ensures log == Plus(before, end.story) && Follow(actions) == Some(end)
      ensures (Forward in actions <==> Forward in sofar)
      ensures ok == PreflightWorks(t.mutation, w) && log == Plus(old(log), PreflightEffects(w))
      ensures end.phase == if ok then Serving(t, w.store == Some(true), false) else Closing(t)
    {
      actions, end := sofar, start;
      ok := Preflight(t.mutation, w.emits, w.store);
      actions, end := Move(before, actions, end, Emit(w.emits));
      if w.emits { actions, end := Move(before, actions, end, Store(w.store.Some?, w.store == Some(true))); }
    }

    /** The operation, and its result recorded however it ended. */
    method Serve(w: World, ghost before: Log, ghost sofar: seq<Action>, ghost start: Trail)
      returns (ghost actions: seq<Action>, ghost end: Trail)
      requires log == Plus(before, start.story) && Follow(sofar) == Some(start)
      requires start.phase.Serving? && !start.phase.sent
      modifies this`log
      ensures log == Plus(before, end.story) && Follow(actions) == Some(end) && end.phase == Closing(start.phase.t)
      ensures log == Plus(old(log), ResultEffects(w))
      ensures Forward in actions <==> Forward in sofar || w.forwards
    {
      actions, end := sofar, start;
      PlusNothing(log);
      PlusTwice(log, [Forwarded], [ResultRecorded(w.resultEmitted, w.resultStored)]);
      if w.forwards {
        log := Recorded(log, Some(Forwarded));
        actions, end := Move(before, actions, end, Forward);
      }
      log := Recorded(log, Some(ResultRecorded(w.resultEmitted, w.resultStored)));
      actions, end := Move(before, actions, end, Finish(w.resultEmitted, w.resultStored));
    }
  }
}
