/**
 The rendezvous between a request's runner task and its remote client: plans out through a
 one-slot queue, at most one outcome back for each attempt, one final message at the end.
 */
module ResponsesSession {
  import opened Common

  /** Attempts are numbered as they begin, so no two share an id. */
  datatype Message = Plan(attempt: nat) | Final

  type Outcome = string

  const DISCONNECTED: Outcome := "downstream_disconnected"

  datatype Future = Absent | Pending | Resolved(outcome: Outcome)

  /**
   Where the runner task stands: between attempts, building a plan, putting a plan, waiting for
   its outcome, working on the outcome, putting the final message, or done.
   */
  datatype Phase = Between | Building | Offering | Awaiting | Working | Concluding | Ended | Cancelled

  /** An outcome accepted for `attempt` from a call that named `id`. */
  datatype Acceptance = Acceptance(attempt: nat, id: nat, outcome: Outcome)

  /** `sent`, `taken`, `planned`, `accepted` and `worked` are history; no step reads them. */
  datatype Session = Session(
    phase: Phase, begun: nat, active: Option<nat>, future: Future, queue: seq<Message>, final: bool,
    sent: seq<Message>, taken: seq<Message>, planned: seq<nat>, accepted: seq<Acceptance>, worked: seq<Acceptance>)

  const START := Session(Between, 0, None, Absent, [], false, [], [], [], [], [])

  // ----- steps -----

  function BeginAttempt(s: Session): Session {
    s.(phase := Building, begun := s.begun + 1, active := Some(s.begun), future := Pending)
  }

  /** A put into the one-slot queue; it waits while the slot is taken. */
  function Put(s: Session, m: Message, next: Phase): Session {
    if s.queue != [] then s else s.(phase := next, queue := [m], sent := s.sent + [m])
  }

  function OfferPlan(s: Session): Session {
    if s.active.None? || s.queue != [] then s
    else Put(s, Plan(s.active.value), Awaiting).(planned := s.planned + [s.active.value])
  }

  /** The runner wakes up with its outcome. */
  function Resume(s: Session): Session {
    if s.active.None? || !s.future.Resolved? then s
    else s.(phase := Working, worked := s.worked + [Acceptance(s.active.value, s.active.value, s.future.outcome)])
  }

  /** Leaving an attempt, by result or by exception, forgets it. */
  function EndAttempt(s: Session): Session { s.(phase := Between, active := None, future := Absent) }

  /** The attempt that could take an outcome now. */
  function Open(s: Session): Option<nat> {
    if s.future.Pending? then s.active else None
  }

  /** An outcome is accepted only for the open attempt and under its own id; `None` is the empty id. */
  function Advance(s: Session, id: Option<nat>, outcome: Outcome): Option<Session> {
    if Open(s).None? || id.None? || id != s.active then None
    else Some(s.(future := Resolved(outcome), accepted := s.accepted + [Acceptance(s.active.value, id.value, outcome)]))
  }

  function TakeMessage(s: Session): Session {
    if s.queue == [] then s else s.(queue := s.queue[1..], taken := s.taken + [s.queue[0]])
  }

  /** Cancellation reaches a running task wherever it waits; nothing more is put. */
  function Cancel(s: Session): Session {
    if s.phase == Ended || s.phase == Cancelled then s
    else s.(phase := Cancelled, active := None, future := Absent)
  }

  datatype Event =
    | Begin
    | Built
    | Offer
    | Wake
    | Leave
    | Conclude
    | PutFinal
    | Take
    | Answer(id: Option<nat>, outcome: Outcome)
    | Abort

  /** Each step of the runner has its place; a client may call at any time, under any id. */
  predicate Allowed(s: Session, e: Event) {
    match e
    case Begin => s.phase == Between
    case Built => s.phase == Building
    case Offer => s.phase == Offering
    case Wake => s.phase == Awaiting && s.future.Resolved?
    case Leave => s.phase == Building || s.phase == Working
    case Conclude => s.phase == Between
    case PutFinal => s.phase == Concluding
    case Take => true
    case Answer(_, _) => true
    case Abort => true
  }

  function Apply(s: Session, e: Event): Session {
    match e
    case Begin => BeginAttempt(s)
    case Built => s.(phase := Offering)
    case Offer => OfferPlan(s)
    case Wake => Resume(s)
    case Leave => EndAttempt(s)
    case Conclude => s.(phase := Concluding, final := true)
    case PutFinal => Put(s, Final, Ended)
    case Take => TakeMessage(s)
    case Answer(id, outcome) => (match Advance(s, id, outcome) case Some(r) => r case None => s)
    case Abort => Cancel(s)
  }

  /** An answer that is accepted although the client has not taken the plan it names. */
  predicate Premature(s: Session, e: Event) {
    e.Answer? && Advance(s, e.id, e.outcome).Some? && Plan(e.id.value) !in s.taken
  }

  // ----- invariant -----

  function Plans(ids: seq<nat>): seq<Message> { seq(|ids|, i requires 0 <= i < |ids| => Plan(ids[i])) }

  function Attempts(a: seq<Acceptance>): seq<nat> { seq(|a|, i requires 0 <= i < |a| => a[i].attempt) }

  /** The message stream: plans, and after them at most one final message. */
  predicate StreamOk(s: Session) {
    && s.sent == Plans(s.planned) + (if s.phase == Ended then [Final] else [])
    && s.sent == s.taken + s.queue && |s.queue| <= 1
    && Increasing(s.planned) && (forall k :: k in s.planned ==> k < s.begun)
  }

  /** Every plan but possibly the last has been answered, and only taken plans have been. */
  predicate AnswersOk(s: Session) {
    && (Attempts(s.accepted) == s.planned || (s.planned != [] && Attempts(s.accepted) == s.planned[..|s.planned| - 1]))
    && (forall i :: 0 <= i < |s.accepted| ==>
          s.accepted[i].id == s.accepted[i].attempt && Plan(s.accepted[i].attempt) in s.taken)
    && s.worked <= s.accepted
  }

  /** The runner's phase tells what is open and what has been answered. */
  predicate PhaseOk(s: Session) {
    match s.phase
    case Between => s.active == None && s.future == Absent && Answered(s) && s.queue == []
    case Building => Current(s) && s.future == Pending && Answered(s) && s.begun - 1 !in s.planned && s.queue == []
    case Offering => Current(s) && s.future == Pending && Answered(s) && s.begun - 1 !in s.planned && s.queue == []
    case Awaiting =>
      && Current(s) && s.planned != [] && s.planned[|s.planned| - 1] == s.begun - 1
      && (s.future == Pending ==> !Answered(s))
      && (s.future != Pending ==> s.future.Resolved? && Answered(s) && s.queue == [])
      && (s.future.Resolved? ==> |s.accepted| == |s.worked| + 1 && s.accepted[|s.worked|].outcome == s.future.outcome)
    case Working => Current(s) && s.future.Resolved? && Answered(s) && s.queue == []
    case Concluding => s.active == None && s.future == Absent && Answered(s) && s.queue == []
    case Ended => s.active == None && s.future == Absent && Answered(s)
    case Cancelled => s.active == None && s.future == Absent
  }

  predicate Current(s: Session) { s.begun > 0 && s.active == Some(s.begun - 1) }

  predicate Answered(s: Session) { Attempts(s.accepted) == s.planned }

  /** The runner has worked on every accepted outcome, except one it is about to wake up with. */
  predicate WorkedOk(s: Session) {
    s.phase != Cancelled && !(s.phase == Awaiting && s.future.Resolved?) ==> s.worked == s.accepted
  }

  predicate Inv(s: Session) { StreamOk(s) && AnswersOk(s) && PhaseOk(s) && WorkedOk(s) }

  lemma PlannedIfSent(s: Session, k: nat)
    requires StreamOk(s) && Plan(k) in s.taken
    ensures k in s.planned
  {
    var i :| 0 <= i < |s.taken| && s.taken[i] == Plan(k);
    assert s.sent[i] == Plan(k);
  }

  /** The last plan can have been taken only if the queue is empty. */
  lemma TakenLast(s: Session)
    requires StreamOk(s) && s.phase == Awaiting && s.planned != []
    requires Plan(s.planned[|s.planned| - 1]) in s.taken
    ensures s.queue == []
  {
    var k := s.planned[|s.planned| - 1];
    var i :| 0 <= i < |s.taken| && s.taken[i] == Plan(k);
    assert s.sent[i] == Plan(s.planned[i]) && s.planned[i] == k;
  }

  lemma PlansAppend(ids: seq<nat>, k: nat)
    ensures Plans(ids + [k]) == Plans(ids) + [Plan(k)]
  {
  }

  lemma OfferStream(s: Session)
    requires StreamOk(s) && s.phase == Offering && s.queue == [] && Current(s) && s.begun - 1 !in s.planned
    ensures StreamOk(OfferPlan(s))
  {
    var r := OfferPlan(s);
    assert r.planned == s.planned + [s.begun - 1];
    PlansAppend(s.planned, s.begun - 1);
    forall i | 0 <= i < |s.planned| ensures s.planned[i] < s.begun - 1 { assert s.planned[i] in s.planned; }
  }

  lemma OfferOk(s: Session)
    requires Inv(s) && s.phase == Offering
    ensures Inv(OfferPlan(s))
  {
    hide StreamOk;
    OfferStream(s);
    var r := OfferPlan(s);
    assert r.planned == s.planned + [s.begun - 1];
    assert r.planned[..|r.planned| - 1] == s.planned;
  }

  /** The open attempt can be answered in time only while its plan is awaited. */
  lemma OpenIsAwaiting(s: Session, id: Option<nat>, outcome: Outcome)
    requires Inv(s) && Advance(s, id, outcome).Some? && !Premature(s, Answer(id, outcome))
    ensures s.phase == Awaiting && s.planned != [] && id == Some(s.planned[|s.planned| - 1]) && s.queue == []
    ensures Attempts(s.accepted) == s.planned[..|s.planned| - 1]
  {
    PlannedIfSent(s, id.value);
    TakenLast(s);
  }

  lemma AnswerOk(s: Session, id: Option<nat>, outcome: Outcome)
    requires Inv(s) && Advance(s, id, outcome).Some? && !Premature(s, Answer(id, outcome))
    ensures Inv(Advance(s, id, outcome).value)
  {
    hide StreamOk;
    OpenIsAwaiting(s, id, outcome);
    var r := Advance(s, id, outcome).value;
    assert s.planned == s.planned[..|s.planned| - 1] + [id.value];
    assert Attempts(r.accepted) == Attempts(s.accepted) + [id.value];
    assert StreamOk(r) by { SameStream(s, r); }
  }

  lemma SameStream(s: Session, r: Session)
    requires StreamOk(s) && r == s.(future := r.future, accepted := r.accepted)
    ensures StreamOk(r)
  {
  }

  lemma TakeOk(s: Session)
    requires Inv(s)
    ensures Inv(TakeMessage(s))
  {
    if s.queue != [] { assert s.queue == [s.queue[0]] + s.queue[1..]; }
  }

  lemma PutFinalOk(s: Session)
    requires Inv(s) && s.phase == Concluding
    ensures Inv(Put(s, Final, Ended))
  {
  }

  lemma WakeOk(s: Session)
    requires Inv(s) && Allowed(s, Wake)
    ensures Inv(Resume(s))
  {
    var a := s.accepted[|s.worked|];
    assert Attempts(s.accepted)[|s.worked|] == a.attempt == s.planned[|s.planned| - 1];
    assert s.accepted == s.worked + [a];
  }

  lemma AbortOk(s: Session)
    requires Inv(s)
    ensures Inv(Cancel(s))
  {
  }

  lemma ApplyOk(s: Session, e: Event)
    requires Inv(s) && Allowed(s, e) && !Premature(s, e)
    ensures Inv(Apply(s, e))
  {
    match e
    case Offer => OfferOk(s);
    case Wake => WakeOk(s);
    case PutFinal => PutFinalOk(s);
    case Take => TakeOk(s);
    case Answer(id, outcome) => if Advance(s, id, outcome).Some? { AnswerOk(s, id, outcome); }
    case Abort => AbortOk(s);
    case Begin =>
    case Built =>
    case Leave =>
    case Conclude =>
  }

  // ----- runs -----

  /** A run of the runner beside any client whatever. */
  ghost predicate IsRun(trace: seq<Session>, events: seq<Event>) {
    && |trace| == |events| + 1 && trace[0] == START
    && forall i :: 0 <= i < |events| ==> Allowed(trace[i], events[i]) && trace[i + 1] == Apply(trace[i], events[i])
  }

  /** None of the first `n` events is an accepted answer to a plan not yet taken. */
  ghost predicate Timely(trace: seq<Session>, events: seq<Event>, n: nat)
    requires |trace| == |events| + 1 && n <= |events|
  {
    forall i :: 0 <= i < n ==> !Premature(trace[i], events[i])
  }

  lemma {:induction false} RunInv(trace: seq<Session>, events: seq<Event>, n: nat)
    requires IsRun(trace, events) && n < |trace| && Timely(trace, events, n)
    ensures Inv(trace[n])
  {
    if n > 0 {
      RunInv(trace, events, n - 1);
      ApplyOk(trace[n - 1], events[n - 1]);
    }
  }

  // ----- whatever the client does -----

  /** Facts that no client can break: the message stream, and that an attempt is answered once. */
  predicate AnyClientOk(s: Session) {
    && StreamOk(s)
    && (s.phase == Building || s.phase == Offering ==> Current(s) && s.begun - 1 !in s.planned)
    && (s.future.Pending? ==> Current(s) && forall i :: 0 <= i < |s.accepted| ==> s.accepted[i].attempt < s.begun - 1)
    && (forall i :: 0 <= i < |s.accepted| ==> s.accepted[i].id == s.accepted[i].attempt < s.begun)
    && (forall i, j :: 0 <= i < j < |s.accepted| ==> s.accepted[i].attempt < s.accepted[j].attempt)
    && (Idle(s) ==> s.active == None && s.future == Absent)
  }

  /** Between attempts, or past the last one, nothing is open. */
  predicate Idle(s: Session) { s.phase in {Between, Concluding, Ended, Cancelled} }

  lemma AnyClientStep(s: Session, e: Event)
    requires AnyClientOk(s) && Allowed(s, e)
    ensures AnyClientOk(Apply(s, e))
  {
    hide StreamOk;
    StreamStep(s, e);
    NextUnplanned(s);
  }

  lemma NextUnplanned(s: Session)
    requires StreamOk(s)
    ensures s.begun !in s.planned
  {
  }

  lemma StreamStep(s: Session, e: Event)
    requires AnyClientOk(s) && Allowed(s, e)
    ensures StreamOk(Apply(s, e))
  {
    match e
    case Offer => if s.queue == [] { OfferStream(s); }
    case Take => if s.queue != [] { assert s.queue == [s.queue[0]] + s.queue[1..]; }
    case _ =>
  }

  lemma {:induction false} AnyClientRun(trace: seq<Session>, events: seq<Event>, n: nat)
    requires IsRun(trace, events) && n < |trace|
    ensures AnyClientOk(trace[n])
  {
    if n > 0 {
      AnyClientRun(trace, events, n - 1);
      AnyClientStep(trace[n - 1], events[n - 1]);
    }
  }

  predicate Over(s: Session) { s.phase == Ended || s.phase == Cancelled }

  lemma OverStays(s: Session, e: Event)
    requires AnyClientOk(s) && Over(s) && Allowed(s, e)
    ensures var r := Apply(s, e);
            && r.phase == s.phase && r.begun == s.begun && r.sent == s.sent && r.planned == s.planned
            && r.accepted == s.accepted && r.worked == s.worked && s.taken <= r.taken
  {
  }

  /**
   After a cancellation, and after the final message, nothing more happens: no message is put, no
   attempt begins, no outcome is accepted or worked on, whatever the client still asks for.
   */
  lemma {:induction false} NothingAfterTheEnd(trace: seq<Session>, events: seq<Event>, m: nat, n: nat)
    requires IsRun(trace, events) && m <= n < |trace|
    requires Over(trace[m]) || (m > 0 && events[m - 1] == Abort)
    ensures var s, r := trace[m], trace[n];
            && Over(r) && r.phase == s.phase && r.begun == s.begun && r.sent == s.sent && r.planned == s.planned
            && r.accepted == s.accepted && r.worked == s.worked && s.taken <= r.taken
  {
    hide AnyClientOk;
    if m > 0 && events[m - 1] == Abort { assert trace[m - 1 + 1] == Apply(trace[m - 1], Abort); }
    if m < n {
      NothingAfterTheEnd(trace, events, m, n - 1);
      AnyClientRun(trace, events, n - 1);
      assert trace[n - 1 + 1] == Apply(trace[n - 1], events[n - 1]);
      OverStays(trace[n - 1], events[n - 1]);
    }
  }

  // ----- one round of the rendezvous -----

  /** Events that can happen one after the other. */
  predicate Possible(s: Session, path: seq<Event>)
    decreases |path|
  {
    path != [] ==> Allowed(s, path[0]) && Possible(Apply(s, path[0]), path[1..])
  }

  /** A put finds the slot taken, and the runner waits. */
  lemma FullSlotWaits(s: Session)
    requires s.queue != []
    ensures Apply(s, Offer) == s && Apply(s, PutFinal) == s
  {
  }

  /** The events of one attempt that goes well. */
  function Round(id: nat, outcome: Outcome): seq<Event> {
    [Begin, Built, Offer, Take, Answer(Some(id), outcome), Wake, Leave]
  }

  /**
   One attempt from end to end: a plan goes out under a new id, the client takes exactly that plan and
   answers it, the runner works on exactly that outcome, and everything is as before the next attempt.
   */
  lemma RoundTrip(s: Session, outcome: Outcome)
    requires s.phase == Between && s.queue == []
    ensures Possible(s, Round(s.begun, outcome))
    ensures var id := s.begun;
            var done := Acceptance(id, id, outcome);
            After(s, Round(id, outcome)) == s.(
              begun := id + 1, active := None, future := Absent,
              sent := s.sent + [Plan(id)], taken := s.taken + [Plan(id)],
              planned := s.planned + [id], accepted := s.accepted + [done], worked := s.worked + [done])
  {
    hide After, Possible;
    var id := s.begun;
    PlanGoesOut(s);
    AnswerComesBack(Taken(s), outcome);
    var out, back := [Begin, Built, Offer, Take], [Answer(Some(id), outcome), Wake, Leave];
    assert Round(id, outcome) == out + back;
    StepsJoin(s, out, back);
  }

  /** The client has taken the plan of the next attempt, and the runner waits for its outcome. */
  function Taken(s: Session): Session {
    s.(phase := Awaiting, begun := s.begun + 1, active := Some(s.begun), future := Pending,
       sent := s.sent + [Plan(s.begun)], taken := s.taken + [Plan(s.begun)], planned := s.planned + [s.begun])
  }

  lemma PlanGoesOut(s: Session)
    requires s.phase == Between && s.queue == []
    ensures Possible(s, [Begin, Built, Offer, Take]) && After(s, [Begin, Built, Offer, Take]) == Taken(s)
  {
    hide After, Possible;
    var c := Apply(Apply(Apply(s, Begin), Built), Offer);
    assert c.queue == [Plan(s.begun)] && c.queue[1..] == [];
    LastStep(c, Take);
    StepsCons(Apply(Apply(s, Begin), Built), Offer, [Take]);
    StepsCons(Apply(s, Begin), Built, [Offer, Take]);
    StepsCons(s, Begin, [Built, Offer, Take]);
    assert [Offer] + [Take] == [Offer, Take] && [Built] + [Offer, Take] == [Built, Offer, Take];
    assert [Begin] + [Built, Offer, Take] == [Begin, Built, Offer, Take];
  }

  lemma AnswerComesBack(s: Session, outcome: Outcome)
    requires s.phase == Awaiting && s.active.Some? && s.future == Pending
    ensures var path := [Answer(s.active, outcome), Wake, Leave];
            var done := Acceptance(s.active.value, s.active.value, outcome);
            && Possible(s, path)
            && After(s, path) == s.(phase := Between, active := None, future := Absent,
                                    accepted := s.accepted + [done], worked := s.worked + [done])
  {
    hide After, Possible;
    var e := Apply(s, Answer(s.active, outcome));
    LastStep(Apply(e, Wake), Leave);
    StepsCons(e, Wake, [Leave]);
    StepsCons(s, Answer(s.active, outcome), [Wake, Leave]);
    assert [Wake] + [Leave] == [Wake, Leave];
    assert [Answer(s.active, outcome)] + [Wake, Leave] == [Answer(s.active, outcome), Wake, Leave];
  }

  lemma LastStep(s: Session, e: Event)
    ensures After(s, [e]) == Apply(s, e) && (Possible(s, [e]) <==> Allowed(s, e))
  {
    hide Apply, Allowed;
    assert [e][1..] == [];
  }

  lemma StepsCons(s: Session, e: Event, rest: seq<Event>)
    ensures After(s, [e] + rest) == After(Apply(s, e), rest)
    ensures Possible(s, [e] + rest) <==> Allowed(s, e) && Possible(Apply(s, e), rest)
  {
    hide Apply, Allowed;
    assert ([e] + rest)[1..] == rest;
  }

  lemma {:induction false} StepsJoin(s: Session, path: seq<Event>, rest: seq<Event>)
    ensures After(s, path + rest) == After(After(s, path), rest)
    ensures Possible(s, path + rest) <==> Possible(s, path) && Possible(After(s, path), rest)
    decreases |path|
  {
    hide Apply, Allowed;
    if path == [] {
      assert path + rest == rest;
    } else {
      assert (path + rest)[1..] == path[1..] + rest;
      StepsJoin(Apply(s, path[0]), path[1..], rest);
    }
  }

  /** The end of a session: the final message goes out, and the client takes it. */
  lemma FinalTrip(s: Session)
    requires s.phase == Between && s.queue == []
    ensures Possible(s, [Conclude, PutFinal, Take])
    ensures After(s, [Conclude, PutFinal, Take])
         == s.(phase := Ended, final := true, sent := s.sent + [Final], taken := s.taken + [Final])
  {
    hide After, Possible;
    var b := Apply(Apply(s, Conclude), PutFinal);
    assert b.queue == [Final] && b.queue[1..] == [];
    LastStep(b, Take);
    StepsCons(Apply(s, Conclude), PutFinal, [Take]);
    StepsCons(s, Conclude, [PutFinal, Take]);
    assert [PutFinal] + [Take] == [PutFinal, Take] && [Conclude] + [PutFinal, Take] == [Conclude, PutFinal, Take];
  }

  /**
   The stream in every state of every run, beside any client whatever: plans under increasing ids
   and then at most one final message, nothing of it lost or repeated between the runner, the slot
   and the client, and never more than one message in the slot. And whatever the client answers,
   an attempt is answered at most once, under its own id, and attempts in increasing order.
   */
  lemma StreamSafety(trace: seq<Session>, events: seq<Event>, n: nat)
    requires IsRun(trace, events) && n < |trace|
    ensures var s := trace[n];
            && Increasing(s.planned)
            && (s.sent == Plans(s.planned) || s.sent == Plans(s.planned) + [Final])
            && s.sent == s.taken + s.queue && |s.queue| <= 1
            && (forall i :: 0 <= i < |s.accepted| ==> s.accepted[i].id == s.accepted[i].attempt)
            && Increasing(Attempts(s.accepted))
  {
    AnyClientRun(trace, events, n);
  }

  /**
   Protocol safety in every state reached without a premature answer. The stream is plans under
   increasing ids and then at most one final message; the accepted outcomes answer those plans in
   order, all of them or all but the last, each under its own id; a final message has all of them
   answered; and the runner works on exactly the outcomes accepted, in order, at most the last one
   being due.
   */
  lemma ProtocolSafety(trace: seq<Session>, events: seq<Event>, n: nat)
    requires IsRun(trace, events) && n < |trace| && Timely(trace, events, n)
    ensures var s := trace[n];
            && Increasing(s.planned)
            && (s.sent == Plans(s.planned) || s.sent == Plans(s.planned) + [Final])
            && Attempts(s.accepted) <= s.planned && |s.planned| <= |s.accepted| + 1
            && (Final in s.sent ==> Attempts(s.accepted) == s.planned)
            && (forall i :: 0 <= i < |s.accepted| ==> s.accepted[i].id == s.accepted[i].attempt)
            && s.worked <= s.accepted
  {
    RunInv(trace, events, n);
    var s := trace[n];
    assert Final in s.sent ==> s.phase == Ended;
  }

  /** A plan appears only after the plan before it has been answered. */
  lemma PlanAfterAnswer(trace: seq<Session>, events: seq<Event>, n: nat)
    requires IsRun(trace, events) && n < |events| && Timely(trace, events, n)
    requires |trace[n + 1].planned| > |trace[n].planned|
    ensures Attempts(trace[n].accepted) == trace[n].planned
    ensures |trace[n + 1].planned| == |trace[n].planned| + 1
  {
    RunInv(trace, events, n);
  }

  /** Whenever the runner puts a message the slot is free, so no put ever waits. */
  lemma SlotFreeAtPut(trace: seq<Session>, events: seq<Event>, n: nat)
    requires IsRun(trace, events) && n < |events| && Timely(trace, events, n)
    requires events[n] == Offer || events[n] == PutFinal
    ensures trace[n].queue == [] && |trace[n + 1].sent| == |trace[n].sent| + 1
  {
    RunInv(trace, events, n);
  }

  /** When an attempt is open, and that it is the one begun last. */
  lemma OpenExactly(s: Session)
    requires Inv(s)
    ensures Open(s).Some? <==>
              s.phase == Building || s.phase == Offering || (s.phase == Awaiting && |s.accepted| < |s.planned|)
    ensures Open(s).Some? ==> s.begun > 0 && Open(s) == Some(s.begun - 1)
  {
    assert |Attempts(s.accepted)| == |s.accepted|;
  }

  /**
   Any outcome under any id: accepted exactly under the id of the open attempt. A stale, forged or
   repeated one changes nothing, and no second outcome is accepted for the same attempt.
   */
  lemma AcceptedExactly(s: Session, id: Option<nat>, outcome: Outcome, again: Option<nat>, second: Outcome)
    ensures Advance(s, id, outcome).Some? <==> id.Some? && Open(s) == id
    ensures Advance(s, id, outcome).None? ==> Apply(s, Answer(id, outcome)) == s
    ensures Advance(s, id, outcome).Some? ==>
              && Apply(s, Answer(id, outcome)).future == Resolved(outcome)
              && Advance(Apply(s, Answer(id, outcome)), again, second).None?
  {
  }

  // ----- when a put can wait -----

  /** Steps that the runner takes on its own. */
  predicate RunnerStep(e: Event) { !e.Take? && !e.Answer? && !e.Abort? }

  function After(s: Session, path: seq<Event>): Session
    decreases |path|
  {
    if path == [] then s else After(Apply(s, path[0]), path[1..])
  }

  predicate RunnerPath(s: Session, path: seq<Event>)
    decreases |path|
  {
    path != [] ==>
      RunnerStep(path[0]) && Allowed(s, path[0]) && RunnerPath(Apply(s, path[0]), path[1..])
  }

  /** The runner stands at a put and the slot is taken. */
  predicate Stuck(s: Session) { (s.phase == Offering || s.phase == Concluding) && s.queue != [] }

  /** The runner's own steps can lead it to a put that has to wait for the client. */
  ghost predicate CanWait(s: Session) { exists path :: RunnerPath(s, path) && Stuck(After(s, path)) }

  /** From a state of the invariant the runner alone never gets stuck. */
  lemma {:induction false} NeverStuckAlone(s: Session, path: seq<Event>)
    requires Inv(s) && RunnerPath(s, path)
    ensures !Stuck(After(s, path))
    decreases |path|
  {
    if path != [] {
      ApplyOk(s, path[0]);
      NeverStuckAlone(Apply(s, path[0]), path[1..]);
    }
  }

  /** A path of one step more. */
  lemma StepsTo(s: Session, e: Event)
    requires RunnerStep(e) && Allowed(s, e) && CanWait(Apply(s, e))
    ensures CanWait(s)
  {
    var path :| RunnerPath(Apply(s, e), path) && Stuck(After(Apply(s, e), path));
    var longer := [e] + path;
    assert longer[1..] == path;
    assert RunnerPath(s, longer) && After(s, longer) == After(Apply(s, e), path);
  }

  lemma StuckNow(s: Session)
    requires Stuck(s)
    ensures CanWait(s)
  {
    assert RunnerPath(s, []) && After(s, []) == s;
  }

  /** An awaited attempt that is answered while its plan still lies in the slot leads to a full slot. */
  lemma AnsweredInSlot(s: Session)
    requires s.phase == Awaiting && s.active.Some? && s.future.Resolved? && s.queue != []
    ensures CanWait(s)
  {
    var worked := Apply(s, Wake);
    var left := Apply(worked, Leave);
    var begun := Apply(left, Begin);
    StuckNow(Apply(begun, Built));
    StepsTo(begun, Built);
    StepsTo(left, Begin);
    StepsTo(worked, Leave);
    StepsTo(s, Wake);
  }

  /** Whatever the phase, an answer accepted before its plan was taken makes a put wait. */
  lemma PrematureWaits(s: Session, e: Event)
    requires Inv(s) && Premature(s, e)
    ensures CanWait(Apply(s, e))
  {
    var r := Apply(s, e);
    OpenExactly(s);
    if s.phase == Awaiting {
      LastPlanTaken(s);
      AnsweredInSlot(r);
    } else {
      var offering := if s.phase == Building then Apply(r, Built) else r;
      AnsweredInSlot(Apply(offering, Offer));
      StepsTo(offering, Offer);
      if s.phase == Building { StepsTo(r, Built); }
    }
  }

  /** With an empty slot every plan has been taken. */
  lemma LastPlanTaken(s: Session)
    requires StreamOk(s) && s.phase == Awaiting && s.planned != []
    ensures s.queue == [] ==> Plan(s.planned[|s.planned| - 1]) in s.taken
  {
    if s.queue == [] {
      assert s.sent == s.taken && s.sent == Plans(s.planned);
      assert s.taken[|s.planned| - 1] == Plan(s.planned[|s.planned| - 1]);
    }
  }

  /** One step of anyone makes it possible that a put waits exactly when it is a premature answer. */
  lemma WaitsExactly(s: Session, e: Event)
    requires Inv(s) && Allowed(s, e)
    ensures Premature(s, e) <==> CanWait(Apply(s, e))
  {
    if Premature(s, e) {
      PrematureWaits(s, e);
    } else {
      ApplyOk(s, e);
      forall path | RunnerPath(Apply(s, e), path) ensures !Stuck(After(Apply(s, e), path)) {
        NeverStuckAlone(Apply(s, e), path);
      }
    }
  }

  /**
   Over every run beside any client: the runner can be brought to a put that waits if and only if
   an accepted answer named a plan that the client had not taken.
   */
  lemma PutWaitsExactly(trace: seq<Session>, events: seq<Event>)
    requires IsRun(trace, events)
    ensures (exists n :: 0 <= n < |events| && Premature(trace[n], events[n]))
            <==> (exists m :: 0 <= m < |trace| && CanWait(trace[m]))
  {
    hide Inv, CanWait, Premature;
    if n :| 0 <= n < |events| && Premature(trace[n], events[n]) {
      var first := FirstPremature(trace, events, n);
      RunInv(trace, events, first);
      WaitsExactly(trace[first], events[first]);
      assert CanWait(trace[first + 1]);
    } else {
      forall m | 0 <= m < |trace| ensures !CanWait(trace[m]) {
        RunInv(trace, events, m);
        CannotWait(trace[m]);
      }
    }
  }

  lemma CannotWait(s: Session)
    requires Inv(s)
    ensures !CanWait(s)
  {
    forall path | RunnerPath(s, path) ensures !Stuck(After(s, path)) { NeverStuckAlone(s, path); }
  }

  lemma {:induction false} FirstPremature(trace: seq<Session>, events: seq<Event>, n: nat) returns (first: nat)
    requires |trace| == |events| + 1 && n < |events| && Premature(trace[n], events[n])
    ensures first <= n && Premature(trace[first], events[first]) && Timely(trace, events, first)
    decreases n
  {
    if Timely(trace, events, n) {
      first := n;
    } else {
      var i :| 0 <= i < n && Premature(trace[i], events[i]);
      first := FirstPremature(trace, events, i);
    }
  }

  // ----- the object -----

  /** The slot is empty whenever the runner is about to put something into it. */
  lemma SlotIsFree(s: Session)
    requires Inv(s) && (s.phase == Offering || s.phase == Concluding)
    ensures s.queue == []
  {
  }

  class RustResponsesSession {
    var phase: Phase
    var begun: nat
    var activeAttempt: Option<nat>
    var activeOutcome: Future
    var messages: seq<Message>
    var finalMessage: bool
    ghost var sent: seq<Message>
    ghost var taken: seq<Message>
    ghost var planned: seq<nat>
    ghost var accepted: seq<Acceptance>
    ghost var worked: seq<Acceptance>

    ghost function View(): Session
      reads this
    {
      Session(phase, begun, activeAttempt, activeOutcome, messages, finalMessage,
              sent, taken, planned, accepted, worked)
    }

    ghost predicate Valid()
      reads this
    {
      Inv(View())
    }

    constructor ()
      ensures Valid() && View() == START
    {
      phase, begun, activeAttempt, activeOutcome, messages, finalMessage := Between, 0, None, Absent, [], false;
      sent, taken, planned, accepted, worked := [], [], [], [], [];
    }

    method Begin()
      modifies this
      ensures View() == BeginAttempt(old(View()))
      ensures old(Valid() && Allowed(View(), Event.Begin)) ==> Valid()
    {
      hide Inv;
      if Valid() && Allowed(View(), Event.Begin) { ApplyOk(View(), Event.Begin); }
      activeAttempt := Some(begun);
      activeOutcome := Pending;
      begun := begun + 1;
      phase := Building;
    }

    /** Puts a message if the slot is free. */
    method Publish(m: Message, next: Phase) returns (ok: bool)
      modifies this
      ensures ok <==> old(messages) == []
      ensures View() == Put(old(View()), m, next)
    {
      if messages != [] { return false; }
      messages := [m];
      sent := sent + [m];
      phase := next;
      ok := true;
    }

    method PublishPlan() returns (ok: bool)
      requires activeAttempt.Some?
      modifies this
      ensures ok <==> old(messages) == []
      ensures View() == OfferPlan(old(View()))
      ensures old(Valid() && Allowed(View(), Offer)) ==> ok && Valid()
    {
      hide Inv;
      if Valid() && Allowed(View(), Offer) {
        ApplyOk(View(), Offer);
        SlotIsFree(View());
      }
      ok := Publish(Plan(activeAttempt.value), Awaiting);
      if ok { planned := planned + [activeAttempt.value]; }
    }

    method PublishFinal() returns (ok: bool)
      modifies this
      ensures ok <==> old(messages) == []
      ensures View() == Put(old(View()), Final, Ended)
      ensures old(Valid() && Allowed(View(), PutFinal)) ==> ok && Valid()
    {
      hide Inv;
      if Valid() && Allowed(View(), PutFinal) {
        ApplyOk(View(), PutFinal);
        SlotIsFree(View());
      }
      ok := Publish(Final, Ended);
    }

    /** The outcome handed to the runner when it wakes up. */
    method ReceiveOutcome() returns (outcome: Outcome)
      requires activeAttempt.Some? && activeOutcome.Resolved?
      modifies this
      ensures outcome == old(activeOutcome).outcome && View() == Resume(old(View()))
      ensures old(Valid() && Allowed(View(), Wake)) ==> Valid()
    {
      hide Inv;
      if Valid() && Allowed(View(), Wake) { ApplyOk(View(), Wake); }
      outcome := activeOutcome.outcome;
      worked := worked + [Acceptance(activeAttempt.value, activeAttempt.value, outcome)];
      phase := Working;
    }

    method End()
      modifies this
      ensures View() == EndAttempt(old(View()))
      ensures old(Valid() && Allowed(View(), Leave)) ==> Valid()
    {
      hide Inv;
      if Valid() && Allowed(View(), Leave) { ApplyOk(View(), Leave); }
      activeOutcome := Absent;
      activeAttempt := None;
      phase := Between;
    }

    /** Delivers an outcome; `ok` is false for a control error, which changes nothing. */
    method Deliver(id: Option<nat>, outcome: Outcome) returns (ok: bool)
      modifies this
      ensures ok <==> Advance(old(View()), id, outcome).Some?
      ensures ok ==> Some(View()) == Advance(old(View()), id, outcome)
      ensures !ok ==> View() == old(View())
      ensures old(Valid() && !Premature(View(), Answer(id, outcome))) ==> Valid()
    {
      hide Inv;
      if Valid() && !Premature(View(), Answer(id, outcome)) { ApplyOk(View(), Answer(id, outcome)); }
      if activeAttempt.None? || !activeOutcome.Pending? { return false; }
      if id.None? || id != activeAttempt { return false; }
      activeOutcome := Resolved(outcome);
      accepted := accepted + [Acceptance(activeAttempt.value, id.value, outcome)];
      ok := true;
    }

    method NextMessage() returns (m: Option<Message>)
      modifies this
      ensures m == if old(messages) == [] then None else Some(old(messages)[0])
      ensures View() == TakeMessage(old(View()))
      ensures old(Valid()) ==> Valid()
    {
      hide Inv;
      if Valid() { ApplyOk(View(), Take); }
      if messages == [] { return None; }
      m := Some(messages[0]);
      taken := taken + [messages[0]];
      messages := messages[1..];
    }

    /** Downstream went away: an open attempt is answered with that, and the task is cancelled. */
    method CancelSession()
      modifies this
      ensures View() == Cancel(old(View()))
      ensures old(Valid()) ==> Valid()
    {
      hide Inv;
      if Valid() { ApplyOk(View(), Abort); }
      if phase == Ended || phase == Cancelled { return; }
      if activeAttempt.Some? && activeOutcome.Pending? { activeOutcome := Resolved(DISCONNECTED); }
      phase := Cancelled;
      activeOutcome := Absent;
      activeAttempt := None;
    }
  }
}
