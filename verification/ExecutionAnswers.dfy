/**
 * What each answer of the outside world makes of a call, and what every
 * returned result rests on.
 *
 * The tables below say in plain values what a call does next: the row it
 * leaves, the audit lines it appends, the question it asks or the result it
 * returns.  Together they fix the protocol call by call; the theorems at the
 * end hold over every run, crashes included.
 */
module ExecutionAnswers {
  import opened Common
  import opened ExecutionModels
  import opened ExecutionProtocol
  import opened ExecutionSafety

  // ------------------------------------------------------- queued writes

  /** Performs the writes a running call has queued. */
  function Written(m: Machine): Machine
    decreases if m.pc.Busy? then |m.pc.acts| else 0
  {
    if m.pc.Busy? && m.pc.acts != [] then Written(WriteHead(m)) else m
  }

  /** What queued writes make of a command: its state and stored result, the audit lines, and
      whether a transition was refused on the way. */
  datatype Scene = Scene(state: CommandState, stored: Option<ExecutionResult>, lines: seq<Line>, refused: bool)

  function Played(id: string, x: Scene, act: Act): Scene {
    if x.refused then x
    else match act
      case Save(r) => x.(stored := Some(r))
      case Note(tag, at) => Lined(id, x, tag, if at.Some? then at.value else x.state)
      case Fire(event, target) =>
        var next := Transition(x.state, event, target);
        if next.None? then x.(refused := true) else Lined(id, x, Fsm(event), next.value)
  }

  function Lined(id: string, x: Scene, tag: Tag, s: CommandState): Scene {
    x.(state := s, lines := x.lines + [Line(id, tag, s)])
  }

  function PlayedAll(id: string, x: Scene, acts: seq<Act>): Scene
    decreases |acts|
  {
    if acts == [] then x else PlayedAll(id, Played(id, x, acts[0]), acts[1..])
  }

  lemma {:induction false} PlayedRefused(id: string, x: Scene, acts: seq<Act>)
    requires x.refused
    ensures PlayedAll(id, x, acts) == x
  {
    if acts != [] { PlayedRefused(id, x, acts[1..]); }
  }

  function SceneOf(j: Journal, id: string): Scene
    requires id in j.rows
  {
    Scene(j.rows[id].state, j.rows[id].result, [], false)
  }

  /** The journal j with the row of one command and the audit trail moved on. */
  function Moved(j: Journal, id: string, s: CommandState, stored: Option<ExecutionResult>, lines: seq<Line>): Journal
    requires id in j.rows
  {
    Journal(j.rows[id := Row(j.rows[id].trade, s, stored)], j.order, j.audit + lines)
  }

  lemma {:induction false} WritesPlay(m: Machine, j: Journal, x: Scene)
    requires m.pc.Busy? && m.pc.command.id in j.rows && !x.refused
    requires m.journal == Moved(j, m.pc.command.id, x.state, x.stored, x.lines)
    ensures var id := m.pc.command.id;
      var y, w := PlayedAll(id, x, m.pc.acts), Written(m);
      && w.journal == Moved(j, id, y.state, y.stored, y.lines) && w.book == m.book
      && w.attaches == m.attaches && w.closes == m.closes
      && (if y.refused then w.pc.Idle? && w.last == Some(Raised(StateError))
          else w.pc == m.pc.(acts := []) && w.last == m.last)
    decreases |m.pc.acts|
  {
    if m.pc.acts != [] {
      var id, act := m.pc.command.id, m.pc.acts[0];
      var n, z := WriteHead(m), Played(id, x, act);
      assert n.journal == Moved(j, id, z.state, z.stored, z.lines) by { PlayMoves(j, id, x, act); }
      if z.refused { PlayedRefused(id, z, m.pc.acts[1..]); } else { WritesPlay(n, j, z); }
    }
  }

  lemma PlayMoves(j: Journal, id: string, x: Scene, act: Act)
    requires id in j.rows && !x.refused
    ensures var k, y := Moved(j, id, x.state, x.stored, x.lines), Played(id, x, act);
      match act
      case Save(r) => Store(k, id, r) == Moved(j, id, y.state, y.stored, y.lines)
      case Note(tag, at) =>
        Record(k, id, tag, if at.Some? then at.value else x.state) == Moved(j, id, y.state, y.stored, y.lines)
      case Fire(event, target) =>
        var next := Transition(x.state, event, target);
        if next.None? then y == x.(refused := true)
        else Record(k, id, Fsm(event), next.value) == Moved(j, id, y.state, y.stored, y.lines)
  {
    hide Transition;
    var k, y := Moved(j, id, x.state, x.stored, x.lines), Played(id, x, act);
    match act
    case Save(r) =>
    case Note(tag, at) => assert k.audit + [Line(id, tag, y.state)] == j.audit + y.lines;
    case Fire(event, target) =>
      var next := Transition(x.state, event, target);
      if next.Some? { assert k.audit + [Line(id, Fsm(event), y.state)] == j.audit + y.lines; }
  }

  /** The first four writes of a queue, one after the other. */
  lemma PlayedUpTo(id: string, x: Scene, a: Act, b: Act, c: Act, d: Act)
    ensures PlayedAll(id, x, []) == x
    ensures PlayedAll(id, x, [a]) == Played(id, x, a)
    ensures PlayedAll(id, x, [a, b]) == Played(id, Played(id, x, a), b)
    ensures PlayedAll(id, x, [a, b, c]) == Played(id, Played(id, Played(id, x, a), b), c)
    ensures PlayedAll(id, x, [a, b, c, d]) == Played(id, Played(id, Played(id, Played(id, x, a), b), c), d)
  {
    hide Played;
    var y := Played(id, x, a);
    PlayedFirst(id, x, a, []);
    PlayedFirst(id, x, a, [b]);
    PlayedFirst(id, x, a, [b, c]);
    PlayedFirst(id, x, a, [b, c, d]);
    PlayedFirst(id, y, b, []);
    PlayedFirst(id, y, b, [c]);
    PlayedFirst(id, y, b, [c, d]);
    PlayedFirst(id, Played(id, y, b), c, []);
    PlayedFirst(id, Played(id, y, b), c, [d]);
    PlayedFirst(id, Played(id, Played(id, y, b), c), d, []);
    Joined(a, b, c, d);
    assert [b] + [c, d] == [b, c, d] && [b] + [c] == [b, c] && [c] + [d] == [c, d];
  }

  lemma PlayedFirst(id: string, x: Scene, a: Act, rest: seq<Act>)
    ensures PlayedAll(id, x, [a] + rest) == PlayedAll(id, Played(id, x, a), rest)
  {
    assert ([a] + rest)[1..] == rest;
  }

  lemma Joined<T>(a: T, b: T, c: T, d: T)
    ensures [] + [a] == [a] && [a] + [] == [a] && [a] + [b] == [a, b] && [a, b] + [c] == [a, b, c]
    ensures [a, b, c] + [d] == [a, b, c, d] && [a] + [b, c] == [a, b, c] && [a] + [b, c, d] == [a, b, c, d]
    ensures [a, b] + [c, d] == [a, b, c, d]
  {
  }

  // ------------------------------------------------- where a call stands

  predicate Running(m: Machine) {
    m.pc.Busy? && m.pc.command.id in m.journal.rows
  }

  /** The call of m stands in w before its next question, or its return: its command shows this state
      and result, and these audit lines were appended. */
  predicate Stands(w: Machine, m: Machine, ask: Ask, s: CommandState, stored: Option<ExecutionResult>,
                   lines: seq<Line>)
    requires Running(m)
  {
    && w.pc == Busy(m.pc.command, [], ask)
    && w.journal == Moved(m.journal, m.pc.command.id, s, stored, lines)
  }

  /** The call is about to return r and has stored it. */
  predicate Ends(w: Machine, m: Machine, r: ExecutionResult, how: How, s: CommandState, lines: seq<Line>)
    requires Running(m)
  {
    Stands(w, m, Finish(Returned(r), how), s, Some(r), lines)
  }

  /** The call died on a refused transition after these lines. */
  predicate Dies(w: Machine, m: Machine, s: CommandState, lines: seq<Line>)
    requires Running(m)
  {
    && w.pc.Idle? && w.last == Some(Raised(StateError))
    && w.journal == Moved(m.journal, m.pc.command.id, s, m.journal.rows[m.pc.command.id].result, lines)
  }

  /** An answer is heard and the writes it calls for are done. */
  function Answered(cfg: Config, m: Machine, a: Answer): Machine
    requires Step(cfg, m, Reply(a)).Some?
  {
    Written(Step(cfg, m, Reply(a)).value)
  }

  /** A call begins and its first writes are done. */
  function Begun(cfg: Config, m: Machine, call: Call): Machine
    requires Step(cfg, m, Begin(call)).Some?
  {
    Written(Step(cfg, m, Begin(call)).value)
  }

  lemma AnswerPlays(cfg: Config, m: Machine, a: Answer, pc: Pc)
    requires Running(m) && m.pc.acts == [] && Hear(cfg, m, a).Some? && Hear(cfg, m, a).value.pc == pc
    requires pc.Busy? && pc.command == m.pc.command && Hear(cfg, m, a).value.journal == m.journal
    ensures var id := m.pc.command.id;
      var y, w := PlayedAll(id, SceneOf(m.journal, id), pc.acts), Answered(cfg, m, a);
      && w.journal == Moved(m.journal, id, y.state, y.stored, y.lines)
      && (if y.refused then w.pc.Idle? && w.last == Some(Raised(StateError)) else w.pc == pc.(acts := []))
  {
    hide Hear, WriteHead;
    var id := m.pc.command.id;
    assert m.journal == Moved(m.journal, id, m.journal.rows[id].state, m.journal.rows[id].result, []);
    WritesPlay(Hear(cfg, m, a).value, m.journal, SceneOf(m.journal, id));
  }

  // ------------------------------------------------ the automaton by state

  /** The edges that leave a state on their own event. */
  function EdgeFrom(s: CommandState, e: Event): Option<CommandState> {
    match s
    case Created =>
      if e.ValidateOk? then Some(Validated) else if e.ValidateFail? then Some(Failed)
      else if e.Expire? then Some(Expired) else None
    case Validated =>
      if e.Submit? then Some(Submitted) else if e.ValidateFail? then Some(Failed)
      else if e.Expire? then Some(Expired) else None
    case Submitted =>
      if e.PartialFill? then Some(PartiallyFilled) else if e.FullFill? then Some(Filled)
      else if e.Reject? then Some(Rejected) else if e.Fail? then Some(Failed)
      else if e.Expire? then Some(Expired) else if e.GoUnknown? then Some(Unknown) else None
    case PartiallyFilled => if e.FullFill? then Some(Filled) else LeavesMarket(e)
    case Filled => if e.SlAttaching? then Some(Modifying) else LeavesMarket(e)
    case Modifying => if e.SlAttached? then Some(Filled) else LeavesMarket(e)
    case _ => None
  }

  function LeavesMarket(e: Event): Option<CommandState> {
    if e.Close? then Some(Closed) else if e.GoUnknown? then Some(Unknown) else if e.Fail? then Some(Failed) else None
  }

  /** What a broker may report of a command that was sent. */
  predicate Observable(s: CommandState) {
    s != Created && s != Validated && s != Unknown
  }

  /** The automaton read state by state: CLOSED, REJECTED, FAILED and EXPIRED are never left, UNKNOWN
      only by RECONCILED to what a broker may report, and every other edge is listed above. */
  lemma Edges(s: CommandState)
    ensures !s.Unknown? ==> forall e, t :: Transition(s, e, t) == EdgeFrom(s, e)
    ensures s.Closed? || s.Rejected? || s.Failed? || s.Expired? ==> forall e, t :: Transition(s, e, t).None?
    ensures s.Unknown? ==> forall e, t ::
      Transition(s, e, t) == if e.Reconcile? && t.Some? && Observable(t.value) then t else None
  {
  }

  /** Only a timed-out or failed close-type call is repeated. */
  lemma ResendCodes(e: Option<ErrorCode>)
    ensures Classify(e).Safe? <==> e == Some(NetworkTimeout) || e == Some(CloseFailed)
  {
  }

  // --------------------------------------------- what each answer leads to

  function Unsettled(e: ErrorCode): ExecutionResult {
    ExecutionResult(UnknownStatus, Some(e), 0.0, 0.0, false)
  }

  /** Plans that start with a note and a lifecycle event, and what a third act adds. */
  lemma NoteFire(id: string, x: Scene, tag: Tag, at: Option<CommandState>, e: Event, target: Option<CommandState>,
                 c: Act)
    requires !x.refused && x.lines == []
    ensures var s := if at.Some? then at.value else x.state;
      var n, l := Transition(s, e, target), Line(id, tag, s);
      var a, b := Note(tag, at), Fire(e, target);
      && PlayedAll(id, x, [a]) == x.(state := s, lines := [l])
      && (if n.None? then
            && PlayedAll(id, x, [a, b]) == x.(state := s, lines := [l], refused := true)
            && PlayedAll(id, x, [a, b] + [c]) == x.(state := s, lines := [l], refused := true)
          else
            var y := x.(state := n.value, lines := [l, Line(id, Fsm(e), n.value)]);
            && PlayedAll(id, x, [a, b]) == y && PlayedAll(id, x, [a, b, c]) == Played(id, y, c)
            && PlayedAll(id, x, [a, b] + [c]) == Played(id, y, c))
  {
    hide Transition, PlayedAll;
    var a, b := Note(tag, at), Fire(e, target);
    PlayedUpTo(id, x, a, b, c, c);
    Joined(a, b, c, c);
    var s := if at.Some? then at.value else x.state;
    var l := Line(id, tag, s);
    Joined(l, Line(id, Fsm(e), s), l, l);
    var n := Transition(s, e, target);
    if n.Some? { Joined(l, Line(id, Fsm(e), n.value), l, l); }
  }

  /** The executor's reply to a submit of the SUBMITTED command. */
  lemma SentTable(cfg: Config, m: Machine, n: nat, r: ExecutionResult, landed: bool, sl: map<string, Option<real>>)
    requires Running(m) && m.pc.acts == [] && m.pc.ask == Send(n)
    requires m.journal.rows[m.pc.command.id].state.Submitted?
    ensures var id, w := m.pc.command.id, Answered(cfg, m, Sent(r, landed, sl));
      var x, heard := m.journal.rows[id].result, Line(id, ExecutorResult, Submitted);
      match r.status
      case FilledStatus => Stands(w, m, Position(r), Filled, x, [heard, Line(id, Fsm(FullFill), Filled)])
      case PartialStatus =>
        Stands(w, m, Position(r), PartiallyFilled, x,
          [heard, Line(id, Fsm(PartialFill), PartiallyFilled), Line(id, CancelRemainder, PartiallyFilled)])
      case RejectedStatus => Ends(w, m, r, Direct, Rejected, [heard, Line(id, Fsm(Reject), Rejected)])
      case FailedStatus => Ends(w, m, r, Direct, Failed, [heard, Line(id, Fsm(Fail), Failed)])
      case ExpiredStatus => Ends(w, m, r, Direct, Expired, [heard, Line(id, Fsm(Expire), Expired)])
      case _ =>
        if (r.error == Some(NetworkTimeout) || r.error == Some(CloseFailed)) && n < cfg.submitRetries then
          Stands(w, m, LookUp(n, r), Submitted, x, [heard])
        else Ends(w, m, r, Direct, Unknown, [heard, Line(id, Fsm(GoUnknown), Unknown)])
  {
    hide Written, PlayedAll, Classify, Transition, Moved;
    var id, save := m.pc.command.id, Save(r);
    var x := SceneOf(m.journal, id);
    AnswerPlays(cfg, m, Sent(r, landed, sl), AfterSent(cfg, m.pc.command, n, r));
    ResendCodes(r.error);
    Edges(Submitted);
    match r.status
    case FilledStatus => NoteFire(id, x, ExecutorResult, None, FullFill, None, save);
    case PartialStatus =>
      NoteFire(id, x, ExecutorResult, None, PartialFill, None, Note(CancelRemainder, Some(PartiallyFilled)));
      Joined(Line(id, ExecutorResult, Submitted), Line(id, Fsm(PartialFill), PartiallyFilled),
        Line(id, CancelRemainder, PartiallyFilled), Line(id, CancelRemainder, PartiallyFilled));
    case RejectedStatus => NoteFire(id, x, ExecutorResult, None, Reject, None, save);
    case FailedStatus => NoteFire(id, x, ExecutorResult, None, Fail, None, save);
    case ExpiredStatus => NoteFire(id, x, ExecutorResult, None, Expire, None, save);
    case _ =>
      NoteFire(id, x, ExecutorResult, None, GoUnknown, None, save);
  }

  lemma {:induction false} PlayedConcat(id: string, x: Scene, a: seq<Act>, b: seq<Act>)
    ensures PlayedAll(id, x, a + b) == PlayedAll(id, PlayedAll(id, x, a), b)
    decreases |a|
  {
    hide Played;
    if a == [] {
      assert a + b == b;
    } else {
      assert (a + b)[1..] == a[1..] + b;
      PlayedConcat(id, Played(id, x, a[0]), a[1..], b);
    }
  }

  /** Plans that start with a lifecycle event, and what a second act adds. */
  lemma FireThen(id: string, x: Scene, e: Event, target: Option<CommandState>, c: Act)
    requires !x.refused && x.lines == []
    ensures var n, a := Transition(x.state, e, target), Fire(e, target);
      if n.None? then PlayedAll(id, x, [a]) == PlayedAll(id, x, [a] + [c]) == x.(refused := true)
      else
        var y := x.(state := n.value, lines := [Line(id, Fsm(e), n.value)]);
        PlayedAll(id, x, [a]) == y && PlayedAll(id, x, [a] + [c]) == Played(id, y, c)
  {
    hide Transition, PlayedAll;
    var a := Fire(e, target);
    PlayedUpTo(id, x, a, c, c, c);
    Joined(a, c, c, c);
    var n := Transition(x.state, e, target);
    if n.Some? {
      var l := Line(id, Fsm(e), n.value);
      Joined(l, l, l, l);
    }
  }

  /** The expiry clock: an expired command is never sent, and only a VALIDATED one is. */
  lemma ClockTable(cfg: Config, m: Machine, expired: bool)
    requires Running(m) && m.pc.acts == [] && m.pc.ask == Expiry
    ensures var id, w := m.pc.command.id, Answered(cfg, m, Clock(expired));
      var s, x := m.journal.rows[id].state, m.journal.rows[id].result;
      if expired then
        if s.Created? || s.Validated? || s.Submitted? then
          Ends(w, m, ExecutionResult(ExpiredStatus, Some(CommandExpired), 0.0, 0.0, false), Direct, Expired,
            [Line(id, Fsm(Expire), Expired)])
        else Dies(w, m, s, [])
      else if s.Validated? then Stands(w, m, Send(0), Submitted, x, [Line(id, Fsm(Submit), Submitted)])
      else Dies(w, m, s, [])
  {
    hide Written, PlayedAll, Transition, Moved;
    var id := m.pc.command.id;
    var x, r := SceneOf(m.journal, id), Plain(ExpiredStatus, Some(CommandExpired));
    AnswerPlays(cfg, m, Clock(expired), AfterClock(m.pc.command, expired));
    Edges(x.state);
    FireThen(id, x, Expire, None, Save(r));
    FireThen(id, x, Submit, None, Save(r));
  }

  /** Adopting the broker's truth about an UNKNOWN command after the lines already written. */
  predicate Adopts(w: Machine, m: Machine, before: seq<Line>, s: CommandState, t: Truth)
    requires Running(m)
  {
    var id, x := m.pc.command.id, m.journal.rows[m.pc.command.id].result;
    var lines := before + [Line(id, Fsm(Reconcile), s)];
    match s
    case Filled =>
      Stands(w, m, Position(ExecutionResult(FilledStatus, None, t.filledVolume, t.fillPrice, false)), Filled, x, lines)
    case PartiallyFilled =>
      Stands(w, m, Position(ExecutionResult(FilledStatus, None, t.filledVolume, t.fillPrice, false)),
        PartiallyFilled, x, lines)
    case Submitted =>
      Stands(w, m, Finish(Returned(Unsettled(AmbiguousResponse)), Direct), Submitted, x,
        lines + [Line(id, SubmittedAfterReconcile, Submitted)])
    case Modifying => Ends(w, m, Unsettled(ReconciliationPending), Direct, Modifying, lines)
    case Closed => Ends(w, m, ExecutionResult(ClosedStatus, None, 0.0, 0.0, true), Direct, Closed, lines)
    case Rejected =>
      Ends(w, m, ExecutionResult(RejectedStatus, Some(BrokerReject), 0.0, 0.0, false), Direct, Rejected, lines)
    case Expired =>
      Ends(w, m, ExecutionResult(ExpiredStatus, Some(CommandExpired), 0.0, 0.0, false), Direct, Expired, lines)
    case Failed =>
      Ends(w, m, ExecutionResult(FailedStatus, Some(GenericFailure), 0.0, 0.0, false), Direct, Failed, lines)
    case _ => Dies(w, m, Unknown, before)
  }

  lemma AdoptingPlays(id: string, x: Scene, c: Command, acts: seq<Act>, s: CommandState, t: Truth)
    requires var u := PlayedAll(id, x, acts); u.state.Unknown? && !u.refused && u.stored == x.stored
    ensures var u, y := PlayedAll(id, x, acts), PlayedAll(id, x, Adopting(c, acts, s, t).acts);
      var lines := u.lines + [Line(id, Fsm(Reconcile), s)];
      match s
      case Created => y == u.(refused := true)
      case Validated => y == u.(refused := true)
      case Unknown => y == u.(refused := true)
      case Submitted =>
        y == Scene(Submitted, x.stored, lines + [Line(id, SubmittedAfterReconcile, Submitted)], false)
      case Filled => y == Scene(Filled, x.stored, lines, false)
      case PartiallyFilled => y == Scene(PartiallyFilled, x.stored, lines, false)
      case _ => y == Scene(s, Some(ResultFor(s)), lines, false)
  {
    hide PlayedAll, Transition, ResultFor;
    var u, adopt := PlayedAll(id, x, acts), Fire(Reconcile, Some(s));
    var last := if s.Submitted? then Note(SubmittedAfterReconcile, Some(Submitted)) else Save(ResultFor(s));
    Edges(u.state);
    PlayedConcat(id, x, acts, [adopt]);
    PlayedConcat(id, x, acts, [adopt, last]);
    PlayedUpTo(id, u, adopt, last, last, last);
    assert acts + [adopt] + [last] == acts + [adopt, last];
  }

  /** A look-up after a timeout: resend only on a reachable broker that holds nothing. */
  lemma LookUpTable(cfg: Config, m: Machine, n: nat, r: ExecutionResult, t: Truth)
    requires Running(m) && m.pc.acts == [] && m.pc.ask == LookUp(n, r)
    requires m.journal.rows[m.pc.command.id].state.Submitted?
    ensures var id, w := m.pc.command.id, Answered(cfg, m, Told(t));
      var x, heard := m.journal.rows[id].result, Line(id, ReconcileAfterTimeout, Submitted);
      var lost := Line(id, Fsm(GoUnknown), Unknown);
      if t.ambiguous then Ends(w, m, Unsettled(AmbiguousResponse), Direct, Unknown, [heard, lost])
      else if t.discovered.None? then Stands(w, m, Send(n + 1), Submitted, x, [heard])
      else Adopts(w, m, [heard, lost], t.discovered.value, t)
  {
    hide Written, PlayedAll, Transition, Moved, Adopting;
    var id, c := m.pc.command.id, m.pc.command;
    var x := SceneOf(m.journal, id);
    AnswerPlays(cfg, m, Told(t), AfterLookUp(c, n, r, t));
    Edges(Submitted);
    NoteFire(id, x, ReconcileAfterTimeout, None, GoUnknown, None, Save(UnknownResult(AmbiguousResponse)));
    if !t.ambiguous && t.discovered.Some? {
      AdoptingAsks(c, [Note(ReconcileAfterTimeout, None), Fire(GoUnknown, None)], t.discovered.value, t);
      AdoptingPlays(id, x, c, [Note(ReconcileAfterTimeout, None), Fire(GoUnknown, None)], t.discovered.value, t);
    }
  }

  lemma AdoptingAsks(c: Command, acts: seq<Act>, s: CommandState, t: Truth)
    ensures Adopting(c, acts, s, t).command == c
    ensures Adopting(c, acts, s, t).ask ==
      match s
      case Filled => Position(ExecutionResult(FilledStatus, None, t.filledVolume, t.fillPrice, false))
      case PartiallyFilled => Position(ExecutionResult(FilledStatus, None, t.filledVolume, t.fillPrice, false))
      case Submitted => Finish(Returned(Unsettled(AmbiguousResponse)), Direct)
      case _ => Finish(Returned(ResultFor(s)), Direct)
  {
  }

  /** The broker's truth about an UNKNOWN command. */
  lemma TruthTable(cfg: Config, m: Machine, t: Truth)
    requires Running(m) && m.pc.acts == [] && m.pc.ask == Resolve
    requires m.journal.rows[m.pc.command.id].state.Unknown?
    ensures var id, w := m.pc.command.id, Answered(cfg, m, Told(t));
      var heard := Line(id, ReconciliationQuery, Unknown);
      if t.ambiguous || t.discovered.None? then
        Ends(w, m, Unsettled(ReconciliationPending), Direct, Unknown,
          [heard, Line(id, ReconciliationAmbiguous, Unknown)])
      else Adopts(w, m, [heard], t.discovered.value, t)
  {
    hide Written, PlayedAll, Transition, Moved, Adopting;
    var id, c, h := m.pc.command.id, m.pc.command, Note(ReconciliationQuery, Some(Unknown));
    var x := SceneOf(m.journal, id);
    AnswerPlays(cfg, m, Told(t), AfterTruth(c, t));
    var a, save := Note(ReconciliationAmbiguous, Some(Unknown)), Save(UnknownResult(ReconciliationPending));
    PlayedUpTo(id, x, h, a, save, save);
    Joined(h, a, save, save);
    Joined(Line(id, ReconciliationQuery, Unknown), Line(id, ReconciliationAmbiguous, Unknown),
      Line(id, ReconciliationAmbiguous, Unknown), Line(id, ReconciliationAmbiguous, Unknown));
    if !t.ambiguous && t.discovered.Some? {
      AdoptingAsks(c, [h], t.discovered.value, t);
      AdoptingPlays(id, x, c, [h], t.discovered.value, t);
    }
  }

  /** Two stop-loss levels that differ by less than a billionth. */
  predicate InPlace(p: Snapshot, c: Command) {
    p.sl.Some? && -0.000000001 < p.sl.value - c.sl < 0.000000001
  }

  /** The final result of a fill: the volume and price of the fill, and the stop-loss in place. */
  function Final(fill: ExecutionResult): ExecutionResult {
    ExecutionResult(FilledStatus, None, fill.filledVolume, fill.fillPrice, true)
  }

  /** The position read after a fill; only a FILLED command can go on to attach a stop-loss. */
  lemma PositionTable(cfg: Config, m: Machine, fill: ExecutionResult, p: Option<Snapshot>)
    requires Running(m) && m.pc.acts == [] && m.pc.ask == Position(fill)
    requires var s := m.journal.rows[m.pc.command.id].state; s.Filled? || s.PartiallyFilled?
    ensures var id, w := m.pc.command.id, Answered(cfg, m, At(p));
      var s, x := m.journal.rows[id].state, m.journal.rows[id].result;
      if p.None? then Ends(w, m, Unsettled(AmbiguousResponse), Direct, Unknown, [Line(id, Fsm(GoUnknown), Unknown)])
      else if InPlace(p.value, m.pc.command) then
        Ends(w, m, Final(fill), Guarded(p.value.pid), Filled, [Line(id, SlConfirmed, Filled)])
      else if s.Filled? then
        Stands(w, m, Attach(p.value.pid, fill, 0), Modifying, x, [Line(id, Fsm(SlAttaching), Modifying)])
      else Dies(w, m, PartiallyFilled, [])
  {
    hide Written, PlayedAll, Transition, Moved;
    var id, c := m.pc.command.id, m.pc.command;
    var x, r := SceneOf(m.journal, id), UnknownResult(AmbiguousResponse);
    AnswerPlays(cfg, m, At(p), AfterPosition(c, fill, p));
    Edges(x.state);
    FireThen(id, x, GoUnknown, None, Save(r));
    FireThen(id, x, SlAttaching, None, Save(r));
    NoteThen(id, x, SlConfirmed, Some(Filled), Save(Confirmed(fill)));
  }

  lemma NoteThen(id: string, x: Scene, tag: Tag, at: Option<CommandState>, c: Act)
    requires !x.refused && x.lines == []
    ensures var s := if at.Some? then at.value else x.state;
      var y := x.(state := s, lines := [Line(id, tag, s)]);
      && PlayedAll(id, x, [Note(tag, at)]) == y
      && PlayedAll(id, x, [Note(tag, at), c]) == PlayedAll(id, x, [Note(tag, at)] + [c]) == Played(id, y, c)
  {
    hide PlayedAll;
    PlayedUpTo(id, x, Note(tag, at), c, c, c);
    Joined(Note(tag, at), c, c, c);
    var l := Line(id, tag, if at.Some? then at.value else x.state);
    Joined(l, l, l, l);
  }

  /** One attempt to attach the stop-loss. */
  lemma AttachTable(cfg: Config, m: Machine, pid: string, fill: ExecutionResult, n: nat, applied: bool,
                    sl: map<string, Option<real>>)
    requires Running(m) && m.pc.acts == [] && m.pc.ask == Attach(pid, fill, n)
    requires m.journal.rows[m.pc.command.id].state.Modifying?
    ensures var id, w := m.pc.command.id, Answered(cfg, m, Attached(applied, sl));
      var x, heard := m.journal.rows[id].result, Line(id, SlAttachResult, Modifying);
      if applied then
        Ends(w, m, Final(fill), Guarded(pid), Filled, [heard, Line(id, Fsm(SlAttached), Filled)])
      else if n < cfg.slAttachRetries then Stands(w, m, Attach(pid, fill, n + 1), Modifying, x, [heard])
      else Stands(w, m, CloseUrgently(pid), Modifying, x,
        [heard, Line(id, SlAttachBudgetSpent, Modifying), Line(id, EmergencyCloseRequested, Modifying)])
  {
    hide Written, PlayedAll, Transition, Moved;
    var id, c, h := m.pc.command.id, m.pc.command, Note(SlAttachResult, Some(Modifying));
    var x, save := SceneOf(m.journal, id), Save(Confirmed(fill));
    AnswerPlays(cfg, m, Attached(applied, sl), AfterAttach(cfg, c, pid, fill, n, applied));
    Edges(Modifying);
    NoteFire(id, x, SlAttachResult, Some(Modifying), SlAttached, None, save);
    var a, b := Note(SlAttachBudgetSpent, Some(Modifying)), Note(EmergencyCloseRequested, Some(Modifying));
    PlayedUpTo(id, x, h, a, b, b);
    Joined(h, a, b, b);
    var l := Line(id, SlAttachResult, Modifying);
    Joined(l, Line(id, SlAttachBudgetSpent, Modifying), Line(id, EmergencyCloseRequested, Modifying), l);
  }

  /** The one emergency close. */
  lemma UrgentCloseTable(cfg: Config, m: Machine, pid: string, r: ExecutionResult)
    requires Running(m) && m.pc.acts == [] && m.pc.ask == CloseUrgently(pid)
    requires m.journal.rows[m.pc.command.id].state.Modifying?
    ensures var id, w := m.pc.command.id, Answered(cfg, m, Shut(r));
      var heard := Line(id, EmergencyCloseResult, Modifying);
      if r.status.ClosedStatus? then Ends(w, m, r, EmergencyClosed, Closed, [heard, Line(id, Fsm(Close), Closed)])
      else Ends(w, m, Unsettled(EmergencyCloseFailed), EmergencyClosed, Unknown,
        [heard, Line(id, Fsm(GoUnknown), Unknown)])
  {
    hide Written, PlayedAll, Transition, Moved;
    var id, c := m.pc.command.id, m.pc.command;
    var x := SceneOf(m.journal, id);
    AnswerPlays(cfg, m, Shut(r), AfterUrgentClose(c, r));
    Edges(Modifying);
    NoteFire(id, x, EmergencyCloseResult, Some(Modifying), Close, None, Save(r));
    NoteFire(id, x, EmergencyCloseResult, Some(Modifying), GoUnknown, None, Save(UnknownResult(EmergencyCloseFailed)));
  }

  /** One attempt of a requested close. */
  lemma CloseTable(cfg: Config, m: Machine, pid: string, n: nat, r: ExecutionResult)
    requires Running(m) && m.pc.acts == [] && m.pc.ask == CloseDown(pid, n)
    ensures var id, w := m.pc.command.id, Answered(cfg, m, Shut(r));
      var s, x := m.journal.rows[id].state, m.journal.rows[id].result;
      var heard, open := Line(id, CloseResult, s), s.PartiallyFilled? || s.Filled? || s.Modifying?;
      if r.status.ClosedStatus? then
        if open then Ends(w, m, r, Direct, Closed, [heard, Line(id, Fsm(Close), Closed)]) else Dies(w, m, s, [heard])
      else if n < cfg.closeRetries then Stands(w, m, CloseDown(pid, n + 1), s, x, [heard])
      else if open || s.Submitted? then
        Ends(w, m, Unsettled(AmbiguousResponse), Direct, Unknown, [heard, Line(id, Fsm(GoUnknown), Unknown)])
      else Dies(w, m, s, [heard])
  {
    hide Written, PlayedAll, Transition, Moved;
    var id, c := m.pc.command.id, m.pc.command;
    var x := SceneOf(m.journal, id);
    AnswerPlays(cfg, m, Shut(r), AfterClose(cfg, c, pid, n, r));
    Edges(x.state);
    NoteFire(id, x, CloseResult, None, Close, None, Save(r));
    NoteFire(id, x, CloseResult, None, GoUnknown, None, Save(UnknownResult(AmbiguousResponse)));
  }

  // --------------------------------------------------- what each call starts

  /** A call that ends at once, with the journal as it found it. */
  predicate EndsAt(w: Machine, m: Machine, c: Command, out: Outcome) {
    w.pc == Busy(c, [], Finish(out, Direct)) && w.journal == m.journal
  }

  /** A plan becomes a command exactly when it is valid and fresh, no command waits, is in flight or
      unknown, the id is new and no other command of the trade is still active. */
  lemma CreateTable(cfg: Config, m: Machine, c: Command, planValid: bool, planExpired: bool)
    requires m.pc.Idle?
    ensures var w, rows := Begun(cfg, m, CreateCall(c, planValid, planExpired)), m.journal.rows;
      if !planValid then EndsAt(w, m, c, Raised(InvalidError))
      else if planExpired then EndsAt(w, m, c, Raised(ExpiredError))
      else if exists k :: k in rows && rows[k].state in {Created, Validated, Submitted, Unknown} then
        EndsAt(w, m, c, Raised(PendingError))
      else if c.id in rows
        || exists k :: k in rows && rows[k].trade == c.trade && rows[k].state !in {Closed, Rejected, Failed, Expired}
      then EndsAt(w, m, c, Raised(DuplicateError))
      else
        && w.pc == Busy(c, [], Finish(Accepted(c), Direct))
        && w.journal == Journal(rows[c.id := Row(c.trade, Created, None)], m.journal.order + [c.id],
                                m.journal.audit + [Line(c.id, CommandCreated, Created)])
  {
    hide Written, PlayedAll;
    var call, j := CreateCall(c, planValid, planExpired), m.journal;
    var rows := j.rows;
    assert GateShut(j) <==> exists k :: k in rows && rows[k].state in {Created, Validated, Submitted, Unknown};
    assert TradeActive(j, c.trade) <==>
      exists k :: k in rows && rows[k].trade == c.trade && rows[k].state !in {Closed, Rejected, Failed, Expired};
    var n := Start(m, call);
    if EntersRow(j, call) {
      assert n.journal == Moved(n.journal, c.id, Created, None, []);
      WritesPlay(n, n.journal, Scene(Created, None, [], false));
      NoteThen(c.id, Scene(Created, None, [], false), CommandCreated, Some(Created), Save(Unsettled(Unclassified)));
    } else {
      StandsStill(n);
    }
  }

  lemma StandsStill(n: Machine)
    requires n.pc.Busy? && n.pc.acts == []
    ensures Written(n) == n
  {
  }

  /** A submit call: replays a stored result, refuses a terminal command, answers UNKNOWN for one in
      flight, and otherwise validates and goes on to the expiry clock. */
  lemma SubmitTable(cfg: Config, m: Machine, c: Command, valid: bool)
    requires m.pc.Idle?
    ensures var w, rows := Begun(cfg, m, SubmitCall(c, valid)), m.journal.rows;
      if c.id !in rows then EndsAt(w, m, c, Raised(InvalidError))
      else
        var s, x, n := rows[c.id].state, rows[c.id].result, m.(pc := Busy(c, [], Expiry));
        if x.Some? then w.pc == Busy(c, [], Finish(Returned(x.value), Replayed)) && w.journal == m.journal
        else if s in {Closed, Rejected, Failed, Expired} then EndsAt(w, m, c, Raised(DuplicateError))
        else if s in {Submitted, Unknown} then EndsAt(w, m, c, Returned(Unsettled(AmbiguousResponse)))
        else if !valid then
          if s in {Created, Validated} then
            Ends(w, n, ExecutionResult(FailedStatus, Some(InvalidCommand), 0.0, 0.0, false), Direct, Failed,
              [Line(c.id, Fsm(ValidateFail), Failed)])
          else Dies(w, n, s, [])
        else if s.Created? then Stands(w, n, Expiry, Validated, None, [Line(c.id, Fsm(ValidateOk), Validated)])
        else Stands(w, n, Expiry, s, None, [])
  {
    hide Written, PlayedAll, Transition;
    var call, j := SubmitCall(c, valid), m.journal;
    var n := Start(m, call);
    if n.pc.acts == [] { StandsStill(n); }
    if c.id in j.rows {
      var x, r := SceneOf(j, c.id), Plain(FailedStatus, Some(InvalidCommand));
      assert j == Moved(j, c.id, x.state, x.stored, []);
      Edges(x.state);
      FireThen(c.id, x, ValidateFail, None, Save(r));
      FireThen(c.id, x, ValidateOk, None, Save(r));
      WritesPlay(n, j, x);
    }
  }

  /** A close call replays a completed close, refuses an UNKNOWN command and otherwise asks the
      executor; a reconcile call proceeds from UNKNOWN only. */
  lemma CloseAndReconcileTable(cfg: Config, m: Machine, c: Command, pid: string)
    requires m.pc.Idle?
    ensures var w, u := Begun(cfg, m, CloseCall(c, pid)), Begun(cfg, m, ReconcileCall(c));
      var rows := m.journal.rows;
      && w.journal == u.journal == m.journal
      && w.pc.Busy? && w.pc.command == c && w.pc.acts == [] && u.pc.Busy? && u.pc.command == c && u.pc.acts == []
      && w.pc.ask == (
        if c.id !in rows then Finish(Raised(InvalidError), Direct)
        else
          var s, x := rows[c.id].state, rows[c.id].result;
          if x.Some? && x.value.status == ClosedStatus then Finish(Returned(x.value), Replayed)
          else if s == Unknown then Finish(Raised(PendingError), Direct)
          else CloseDown(pid, 0))
      && u.pc.ask == (
        if c.id !in rows then Finish(Raised(InvalidError), Direct)
        else if rows[c.id].state != Unknown then Finish(Raised(StateError), Direct)
        else Resolve)
  {
    hide Written;
    StandsStill(Start(m, CloseCall(c, pid)));
    StandsStill(Start(m, ReconcileCall(c)));
  }

  lemma {:induction false} WritesKeepBook(m: Machine)
    ensures Written(m).book == m.book
    decreases if m.pc.Busy? then |m.pc.acts| else 0
  {
    if m.pc.Busy? && m.pc.acts != [] { WritesKeepBook(WriteHead(m)); }
  }

  lemma HearBook(cfg: Config, m: Machine, a: Answer)
    requires m.pc.Busy? && m.pc.acts == [] && Hear(cfg, m, a).Some?
    ensures var b, n := m.book, Hear(cfg, m, a).value.book;
      && n.log == b.log + [a] && n.sl == (if a.Sent? || a.Attached? then a.sl else b.sl)
      && n.submits == (if a.Sent? then Bump(b.submits, m.pc.command.id) else b.submits)
      && n.landed == (if a.Sent? && a.landed then Bump(b.landed, m.pc.command.id) else b.landed)
  {
    hide AfterClock, AfterSent, AfterLookUp, AfterPosition, AfterAttach, AfterUrgentClose, AfterClose, AfterTruth;
    match m.pc.ask
    case Send(n) =>
    case LookUp(n, r) =>
    case Attach(_, _, _) =>
    case _ =>
  }

  /** Every answer is put on record; a submit is counted once, and lands at most once. */
  lemma BookTable(cfg: Config, m: Machine, a: Answer, id: string)
    requires Step(cfg, m, Reply(a)).Some?
    ensures var b, w := m.book, Answered(cfg, m, a).book;
      var sent := a.Sent? && id == m.pc.command.id;
      && w.log == b.log + [a]
      && w.sl == (if a.Sent? || a.Attached? then a.sl else b.sl)
      && (id in w.submits <==> id in b.submits || sent)
      && (id in w.submits ==>
            w.submits[id] == (if id in b.submits then b.submits[id] else 0) + (if sent then 1 else 0))
      && (id in w.landed <==> id in b.landed || (sent && a.landed))
      && (id in w.landed ==>
            w.landed[id] == (if id in b.landed then b.landed[id] else 0) + (if sent && a.landed then 1 else 0))
  {
    hide AfterClock, AfterSent, AfterLookUp, AfterPosition, AfterAttach, AfterUrgentClose, AfterClose, AfterTruth,
      WriteHead, Written, Hear;
    var n := Step(cfg, m, Reply(a)).value;
    WritesKeepBook(n);
    HearBook(cfg, m, a);
  }

  // ---------------------------------------------- what a returned result rests on

  /** The last thing a submit or a look-up brought to light. */
  function LastWord(log: seq<Answer>): (word: Option<Answer>)
    ensures word.Some? ==> word.value.Sent? || word.value.Told?
  {
    if log == [] then None
    else if log[|log| - 1].Sent? || log[|log| - 1].Told? then Some(log[|log| - 1])
    else LastWord(log[..|log| - 1])
  }

  /** The broker says outright that it found the command in state s. */
  predicate Says(a: Answer, s: CommandState) {
    a.Told? && !a.truth.ambiguous && a.truth.discovered == Some(s)
  }

  /** Volume and price are those of the broker's last word, which was a full or partial fill. */
  predicate FillFrom(fill: ExecutionResult, log: seq<Answer>) {
    var word := LastWord(log);
    && word.Some?
    && (if word.value.Sent? then
          var r := word.value.reply;
          && (r.status.FilledStatus? || r.status.PartialStatus?)
          && fill.filledVolume == r.filledVolume && fill.fillPrice == r.fillPrice
        else
          var t := word.value.truth;
          && (Says(word.value, Filled) || Says(word.value, PartiallyFilled))
          && fill.filledVolume == t.filledVolume && fill.fillPrice == t.fillPrice)
  }

  /** The last answer is a submit's reply r, of this status. */
  predicate Heard(log: seq<Answer>, r: ExecutionResult, status: Status) {
    log != [] && log[|log| - 1].Sent? && log[|log| - 1].reply == r && r.status == status
  }

  predicate LastSays(log: seq<Answer>, s: CommandState) {
    log != [] && Says(log[|log| - 1], s)
  }

  /** The stop-loss of command c was just seen in place, or just put there. */
  predicate JustGuarded(log: seq<Answer>, c: Command) {
    && log != []
    && var a := log[|log| - 1];
    (a.At? && a.snapshot.Some? && InPlace(a.snapshot.value, c)) || (a.Attached? && a.applied)
  }

  /** What is returned, what the command's row shows and what the outside world said fit together. */
  predicate Accounted(r: ExecutionResult, row: Row, c: Command, log: seq<Answer>) {
    match row.state
    case Filled =>
      && row.result == Some(r) && r == ExecutionResult(FilledStatus, None, r.filledVolume, r.fillPrice, true)
      && FillFrom(r, log) && JustGuarded(log, c)
    case Closed =>
      && row.result == Some(r) && r.status.ClosedStatus?
      && (|| (log != [] && log[|log| - 1] == Shut(r))
          || (LastSays(log, Closed) && r == ExecutionResult(ClosedStatus, None, 0.0, 0.0, true)))
    case Rejected =>
      && row.result == Some(r) && r.status.RejectedStatus?
      && (|| Heard(log, r, RejectedStatus)
          || (LastSays(log, Rejected) && r == ExecutionResult(RejectedStatus, Some(BrokerReject), 0.0, 0.0, false)))
    case Expired =>
      && row.result == Some(r) && r.status.ExpiredStatus?
      && (|| Heard(log, r, ExpiredStatus)
          || (&& (LastSays(log, Expired) || (log != [] && log[|log| - 1] == Clock(true)))
              && r == ExecutionResult(ExpiredStatus, Some(CommandExpired), 0.0, 0.0, false)))
    case Failed =>
      && row.result == Some(r) && r.status.FailedStatus?
      && (|| Heard(log, r, FailedStatus)
          || (LastSays(log, Failed) && r == ExecutionResult(FailedStatus, Some(GenericFailure), 0.0, 0.0, false))
          || r == ExecutionResult(FailedStatus, Some(InvalidCommand), 0.0, 0.0, false))
    case Unknown =>
      || (row.result == Some(r) && (Heard(log, r, UnknownStatus) || Heard(log, r, ClosedStatus)))
      || (row.result == Some(r) && (r == Unsettled(ReconciliationPending) || r == Unsettled(EmergencyCloseFailed)))
      || r == Unsettled(AmbiguousResponse)
    case Submitted => r == Unsettled(AmbiguousResponse)
    case Modifying => row.result == Some(r) && LastSays(log, Modifying) && r == Unsettled(ReconciliationPending)
    case _ => false
  }

  /** The call for this command stands at its end and its result is accounted for. */
  predicate AccountedNow(m: Machine, id: string, r: ExecutionResult) {
    && m.pc.Busy? && m.pc.command.id == id && m.pc.acts == [] && m.pc.ask.Finish?
    && m.pc.ask.out == Returned(r) && !m.pc.ask.how.Replayed?
    && id in m.journal.rows && Accounted(r, m.journal.rows[id], m.pc.command, m.book.log)
  }

  /** A call whose writes are done carries the broker's fill with it or ends accounted. */
  ghost predicate Carries(w: Machine) {
    w.pc.Busy? ==>
      match w.pc.ask
      case Position(fill) => FillFrom(fill, w.book.log)
      case Attach(_, fill, _) => FillFrom(fill, w.book.log)
      case Finish(Returned(r), how) => how.Replayed? || AccountedNow(w, w.pc.command.id, r)
      case _ => true
  }

  ghost predicate OnAccount(m: Machine) {
    Carries(Written(m))
  }

  lemma BeginOnAccount(cfg: Config, m: Machine, call: Call)
    requires m.pc.Idle?
    ensures OnAccount(Start(m, call))
  {
    hide Written, FirstPc;
    match call
    case CreateCall(c, planValid, planExpired) => CreateTable(cfg, m, c, planValid, planExpired);
    case SubmitCall(c, valid) => SubmitTable(cfg, m, c, valid);
    case CloseCall(c, pid) => CloseAndReconcileTable(cfg, m, c, pid);
    case ReconcileCall(c) => CloseAndReconcileTable(cfg, m, c, "");
  }

  /** How the last word stands after one more answer. */
  lemma WordAfter(log: seq<Answer>, a: Answer)
    ensures LastWord(log + [a]) == if a.Sent? || a.Told? then Some(a) else LastWord(log)
    ensures (log + [a])[|log + [a]| - 1] == a
  {
    assert (log + [a])[..|log|] == log;
  }

  lemma SentCarries(cfg: Config, m: Machine, n: nat, a: Answer)
    requires Running(m) && m.pc.acts == [] && m.pc.ask == Send(n) && a.Sent? && Step(cfg, m, Reply(a)).Some?
    requires m.journal.rows[m.pc.command.id].state.Submitted?
    ensures Carries(Answered(cfg, m, a))
  {
    hide Answered, LastWord, Step;
    SentTable(cfg, m, n, a.reply, a.landed, a.sl);
    AnswerLogged(cfg, m, a);
    WordAfter(m.book.log, a);
  }

  lemma AnswerLogged(cfg: Config, m: Machine, a: Answer)
    requires Step(cfg, m, Reply(a)).Some?
    ensures Answered(cfg, m, a).book.log == m.book.log + [a]
  {
    hide Answered, Step;
    BookTable(cfg, m, a, "");
  }

  lemma AdoptsCarries(cfg: Config, w: Machine, m: Machine, before: seq<Line>, a: Answer)
    requires Running(m) && a.Told? && !a.truth.ambiguous && a.truth.discovered.Some?
    requires Adopts(w, m, before, a.truth.discovered.value, a.truth) && w.book.log == m.book.log + [a]
    ensures Carries(w)
  {
    hide LastWord;
    WordAfter(m.book.log, a);
  }

  lemma ToldCarries(cfg: Config, m: Machine, a: Answer)
    requires Running(m) && m.pc.acts == [] && a.Told?
    requires var s := m.journal.rows[m.pc.command.id].state;
      (m.pc.ask.LookUp? && s.Submitted?) || (m.pc.ask.Resolve? && s.Unknown?)
    ensures Step(cfg, m, Reply(a)).Some? && Carries(Answered(cfg, m, a))
  {
    hide Answered, LastWord, AfterLookUp, AfterTruth, Adopts;
    var id, w := m.pc.command.id, Answered(cfg, m, a);
    AnswerLogged(cfg, m, a);
    if m.pc.ask.LookUp? {
      LookUpTable(cfg, m, m.pc.ask.attempt, m.pc.ask.reply, a.truth);
      if !a.truth.ambiguous && a.truth.discovered.Some? {
        AdoptsCarries(cfg, w, m, [Line(id, ReconcileAfterTimeout, Submitted), Line(id, Fsm(GoUnknown), Unknown)], a);
      }
    } else {
      TruthTable(cfg, m, a.truth);
      if !a.truth.ambiguous && a.truth.discovered.Some? {
        AdoptsCarries(cfg, w, m, [Line(id, ReconciliationQuery, Unknown)], a);
      }
    }
  }

  lemma ProtectingCarries(cfg: Config, m: Machine, a: Answer)
    requires Running(m) && m.pc.acts == [] && Step(cfg, m, Reply(a)).Some?
    requires var s := m.journal.rows[m.pc.command.id].state;
      (m.pc.ask.Position? && (s.Filled? || s.PartiallyFilled?)) || (m.pc.ask.Attach? && s.Modifying?)
    requires FillFrom(m.pc.ask.fill, m.book.log)
    ensures Carries(Answered(cfg, m, a))
  {
    hide Answered, LastWord, Hear;
    AnswerLogged(cfg, m, a);
    WordAfter(m.book.log, a);
    if m.pc.ask.Position? {
      IsAnswer(cfg, m, a);
      PositionTable(cfg, m, m.pc.ask.fill, a.snapshot);
    } else {
      IsAnswer(cfg, m, a);
      AttachTable(cfg, m, m.pc.ask.pid, m.pc.ask.fill, m.pc.ask.attempt, a.applied, a.sl);
    }
  }

  lemma IsAnswer(cfg: Config, m: Machine, a: Answer)
    requires Step(cfg, m, Reply(a)).Some?
    ensures match m.pc.ask
      case Expiry => a.Clock?
      case Send(_) => a.Sent?
      case LookUp(_, _) => a.Told?
      case Position(_) => a.At?
      case Attach(_, _, _) => a.Attached?
      case CloseUrgently(_) => a.Shut?
      case CloseDown(_, _) => a.Shut?
      case Resolve => a.Told?
      case Finish(_, _) => false
  {
  }

  lemma ClosingCarries(cfg: Config, m: Machine, a: Answer)
    requires Running(m) && m.pc.acts == [] && Step(cfg, m, Reply(a)).Some?
    requires m.pc.ask.Expiry? || m.pc.ask.CloseDown?
      || (m.pc.ask.CloseUrgently? && m.journal.rows[m.pc.command.id].state.Modifying?)
    ensures Carries(Answered(cfg, m, a))
  {
    hide Answered, LastWord, Hear;
    AnswerLogged(cfg, m, a);
    WordAfter(m.book.log, a);
    IsAnswer(cfg, m, a);
    if m.pc.ask.Expiry? { ClockTable(cfg, m, a.expired); }
    else if m.pc.ask.CloseDown? { CloseTable(cfg, m, m.pc.ask.pid, m.pc.ask.attempt, a.reply); }
    else { UrgentCloseTable(cfg, m, m.pc.ask.pid, a.reply); }
  }

  lemma AnswerOnAccount(cfg: Config, m: Machine, a: Answer)
    requires CallOk(cfg, m) && OnAccount(m) && m.pc.Busy? && m.pc.acts == [] && Step(cfg, m, Reply(a)).Some?
    ensures Carries(Answered(cfg, m, a))
  {
    hide Written, Answered, Step, FillFrom, Carries;
    StandsStill(m);
    IsAnswer(cfg, m, a);
    if m.pc.ask.Position? || m.pc.ask.Attach? { CarriedFill(m); }
    match m.pc.ask
    case Send(n) => SentCarries(cfg, m, n, a);
    case LookUp(_, _) => ToldCarries(cfg, m, a);
    case Resolve => ToldCarries(cfg, m, a);
    case Position(_) => ProtectingCarries(cfg, m, a);
    case Attach(_, _, _) => ProtectingCarries(cfg, m, a);
    case _ => ClosingCarries(cfg, m, a);
  }

  lemma CarriedFill(m: Machine)
    requires Carries(m) && m.pc.Busy? && (m.pc.ask.Position? || m.pc.ask.Attach?)
    ensures FillFrom(m.pc.ask.fill, m.book.log)
  {
  }

  lemma StepOnAccount(cfg: Config, m: Machine, op: Op)
    requires CallOk(cfg, m) && OnAccount(m) && Step(cfg, m, op).Some?
    ensures OnAccount(Step(cfg, m, op).value)
  {
    hide Hear, Start, CallOk, WriteHead;
    match op
    case Begin(call) => BeginOnAccount(cfg, m, call);
    case Write =>
    case Reply(a) => AnswerOnAccount(cfg, m, a);
    case Return =>
    case Crash =>
  }

  lemma {:induction false} StaysOnAccount(cfg: Config, m0: Machine, ops: seq<Op>)
    requires Initial(m0) && Run(cfg, m0, ops).Some?
    ensures OnAccount(Run(cfg, m0, ops).value)
  {
    hide OnAccount, Inv;
    if ops == [] {
      NothingRuns(m0);
    } else {
      var init := ops[..|ops| - 1];
      StaysOnAccount(cfg, m0, init);
      Reachable(cfg, m0, init);
      InvCallOk(cfg, Run(cfg, m0, init).value);
      StepOnAccount(cfg, Run(cfg, m0, init).value, ops[|ops| - 1]);
    }
  }

  lemma NothingRuns(m: Machine)
    requires m.pc.Idle?
    ensures OnAccount(m)
  {
  }

  lemma InvCallOk(cfg: Config, m: Machine)
    requires Inv(cfg, m)
    ensures CallOk(cfg, m)
  {
  }

  /** Over every run, whoever crashed when: a call that is about to return a result other than a
      stored one leaves a row, a result and a record of answers that fit together.  In particular a
      FILLED result comes with state FILLED and nothing else does. */
  lemma AnswersAccounted(cfg: Config, m0: Machine, ops: seq<Op>, r: ExecutionResult)
    requires Initial(m0) && Run(cfg, m0, ops).Some?
    requires var pc := Run(cfg, m0, ops).value.pc;
      pc.Busy? && pc.acts == [] && pc.ask.Finish? && pc.ask.out == Returned(r) && !pc.ask.how.Replayed?
    ensures var m := Run(cfg, m0, ops).value;
      var id := m.pc.command.id;
      && id in m.journal.rows && Accounted(r, m.journal.rows[id], m.pc.command, m.book.log)
      && (r.status.FilledStatus? <==> m.journal.rows[id].state.Filled?)
  {
    StaysOnAccount(cfg, m0, ops);
    StandsStill(Run(cfg, m0, ops).value);
  }

  // -------------------------------------------------------- stored results

  /** A result is stored last, by the call that returns it. */
  ghost predicate SavesLast(pc: Pc) {
    pc.Busy? ==>
      forall k :: 0 <= k < |pc.acts| && pc.acts[k].Save? ==>
        k == |pc.acts| - 1 && pc.ask.Finish? && pc.ask.out == Returned(pc.acts[k].result) && !pc.ask.how.Replayed?
  }

  lemma AdoptingSavesLast(c: Command, acts: seq<Act>, s: CommandState, t: Truth)
    requires forall k :: 0 <= k < |acts| ==> !acts[k].Save?
    ensures SavesLast(Adopting(c, acts, s, t))
  {
    hide ResultFor;
  }

  lemma AnswerSavesLast(cfg: Config, m: Machine, a: Answer)
    requires m.pc.Busy? && m.pc.acts == [] && Hear(cfg, m, a).Some?
    ensures SavesLast(Hear(cfg, m, a).value.pc)
  {
    hide Adopting, Classify, SameLevel;
    if a.Told? && a.truth.discovered.Some? {
      AdoptingSavesLast(m.pc.command, [Note(ReconcileAfterTimeout, None), Fire(GoUnknown, None)],
        a.truth.discovered.value, a.truth);
      AdoptingSavesLast(m.pc.command, [Note(ReconciliationQuery, Some(Unknown))], a.truth.discovered.value, a.truth);
    }
    match m.pc.ask
    case Send(n) =>
    case Attach(_, _, _) =>
    case CloseUrgently(_) =>
    case CloseDown(_, _) =>
    case _ =>
  }

  lemma StepSavesLast(cfg: Config, m: Machine, op: Op)
    requires SavesLast(m.pc) && Step(cfg, m, op).Some?
    ensures SavesLast(Step(cfg, m, op).value.pc)
  {
    hide Hear, Transition, GateShut, TradeActive;
    if op.Reply? { AnswerSavesLast(cfg, m, op.answer); }
  }

  /** At some moment of the run a call for this command stood at its end with r accounted for. */
  ghost predicate AccountedOnce(cfg: Config, m0: Machine, ops: seq<Op>, id: string, r: ExecutionResult) {
    || (Run(cfg, m0, ops).Some? && AccountedNow(Run(cfg, m0, ops).value, id, r))
    || (ops != [] && AccountedOnce(cfg, m0, ops[..|ops| - 1], id, r))
  }

  predicate HasResult(j: Journal, id: string, r: ExecutionResult) {
    id in j.rows && j.rows[id].result == Some(r)
  }

  lemma ResultStep(cfg: Config, m: Machine, op: Op, id: string, r: ExecutionResult)
    requires CallOk(cfg, m) && SavesLast(m.pc) && Step(cfg, m, op).Some? && OnAccount(Step(cfg, m, op).value)
    requires HasResult(Step(cfg, m, op).value.journal, id, r)
    ensures HasResult(m.journal, id, r) || AccountedNow(Step(cfg, m, op).value, id, r)
  {
    hide Hear, Transition, FirstPc, Accounted, OnAccount;
    var n := Step(cfg, m, op).value;
    if op.Write? && m.pc.acts[0].Save? && m.pc.command.id == id { AtItsEnd(n); }
    if op.Reply? { AnswerKeepsJournal(cfg, m, op.answer); }
  }

  lemma AtItsEnd(n: Machine)
    requires OnAccount(n) && n.pc.Busy? && n.pc.acts == []
    ensures Carries(n)
  {
  }

  lemma AnswerKeepsJournal(cfg: Config, m: Machine, a: Answer)
    requires m.pc.Busy? && m.pc.acts == [] && Hear(cfg, m, a).Some?
    ensures Hear(cfg, m, a).value.journal == m.journal
  {
    hide AfterClock, AfterSent, AfterLookUp, AfterPosition, AfterAttach, AfterUrgentClose, AfterClose, AfterTruth;
  }

  /** Over every run, every stored result, and so every replayed one, was accounted for when it was
      stored. */
  lemma {:induction false} StoredResultsAccounted(cfg: Config, m0: Machine, ops: seq<Op>, id: string,
                                                  r: ExecutionResult)
    requires Initial(m0) && Run(cfg, m0, ops).Some? && HasResult(Run(cfg, m0, ops).value.journal, id, r)
    ensures AccountedOnce(cfg, m0, ops, id, r)
  {
    hide OnAccount, SavesLast, Inv, AccountedNow, CallOk;
    if ops != [] {
      var init := ops[..|ops| - 1];
      var m := Run(cfg, m0, init).value;
      Reachable(cfg, m0, init);
      InvCallOk(cfg, m);
      StaysOnAccount(cfg, m0, ops);
      StaysSavingLast(cfg, m0, init);
      ResultStep(cfg, m, ops[|ops| - 1], id, r);
      if HasResult(m.journal, id, r) { StoredResultsAccounted(cfg, m0, init, id, r); }
    }
  }

  lemma {:induction false} StaysSavingLast(cfg: Config, m0: Machine, ops: seq<Op>)
    requires Initial(m0) && Run(cfg, m0, ops).Some?
    ensures SavesLast(Run(cfg, m0, ops).value.pc)
  {
    if ops != [] {
      StaysSavingLast(cfg, m0, ops[..|ops| - 1]);
      StepSavesLast(cfg, Run(cfg, m0, ops[..|ops| - 1]).value, ops[|ops| - 1]);
    }
  }

  /** A replay returns the stored result. */
  lemma ReplaysAreStored(cfg: Config, m0: Machine, ops: seq<Op>, r: ExecutionResult)
    requires Initial(m0) && Run(cfg, m0, ops).Some?
    requires var pc := Run(cfg, m0, ops).value.pc;
      pc.Busy? && pc.ask.Finish? && pc.ask.out == Returned(r) && pc.ask.how.Replayed?
    ensures AccountedOnce(cfg, m0, ops, Run(cfg, m0, ops).value.pc.command.id, r)
  {
    var m := Run(cfg, m0, ops).value;
    ReplaysHold(cfg, m0, ops);
    StoredResultsAccounted(cfg, m0, ops, m.pc.command.id, r);
  }

  ghost predicate ReplayHolds(m: Machine) {
    m.pc.Busy? && m.pc.ask.Finish? && m.pc.ask.how.Replayed? && m.pc.ask.out.Returned? ==>
      m.pc.acts == [] && HasResult(m.journal, m.pc.command.id, m.pc.ask.out.result)
  }

  lemma {:induction false} ReplaysHold(cfg: Config, m0: Machine, ops: seq<Op>)
    requires Initial(m0) && Run(cfg, m0, ops).Some?
    ensures ReplayHolds(Run(cfg, m0, ops).value)
  {
    if ops != [] {
      ReplaysHold(cfg, m0, ops[..|ops| - 1]);
      var m, op := Run(cfg, m0, ops[..|ops| - 1]).value, ops[|ops| - 1];
      if op.Reply? { NoReplayAnswered(cfg, m, op.answer); }
    }
  }

  lemma NoReplayAnswered(cfg: Config, m: Machine, a: Answer)
    requires m.pc.Busy? && m.pc.acts == [] && Hear(cfg, m, a).Some?
    ensures ReplayHolds(Hear(cfg, m, a).value)
  {
    match m.pc.ask
    case Send(n) =>
    case LookUp(n, r) =>
    case Resolve =>
    case _ =>
  }
}
