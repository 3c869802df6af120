/**
 * The execution protocol as a machine of small steps.
 *
 * Every journal write, every exchange with the broker and every return is one
 * operation, and a crash may come between any two of them.  A running call is
 * a queue of journal writes followed by a question to the outside world; the
 * answers are chosen by an adversary.  The class ExecutionEngine is proved to
 * perform only runs of this machine, so what holds in every reachable state
 * holds of the engine at every crash point.
 */
module ExecutionProtocol {
  import opened Common
  import opened ExecutionModels

  datatype Row = Row(trade: string, state: CommandState, result: Option<ExecutionResult>)

  datatype Line = Line(id: string, tag: Tag, state: CommandState)

  /** The durable journal: keyed projection, creation order, append-only audit. */
  datatype Journal = Journal(rows: map<string, Row>, order: seq<string>, audit: seq<Line>)

  /** The outside world: submit calls and landed orders per command, stop-loss per position,
      and everything it has answered. */
  datatype Book = Book(submits: Counter, landed: Counter, sl: map<string, Option<real>>, log: seq<Answer>)

  datatype Error =
    | InvalidError | ExpiredError | PendingError | DuplicateError | StateError

  datatype Outcome =
    | Accepted(command: Command)
    | Returned(result: ExecutionResult)
    | Raised(error: Error)
    | Crashed
  {
    predicate IsFailure() { Raised? || Crashed? }
    function PropagateFailure(): Outcome requires IsFailure() { this }
  }

  /** How a call came to its outcome. */
  datatype How = Replayed | Direct | Guarded(pid: string) | EmergencyClosed

  datatype Act =
    | Fire(event: Event, target: Option<CommandState>)
    | Note(tag: Tag, at: Option<CommandState>)
    | Save(result: ExecutionResult)

  datatype Ask =
    | Expiry
    | Send(attempt: nat)
    | LookUp(attempt: nat, reply: ExecutionResult)
    | Position(fill: ExecutionResult)
    | Attach(pid: string, fill: ExecutionResult, attempt: nat)
    | CloseUrgently(pid: string)
    | CloseDown(pid: string, attempt: nat)
    | Resolve
    | Finish(out: Outcome, how: How)

  datatype Pc = Idle | Busy(command: Command, acts: seq<Act>, ask: Ask)

  datatype Call =
    | CreateCall(command: Command, planValid: bool, planExpired: bool)
    | SubmitCall(command: Command, valid: bool)
    | CloseCall(command: Command, pid: string)
    | ReconcileCall(command: Command)

  datatype Answer =
    | Clock(expired: bool)
    | Sent(reply: ExecutionResult, landed: bool, sl: map<string, Option<real>>)
    | At(snapshot: Option<Snapshot>)
    | Attached(applied: bool, sl: map<string, Option<real>>)
    | Shut(reply: ExecutionResult)
    | Told(truth: Truth)

  datatype Op = Begin(call: Call) | Write | Reply(answer: Answer) | Return | Crash

  /** attaches and closes count executor calls since the current call began. */
  datatype Machine = Machine(
    journal: Journal, book: Book, pc: Pc, last: Option<Outcome>, attaches: nat, closes: nat)

  // ---------------------------------------------------------------- journal

  function StateOf(j: Journal, id: string): CommandState {
    if id in j.rows then j.rows[id].state else Created
  }

  predicate GateShut(j: Journal) {
    exists id :: id in j.rows && BlocksEntry(j.rows[id].state)
  }

  predicate TradeActive(j: Journal, trade: string) {
    exists id :: id in j.rows && j.rows[id].trade == trade && !Terminal(j.rows[id].state)
  }

  function Insert(j: Journal, c: Command): Journal {
    j.(rows := j.rows[c.id := Row(c.trade, Created, None)], order := j.order + [c.id])
  }

  function Record(j: Journal, id: string, tag: Tag, s: CommandState): Journal {
    Journal(
      if id in j.rows then j.rows[id := j.rows[id].(state := s)] else j.rows,
      j.order,
      j.audit + [Line(id, tag, s)])
  }

  function Store(j: Journal, id: string, r: ExecutionResult): Journal {
    j.(rows := if id in j.rows then j.rows[id := j.rows[id].(result := Some(r))] else j.rows)
  }

  /** What restart recovery advises for a command found in a given state. */
  datatype Advice = ReconcileIt | SubmitIsSafe | NothingToDo

  function AdviceFor(s: CommandState): Advice {
    if s.Submitted? || s.Unknown? then ReconcileIt
    else if s.Created? || s.Validated? then SubmitIsSafe
    else NothingToDo
  }

  // ------------------------------------------------------- start of a call

  function Start(m: Machine, call: Call): Machine {
    m.(pc := FirstPc(m.journal, call), attaches := 0, closes := 0,
       journal := if EntersRow(m.journal, call) then Insert(m.journal, call.command) else m.journal)
  }

  predicate EntersRow(j: Journal, call: Call) {
    && call.CreateCall? && call.planValid && !call.planExpired && !GateShut(j)
    && call.command.id !in j.rows && !TradeActive(j, call.command.trade)
  }

  function FirstPc(j: Journal, call: Call): (pc: Pc)
    ensures pc.Busy? && pc.command == call.command
  {
    var c := call.command;
    match call
    case CreateCall(_, planValid, planExpired) =>
      if !planValid then Ending(c, [], Raised(InvalidError))
      else if planExpired then Ending(c, [], Raised(ExpiredError))
      else if GateShut(j) then Ending(c, [], Raised(PendingError))
      else if c.id in j.rows || TradeActive(j, c.trade) then Ending(c, [], Raised(DuplicateError))
      else Ending(c, [Note(CommandCreated, Some(Created))], Accepted(c))
    case SubmitCall(_, valid) =>
      if c.id !in j.rows then Ending(c, [], Raised(InvalidError))
      else if j.rows[c.id].result.Some? then Busy(c, [], Finish(Returned(j.rows[c.id].result.value), Replayed))
      else if Terminal(j.rows[c.id].state) then Ending(c, [], Raised(DuplicateError))
      else if j.rows[c.id].state.Submitted? || j.rows[c.id].state.Unknown? then
        Ending(c, [], Returned(UnknownResult(AmbiguousResponse)))
      else if !valid then
        Saving(c, [Fire(ValidateFail, None)], Plain(FailedStatus, Some(InvalidCommand)))
      else if j.rows[c.id].state.Created? then Busy(c, [Fire(ValidateOk, None)], Expiry)
      else Busy(c, [], Expiry)
    case CloseCall(_, pid) =>
      if c.id !in j.rows then Ending(c, [], Raised(InvalidError))
      else if j.rows[c.id].result.Some? && j.rows[c.id].result.value.status.ClosedStatus? then
        Busy(c, [], Finish(Returned(j.rows[c.id].result.value), Replayed))
      else if j.rows[c.id].state.Unknown? then Ending(c, [], Raised(PendingError))
      else Busy(c, [], CloseDown(pid, 0))
    case ReconcileCall(_) =>
      if c.id !in j.rows then Ending(c, [], Raised(InvalidError))
      else if !j.rows[c.id].state.Unknown? then Ending(c, [], Raised(StateError))
      else Busy(c, [], Resolve)
  }

  function Ending(c: Command, acts: seq<Act>, out: Outcome): (pc: Pc)
    ensures pc.Busy? && pc.command == c
  {
    Busy(c, acts, Finish(out, Direct))
  }

  /** Perform acts, store r and return it. */
  function Saving(c: Command, acts: seq<Act>, r: ExecutionResult): (pc: Pc)
    ensures pc.Busy? && pc.command == c
  {
    Ending(c, acts + [Save(r)], Returned(r))
  }

  // ---------------------------------------------- what follows each answer

  function AfterClock(c: Command, expired: bool): (pc: Pc)
    ensures pc.Busy? && pc.command == c
  {
    if expired then Saving(c, [Fire(Expire, None)], Plain(ExpiredStatus, Some(CommandExpired)))
    else Busy(c, [Fire(Submit, None)], Send(0))
  }

  function AfterSent(cfg: Config, c: Command, attempt: nat, r: ExecutionResult): (pc: Pc)
    ensures pc.Busy? && pc.command == c
  {
    var heard := Note(ExecutorResult, None);
    match r.status
    case FilledStatus => Busy(c, [heard, Fire(FullFill, None)], Position(r))
    case PartialStatus =>
      Busy(c, [heard, Fire(PartialFill, None), Note(CancelRemainder, Some(PartiallyFilled))], Position(r))
    case RejectedStatus => Saving(c, [heard, Fire(Reject, None)], r)
    case FailedStatus => Saving(c, [heard, Fire(Fail, None)], r)
    case ExpiredStatus => Saving(c, [heard, Fire(Expire, None)], r)
    case _ =>
      if Classify(r.error).Safe? && attempt < cfg.submitRetries then Busy(c, [heard], LookUp(attempt, r))
      else Saving(c, [heard, Fire(GoUnknown, None)], r)
  }

  function AfterLookUp(c: Command, attempt: nat, r: ExecutionResult, t: Truth): (pc: Pc)
    ensures pc.Busy? && pc.command == c
  {
    var heard := Note(ReconcileAfterTimeout, None);
    if t.ambiguous then Saving(c, [heard, Fire(GoUnknown, None)], UnknownResult(AmbiguousResponse))
    else match t.discovered
      case None => Busy(c, [heard], Send(attempt + 1))
      case Some(s) => Adopting(c, [heard, Fire(GoUnknown, None)], s, t)
  }

  /** Adopt the broker's truth about an UNKNOWN command, after the given acts. */
  function Adopting(c: Command, acts: seq<Act>, s: CommandState, t: Truth): (pc: Pc)
    ensures pc.Busy? && pc.command == c
  {
    var adopt := Fire(Reconcile, Some(s));
    match s
    case Filled => Busy(c, acts + [adopt], Position(Adopted(t)))
    case PartiallyFilled => Busy(c, acts + [adopt], Position(Adopted(t)))
    case Submitted =>
      Ending(c, acts + [adopt, Note(SubmittedAfterReconcile, Some(Submitted))],
             Returned(UnknownResult(AmbiguousResponse)))
    case _ => Saving(c, acts + [adopt], ResultFor(s))
  }

  function Adopted(t: Truth): ExecutionResult {
    ExecutionResult(FilledStatus, None, t.filledVolume, t.fillPrice, false)
  }

  function ResultFor(s: CommandState): ExecutionResult {
    match s
    case Closed => Plain(ClosedStatus, None)
    case Rejected => Plain(RejectedStatus, Some(BrokerReject))
    case Expired => Plain(ExpiredStatus, Some(CommandExpired))
    case Failed => Plain(FailedStatus, Some(GenericFailure))
    case _ => UnknownResult(ReconciliationPending)
  }

  function AfterPosition(c: Command, fill: ExecutionResult, p: Option<Snapshot>): (pc: Pc)
    ensures pc.Busy? && pc.command == c
  {
    match p
    case None => Saving(c, [Fire(GoUnknown, None)], UnknownResult(AmbiguousResponse))
    case Some(at) =>
      if at.sl.Some? && SameLevel(at.sl.value, c.sl) then
        Protecting(c, [Note(SlConfirmed, Some(Filled))], fill, at.pid)
      else Busy(c, [Fire(SlAttaching, None)], Attach(at.pid, fill, 0))
  }

  function Protecting(c: Command, acts: seq<Act>, fill: ExecutionResult, pid: string): (pc: Pc)
    ensures pc.Busy? && pc.command == c
  {
    Busy(c, acts + [Save(Confirmed(fill))], Finish(Returned(Confirmed(fill)), Guarded(pid)))
  }

  function AfterAttach(cfg: Config, c: Command, pid: string, fill: ExecutionResult, attempt: nat,
                       applied: bool): (pc: Pc)
    ensures pc.Busy? && pc.command == c
  {
    var heard := Note(SlAttachResult, Some(Modifying));
    if applied then Protecting(c, [heard, Fire(SlAttached, None)], fill, pid)
    else if attempt < cfg.slAttachRetries then Busy(c, [heard], Attach(pid, fill, attempt + 1))
    else Busy(c, [heard, Note(SlAttachBudgetSpent, Some(Modifying)), Note(EmergencyCloseRequested, Some(Modifying))],
              CloseUrgently(pid))
  }

  function AfterUrgentClose(c: Command, r: ExecutionResult): (pc: Pc)
    ensures pc.Busy? && pc.command == c
  {
    var heard := Note(EmergencyCloseResult, Some(Modifying));
    if r.status.ClosedStatus? then
      Busy(c, [heard, Fire(Close, None), Save(r)], Finish(Returned(r), EmergencyClosed))
    else
      var u := UnknownResult(EmergencyCloseFailed);
      Busy(c, [heard, Fire(GoUnknown, None), Save(u)], Finish(Returned(u), EmergencyClosed))
  }

  function AfterClose(cfg: Config, c: Command, pid: string, attempt: nat, r: ExecutionResult): (pc: Pc)
    ensures pc.Busy? && pc.command == c
  {
    var heard := Note(CloseResult, None);
    if r.status.ClosedStatus? then Saving(c, [heard, Fire(Close, None)], r)
    else if attempt < cfg.closeRetries then Busy(c, [heard], CloseDown(pid, attempt + 1))
    else Saving(c, [heard, Fire(GoUnknown, None)], UnknownResult(AmbiguousResponse))
  }

  function AfterTruth(c: Command, t: Truth): (pc: Pc)
    ensures pc.Busy? && pc.command == c
  {
    var heard := Note(ReconciliationQuery, Some(Unknown));
    if t.ambiguous || t.discovered.None? then
      Saving(c, [heard, Note(ReconciliationAmbiguous, Some(Unknown))], UnknownResult(ReconciliationPending))
    else Adopting(c, [heard], t.discovered.value, t)
  }

  // ------------------------------------------------------------ small steps

  /** The head act of a running call; an illegal transition ends the call. */
  function WriteHead(m: Machine): Machine
    requires m.pc.Busy? && m.pc.acts != []
  {
    var id := m.pc.command.id;
    var onward := m.pc.(acts := m.pc.acts[1..]);
    match m.pc.acts[0]
    case Save(r) => m.(journal := Store(m.journal, id, r), pc := onward)
    case Note(tag, at) =>
      var s := if at.Some? then at.value else StateOf(m.journal, id);
      m.(journal := Record(m.journal, id, tag, s), pc := onward)
    case Fire(event, target) =>
      match Transition(StateOf(m.journal, id), event, target)
      case None => m.(pc := Idle, last := Some(Raised(StateError)))
      case Some(s) => m.(journal := Record(m.journal, id, Fsm(event), s), pc := onward)
  }

  /** The outside world answers the open question; None when it is no answer to it. */
  function Hear(cfg: Config, m: Machine, a: Answer): Option<Machine>
    requires m.pc.Busy? && m.pc.acts == []
  {
    var c := m.pc.command;
    var book := m.book.(log := m.book.log + [a]);
    match m.pc.ask
    case Expiry =>
      if a.Clock? then Some(m.(pc := AfterClock(c, a.expired), book := book)) else None
    case Send(n) =>
      if a.Sent? then
        Some(m.(pc := AfterSent(cfg, c, n, a.reply),
                book := Book(Bump(m.book.submits, c.id),
                             if a.landed then Bump(m.book.landed, c.id) else m.book.landed, a.sl, book.log)))
      else None
    case LookUp(n, r) =>
      if a.Told? then Some(m.(pc := AfterLookUp(c, n, r, a.truth), book := book)) else None
    case Position(fill) =>
      if a.At? then Some(m.(pc := AfterPosition(c, fill, a.snapshot), book := book)) else None
    case Attach(pid, fill, n) =>
      if a.Attached? then
        Some(m.(pc := AfterAttach(cfg, c, pid, fill, n, a.applied), book := book.(sl := a.sl),
                attaches := m.attaches + 1))
      else None
    case CloseUrgently(_) =>
      if a.Shut? then Some(m.(pc := AfterUrgentClose(c, a.reply), book := book, closes := m.closes + 1)) else None
    case CloseDown(pid, n) =>
      if a.Shut? then Some(m.(pc := AfterClose(cfg, c, pid, n, a.reply), book := book, closes := m.closes + 1))
        else None
    case Resolve =>
      if a.Told? then Some(m.(pc := AfterTruth(c, a.truth), book := book)) else None
    case Finish(_, _) => None
  }

  function Step(cfg: Config, m: Machine, op: Op): Option<Machine> {
    match op
    case Begin(call) => if m.pc.Idle? then Some(Start(m, call)) else None
    case Write => if m.pc.Busy? && m.pc.acts != [] then Some(WriteHead(m)) else None
    case Reply(a) => if m.pc.Busy? && m.pc.acts == [] then Hear(cfg, m, a) else None
    case Return =>
      if m.pc.Busy? && m.pc.acts == [] && m.pc.ask.Finish?
      then Some(m.(pc := Idle, last := Some(m.pc.ask.out))) else None
    case Crash => Some(m.(pc := Idle, last := Some(Crashed)))
  }

  function Run(cfg: Config, m: Machine, ops: seq<Op>): Option<Machine> {
    if ops == [] then Some(m)
    else match Run(cfg, m, ops[..|ops| - 1])
      case None => None
      case Some(before) => Step(cfg, before, ops[|ops| - 1])
  }

  /** A fresh journal against any broker that has not yet heard of a command. */
  predicate Initial(m: Machine) {
    && m.journal == Journal(map[], [], [])
    && m.book.submits == map[] && m.book.landed == map[]
    && m.pc.Idle?
  }

  /** The broker is truthful about orders and stop-loss levels. */
  predicate Honest(m: Machine, op: Op) {
    op.Reply? && m.pc.Busy? && m.pc.acts == [] ==>
      match m.pc.ask
      case LookUp(_, _) => TellsOrders(m, op.answer)
      case Resolve => TellsOrders(m, op.answer)
      case Position(_) =>
        op.answer.At? && op.answer.snapshot.Some? ==>
          var at := op.answer.snapshot.value;
          at.pid in m.book.sl && m.book.sl[at.pid] == at.sl
      case Attach(pid, _, _) =>
        op.answer.Attached? && op.answer.applied ==>
          pid in op.answer.sl && op.answer.sl[pid] == Some(m.pc.command.sl)
      case _ => true
  }

  /** "Nothing found, and not ambiguous" is said only when no order has landed. */
  predicate TellsOrders(m: Machine, a: Answer)
    requires m.pc.Busy?
  {
    a.Told? && !a.truth.ambiguous && a.truth.discovered.None? ==>
      Count(m.book.landed, m.pc.command.id) == 0
  }

  predicate HonestRun(cfg: Config, m: Machine, ops: seq<Op>) {
    ops == [] ||
    var before := Run(cfg, m, ops[..|ops| - 1]);
    HonestRun(cfg, m, ops[..|ops| - 1]) && (before.Some? ==> Honest(before.value, ops[|ops| - 1]))
  }
}
