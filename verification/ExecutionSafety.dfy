/**
 * Safety of the execution protocol over every run, crashes included.
 */
module ExecutionSafety {
  import opened Common
  import opened ExecutionModels
  import opened ExecutionProtocol

  // ------------------------------------------------- the audit trail as a path

  /** The state an audit trail ascribes to a command: its last line, or CREATED. */
  function Latest(audit: seq<Line>, id: string): CommandState {
    if audit == [] then Created
    else if audit[|audit| - 1].id == id then audit[|audit| - 1].state
    else Latest(audit[..|audit| - 1], id)
  }

  /** A lifecycle event follows the automaton; any other line repeats the state it finds,
      save SL_CONFIRMED, which may also promote a partial fill. */
  predicate Lawful(prev: CommandState, line: Line) {
    match line.tag
    case Fsm(event) => Transition(prev, event, Some(line.state)) == Some(line.state)
    case SlConfirmed => line.state.Filled? && (prev.Filled? || prev.PartiallyFilled?)
    case _ => line.state == prev
  }

  ghost predicate LawfulTrail(audit: seq<Line>) {
    forall i :: 0 <= i < |audit| ==> Lawful(Latest(audit[..i], audit[i].id), audit[i])
  }

  /** The keyed projection shows the state of each command's last audit line. */
  ghost predicate Agrees(j: Journal) {
    forall id :: id in j.rows ==> j.rows[id].state == Latest(j.audit, id)
  }

  ghost predicate JournalOk(j: Journal) {
    && Agrees(j)
    && LawfulTrail(j.audit)
    && (forall i :: 0 <= i < |j.audit| ==> j.audit[i].id in j.rows)
    && (forall id :: id in j.rows <==> id in j.order)
    && (forall i, k :: 0 <= i < k < |j.order| ==> j.order[i] != j.order[k])
  }

  predicate Unsent(s: CommandState) { s.Created? || s.Validated? }

  ghost predicate EntryGate(j: Journal) {
    forall a, b :: a in j.rows && b in j.rows && Unsent(j.rows[a].state) && Unsent(j.rows[b].state) ==> a == b
  }

  ghost predicate OneActivePerTrade(j: Journal) {
    forall a, b ::
      && a in j.rows && b in j.rows && j.rows[a].trade == j.rows[b].trade
      && !Terminal(j.rows[a].state) && !Terminal(j.rows[b].state)
      ==> a == b
  }

  ghost predicate SubmitsBounded(cfg: Config, m: Machine) {
    forall id :: && Count(m.book.submits, id) <= cfg.submitRetries + 1
                 && (id !in m.journal.rows || Unsent(m.journal.rows[id].state) ==> Count(m.book.submits, id) == 0)
  }

  // ------------------------------------------------------ the running call

  datatype Verdict = Goes(state: CommandState) | Stops | Breaks

  /** Where one write leads: onward, to a refused transition, or to an unlawful line. */
  function Do(s: CommandState, act: Act): Verdict {
    match act
    case Save(_) => Goes(s)
    case Note(tag, at) =>
      var t := if at.Some? then at.value else s;
      if !tag.Fsm? && Lawful(s, Line("", tag, t)) then Goes(t) else Breaks
    case Fire(event, target) =>
      var next := Transition(s, event, target);
      if next.Some? then Goes(next.value) else Stops
  }

  function Then(v: Verdict, act: Act): Verdict {
    if v.Goes? then Do(v.state, act) else v
  }

  function Flow(s: CommandState, acts: seq<Act>): Verdict
    decreases |acts|
  {
    if acts == [] then Goes(s)
    else
      var v := Do(s, acts[0]);
      if v.Goes? then Flow(v.state, acts[1..]) else v
  }

  predicate AskOk(cfg: Config, m: Machine, id: string, s: CommandState, ask: Ask) {
    match ask
    case Send(n) => s.Submitted? && n <= cfg.submitRetries && Count(m.book.submits, id) == n
    case LookUp(n, r) => s.Submitted? && n < cfg.submitRetries && Count(m.book.submits, id) == n + 1
    case Position(_) => s.Filled? || s.PartiallyFilled?
    case Attach(_, _, _) => s.Modifying?
    case CloseUrgently(_) => s.Modifying?
    case Resolve => s.Unknown?
    case _ => true
  }

  ghost predicate CallOk(cfg: Config, m: Machine) {
    m.pc.Busy? ==>
      var id := m.pc.command.id;
      var flow := Flow(StateOf(m.journal, id), m.pc.acts);
      && (m.pc.acts != [] || !m.pc.ask.Finish? ==> id in m.journal.rows)
      && !flow.Breaks?
      && (flow.Goes? ==> AskOk(cfg, m, id, flow.state, m.pc.ask))
  }

  ghost predicate Inv(cfg: Config, m: Machine) {
    && JournalOk(m.journal) && EntryGate(m.journal) && OneActivePerTrade(m.journal)
    && SubmitsBounded(cfg, m) && CallOk(cfg, m)
  }

  // --------------------------------------------------- flows of short queues

  lemma {:induction false} FlowSnoc(s: CommandState, acts: seq<Act>, a: Act)
    ensures Flow(s, acts + [a]) == Then(Flow(s, acts), a)
    decreases |acts|
  {
    if acts == [] {
      assert (acts + [a])[1..] == [];
    } else {
      assert (acts + [a])[1..] == acts[1..] + [a];
      var v := Do(s, acts[0]);
      if v.Goes? { FlowSnoc(v.state, acts[1..], a); }
    }
  }

  lemma Flow2(s: CommandState, a: Act, b: Act)
    ensures Flow(s, [a]) == Do(s, a)
    ensures Flow(s, [a, b]) == Then(Do(s, a), b)
  {
    FlowSnoc(s, [], a);
    FlowSnoc(s, [a], b);
    assert [a] + [b] == [a, b];
  }

  lemma Flow4(s: CommandState, a: Act, b: Act, c: Act, d: Act)
    ensures Flow(s, [a, b, c]) == Then(Then(Do(s, a), b), c)
    ensures Flow(s, [a, b, c, d]) == Then(Then(Then(Do(s, a), b), c), d)
  {
    Flow2(s, a, b);
    FlowSnoc(s, [a, b], c);
    assert [a, b] + [c] == [a, b, c];
    FlowSnoc(s, [a, b, c], d);
    assert [a, b, c] + [d] == [a, b, c, d];
  }

  // ------------------------------------------------ one write keeps the invariant

  lemma LawfulFacts(prev: CommandState, line: Line)
    requires Lawful(prev, line)
    ensures Terminal(prev) ==> line.state == prev
    ensures Unsent(line.state) ==> Unsent(prev)
    ensures prev.Unknown? && !line.state.Unknown? ==> line.tag == Fsm(Reconcile)
  {
  }

  lemma RecordKeepsJournal(j: Journal, id: string, tag: Tag, s: CommandState)
    requires JournalOk(j) && id in j.rows && Lawful(j.rows[id].state, Line(id, tag, s))
    ensures JournalOk(Record(j, id, tag, s))
  {
    var k := Record(j, id, tag, s);
    assert k.audit[..|j.audit|] == j.audit;
    forall i | 0 <= i < |k.audit| ensures Lawful(Latest(k.audit[..i], k.audit[i].id), k.audit[i]) {
      if i < |j.audit| { assert k.audit[..i] == j.audit[..i]; }
    }
  }

  lemma RecordKeepsTables(cfg: Config, m: Machine, id: string, tag: Tag, s: CommandState)
    requires EntryGate(m.journal) && OneActivePerTrade(m.journal) && SubmitsBounded(cfg, m)
    requires id in m.journal.rows && Lawful(m.journal.rows[id].state, Line(id, tag, s))
    ensures EntryGate(Record(m.journal, id, tag, s)) && OneActivePerTrade(Record(m.journal, id, tag, s))
    ensures SubmitsBounded(cfg, m.(journal := Record(m.journal, id, tag, s)))
  {
    LawfulFacts(m.journal.rows[id].state, Line(id, tag, s));
  }

  /** One lawful line, with the rest of the queue still to come. */
  lemma LineKeeps(cfg: Config, m: Machine, tag: Tag, t: CommandState)
    requires Inv(cfg, m) && m.pc.Busy? && m.pc.acts != []
    requires Do(StateOf(m.journal, m.pc.command.id), m.pc.acts[0]) == Goes(t)
    requires Lawful(StateOf(m.journal, m.pc.command.id), Line("", tag, t))
    ensures Inv(cfg, m.(journal := Record(m.journal, m.pc.command.id, tag, t), pc := m.pc.(acts := m.pc.acts[1..])))
  {
    var id := m.pc.command.id;
    RecordKeepsJournal(m.journal, id, tag, t);
    RecordKeepsTables(cfg, m, id, tag, t);
  }

  lemma SaveKeeps(cfg: Config, m: Machine)
    requires Inv(cfg, m) && m.pc.Busy? && m.pc.acts != [] && m.pc.acts[0].Save?
    ensures Inv(cfg, WriteHead(m))
  {
  }

  lemma WriteKeeps(cfg: Config, m: Machine)
    requires Inv(cfg, m) && m.pc.Busy? && m.pc.acts != []
    ensures Inv(cfg, WriteHead(m))
  {
    var act, s := m.pc.acts[0], StateOf(m.journal, m.pc.command.id);
    match act
    case Save(r) => SaveKeeps(cfg, m);
    case Note(tag, at) => LineKeeps(cfg, m, tag, if at.Some? then at.value else s);
    case Fire(event, target) =>
      var next := Transition(s, event, target);
      if next.Some? {
        TransitionIgnoresTarget(s, event, target);
        LineKeeps(cfg, m, Fsm(event), next.value);
      }
  }

  lemma TransitionIgnoresTarget(s: CommandState, event: Event, target: Option<CommandState>)
    requires Transition(s, event, target).Some?
    ensures Transition(s, event, Some(Transition(s, event, target).value)) == Transition(s, event, target)
  {
  }

  // --------------------------------------------- one answer keeps the invariant

  /** A queue of writes for a command in state s is lawful and leads to its question. */
  ghost predicate PlanOk(cfg: Config, m: Machine, s: CommandState, pc: Pc)
    requires pc.Busy?
  {
    var flow := Flow(s, pc.acts);
    !flow.Breaks? && (flow.Goes? ==> AskOk(cfg, m, pc.command.id, flow.state, pc.ask))
  }

  lemma AdoptingUnknownOk(cfg: Config, m: Machine, c: Command, d: CommandState, t: Truth)
    ensures PlanOk(cfg, m, Unknown, Adopting(c, [Note(ReconciliationQuery, Some(Unknown))], d, t))
  {
    var q, a, n := Note(ReconciliationQuery, Some(Unknown)), Fire(Reconcile, Some(d)),
      Note(SubmittedAfterReconcile, Some(Submitted));
    var v := Save(ResultFor(d));
    Flow2(Unknown, q, a);
    Flow4(Unknown, q, a, n, n);
    Flow4(Unknown, q, a, v, v);
    assert [q] + [a] == [q, a] && [q] + [a, n] == [q, a, n] && [q] + [a] + [v] == [q, a, v];
  }

  lemma AdoptingSubmittedOk(cfg: Config, m: Machine, c: Command, d: CommandState, t: Truth)
    ensures PlanOk(cfg, m, Submitted, Adopting(c, [Note(ReconcileAfterTimeout, None), Fire(GoUnknown, None)], d, t))
  {
    var h, u, a := Note(ReconcileAfterTimeout, None), Fire(GoUnknown, None), Fire(Reconcile, Some(d));
    var n, v := Note(SubmittedAfterReconcile, Some(Submitted)), Save(ResultFor(d));
    Flow4(Submitted, h, u, a, n);
    Flow4(Submitted, h, u, a, v);
    assert [h, u] + [a] == [h, u, a] && [h, u] + [a, n] == [h, u, a, n] && [h, u] + [a] + [v] == [h, u, a, v];
  }

  lemma SavingOk(cfg: Config, m: Machine, s: CommandState, c: Command, a: Act, b: Act, r: ExecutionResult)
    ensures !Do(s, a).Breaks? ==> PlanOk(cfg, m, s, Saving(c, [a], r))
    ensures !Then(Do(s, a), b).Breaks? ==> PlanOk(cfg, m, s, Saving(c, [a, b], r))
  {
    Flow2(s, a, Save(r));
    Flow4(s, a, b, Save(r), Save(r));
    assert [a] + [Save(r)] == [a, Save(r)] && [a, b] + [Save(r)] == [a, b, Save(r)];
  }

  lemma AfterSentOk(cfg: Config, m: Machine, c: Command, n: nat, r: ExecutionResult)
    requires n <= cfg.submitRetries && Count(m.book.submits, c.id) == n + 1
    ensures PlanOk(cfg, m, Submitted, AfterSent(cfg, c, n, r))
  {
    var heard := Note(ExecutorResult, None);
    Flow2(Submitted, heard, Fire(FullFill, None));
    Flow4(Submitted, heard, Fire(PartialFill, None), Note(CancelRemainder, Some(PartiallyFilled)), heard);
    SavingOk(cfg, m, Submitted, c, heard, Fire(Reject, None), r);
    SavingOk(cfg, m, Submitted, c, heard, Fire(Fail, None), r);
    SavingOk(cfg, m, Submitted, c, heard, Fire(Expire, None), r);
    SavingOk(cfg, m, Submitted, c, heard, Fire(GoUnknown, None), r);
  }

  lemma AfterLookUpOk(cfg: Config, m: Machine, c: Command, n: nat, r: ExecutionResult, t: Truth)
    requires n < cfg.submitRetries && Count(m.book.submits, c.id) == n + 1
    ensures PlanOk(cfg, m, Submitted, AfterLookUp(c, n, r, t))
  {
    var heard := Note(ReconcileAfterTimeout, None);
    Flow2(Submitted, heard, heard);
    SavingOk(cfg, m, Submitted, c, heard, Fire(GoUnknown, None), UnknownResult(AmbiguousResponse));
    if t.discovered.Some? { AdoptingSubmittedOk(cfg, m, c, t.discovered.value, t); }
  }

  lemma AfterPositionOk(cfg: Config, m: Machine, s: CommandState, c: Command, fill: ExecutionResult,
                        p: Option<Snapshot>)
    requires s.Filled? || s.PartiallyFilled?
    ensures PlanOk(cfg, m, s, AfterPosition(c, fill, p))
  {
    SavingOk(cfg, m, s, c, Fire(GoUnknown, None), Fire(GoUnknown, None), UnknownResult(AmbiguousResponse));
    Flow2(s, Note(SlConfirmed, Some(Filled)), Save(Confirmed(fill)));
    Flow2(s, Fire(SlAttaching, None), Fire(SlAttaching, None));
    assert [Note(SlConfirmed, Some(Filled))] + [Save(Confirmed(fill))] ==
      [Note(SlConfirmed, Some(Filled)), Save(Confirmed(fill))];
  }

  lemma AfterAttachOk(cfg: Config, m: Machine, c: Command, pid: string, fill: ExecutionResult, n: nat, applied: bool)
    ensures PlanOk(cfg, m, Modifying, AfterAttach(cfg, c, pid, fill, n, applied))
  {
    var heard, v := Note(SlAttachResult, Some(Modifying)), Save(Confirmed(fill));
    Flow2(Modifying, heard, heard);
    Flow4(Modifying, heard, Fire(SlAttached, None), v, v);
    assert [heard, Fire(SlAttached, None)] + [v] == [heard, Fire(SlAttached, None), v];
    Flow4(Modifying, heard, Note(SlAttachBudgetSpent, Some(Modifying)),
      Note(EmergencyCloseRequested, Some(Modifying)), heard);
  }

  lemma ClosingOk(cfg: Config, m: Machine, s: CommandState, c: Command, pid: string, n: nat, r: ExecutionResult)
    ensures s.Modifying? ==> PlanOk(cfg, m, s, AfterUrgentClose(c, r))
    ensures PlanOk(cfg, m, s, AfterClose(cfg, c, pid, n, r))
  {
    var urgent, heard := Note(EmergencyCloseResult, Some(Modifying)), Note(CloseResult, None);
    var u := UnknownResult(EmergencyCloseFailed);
    Flow4(s, urgent, Fire(Close, None), Save(r), heard);
    Flow4(s, urgent, Fire(GoUnknown, None), Save(u), heard);
    Flow2(s, heard, heard);
    SavingOk(cfg, m, s, c, heard, Fire(Close, None), r);
    SavingOk(cfg, m, s, c, heard, Fire(GoUnknown, None), UnknownResult(AmbiguousResponse));
  }

  lemma AfterTruthOk(cfg: Config, m: Machine, c: Command, t: Truth)
    ensures PlanOk(cfg, m, Unknown, AfterTruth(c, t))
  {
    SavingOk(cfg, m, Unknown, c, Note(ReconciliationQuery, Some(Unknown)),
             Note(ReconciliationAmbiguous, Some(Unknown)), UnknownResult(ReconciliationPending));
    if t.discovered.Some? { AdoptingUnknownOk(cfg, m, c, t.discovered.value, t); }
  }

  /** A lawful plan for the running command, and no other change but in the book. */
  lemma PlanInstalled(cfg: Config, m: Machine, m': Machine)
    requires Inv(cfg, m) && SubmitsBounded(cfg, m') && m'.journal == m.journal
    requires m'.pc.Busy? && m'.pc.command.id in m.journal.rows
    requires PlanOk(cfg, m', StateOf(m.journal, m'.pc.command.id), m'.pc)
    ensures Inv(cfg, m')
  {
  }

  lemma HearPlan(cfg: Config, m: Machine, a: Answer, m': Machine)
    requires m.pc.Busy? && m.pc.acts == [] && Hear(cfg, m, a) == Some(m')
    requires m.pc.command.id in m.journal.rows && SubmitsBounded(cfg, m)
    requires AskOk(cfg, m, m.pc.command.id, StateOf(m.journal, m.pc.command.id), m.pc.ask)
    ensures m'.pc.Busy? && PlanOk(cfg, m', StateOf(m.journal, m.pc.command.id), m'.pc)
  {
    var c := m.pc.command;
    var s := StateOf(m.journal, c.id);
    match m.pc.ask
    case Expiry =>
      SavingOk(cfg, m', s, c, Fire(Expire, None), Fire(Expire, None), Plain(ExpiredStatus, Some(CommandExpired)));
      Flow2(s, Fire(Submit, None), Fire(Submit, None));
    case Send(n) => AfterSentOk(cfg, m', c, n, a.reply);
    case LookUp(n, r) => AfterLookUpOk(cfg, m', c, n, r, a.truth);
    case Position(fill) => AfterPositionOk(cfg, m', s, c, fill, a.snapshot);
    case Attach(pid, fill, n) => AfterAttachOk(cfg, m', c, pid, fill, n, a.applied);
    case CloseUrgently(pid) => ClosingOk(cfg, m', s, c, pid, 0, a.reply);
    case CloseDown(pid, n) => ClosingOk(cfg, m', s, c, pid, n, a.reply);
    case Resolve => AfterTruthOk(cfg, m', c, a.truth);
  }

  lemma HearKeeps(cfg: Config, m: Machine, a: Answer)
    requires Inv(cfg, m) && m.pc.Busy? && m.pc.acts == [] && Hear(cfg, m, a).Some?
    ensures Inv(cfg, Hear(cfg, m, a).value)
  {
    var m' := Hear(cfg, m, a).value;
    HearPlan(cfg, m, a, m');
    HearKeepsCommand(cfg, m, a, m');
    PlanInstalled(cfg, m, m');
  }

  lemma HearKeepsCommand(cfg: Config, m: Machine, a: Answer, m': Machine)
    requires m.pc.Busy? && m.pc.acts == [] && Hear(cfg, m, a) == Some(m')
    requires SubmitsBounded(cfg, m) && m.pc.command.id in m.journal.rows
    requires AskOk(cfg, m, m.pc.command.id, StateOf(m.journal, m.pc.command.id), m.pc.ask)
    ensures m'.pc.Busy? && m'.pc.command == m.pc.command && m'.journal == m.journal
    ensures SubmitsBounded(cfg, m')
  {
    forall id
      ensures Count(m'.book.submits, id) <= cfg.submitRetries + 1
      ensures id !in m.journal.rows || Unsent(m.journal.rows[id].state) ==> Count(m'.book.submits, id) == 0
    {
      assert Count(m.book.submits, id) <= cfg.submitRetries + 1;
    }
  }

  // ------------------------------------------------------------ every step

  lemma InsertKeeps(cfg: Config, m: Machine, c: Command)
    requires JournalOk(m.journal) && EntryGate(m.journal) && OneActivePerTrade(m.journal) && SubmitsBounded(cfg, m)
    requires EntersRow(m.journal, CreateCall(c, true, false))
    ensures JournalOk(Insert(m.journal, c)) && EntryGate(Insert(m.journal, c))
      && OneActivePerTrade(Insert(m.journal, c))
    ensures SubmitsBounded(cfg, m.(journal := Insert(m.journal, c)))
  {
    UnheardOf(m.journal.audit, c.id);
    var j := Insert(m.journal, c);
    assert forall id :: id in j.order <==> id in m.journal.order || id == c.id;
  }

  lemma {:induction false} UnheardOf(audit: seq<Line>, id: string)
    requires forall i :: 0 <= i < |audit| ==> audit[i].id != id
    ensures Latest(audit, id) == Created
  {
    if audit != [] { UnheardOf(audit[..|audit| - 1], id); }
  }

  lemma BeginPlan(cfg: Config, m: Machine, call: Call, m': Machine)
    requires Inv(cfg, m) && m.pc.Idle? && m' == Start(m, call)
    requires m'.pc.acts != [] || !m'.pc.ask.Finish?
    ensures call.command.id in m'.journal.rows
    ensures PlanOk(cfg, m', StateOf(m'.journal, call.command.id), m'.pc)
  {
    var c, s := call.command, StateOf(m'.journal, call.command.id);
    match call
    case CreateCall(_, _, _) => Flow2(s, Note(CommandCreated, Some(Created)), Fire(ValidateOk, None));
    case SubmitCall(_, _) =>
      Flow2(s, Fire(ValidateOk, None), Fire(ValidateOk, None));
      SavingOk(cfg, m', s, c, Fire(ValidateFail, None), Fire(ValidateFail, None),
        Plain(FailedStatus, Some(InvalidCommand)));
    case CloseCall(_, _) =>
    case ReconcileCall(_) =>
  }

  lemma BeginKeeps(cfg: Config, m: Machine, call: Call)
    requires Inv(cfg, m) && m.pc.Idle?
    ensures Inv(cfg, Start(m, call))
  {
    var m' := Start(m, call);
    var mid := m.(journal := m'.journal);
    if EntersRow(m.journal, call) { InsertKeeps(cfg, m, call.command); }
    assert Inv(cfg, mid);
    assert m'.pc.Busy? && m'.pc.command == call.command;
    if m'.pc.acts != [] || !m'.pc.ask.Finish? {
      BeginPlan(cfg, m, call, m');
      PlanInstalled(cfg, mid, m');
    }
  }

  lemma StepKeeps(cfg: Config, m: Machine, op: Op)
    requires Inv(cfg, m) && Step(cfg, m, op).Some?
    ensures Inv(cfg, Step(cfg, m, op).value)
  {
    match op
    case Begin(call) => BeginKeeps(cfg, m, call);
    case Write => WriteKeeps(cfg, m);
    case Reply(a) => HearKeeps(cfg, m, a);
    case Return =>
    case Crash =>
  }

  /** Every reachable state, a crash after any operation included, satisfies the invariant. */
  lemma {:induction false} Reachable(cfg: Config, m0: Machine, ops: seq<Op>)
    requires Initial(m0) && Run(cfg, m0, ops).Some?
    ensures Inv(cfg, Run(cfg, m0, ops).value)
  {
    if ops != [] {
      Reachable(cfg, m0, ops[..|ops| - 1]);
      StepKeeps(cfg, Run(cfg, m0, ops[..|ops| - 1]).value, ops[|ops| - 1]);
    }
  }
}
