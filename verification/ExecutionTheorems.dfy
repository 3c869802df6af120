/**
 * What the execution protocol guarantees over whole runs, and where it stops
 * short of its own documentation.
 */
module ExecutionTheorems {
  import opened Common
  import opened ExecutionModels
  import opened ExecutionProtocol
  import opened ExecutionSafety

  // ----------------------------------------------------- write-ahead safety

  /** A command journaled as not yet submitted was never sent, and none is sent more often
      than the budget allows over its whole life, restarts included. */
  lemma WriteAheadSafety(cfg: Config, m0: Machine, ops: seq<Op>, id: string)
    requires Initial(m0) && Run(cfg, m0, ops).Some?
    ensures var m := Run(cfg, m0, ops).value;
      && Count(m.book.submits, id) <= 1 + cfg.submitRetries
      && (id in m.journal.rows && Unsent(m.journal.rows[id].state) ==> Count(m.book.submits, id) == 0)
  {
    Reachable(cfg, m0, ops);
    assert Count(Run(cfg, m0, ops).value.book.submits, id) <= 1 + cfg.submitRetries;
  }

  /** The only operation that reaches the broker's order entry finds the command SUBMITTED. */
  lemma SendOnlyWhenSubmitted(cfg: Config, m0: Machine, ops: seq<Op>, a: Answer)
    requires Initial(m0) && Run(cfg, m0, ops + [Reply(a)]).Some? && Run(cfg, m0, ops).Some?
    requires a.Sent?
    ensures var m := Run(cfg, m0, ops).value;
      m.pc.Busy? && m.pc.command.id in m.journal.rows && m.journal.rows[m.pc.command.id].state.Submitted?
  {
    Reachable(cfg, m0, ops);
    assert (ops + [Reply(a)])[..|ops|] == ops;
  }

  // ------------------------------------------ journal, projection and audit

  /** What one audit line may do to the state it finds. */
  predicate PathLine(prev: CommandState, line: Line) {
    && (Terminal(prev) ==> line.state == prev)
    && (prev.Unknown? && !line.state.Unknown? ==> line.tag == Fsm(Reconcile))
    && (line.state != prev && !line.tag.Fsm? ==> line.tag.SlConfirmed? && prev.PartiallyFilled? && line.state.Filled?)
    && (line.tag.Fsm? ==> Transition(prev, line.tag.event, Some(line.state)) == Some(line.state))
  }

  lemma LawfulIsPath(prev: CommandState, line: Line)
    requires Lawful(prev, line)
    ensures PathLine(prev, line)
  {
    LawfulFacts(prev, line);
  }

  /** Projection and audit trail tell the same story, and the story is a path of the automaton. */
  lemma JournalTellsOneStory(cfg: Config, m0: Machine, ops: seq<Op>)
    requires Initial(m0) && Run(cfg, m0, ops).Some?
    ensures var j := Run(cfg, m0, ops).value.journal;
      && (forall id :: id in j.rows ==> j.rows[id].state == Latest(j.audit, id))
      && (forall i :: 0 <= i < |j.audit| ==> PathLine(Latest(j.audit[..i], j.audit[i].id), j.audit[i]))
  {
    Reachable(cfg, m0, ops);
    var audit := Run(cfg, m0, ops).value.journal.audit;
    TrailIsPath(audit);
  }

  lemma TrailIsPath(audit: seq<Line>)
    requires LawfulTrail(audit)
    ensures forall i :: 0 <= i < |audit| ==> PathLine(Latest(audit[..i], audit[i].id), audit[i])
  {
    forall i | 0 <= i < |audit| ensures PathLine(Latest(audit[..i], audit[i].id), audit[i]) {
      assert Lawful(Latest(audit[..i], audit[i].id), audit[i]);
      LawfulIsPath(Latest(audit[..i], audit[i].id), audit[i]);
    }
  }

  /** The audit trail only grows: no operation rewrites a line. */
  lemma {:induction false} AuditOnlyGrows(cfg: Config, m: Machine, ops: seq<Op>)
    requires Run(cfg, m, ops).Some?
    ensures m.journal.audit <= Run(cfg, m, ops).value.journal.audit
  {
    if ops != [] { AuditOnlyGrows(cfg, m, ops[..|ops| - 1]); }
  }

  // ----------------------------------------------- slots, entry gate, terminals

  lemma OneSlotPerTrade(cfg: Config, m0: Machine, ops: seq<Op>, a: string, b: string)
    requires Initial(m0) && Run(cfg, m0, ops).Some?
    requires var j := Run(cfg, m0, ops).value.journal;
      a in j.rows && b in j.rows && j.rows[a].trade == j.rows[b].trade
    ensures var j := Run(cfg, m0, ops).value.journal;
      a == b || Terminal(j.rows[a].state) || Terminal(j.rows[b].state)
  {
    Reachable(cfg, m0, ops);
  }

  /** At most one command waits to be submitted. */
  lemma OneUnsentCommand(cfg: Config, m0: Machine, ops: seq<Op>, a: string, b: string)
    requires Initial(m0) && Run(cfg, m0, ops).Some?
    requires var rows := Run(cfg, m0, ops).value.journal.rows;
      a in rows && b in rows && Unsent(rows[a].state) && Unsent(rows[b].state)
    ensures a == b
  {
    Reachable(cfg, m0, ops);
  }

  lemma RowsStep(cfg: Config, m: Machine, op: Op)
    requires CallOk(cfg, m) && Step(cfg, m, op).Some?
    ensures m.journal.rows.Keys <= Step(cfg, m, op).value.journal.rows.Keys
    ensures GateShut(m.journal) ==> Step(cfg, m, op).value.journal.rows.Keys == m.journal.rows.Keys
  {
    match op
    case Begin(call) =>
    case Write => WriteFacts(cfg, m);
    case Reply(a) =>
    case Return =>
    case Crash =>
  }

  /** At some moment of the run this id was entered by a valid create call, with no command waiting,
      in flight or unknown and none active for its trade. */
  ghost predicate EnteredFreely(cfg: Config, m0: Machine, ops: seq<Op>, id: string) {
    ops != [] &&
    var init, op := ops[..|ops| - 1], ops[|ops| - 1];
    || EnteredFreely(cfg, m0, init, id)
    || (Run(cfg, m0, init).Some? && EntersNow(Run(cfg, m0, init).value, op, id))
  }

  ghost predicate EntersNow(m: Machine, op: Op, id: string) {
    op.Begin? && m.pc.Idle? && op.call.command.id == id && EntersRow(m.journal, op.call)
  }

  /** Over any run, whoever crashed when, the commands on record are exactly those entered while
      the gate was open. */
  lemma {:induction false} NoEntryWhileBlocked(cfg: Config, m0: Machine, ops: seq<Op>, id: string)
    requires Initial(m0) && Run(cfg, m0, ops).Some?
    ensures id in Run(cfg, m0, ops).value.journal.rows <==> EnteredFreely(cfg, m0, ops, id)
  {
    hide Transition, FirstPc, GateShut, TradeActive;
    if ops != [] {
      var init := ops[..|ops| - 1];
      NoEntryWhileBlocked(cfg, m0, init, id);
      Reachable(cfg, m0, init);
      EntryStep(cfg, Run(cfg, m0, init).value, ops[|ops| - 1], id);
    }
  }

  lemma EntryStep(cfg: Config, m: Machine, op: Op, id: string)
    requires CallOk(cfg, m) && Step(cfg, m, op).Some?
    ensures id in Step(cfg, m, op).value.journal.rows <==> id in m.journal.rows || EntersNow(m, op, id)
  {
    if op.Write? { WriteFacts(cfg, m); }
  }

  /** A row in a terminal state that its own call can no longer write. */
  ghost predicate Frozen(m: Machine, id: string, row: Row) {
    && id in m.journal.rows && m.journal.rows[id] == row && Terminal(row.state)
    && (m.pc.Busy? && m.pc.command.id == id ==> Inert(row.state, m.pc.acts, m.pc.ask))
  }

  predicate Refused(s: CommandState, act: Act) {
    act.Fire? && Transition(s, act.event, act.target).None?
  }

  predicate Inert(s: CommandState, acts: seq<Act>, ask: Ask) {
    var heard := Note(CloseResult, None);
    || (acts == [] && (ask.Finish? || ask.CloseDown?))
    || (acts == [heard] && ask.CloseDown?)
    || (|acts| >= 1 && Refused(s, acts[0]))
    || (|acts| >= 2 && acts[0] == heard && Refused(s, acts[1]))
  }

  lemma FrozenStays(cfg: Config, m: Machine, op: Op, id: string, row: Row)
    requires Frozen(m, id, row) && Step(cfg, m, op).Some?
    ensures Frozen(Step(cfg, m, op).value, id, row)
  {
    if op.Reply? && m.pc.command.id == id {
      assert m.pc.ask.CloseDown?;
    }
  }

  /** Once no call is busy with it, a terminal command keeps state and result forever. */
  lemma {:induction false} TerminalForever(cfg: Config, m: Machine, ops: seq<Op>, id: string)
    requires id in m.journal.rows && Terminal(m.journal.rows[id].state) && Run(cfg, m, ops).Some?
    requires m.pc.Busy? ==> m.pc.command.id != id || (m.pc.acts == [] && m.pc.ask.Finish?)
    ensures Frozen(Run(cfg, m, ops).value, id, m.journal.rows[id])
  {
    if ops != [] {
      TerminalForever(cfg, m, ops[..|ops| - 1], id);
      FrozenStays(cfg, Run(cfg, m, ops[..|ops| - 1]).value, ops[|ops| - 1], id, m.journal.rows[id]);
    }
  }

  // --------------------------------------------------- at most one broker order

  ghost predicate LandedOnce(m: Machine) {
    forall id :: && Count(m.book.landed, id) <= 1
                 && (id !in m.journal.rows || Unsent(m.journal.rows[id].state) ==> Count(m.book.landed, id) == 0)
  }

  ghost predicate NothingLandedBeforeSend(m: Machine) {
    m.pc.Busy? && m.pc.ask.Send? ==>
      var id := m.pc.command.id;
      Flow(StateOf(m.journal, id), m.pc.acts).Goes? ==> Count(m.book.landed, id) == 0
  }

  lemma SendPlans(cfg: Config, m: Machine, a: Answer, m': Machine)
    requires m.pc.Busy? && m.pc.acts == [] && Hear(cfg, m, a) == Some(m') && m'.pc.ask.Send?
    ensures m.pc.ask.Expiry? || (m.pc.ask.LookUp? && a.Told? && !a.truth.ambiguous && a.truth.discovered.None?)
    ensures m.pc.ask.Expiry? ==> m'.pc.acts == [Fire(Submit, None)]
  {
  }

  lemma LandedStep(cfg: Config, m: Machine, op: Op)
    requires Inv(cfg, m) && LandedOnce(m) && NothingLandedBeforeSend(m)
    requires Step(cfg, m, op).Some? && Honest(m, op)
    ensures LandedOnce(Step(cfg, m, op).value)
  {
    var m' := Step(cfg, m, op).value;
    if op.Write? { WriteFacts(cfg, m); }
    forall id
      ensures Count(m'.book.landed, id) <= 1
      ensures id !in m'.journal.rows || Unsent(m'.journal.rows[id].state) ==> Count(m'.book.landed, id) == 0
    {
      assert Count(m.book.landed, id) <= 1;
    }
  }

  /** A write keeps the set of rows and the book, and never makes a command unsent again. */
  lemma WriteFacts(cfg: Config, m: Machine)
    requires CallOk(cfg, m) && m.pc.Busy? && m.pc.acts != []
    ensures var m' := WriteHead(m);
      && m'.journal.rows.Keys == m.journal.rows.Keys && m'.book == m.book
      && (forall id :: id in m.journal.rows && Unsent(m'.journal.rows[id].state) ==> Unsent(m.journal.rows[id].state))
  {
    var s, act := StateOf(m.journal, m.pc.command.id), m.pc.acts[0];
    var v := Do(s, act);
    assert !v.Breaks?;
    assert v.Goes? && Unsent(v.state) ==> Unsent(s);
  }

  lemma NothingLandedReply(cfg: Config, m: Machine, a: Answer, m': Machine)
    requires CallOk(cfg, m) && LandedOnce(m) && m.pc.Busy? && m.pc.acts == []
    requires Hear(cfg, m, a) == Some(m') && Honest(m, Reply(a)) && m'.pc.ask.Send?
    ensures NothingLandedBeforeSend(m')
  {
    SendPlans(cfg, m, a, m');
    Flow2(StateOf(m.journal, m.pc.command.id), Fire(Submit, None), Fire(Submit, None));
    assert Count(m.book.landed, m.pc.command.id) <= 1;
  }

  lemma NothingLandedStep(cfg: Config, m: Machine, op: Op)
    requires CallOk(cfg, m) && LandedOnce(m) && NothingLandedBeforeSend(m)
    requires Step(cfg, m, op).Some? && Honest(m, op)
    ensures NothingLandedBeforeSend(Step(cfg, m, op).value)
  {
    var m' := Step(cfg, m, op).value;
    if op.Reply? && m'.pc.ask.Send? { NothingLandedReply(cfg, m, op.answer, m'); }
  }

  /** Even a broker that never deduplicates holds at most one order per command, provided it
      answers "nothing found" only when nothing has landed, and provided an order that is going to
      land has landed by the time its submit call is answered: the machine has no later landing. */
  lemma {:induction false} AtMostOneOrder(cfg: Config, m0: Machine, ops: seq<Op>)
    requires Initial(m0) && Run(cfg, m0, ops).Some? && HonestRun(cfg, m0, ops)
    ensures LandedOnce(Run(cfg, m0, ops).value) && NothingLandedBeforeSend(Run(cfg, m0, ops).value)
  {
    if ops != [] {
      var init := ops[..|ops| - 1];
      AtMostOneOrder(cfg, m0, init);
      Reachable(cfg, m0, init);
      LandedStep(cfg, Run(cfg, m0, init).value, ops[|ops| - 1]);
      NothingLandedStep(cfg, Run(cfg, m0, init).value, ops[|ops| - 1]);
    }
  }

  /** ... and so at most one position, where every position was opened by a landed order of its
      command and no order opens two.  An entry names command and order of a position. */
  lemma OnePositionPerCommand(cfg: Config, m0: Machine, ops: seq<Op>, origin: map<string, (string, nat)>, p: string,
                              q: string)
    requires Initial(m0) && Run(cfg, m0, ops).Some? && HonestRun(cfg, m0, ops)
    requires forall x :: x in origin ==> origin[x].1 < Count(Run(cfg, m0, ops).value.book.landed, origin[x].0)
    requires forall x, y :: x in origin && y in origin && origin[x] == origin[y] ==> x == y
    requires p in origin && q in origin && origin[p].0 == origin[q].0
    ensures p == q
  {
    hide Run, HonestRun, Initial, NothingLandedBeforeSend, Unsent;
    AtMostOneOrder(cfg, m0, ops);
    assert Count(Run(cfg, m0, ops).value.book.landed, origin[p].0) <= 1;
  }

  // ------------------------------------------------------ stop-loss protection

  /** The broker holds a stop-loss within a billionth of this level for the position. */
  predicate Protected(sl: map<string, Option<real>>, pid: string, level: real) {
    pid in sl && sl[pid].Some? && -0.000000001 < sl[pid].value - level < 0.000000001
  }

  /** A FILLED answer is either the replay of a stored one or backed by the broker's stop-loss. */
  ghost predicate FillsGuarded(m: Machine) {
    m.pc.Busy? && m.pc.ask.Finish? && m.pc.ask.out.Returned? && m.pc.ask.out.result.status.FilledStatus? ==>
      var c := m.pc.command;
      match m.pc.ask.how
      case Replayed => c.id in m.journal.rows && m.journal.rows[c.id].result == Some(m.pc.ask.out.result)
        && m.pc.acts == []
      case Guarded(pid) => Protected(m.book.sl, pid, c.sl)
      case _ => false
  }

  lemma GuardedStep(cfg: Config, m: Machine, op: Op)
    requires FillsGuarded(m) && Step(cfg, m, op).Some? && Honest(m, op)
    ensures FillsGuarded(Step(cfg, m, op).value)
  {
    if op.Reply? { GuardedReply(cfg, m, op.answer); }
  }

  lemma GuardedReply(cfg: Config, m: Machine, a: Answer)
    requires m.pc.Busy? && m.pc.acts == [] && Hear(cfg, m, a).Some? && Honest(m, Reply(a))
    ensures FillsGuarded(Hear(cfg, m, a).value)
  {
    match m.pc.ask
    case Position(fill) =>
    case Attach(pid, fill, n) =>
    case _ =>
  }

  lemma {:induction false} FillsStayGuarded(cfg: Config, m0: Machine, ops: seq<Op>)
    requires Initial(m0) && Run(cfg, m0, ops).Some? && HonestRun(cfg, m0, ops)
    ensures FillsGuarded(Run(cfg, m0, ops).value)
  {
    if ops != [] {
      FillsStayGuarded(cfg, m0, ops[..|ops| - 1]);
      GuardedStep(cfg, Run(cfg, m0, ops[..|ops| - 1]).value, ops[|ops| - 1]);
    }
  }

  /** Executor calls of the running (or last) call stay within their budgets, and an emergency
      close comes once, after all attach attempts, and leaves CLOSED or UNKNOWN. */
  ghost predicate WithinBudget(cfg: Config, m: Machine) {
    && m.attaches <= cfg.slAttachRetries + 1
    && m.closes <= cfg.closeRetries + 1
    && (m.pc.Busy? ==>
          match m.pc.ask
          case Attach(_, _, n) => m.attaches == n <= cfg.slAttachRetries && m.closes == 0
          case CloseUrgently(_) => m.attaches == cfg.slAttachRetries + 1 && m.closes == 0
          case CloseDown(_, n) => m.attaches == 0 && m.closes == n <= cfg.closeRetries
          case Finish(out, how) =>
            && (how.EmergencyClosed? ==>
                  && m.attaches == cfg.slAttachRetries + 1 && m.closes == 1 && out.Returned?
                  && (out.result.status.ClosedStatus? || out.result.status.UnknownStatus?))
            && (how.Guarded? ==> m.closes == 0)
          case _ => m.attaches == 0 && m.closes == 0)
  }

  lemma BudgetReply(cfg: Config, m: Machine, a: Answer)
    requires WithinBudget(cfg, m) && m.pc.Busy? && m.pc.acts == [] && Hear(cfg, m, a).Some?
    ensures WithinBudget(cfg, Hear(cfg, m, a).value)
  {
    match m.pc.ask
    case Send(n) =>
    case LookUp(n, r) =>
    case Resolve =>
    case _ =>
  }

  lemma {:induction false} ExecutorBudgets(cfg: Config, m0: Machine, ops: seq<Op>)
    requires m0.pc.Idle? && m0.attaches == m0.closes == 0 && Run(cfg, m0, ops).Some?
    ensures WithinBudget(cfg, Run(cfg, m0, ops).value)
  {
    if ops != [] {
      ExecutorBudgets(cfg, m0, ops[..|ops| - 1]);
      var m, op := Run(cfg, m0, ops[..|ops| - 1]).value, ops[|ops| - 1];
      if op.Reply? { BudgetReply(cfg, m, op.answer); }
    }
  }
}
