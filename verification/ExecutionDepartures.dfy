/**
 * Where the execution protocol departs from its own documentation: what restart
 * recovery reports and cannot mend, and fills that stay without a stop-loss.
 */
module ExecutionDepartures {
  import opened Common
  import opened ExecutionModels
  import opened ExecutionProtocol
  import opened ExecutionSafety
  import opened ExecutionTheorems
  import opened ExecutionProtection

  // --------------------------------------------- what only close() can move

  /** States in which a command without a running call waits for something to happen. */
  predicate Waiting(s: CommandState) {
    s.Submitted? || s.PartiallyFilled? || s.Filled? || s.Modifying?
  }

  /** The row is untouched, and the running call, if it is about this command, will not touch it. */
  ghost predicate Untouched(m: Machine, id: string, row: Row) {
    && id in m.journal.rows && m.journal.rows[id] == row && Waiting(row.state)
    && (m.pc.Busy? && m.pc.command.id == id ==>
          || (m.pc.acts == [] && (m.pc.ask.Finish? || (m.pc.ask.Expiry? && !row.state.Submitted?)))
          || (m.pc.acts != [] && Refused(row.state, m.pc.acts[0])))
  }

  predicate ClosesIt(op: Op, id: string) {
    op.Begin? && op.call.CloseCall? && op.call.command.id == id
  }

  lemma UntouchedStays(cfg: Config, m: Machine, op: Op, id: string, row: Row)
    requires Untouched(m, id, row) && Step(cfg, m, op).Some? && !ClosesIt(op, id)
    ensures Untouched(Step(cfg, m, op).value, id, row)
  {
    match op
    case Begin(call) =>
    case Write =>
    case Reply(a) => if m.pc.command.id == id { assert m.pc.ask.Expiry?; }
    case Return =>
    case Crash =>
  }

  /** A command left behind in SUBMITTED, PARTIALLY_FILLED, FILLED or MODIFYING keeps its row
      through every submit, reconcile, create and crash: only close() ever moves it.  In
      particular the RECONCILE that recovery advises for SUBMITTED never takes place. */
  lemma {:induction false} OnlyCloseMoves(cfg: Config, m: Machine, ops: seq<Op>, id: string)
    requires m.pc.Idle? && id in m.journal.rows && Waiting(m.journal.rows[id].state)
    requires Run(cfg, m, ops).Some? && forall k :: 0 <= k < |ops| ==> !ClosesIt(ops[k], id)
    ensures Untouched(Run(cfg, m, ops).value, id, m.journal.rows[id])
  {
    if ops != [] {
      OnlyCloseMoves(cfg, m, ops[..|ops| - 1], id);
      UntouchedStays(cfg, Run(cfg, m, ops[..|ops| - 1]).value, ops[|ops| - 1], id, m.journal.rows[id]);
    }
  }

  /** So a command stranded in SUBMITTED keeps every later plan out until somebody closes it. */
  lemma {:induction false} StrandedSubmitBlocksEntry(cfg: Config, m: Machine, ops: seq<Op>, id: string)
    requires Inv(cfg, m) && m.pc.Idle? && id in m.journal.rows && m.journal.rows[id].state.Submitted?
    requires Run(cfg, m, ops).Some? && forall k :: 0 <= k < |ops| ==> !ClosesIt(ops[k], id)
    ensures Run(cfg, m, ops).value.journal.rows.Keys == m.journal.rows.Keys
    ensures Inv(cfg, Run(cfg, m, ops).value)
  {
    if ops != [] {
      var init := ops[..|ops| - 1];
      StrandedSubmitBlocksEntry(cfg, m, init, id);
      OnlyCloseMoves(cfg, m, init, id);
      var before := Run(cfg, m, init).value;
      assert before.journal.rows[id].state.Submitted?;
      RowsStep(cfg, before, ops[|ops| - 1]);
      StepKeeps(cfg, before, ops[|ops| - 1]);
    }
  }

  /** Recovery's advice to reconcile can be followed if and only if the state is UNKNOWN. */
  lemma ReconcileAdviceUsable(cfg: Config, m: Machine, c: Command)
    requires m.pc.Idle? && c.id in m.journal.rows && AdviceFor(m.journal.rows[c.id].state).ReconcileIt?
    ensures Start(m, ReconcileCall(c)).pc.ask.Resolve? <==> m.journal.rows[c.id].state.Unknown?
    ensures !m.journal.rows[c.id].state.Unknown? ==>
      Start(m, ReconcileCall(c)) == m.(pc := Busy(c, [], Finish(Raised(StateError), Direct)), attaches := 0,
        closes := 0)
  {
  }

  // ------------------------------------------------- fills without a stop-loss

  /** When the position shows no matching stop-loss, the call dies before its first attach if
      and only if the fill was partial; the position then stays as it is. */
  lemma MissingSlRaisesOnPartial(cfg: Config, m: Machine, fill: ExecutionResult, at: Snapshot)
    requires m.pc.Busy? && m.pc.acts == [] && m.pc.ask == Position(fill)
    requires m.pc.command.id in m.journal.rows
    requires m.journal.rows[m.pc.command.id].state.Filled? || m.journal.rows[m.pc.command.id].state.PartiallyFilled?
    requires !(at.sl.Some? && SameLevel(at.sl.value, m.pc.command.sl))
    ensures var told := Step(cfg, m, Reply(At(Some(at))));
      && told.Some? && told.value.pc.acts != []
      && var next := WriteHead(told.value);
         && (next.pc.Idle? <==> m.journal.rows[m.pc.command.id].state.PartiallyFilled?)
         && (next.pc.Idle? ==>
               next.last == Some(Raised(StateError)) && next.journal == m.journal && next.book.sl == m.book.sl)
         && (!next.pc.Idle? ==>
               next.pc.ask == Attach(at.pid, fill, 0) && next.journal.rows[m.pc.command.id].state.Modifying?)
  {
  }

  // ------------------------------------------------------ honest runs, step by step

  /** An honest run that ends in m, never once with this command's stop-loss seen in place. */
  ghost predicate Reaches(cfg: Config, m0: Machine, ops: seq<Op>, m: Machine, id: string) {
    Run(cfg, m0, ops) == Some(m) && HonestRun(cfg, m0, ops) && !Vouched(cfg, m0, ops, id)
  }

  /** This operation is a crash, or the broker's word that it has closed a position. */
  predicate Eventful(op: Op) {
    op.Crash? || (op.Reply? && op.answer.Shut? && op.answer.reply.status.ClosedStatus?)
  }

  /** No crash, and no position ever closed. */
  ghost predicate Uneventful(ops: seq<Op>) {
    forall k :: 0 <= k < |ops| ==> !Eventful(ops[k])
  }

  lemma UneventfulIsCrashFree(ops: seq<Op>)
    requires Uneventful(ops)
    ensures CrashFree(ops)
  {
    forall k | 0 <= k < |ops| ensures !ops[k].Crash? { assert !Eventful(ops[k]); }
  }

  /** One more operation; a run stays uneventful unless that is an event. */
  lemma Extend(cfg: Config, m0: Machine, ops: seq<Op>, m: Machine, op: Op, m': Machine, id: string)
    requires Reaches(cfg, m0, ops, m, id)
    requires Step(cfg, m, op) == Some(m') && Honest(m, op) && !VouchedNow(m', id)
    ensures Reaches(cfg, m0, ops + [op], m', id)
    ensures Uneventful(ops) && !Eventful(op) ==> Uneventful(ops + [op])
  {
    hide Step, Honest, VouchedNow;
    assert (ops + [op])[..|ops|] == ops;
  }

  lemma ExtendWrite(cfg: Config, m0: Machine, ops: seq<Op>, m: Machine, id: string) returns (m': Machine)
    requires Reaches(cfg, m0, ops, m, id) && m.pc.Busy? && m.pc.acts != []
    requires m.pc.ask.Finish? ==> !m.pc.ask.how.Guarded?
    ensures m' == WriteHead(m)
    ensures Reaches(cfg, m0, ops + [Write], m', id) && (Uneventful(ops) ==> Uneventful(ops + [Write]))
  {
    hide Reaches, Transition;
    m' := WriteHead(m);
    Extend(cfg, m0, ops, m, Write, m', id);
  }

  /** An honest run that brings a fresh command to the point where the broker is asked to fill it. */
  lemma FirstSend(cfg: Config, c: Command, m0: Machine) returns (ops: seq<Op>, m: Machine)
    requires Initial(m0)
    ensures Reaches(cfg, m0, ops, m, c.id) && Uneventful(ops)
    ensures m.book.landed == map[] && m.pc == Busy(c, [], Send(0))
      && m.journal.rows == map[c.id := Row(c.trade, Submitted, None)]
  {
    hide Reaches;
    var m1 := Start(m0, CreateCall(c, true, false));
    Fresh(cfg, m0, c.id);
    Extend(cfg, m0, [], m0, Begin(CreateCall(c, true, false)), m1, c.id);
    ops := [] + [Begin(CreateCall(c, true, false))];
    var m2 := ExtendWrite(cfg, m0, ops, m1, c.id);
    ops := ops + [Write];
    var m3 := Step(cfg, m2, Return).value;
    Extend(cfg, m0, ops, m2, Return, m3, c.id);
    ops := ops + [Return];
    ops, m := SendAfterCreate(cfg, c, m0, ops, m3);
  }

  lemma Fresh(cfg: Config, m0: Machine, id: string)
    requires Initial(m0)
    ensures Reaches(cfg, m0, [], m0, id) && Uneventful([])
  {
  }

  lemma SendAfterCreate(cfg: Config, c: Command, m0: Machine, ops0: seq<Op>, m3: Machine)
    returns (ops: seq<Op>, m: Machine)
    requires Reaches(cfg, m0, ops0, m3, c.id) && Uneventful(ops0)
    requires m3.pc.Idle? && m3.book.landed == map[] && m3.journal.rows == map[c.id := Row(c.trade, Created, None)]
    ensures Reaches(cfg, m0, ops, m, c.id) && Uneventful(ops)
    ensures m.book.landed == map[] && m.pc == Busy(c, [], Send(0))
      && m.journal.rows == map[c.id := Row(c.trade, Submitted, None)]
  {
    hide Reaches;
    ops := ops0;
    var m4 := Start(m3, SubmitCall(c, true));
    Extend(cfg, m0, ops, m3, Begin(SubmitCall(c, true)), m4, c.id);
    ops := ops + [Begin(SubmitCall(c, true))];
    var m5 := ExtendWrite(cfg, m0, ops, m4, c.id);
    ops := ops + [Write];
    var m6 := Hear(cfg, m5, Clock(false)).value;
    Extend(cfg, m0, ops, m5, Reply(Clock(false)), m6, c.id);
    ops := ops + [Reply(Clock(false))];
    m := ExtendWrite(cfg, m0, ops, m6, c.id);
    ops := ops + [Write];
  }

  /** The broker's answer to the first submit: the order has landed, its position has no stop-loss. */
  lemma FirstReply(cfg: Config, c: Command, m0: Machine, reply: ExecutionResult, pid: string)
    returns (ops: seq<Op>, m: Machine)
    requires Initial(m0)
    ensures Reaches(cfg, m0, ops, m, c.id) && Uneventful(ops)
    ensures m.journal.rows == map[c.id := Row(c.trade, Submitted, None)] && m.pc == AfterSent(cfg, c, 0, reply)
    ensures m.book.sl == map[pid := None] && Count(m.book.landed, c.id) == 1
  {
    hide Reaches, AfterSent;
    var at;
    ops, at := FirstSend(cfg, c, m0);
    var sent := Sent(reply, true, map[pid := None]);
    m := Hear(cfg, at, sent).value;
    NotGuarded(cfg, c, 0, reply);
    Extend(cfg, m0, ops, at, Reply(sent), m, c.id);
    ops := ops + [Reply(sent)];
  }

  lemma NotGuarded(cfg: Config, c: Command, n: nat, reply: ExecutionResult)
    ensures AfterSent(cfg, c, n, reply).ask.Finish? ==> !AfterSent(cfg, c, n, reply).ask.how.Guarded?
  {
  }

  // --------------------------------------------- landed fills that rest unprotected

  /** A crash between FULL_FILL and the stop-loss check: the fill is journaled as FILLED, the
      broker's position has no stop-loss, and recovery advises nothing. */
  lemma CrashLeavesFillUnprotected(cfg: Config, c: Command, m0: Machine, pid: string)
    returns (ops: seq<Op>, m: Machine)
    requires Initial(m0)
    ensures Reaches(cfg, m0, ops, m, c.id) && m.pc.Idle?
    ensures m.journal.rows == map[c.id := Row(c.trade, Filled, None)]
    ensures m.book.sl == map[pid := None] && Count(m.book.landed, c.id) == 1
    ensures AdviceFor(m.journal.rows[c.id].state) == NothingToDo
  {
    hide Reaches;
    var m1;
    ops, m1 := FirstReply(cfg, c, m0, Plain(FilledStatus, None), pid);
    var m2 := ExtendWrite(cfg, m0, ops, m1, c.id);
    ops := ops + [Write];
    var m3 := ExtendWrite(cfg, m0, ops, m2, c.id);
    ops := ops + [Write];
    m := Step(cfg, m3, Crash).value;
    Extend(cfg, m0, ops, m3, Crash, m, c.id);
    ops := ops + [Crash];
  }

  /** Without any crash: a partial fill whose position shows no stop-loss.  The call raises before
      its first attach, the row rests in PARTIALLY_FILLED, and recovery advises nothing. */
  lemma PartialFillLeftUnprotected(cfg: Config, c: Command, m0: Machine, partial: ExecutionResult, pid: string)
    returns (ops: seq<Op>, m: Machine)
    requires Initial(m0) && partial.status.PartialStatus?
    ensures Reaches(cfg, m0, ops, m, c.id) && Uneventful(ops) && m.pc.Idle? && m.last == Some(Raised(StateError))
    ensures m.journal.rows == map[c.id := Row(c.trade, PartiallyFilled, None)]
    ensures m.book.sl == map[pid := None] && Count(m.book.landed, c.id) == 1
    ensures AdviceFor(m.journal.rows[c.id].state) == NothingToDo
  {
    hide Reaches;
    var m1;
    ops, m1 := FirstReply(cfg, c, m0, partial, pid);
    var m2 := ExtendWrite(cfg, m0, ops, m1, c.id);
    ops := ops + [Write];
    var m3 := ExtendWrite(cfg, m0, ops, m2, c.id);
    ops := ops + [Write];
    var m4 := ExtendWrite(cfg, m0, ops, m3, c.id);
    ops := ops + [Write];
    var at := At(Some(Snapshot(pid, None)));
    var m5 := Hear(cfg, m4, at).value;
    Extend(cfg, m0, ops, m4, Reply(at), m5, c.id);
    ops := ops + [Reply(at)];
    MissingSlRaisesOnPartial(cfg, m4, partial, Snapshot(pid, None));
    m := ExtendWrite(cfg, m0, ops, m5, c.id);
    ops := ops + [Write];
  }

  /** Without any crash: an ambiguous submit whose order has landed, reconciled to MODIFYING. */
  lemma AdoptedModifyingUnprotected(cfg: Config, c: Command, m0: Machine, pid: string)
    returns (ops: seq<Op>, m: Machine)
    requires Initial(m0)
    ensures Reaches(cfg, m0, ops, m, c.id) && Uneventful(ops) && m.pc.Idle?
    ensures m.journal.rows == map[c.id := Row(c.trade, Modifying, Some(UnknownResult(ReconciliationPending)))]
    ensures m.book.sl == map[pid := None] && Count(m.book.landed, c.id) == 1
    ensures AdviceFor(m.journal.rows[c.id].state) == NothingToDo
  {
    hide Reaches;
    var m1;
    ops, m1 := LostSubmit(cfg, c, m0, pid);
    var truth := Truth(Some(Modifying), false, 0.0, 0.0);
    ops, m := ReconciledTo(cfg, c, m0, ops, m1, truth, c.id);
  }

  /** An ambiguous reply to a submit that landed leaves the command UNKNOWN. */
  lemma LostSubmit(cfg: Config, c: Command, m0: Machine, pid: string) returns (ops: seq<Op>, m: Machine)
    requires Initial(m0)
    ensures Reaches(cfg, m0, ops, m, c.id) && Uneventful(ops) && m.pc.Idle?
    ensures m.journal.rows == map[c.id := Row(c.trade, Unknown, Some(UnknownResult(AmbiguousResponse)))]
    ensures m.book.sl == map[pid := None] && Count(m.book.landed, c.id) == 1
  {
    hide Reaches;
    var m1;
    ops, m1 := FirstReply(cfg, c, m0, UnknownResult(AmbiguousResponse), pid);
    var m2 := ExtendWrite(cfg, m0, ops, m1, c.id);
    ops := ops + [Write];
    var m3 := ExtendWrite(cfg, m0, ops, m2, c.id);
    ops := ops + [Write];
    var m4 := ExtendWrite(cfg, m0, ops, m3, c.id);
    ops := ops + [Write];
    m := Step(cfg, m4, Return).value;
    Extend(cfg, m0, ops, m4, Return, m, c.id);
    ops := ops + [Return];
  }

  /** Reconciling an UNKNOWN command to a state that is neither a fill nor still submitted. */
  lemma ReconciledTo(cfg: Config, c: Command, m0: Machine, ops0: seq<Op>, m1: Machine, t: Truth, id: string)
    returns (ops: seq<Op>, m: Machine)
    requires Reaches(cfg, m0, ops0, m1, id) && Uneventful(ops0) && m1.pc.Idle?
    requires c.id in m1.journal.rows && m1.journal.rows[c.id].state.Unknown?
    requires !t.ambiguous && t.discovered.Some? && Reconcilable(t.discovered.value)
    requires !t.discovered.value.Filled? && !t.discovered.value.PartiallyFilled? && !t.discovered.value.Submitted?
    ensures Reaches(cfg, m0, ops, m, id) && Uneventful(ops) && m.pc.Idle? && m.book.sl == m1.book.sl
      && m.book.landed == m1.book.landed
    ensures m.journal.rows == m1.journal.rows[c.id :=
      Row(m1.journal.rows[c.id].trade, t.discovered.value, Some(ResultFor(t.discovered.value)))]
  {
    hide Reaches;
    ops := ops0;
    var m2 := Start(m1, ReconcileCall(c));
    Extend(cfg, m0, ops, m1, Begin(ReconcileCall(c)), m2, id);
    ops := ops + [Begin(ReconcileCall(c))];
    var m3 := Hear(cfg, m2, Told(t)).value;
    Extend(cfg, m0, ops, m2, Reply(Told(t)), m3, id);
    ops := ops + [Reply(Told(t))];
    var m4 := ExtendWrite(cfg, m0, ops, m3, id);
    ops := ops + [Write];
    var m5 := ExtendWrite(cfg, m0, ops, m4, id);
    ops := ops + [Write];
    var m6 := ExtendWrite(cfg, m0, ops, m5, id);
    ops := ops + [Write];
    m := Step(cfg, m6, Return).value;
    Extend(cfg, m0, ops, m6, Return, m, id);
    ops := ops + [Return];
  }

  // ---------------------------------------- what recovery's silence is worth

  /** A command no call is busy with, in a state recovery has no advice for. */
  ghost predicate LeftAlone(m: Machine, id: string, s: CommandState, stored: bool) {
    m.pc.Idle? && id in m.journal.rows && m.journal.rows[id].state == s && (FillStored(m.journal, id) <==> stored)
  }

  /** In every honest run, wherever it crashed, such a command's stop-loss was seen in place. */
  ghost predicate Guaranteed(cfg: Config, s: CommandState, stored: bool) {
    forall m0, ops, id ::
      (Initial(m0) && Run(cfg, m0, ops).Some? && HonestRun(cfg, m0, ops)
        && LeftAlone(Run(cfg, m0, ops).value, id, s, stored))
      ==> Vouched(cfg, m0, ops, id)
  }

  const ANY_COMMAND := Command("", "", true, 1.0, 1.0)
  const FRESH_MACHINE := Machine(Journal(map[], [], []), Book(map[], map[], map[], []), Idle, None, 0, 0)

  /** When recovery advises nothing for a command that is not terminal, its fill is known to have
      been protected if and only if the journal stores a FILLED result for it. */
  lemma SilenceGuaranteesIff(cfg: Config, s: CommandState, stored: bool)
    requires !Terminal(s) && AdviceFor(s).NothingToDo?
    ensures Guaranteed(cfg, s, stored) <==> stored
  {
    if stored {
      forall m0, ops, id | Initial(m0) && Run(cfg, m0, ops).Some? && HonestRun(cfg, m0, ops)
          && LeftAlone(Run(cfg, m0, ops).value, id, s, stored)
        ensures Vouched(cfg, m0, ops, id)
      {
        StoredFillIsVouched(cfg, m0, ops, id);
      }
    } else {
      var ops, m := UnvouchedRun(cfg, s);
      assert LeftAlone(m, ANY_COMMAND.id, s, stored);
    }
  }

  lemma UnvouchedRun(cfg: Config, s: CommandState) returns (ops: seq<Op>, m: Machine)
    requires !Terminal(s) && AdviceFor(s).NothingToDo?
    ensures Initial(FRESH_MACHINE) && Reaches(cfg, FRESH_MACHINE, ops, m, ANY_COMMAND.id)
    ensures LeftAlone(m, ANY_COMMAND.id, s, false)
  {
    hide Reaches;
    match s
    case Filled => ops, m := CrashLeavesFillUnprotected(cfg, ANY_COMMAND, FRESH_MACHINE, "");
    case PartiallyFilled =>
      ops, m := PartialFillLeftUnprotected(cfg, ANY_COMMAND, FRESH_MACHINE, Plain(PartialStatus, None), "");
    case Modifying => ops, m := AdoptedModifyingUnprotected(cfg, ANY_COMMAND, FRESH_MACHINE, "");
  }

  // ------------------------------------------------ advice that cannot be followed

  /** A crash while the first submit is out: the order has landed, the journal says SUBMITTED, and
      recovery advises to reconcile. */
  lemma CrashStrandsSubmit(cfg: Config, c: Command, m0: Machine, pid: string) returns (ops: seq<Op>, m: Machine)
    requires Initial(m0)
    ensures Reaches(cfg, m0, ops, m, c.id) && m.pc.Idle?
    ensures m.journal.rows == map[c.id := Row(c.trade, Submitted, None)] && Count(m.book.landed, c.id) == 1
    ensures AdviceFor(m.journal.rows[c.id].state).ReconcileIt?
  {
    hide Reaches;
    var m1;
    ops, m1 := FirstReply(cfg, c, m0, Plain(FilledStatus, None), pid);
    m := Step(cfg, m1, Crash).value;
    Extend(cfg, m0, ops, m1, Crash, m, c.id);
    ops := ops + [Crash];
  }

  /** ... and from there on no run that does not close the command ever reconciles it or creates
      another one: the row stays, and every reconcile call raises. */
  lemma StrandedForGood(cfg: Config, c: Command, m0: Machine, ops: seq<Op>, m: Machine, more: seq<Op>)
    requires Initial(m0) && Reaches(cfg, m0, ops, m, c.id) && m.pc.Idle?
    requires m.journal.rows == map[c.id := Row(c.trade, Submitted, None)]
    requires Run(cfg, m, more).Some? && forall k :: 0 <= k < |more| ==> !ClosesIt(more[k], c.id)
    ensures var later := Run(cfg, m, more).value;
      && later.journal.rows == m.journal.rows
      && (later.pc.Idle? ==>
            var called := Step(cfg, later, Begin(ReconcileCall(c)));
            called.Some? && Step(cfg, called.value, Return).Some?
            && Step(cfg, called.value, Return).value.last == Some(Raised(StateError)))
  {
    hide Transition, FirstPc, Vouched, Inv;
    Reachable(cfg, m0, ops);
    OnlyCloseMoves(cfg, m, more, c.id);
    StrandedSubmitBlocksEntry(cfg, m, more, c.id);
    var later := Run(cfg, m, more).value;
    assert later.journal.rows == m.journal.rows by {
      assert later.journal.rows.Keys == {c.id};
    }
    if later.pc.Idle? { ReconcileAdviceUsable(cfg, later, c); }
  }

  // --------------------------------------- a live position behind a closed book

  /** Closes that the broker refuses, up to the budget, leave a partial fill UNKNOWN. */
  lemma {:induction false} RefusedCloses(cfg: Config, c: Command, m0: Machine, ops0: seq<Op>, m1: Machine,
                                         refused: ExecutionResult, pid: string, n: nat)
    returns (ops: seq<Op>, m: Machine)
    requires Reaches(cfg, m0, ops0, m1, c.id) && Uneventful(ops0) && !refused.status.ClosedStatus?
    requires m1.pc == Busy(c, [], CloseDown(pid, n)) && n <= cfg.closeRetries
    requires m1.journal.rows == map[c.id := Row(c.trade, PartiallyFilled, None)]
    ensures Reaches(cfg, m0, ops, m, c.id) && Uneventful(ops) && m.pc.Idle?
    ensures m.journal.rows == map[c.id := Row(c.trade, Unknown, Some(UnknownResult(AmbiguousResponse)))]
    ensures m.book.sl == m1.book.sl && m.book.landed == m1.book.landed
    decreases cfg.closeRetries - n
  {
    hide Reaches;
    var m2 := Hear(cfg, m1, Shut(refused)).value;
    Extend(cfg, m0, ops0, m1, Reply(Shut(refused)), m2, c.id);
    ops := ops0 + [Reply(Shut(refused))];
    var m3 := ExtendWrite(cfg, m0, ops, m2, c.id);
    ops := ops + [Write];
    if n < cfg.closeRetries {
      ops, m := RefusedCloses(cfg, c, m0, ops, m3, refused, pid, n + 1);
    } else {
      ops, m := GivenUp(cfg, c, m0, ops, m3);
    }
  }

  lemma GivenUp(cfg: Config, c: Command, m0: Machine, ops0: seq<Op>, m3: Machine) returns (ops: seq<Op>, m: Machine)
    requires Reaches(cfg, m0, ops0, m3, c.id) && Uneventful(ops0)
    requires m3.journal.rows == map[c.id := Row(c.trade, PartiallyFilled, None)]
    requires var u := UnknownResult(AmbiguousResponse);
      m3.pc == Busy(c, [Fire(GoUnknown, None), Save(u)], Finish(Returned(u), Direct))
    ensures Reaches(cfg, m0, ops, m, c.id) && Uneventful(ops) && m.pc.Idle?
    ensures m.journal.rows == map[c.id := Row(c.trade, Unknown, Some(UnknownResult(AmbiguousResponse)))]
    ensures m.book.sl == m3.book.sl && m.book.landed == m3.book.landed
  {
    hide Reaches;
    var m4 := ExtendWrite(cfg, m0, ops0, m3, c.id);
    ops := ops0 + [Write];
    var m5 := ExtendWrite(cfg, m0, ops, m4, c.id);
    ops := ops + [Write];
    m := Step(cfg, m5, Return).value;
    Extend(cfg, m0, ops, m5, Return, m, c.id);
    ops := ops + [Return];
  }

  /** Without any crash: a partial fill without a stop-loss whose closes are refused goes UNKNOWN and
      is then reconciled to what the broker reports of its canceled order.  If that is a terminal
      state, the command is off the books for good, while its position is still there. */
  lemma PartialFillLost(cfg: Config, c: Command, m0: Machine, partial: ExecutionResult, refused: ExecutionResult,
                        t: Truth, pid: string)
    returns (ops: seq<Op>, m: Machine)
    requires Initial(m0) && partial.status.PartialStatus? && !refused.status.ClosedStatus?
    requires !t.ambiguous && t.discovered.Some? && Terminal(t.discovered.value)
    ensures Reaches(cfg, m0, ops, m, c.id) && Uneventful(ops) && m.pc.Idle?
    ensures m.journal.rows == map[c.id := Row(c.trade, t.discovered.value, Some(ResultFor(t.discovered.value)))]
    ensures m.book.sl == map[pid := None] && Count(m.book.landed, c.id) == 1
    ensures forall more :: Run(cfg, m, more).Some? ==>
      c.id in Run(cfg, m, more).value.journal.rows && Run(cfg, m, more).value.journal.rows[c.id] == m.journal.rows[c.id]
  {
    hide Reaches;
    var m1;
    ops, m1 := PartialFillLeftUnprotected(cfg, c, m0, partial, pid);
    var m2 := Start(m1, CloseCall(c, pid));
    Extend(cfg, m0, ops, m1, Begin(CloseCall(c, pid)), m2, c.id);
    ops := ops + [Begin(CloseCall(c, pid))];
    var m3;
    ops, m3 := RefusedCloses(cfg, c, m0, ops, m2, refused, pid, 0);
    ops, m := ReconciledTo(cfg, c, m0, ops, m3, t, c.id);
    forall more | Run(cfg, m, more).Some?
      ensures c.id in Run(cfg, m, more).value.journal.rows
        && Run(cfg, m, more).value.journal.rows[c.id] == m.journal.rows[c.id]
    {
      TerminalForever(cfg, m, more, c.id);
    }
  }
}
