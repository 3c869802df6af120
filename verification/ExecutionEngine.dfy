/**
 * The engine, its journal and its broker boundary, as the source runs them:
 * objects whose methods write the journal step by step.
 *
 * Any journal write or broker exchange may be the last thing that happens; the
 * call then ends in Crashed.  Each method is proved to perform exactly one call
 * of the protocol machine, so every theorem about reachable machine states
 * holds of the engine after every prefix of every call.
 */
module Execution {
  import opened Common
  import opened ExecutionModels
  import opened ExecutionProtocol
  import Safety = ExecutionSafety

  /** The durable journal: command rows updated in place, audit lines only appended. */
  class ExecutionJournal {
    var rows: map<string, Row>
    var order: seq<string>
    var audit: seq<Line>

    ghost function View(): Journal
      reads this
    {
      Journal(rows, order, audit)
    }

    constructor ()
      ensures View() == Journal(map[], [], [])
    {
      rows, order, audit := map[], [], [];
    }

    /** Refuses a known command id and a trade that still has a live command. */
    method CreateCommand(c: Command) returns (ok: bool)
      modifies this
      ensures ok <==> c.id !in old(View()).rows && !TradeActive(old(View()), c.trade)
      ensures View() == if ok then Insert(old(View()), c) else old(View())
    {
      var active := exists id :: id in rows && rows[id].trade == c.trade && !Terminal(rows[id].state);
      ok := c.id !in rows && !active;
      if ok {
        rows := rows[c.id := Row(c.trade, Created, None)];
        order := order + [c.id];
      }
    }

    /** Appends an audit line and updates the projection, in one transaction. */
    method Record(id: string, tag: Tag, s: CommandState)
      modifies this
      ensures View() == ExecutionProtocol.Record(old(View()), id, tag, s)
    {
      audit := audit + [Line(id, tag, s)];
      if id in rows {
        rows := rows[id := rows[id].(state := s)];
      }
    }

    method StoreResult(id: string, r: ExecutionResult)
      modifies this
      ensures View() == Store(old(View()), id, r)
    {
      if id in rows {
        rows := rows[id := rows[id].(result := Some(r))];
      }
    }
  }

  /** The executor, the reconciliation boundary and the clock, answering as they please. */
  class Broker {
    ghost var book: Book

    constructor ()
      ensures book.submits == map[] && book.landed == map[]
    {
      var sl: map<string, Option<real>> := *;
      book := Book(map[], map[], sl, []);
    }

    /** Whether the clock has passed the command's expiry. */
    method PassedExpiry(c: Command) returns (expired: bool)
      modifies this
      ensures book == old(book).(log := old(book).log + [Clock(expired)])
    {
      expired := *;
      book := book.(log := book.log + [Clock(expired)]);
    }

    method Submit(c: Command) returns (reply: ExecutionResult, ghost landed: bool)
      modifies this
      ensures book.submits == Bump(old(book).submits, c.id)
      ensures book.landed == if landed then Bump(old(book).landed, c.id) else old(book).landed
      ensures book.log == old(book).log + [Sent(reply, landed, book.sl)]
    {
      reply := *;
      landed := *;
      var sl: map<string, Option<real>> := *;
      book := Book(Bump(book.submits, c.id), if landed then Bump(book.landed, c.id) else book.landed, sl,
                   book.log + [Sent(reply, landed, sl)]);
    }

    method GetPosition(c: Command) returns (snapshot: Option<Snapshot>)
      modifies this
      ensures book == old(book).(log := old(book).log + [At(snapshot)])
    {
      snapshot := *;
      book := book.(log := book.log + [At(snapshot)]);
    }

    method AttachSl(c: Command, pid: string, sl: real) returns (applied: bool)
      modifies this
      ensures book == old(book).(sl := book.sl, log := old(book).log + [Attached(applied, book.sl)])
    {
      applied := *;
      var levels: map<string, Option<real>> := *;
      book := book.(sl := levels, log := book.log + [Attached(applied, levels)]);
    }

    method ClosePosition(c: Command, pid: string) returns (reply: ExecutionResult)
      modifies this
      ensures book == old(book).(log := old(book).log + [Shut(reply)])
    {
      reply := *;
      book := book.(log := book.log + [Shut(reply)]);
    }

    method Reconcile(c: Command) returns (truth: Truth)
      modifies this
      ensures book == old(book).(log := old(book).log + [Told(truth)])
    {
      truth := *;
      book := book.(log := book.log + [Told(truth)]);
    }
  }

  datatype TradePlan = TradePlan(trade: string, isBuy: bool, lot: real, sl: real)

  datatype RecoveryItem = RecoveryItem(id: string, trade: string, state: CommandState, advice: Advice)

  class ExecutionEngine {
    const journal: ExecutionJournal
    const broker: Broker
    const config: Config
    ghost const start: Machine
    ghost var machine: Machine
    ghost var ops: seq<Op>

    /** Journal and broker are where the run of the machine performed so far has brought them. */
    ghost predicate Valid()
      reads this, journal, broker
    {
      && machine.journal == journal.View() && machine.book == broker.book
      && Initial(start) && Run(config, start, ops) == Some(machine)
    }

    /** Exactly one call was performed since the given history, and it ended in out. */
    ghost predicate Completed(before: seq<Op>, call: Call, out: Outcome)
      reads this
    {
      && OneCall(before, ops, call)
      && machine.pc.Idle? && machine.last == Some(out)
    }

    /** An engine over a journal that some history of calls and crashes has left behind; over a new
        journal that history is empty. */
    constructor (journal: ExecutionJournal, broker: Broker, config: Config, ghost start: Machine, ghost ops: seq<Op>)
      requires Initial(start) && Run(config, start, ops).Some?
      requires var m := Run(config, start, ops).value;
        m.pc.Idle? && m.journal == journal.View() && m.book == broker.book
      ensures Valid() && machine.pc.Idle? && this.start == start && this.ops == ops
      ensures this.journal == journal && this.broker == broker && this.config == config
    {
      this.journal, this.broker, this.config := journal, broker, config;
      this.start, this.ops := start, ops;
      machine := Run(config, start, ops).value;
    }

    // ------------------------------------------------------------ plan -> command

    method CreateCommand(plan: TradePlan, id: string, planValid: bool, planExpired: bool) returns (out: Outcome)
      requires Valid() && machine.pc.Idle?
      modifies this, journal
      ensures Valid()
      ensures Completed(old(ops), CreateCall(Command(id, plan.trade, plan.isBuy, plan.lot, plan.sl), planValid,
        planExpired), out)
    {
      hide Run, Step, Transition, Initial;
      var command := Command(id, plan.trade, plan.isBuy, plan.lot, plan.sl);
      ghost var call := CreateCall(command, planValid, planExpired);
      if !planValid {
        Opens(call); Ends();
        return Raised(InvalidError);
      }
      if planExpired {
        Opens(call); Ends();
        return Raised(ExpiredError);
      }
      var pending := exists k :: k in journal.rows && BlocksEntry(journal.rows[k].state);
      if pending {
        Opens(call); Ends();
        return Raised(PendingError);
      }
      var inserted := journal.CreateCommand(command);
      Opened(call);
      if !inserted {
        Ends();
        return Raised(DuplicateError);
      }
      :- Record(command, CommandCreated, Some(Created));
      Ends();
      return Accepted(command);
    }

    // -------------------------------------------------------------------- submit

    method Submit(command: Command, valid: bool) returns (out: Outcome)
      requires Valid() && machine.pc.Idle?
      modifies this, journal, broker
      ensures Valid() && Completed(old(ops), SubmitCall(command, valid), out)
    {
      hide Run, Step, Transition, Initial;
      Opens(SubmitCall(command, valid));
      if command.id !in journal.rows {
        Ends();
        return Raised(InvalidError);
      }
      var stored := journal.rows[command.id];
      if stored.result.Some? {
        Ends();
        return Returned(stored.result.value);
      }
      if Terminal(stored.state) {
        Ends();
        return Raised(DuplicateError);
      }
      if stored.state.Submitted? || stored.state.Unknown? {
        Ends();
        return Returned(UnknownResult(AmbiguousResponse));
      }
      if !valid {
        out := Settle(command, ValidateFail, Plain(FailedStatus, Some(InvalidCommand)), Direct);
        return;
      }
      if stored.state.Created? {
        :- Transit(command, ValidateOk, None);
      }
      var expired :- AskClock(command);
      if expired {
        out := Settle(command, Expire, Plain(ExpiredStatus, Some(CommandExpired)), Direct);
        return;
      }
      :- Transit(command, ExecutionModels.Submit, None);
      out := SubmitLoop(command);
    }

    method SubmitLoop(command: Command) returns (out: Outcome)
      requires Valid() && machine.pc == Busy(command, [], Send(0))
      modifies this, journal, broker
      ensures Valid() && Over(out)
    {
      hide Run, Step, Transition, Initial;
      var attempts := 0;
      while true
        invariant Valid() && Continued(old(ops), ops)
        invariant machine.pc == Busy(command, [], Send(attempts))
        invariant attempts <= config.submitRetries
        decreases config.submitRetries - attempts
      {
        var result :- AskSubmit(command, attempts);
        var again;
        out, again := Digest(command, attempts, result);
        if !again { return; }
        attempts := attempts + 1;
      }
    }

    /** Acts on the broker's reply; again asks for another attempt with the same command. */
    method Digest(command: Command, attempts: nat, result: ExecutionResult) returns (out: Outcome, again: bool)
      requires Valid() && machine.pc == AfterSent(config, command, attempts, result)
      modifies this, journal, broker
      ensures Valid() && Continued(old(ops), ops)
      ensures if again then attempts < config.submitRetries && machine.pc == Busy(command, [], Send(attempts + 1))
        else Over(out)
    {
      hide Run, Step, Transition, Initial;
      again := false;
      :- Record(command, ExecutorResult, None);
      if result.status.FilledStatus? || result.status.PartialStatus? {
        out := PostFill(command, result);
      } else if result.status.RejectedStatus? || result.status.FailedStatus? || result.status.ExpiredStatus? {
        var event := if result.status.RejectedStatus? then Reject
          else if result.status.FailedStatus? then Fail else Expire;
        out := Settle(command, event, result, Direct);
      } else if Classify(result.error).Safe? && attempts < config.submitRetries {
        out, again := ReconcileBeforeResend(command, attempts, result);
      } else {
        out := Settle(command, GoUnknown, result, Direct);
      }
    }

    /** After a timeout: resend only when the broker is reachable and holds nothing. */
    method ReconcileBeforeResend(command: Command, attempts: nat, result: ExecutionResult)
      returns (out: Outcome, again: bool)
      requires Valid() && machine.pc == Busy(command, [], LookUp(attempts, result))
      modifies this, journal, broker
      ensures Valid() && Continued(old(ops), ops)
      ensures if again then machine.pc == Busy(command, [], Send(attempts + 1)) else Over(out)
    {
      hide Run, Step, Transition, Initial;
      again := false;
      var truth :- AskTruth(command);
      :- Record(command, ReconcileAfterTimeout, None);
      if truth.ambiguous {
        out := Settle(command, GoUnknown, UnknownResult(AmbiguousResponse), Direct);
        return;
      }
      if truth.discovered.None? {
        return Returned(result), true;
      }
      :- Transit(command, GoUnknown, None);
      out := ResolveReconciliation(command, truth);
    }

    // ---------------------------------------------------- post-fill: protection

    method PostFill(command: Command, result: ExecutionResult) returns (out: Outcome)
      requires Valid()
      requires machine.pc.Busy? && machine.pc.command == command && machine.pc.ask == Position(result)
      requires machine.pc.acts == if result.status.PartialStatus?
        then [Fire(PartialFill, None), Note(CancelRemainder, Some(PartiallyFilled))] else [Fire(FullFill, None)]
      modifies this, journal, broker
      ensures Valid() && Over(out)
    {
      hide Run, Step, Transition, Initial;
      if result.status.PartialStatus? {
        :- Transit(command, PartialFill, None);
        :- Record(command, CancelRemainder, Some(PartiallyFilled));
      } else {
        :- Transit(command, FullFill, None);
      }
      out := EnsureSlProtection(command, result);
    }

    method EnsureSlProtection(command: Command, fill: ExecutionResult) returns (out: Outcome)
      requires Valid() && machine.pc == Busy(command, [], Position(fill))
      modifies this, journal, broker
      ensures Valid() && Over(out)
    {
      hide Run, Step, Transition, Initial;
      var position :- AskPosition(command, fill);
      if position.None? {
        out := Settle(command, GoUnknown, UnknownResult(AmbiguousResponse), Direct);
        return;
      }
      var pid, sl := position.value.pid, position.value.sl;
      if sl.Some? && SameLevel(sl.value, command.sl) {
        :- Record(command, SlConfirmed, Some(Filled));
        out := Conclude(command, Confirmed(fill), Guarded(pid));
        return;
      }
      :- Transit(command, SlAttaching, None);
      out := AttachSl(command, pid, fill);
    }

    method AttachSl(command: Command, pid: string, fill: ExecutionResult) returns (out: Outcome)
      requires Valid() && machine.pc == Busy(command, [], Attach(pid, fill, 0))
      modifies this, journal, broker
      ensures Valid() && Over(out)
    {
      hide Run, Step, Transition, Initial;
      var attempts := 0;
      while attempts <= config.slAttachRetries
        invariant Valid() && Continued(old(ops), ops) && attempts <= config.slAttachRetries + 1
        invariant attempts <= config.slAttachRetries ==> machine.pc == Busy(command, [], Attach(pid, fill, attempts))
        invariant attempts > config.slAttachRetries ==>
          machine.pc == Busy(command, [Note(SlAttachBudgetSpent, Some(Modifying)),
            Note(EmergencyCloseRequested, Some(Modifying))],
                             CloseUrgently(pid))
      {
        var applied :- AskAttach(command, pid, fill, attempts);
        :- Record(command, SlAttachResult, Some(Modifying));
        if applied {
          out := Settle(command, SlAttached, Confirmed(fill), Guarded(pid));
          return;
        }
        attempts := attempts + 1;
      }
      :- Record(command, SlAttachBudgetSpent, Some(Modifying));
      out := EmergencyClose(command, pid);
    }

    method EmergencyClose(command: Command, pid: string) returns (out: Outcome)
      requires Valid()
      requires machine.pc == Busy(command, [Note(EmergencyCloseRequested, Some(Modifying))], CloseUrgently(pid))
      modifies this, journal, broker
      ensures Valid() && Over(out)
    {
      hide Run, Step, Transition, Initial;
      var requested := Some(Modifying);
      :- Record(command, EmergencyCloseRequested, requested);
      var result :- AskClose(command, pid);
      :- Record(command, EmergencyCloseResult, Some(Modifying));
      if result.status.ClosedStatus? {
        out := Settle(command, ExecutionModels.Close, result, EmergencyClosed);
        return;
      }
      out := Settle(command, GoUnknown, UnknownResult(EmergencyCloseFailed), EmergencyClosed);
    }

    // ------------------------------------------------------------------- close

    method Close(command: Command, pid: string) returns (out: Outcome)
      requires Valid() && machine.pc.Idle?
      modifies this, journal, broker
      ensures Valid() && Completed(old(ops), CloseCall(command, pid), out)
    {
      hide Run, Step, Transition, Initial;
      Opens(CloseCall(command, pid));
      if command.id !in journal.rows {
        Ends();
        return Raised(InvalidError);
      }
      var stored := journal.rows[command.id];
      if stored.result.Some? && stored.result.value.status.ClosedStatus? {
        Ends();
        return Returned(stored.result.value);
      }
      if stored.state.Unknown? {
        Ends();
        return Raised(PendingError);
      }
      out := CloseWithRetries(command, pid);
    }

    method CloseWithRetries(command: Command, pid: string) returns (out: Outcome)
      requires Valid() && machine.pc == Busy(command, [], CloseDown(pid, 0))
      modifies this, journal, broker
      ensures Valid() && Over(out)
    {
      hide Run, Step, Transition, Initial;
      var attempts := 0;
      while attempts <= config.closeRetries
        invariant Valid() && Continued(old(ops), ops) && attempts <= config.closeRetries + 1
        invariant attempts <= config.closeRetries ==> machine.pc == Busy(command, [], CloseDown(pid, attempts))
        invariant attempts > config.closeRetries ==>
          machine.pc == Busy(command, [Fire(GoUnknown, None), Save(UnknownResult(AmbiguousResponse))],
                             Finish(Returned(UnknownResult(AmbiguousResponse)), Direct))
      {
        var result :- AskClose(command, pid);
        :- Record(command, CloseResult, None);
        if result.status.ClosedStatus? {
          out := Settle(command, ExecutionModels.Close, result, Direct);
          return;
        }
        attempts := attempts + 1;
      }
      out := Settle(command, GoUnknown, UnknownResult(AmbiguousResponse), Direct);
    }

    // ---------------------------------------------------------- reconciliation

    method Reconcile(command: Command) returns (out: Outcome)
      requires Valid() && machine.pc.Idle?
      modifies this, journal, broker
      ensures Valid() && Completed(old(ops), ReconcileCall(command), out)
    {
      hide Run, Step, Transition, Initial, AfterTruth, GateShut, TradeActive;
      Opens(ReconcileCall(command));
      if command.id !in journal.rows {
        Ends();
        return Raised(InvalidError);
      }
      if !journal.rows[command.id].state.Unknown? {
        Ends();
        return Raised(StateError);
      }
      var truth :- AskTruth(command);
      out := HeedTruth(command, truth);
    }

    /** The broker's answer is put on record and, if it says anything, adopted. */
    method HeedTruth(command: Command, truth: Truth) returns (out: Outcome)
      requires Valid() && machine.pc == AfterTruth(command, truth)
      modifies this, journal, broker
      ensures Valid() && Over(out)
    {
      hide Run, Step, Transition, Initial;
      :- Record(command, ReconciliationQuery, Some(Unknown));
      if truth.ambiguous || truth.discovered.None? {
        :- Record(command, ReconciliationAmbiguous, Some(Unknown));
        out := Conclude(command, UnknownResult(ReconciliationPending), Direct);
        return;
      }
      out := ResolveReconciliation(command, truth);
    }

    method ResolveReconciliation(command: Command, truth: Truth) returns (out: Outcome)
      requires Valid() && truth.discovered.Some?
      requires machine.pc == Adopting(command, [], truth.discovered.value, truth)
      modifies this, journal, broker
      ensures Valid() && Over(out)
    {
      hide Run, Step, Transition, Initial;
      var found := truth.discovered.value;
      :- Transit(command, ExecutionModels.Reconcile, Some(found));
      if found.Filled? || found.PartiallyFilled? {
        out := EnsureSlProtection(command, Adopted(truth));
        return;
      }
      if found.Submitted? {
        :- Record(command, SubmittedAfterReconcile, Some(Submitted));
        Ends();
        return Returned(UnknownResult(AmbiguousResponse));
      }
      out := Conclude(command, ResultFor(found), Direct);
    }

    // -------------------------------------------------------- restart recovery

    /** Every non-terminal command in creation order, with what to do about it. */
    method Recover() returns (items: seq<RecoveryItem>)
      requires Valid()
      ensures forall k :: 0 <= k < |items| ==>
        && items[k].id in journal.rows && journal.rows[items[k].id].state == items[k].state
        && items[k].trade == journal.rows[items[k].id].trade
        && items[k].state !in {Closed, Rejected, Failed, Expired}
        && (items[k].advice.ReconcileIt? <==> items[k].state in {CommandState.Submitted, CommandState.Unknown})
        && (items[k].advice.SubmitIsSafe? <==> items[k].state in {Created, Validated})
      ensures forall k :: 0 <= k < |items| && items[k].advice.SubmitIsSafe? ==>
        items[k].id !in broker.book.submits || broker.book.submits[items[k].id] == 0
      ensures forall id :: id in journal.rows && journal.rows[id].state !in {Closed, Rejected, Failed, Expired} ==>
        exists k :: 0 <= k < |items| && items[k].id == id
      ensures (exists k :: 0 <= k < |items| && !items[k].advice.NothingToDo?) <==> GateShut(journal.View())
    {
      hide Run, Step, Initial;
      items := [];
      Listed();
      ghost var at: map<string, int> := map[];
      for i := 0 to |journal.order|
        invariant forall k :: 0 <= k < |items| ==>
          && items[k].id in journal.rows && journal.rows[items[k].id].state == items[k].state
          && !Terminal(items[k].state) && items[k].advice == AdviceFor(items[k].state)
          && items[k].trade == journal.rows[items[k].id].trade
        invariant forall n :: 0 <= n < i && !Terminal(journal.rows[journal.order[n]].state) ==>
          journal.order[n] in at && 0 <= at[journal.order[n]] < |items|
            && items[at[journal.order[n]]].id == journal.order[n]
      {
        var id := journal.order[i];
        assert id in journal.rows;
        var row := journal.rows[id];
        if !Terminal(row.state) {
          at := at[id := |items|];
          items := items + [RecoveryItem(id, row.trade, row.state, AdviceFor(row.state))];
        }
      }
      forall id | id in journal.rows && !Terminal(journal.rows[id].state)
        ensures exists k :: 0 <= k < |items| && items[k].id == id
      {
        var n :| 0 <= n < |journal.order| && journal.order[n] == id;
        assert items[at[journal.order[n]]].id == id;
      }
      if GateShut(journal.View()) {
        var id :| id in journal.rows && BlocksEntry(journal.rows[id].state);
        var k :| 0 <= k < |items| && items[k].id == id;
        assert !items[k].advice.NothingToDo?;
      }
    }

    /** Rows and creation order name the same commands, and one not yet submitted was never sent. */
    lemma Listed()
      requires Valid()
      ensures forall id :: id in journal.rows <==> id in journal.order
      ensures forall id :: id in journal.rows && journal.rows[id].state in {Created, Validated} ==>
        id !in broker.book.submits || broker.book.submits[id] == 0
    {
      hide Run, Initial;
      Safety.Reachable(config, start, ops);
      forall id | id in journal.rows && journal.rows[id].state in {Created, Validated}
        ensures id !in broker.book.submits || broker.book.submits[id] == 0
      {
        assert Count(broker.book.submits, id) == 0;
      }
    }

    // ----------------------------------------------------------------- helpers

    /** The history went on without beginning another call, and the running call is over. */
    twostate predicate Over(out: Outcome)
      reads this
    {
      Continued(old(ops), ops) && machine.pc.Idle? && machine.last == Some(out)
    }

    /** Either the process died or the call was refused, or it now stands at pc. */
    twostate predicate Reached(o: Outcome, pc: Pc)
      reads this
    {
      if o.IsFailure() then Over(o) else machine.pc == pc && Continued(old(ops), ops)
    }

    ghost predicate NextIs(command: Command, act: Act)
      reads this
    {
      machine.pc.Busy? && machine.pc.command == command && machine.pc.acts != [] && machine.pc.acts[0] == act
    }

    ghost function Onward(): Pc
      requires machine.pc.Busy? && machine.pc.acts != []
      reads this
    {
      machine.pc.(acts := machine.pc.acts[1..])
    }

    /** Appends one operation to the history; its effect on journal and broker has been carried out. */
    ghost method Advance(op: Op)
      requires Initial(start) && Run(config, start, ops) == Some(machine) && Step(config, machine, op).Some?
      requires Step(config, machine, op).value.journal == journal.View()
      requires Step(config, machine, op).value.book == broker.book
      modifies `machine, `ops
      ensures Valid() && ops == old(ops) + [op] && machine == Step(config, old(machine), op).value
    {
      machine := Step(config, machine, op).value;
      assert (ops + [op])[..|ops|] == ops;
      ops := ops + [op];
    }

    ghost method Opens(call: Call)
      requires Valid() && machine.pc.Idle? && !EntersRow(journal.View(), call)
      modifies `machine, `ops
      ensures Valid() && OneCall(old(ops), ops, call) && machine.pc == FirstPc(journal.View(), call)
    {
      Advance(Begin(call));
    }

    /** Begins a creating call whose row has just been offered to the journal. */
    ghost method Opened(call: Call)
      requires Initial(start) && Run(config, start, ops) == Some(machine) && machine.pc.Idle?
      requires Start(machine, call).journal == journal.View() && machine.book == broker.book
      modifies `machine, `ops
      ensures Valid() && OneCall(old(ops), ops, call) && machine.pc == FirstPc(old(machine).journal, call)
    {
      Advance(Begin(call));
    }

    ghost method Ends()
      requires Valid() && machine.pc.Busy? && machine.pc.acts == [] && machine.pc.ask.Finish?
      modifies `machine, `ops
      ensures Valid() && Over(old(machine.pc.ask.out))
    {
      Advance(Return);
    }

    method MayCrash() returns (o: Outcome)
      requires Valid()
      modifies `machine, `ops
      ensures Valid() && (if o.IsFailure() then o == Crashed && Over(o) else machine == old(machine) && ops == old(ops))
    {
      var crash: bool := *;
      if crash {
        Advance(Crash);
        return Crashed;
      }
      return Returned(UnknownResult(Unclassified));
    }

    /** Writes the audit line that is next, unless the process dies first. */
    method Record(command: Command, tag: Tag, at: Option<CommandState>) returns (o: Outcome)
      requires Valid() && NextIs(command, Note(tag, at))
      modifies this, journal
      ensures Valid() && Reached(o, old(Onward()))
    {
      o := MayCrash();
      if !o.IsFailure() {
        var current := if command.id in journal.rows then journal.rows[command.id].state else Created;
        journal.Record(command.id, tag, if at.Some? then at.value else current);
        Advance(Write);
      }
    }

    /** Takes the lifecycle transition that is next; an illegal one raises and ends the call. */
    method Transit(command: Command, event: Event, target: Option<CommandState>) returns (o: Outcome)
      requires Valid() && NextIs(command, Fire(event, target))
      modifies this, journal
      ensures Valid() && Reached(o, old(Onward()))
    {
      o := MayCrash();
      if !o.IsFailure() {
        var current := if command.id in journal.rows then journal.rows[command.id].state else Created;
        var next := Transition(current, event, target);
        if next.None? {
          Advance(Write);
          return Raised(StateError);
        }
        journal.Record(command.id, Fsm(event), next.value);
        Advance(Write);
      }
    }

    /** Stores the final result and hands it to the caller. */
    method Conclude(command: Command, r: ExecutionResult, ghost how: How) returns (out: Outcome)
      requires Valid() && machine.pc == Busy(command, [Save(r)], Finish(Returned(r), how))
      modifies this, journal
      ensures Valid() && Over(out)
    {
      out := MayCrash();
      if out.IsFailure() { return; }
      journal.StoreResult(command.id, r);
      Advance(Write);
      Ends();
      return Returned(r);
    }

    /** The closing pair of a call: a lifecycle transition and the result stored with it. */
    method Settle(command: Command, event: Event, r: ExecutionResult, ghost how: How) returns (out: Outcome)
      requires Valid() && machine.pc == Busy(command, [Fire(event, None), Save(r)], Finish(Returned(r), how))
      modifies this, journal
      ensures Valid() && Over(out)
    {
      out := Transit(command, event, None);
      if out.IsFailure() { return; }
      out := Conclude(command, r, how);
    }

    method AskClock(command: Command) returns (o: Outcome, expired: bool)
      requires Valid() && machine.pc == Busy(command, [], Expiry)
      modifies this, broker
      ensures Valid() && Reached(o, AfterClock(command, expired))
    {
      expired := broker.PassedExpiry(command);
      Advance(Reply(Clock(expired)));
      o := MayCrash();
    }

    method AskSubmit(command: Command, attempt: nat) returns (o: Outcome, reply: ExecutionResult)
      requires Valid() && machine.pc == Busy(command, [], Send(attempt))
      modifies this, broker
      ensures Valid() && Reached(o, AfterSent(config, command, attempt, reply))
    {
      ghost var landed;
      reply, landed := broker.Submit(command);
      Advance(Reply(Sent(reply, landed, broker.book.sl)));
      o := MayCrash();
    }

    method AskTruth(command: Command) returns (o: Outcome, truth: Truth)
      requires Valid() && machine.pc.Busy? && machine.pc.command == command && machine.pc.acts == []
      requires machine.pc.ask.LookUp? || machine.pc.ask.Resolve?
      modifies this, broker
      ensures Valid()
      ensures old(machine.pc.ask.Resolve?) ==> Reached(o, AfterTruth(command, truth))
      ensures old(machine.pc.ask.LookUp?) ==>
        Reached(o, AfterLookUp(command, old(machine.pc.ask.attempt), old(machine.pc.ask.reply), truth))
    {
      truth := broker.Reconcile(command);
      Advance(Reply(Told(truth)));
      o := MayCrash();
    }

    method AskPosition(command: Command, fill: ExecutionResult) returns (o: Outcome, snapshot: Option<Snapshot>)
      requires Valid() && machine.pc == Busy(command, [], Position(fill))
      modifies this, broker
      ensures Valid() && Reached(o, AfterPosition(command, fill, snapshot))
    {
      snapshot := broker.GetPosition(command);
      Advance(Reply(At(snapshot)));
      o := MayCrash();
    }

    method AskAttach(command: Command, pid: string, fill: ExecutionResult, attempt: nat)
      returns (o: Outcome, applied: bool)
      requires Valid() && machine.pc == Busy(command, [], Attach(pid, fill, attempt))
      modifies this, broker
      ensures Valid() && Reached(o, AfterAttach(config, command, pid, fill, attempt, applied))
    {
      applied := broker.AttachSl(command, pid, command.sl);
      Advance(Reply(Attached(applied, broker.book.sl)));
      o := MayCrash();
    }

    method AskClose(command: Command, pid: string) returns (o: Outcome, reply: ExecutionResult)
      requires Valid() && machine.pc.Busy? && machine.pc.command == command && machine.pc.acts == []
      requires machine.pc.ask == CloseUrgently(pid) || (machine.pc.ask.CloseDown? && machine.pc.ask.pid == pid)
      modifies this, broker
      ensures Valid()
      ensures old(machine.pc.ask.CloseUrgently?) ==> Reached(o, AfterUrgentClose(command, reply))
      ensures old(machine.pc.ask.CloseDown?) ==>
        Reached(o, AfterClose(config, command, pid, old(machine.pc.ask.attempt), reply))
    {
      reply := broker.ClosePosition(command, pid);
      Advance(Reply(Shut(reply)));
      o := MayCrash();
    }
  }

  /** The longer history continues the shorter one without beginning another call. */
  ghost predicate Continued(before: seq<Op>, after: seq<Op>) {
    before <= after && forall k :: |before| <= k < |after| ==> !after[k].Begin?
  }

  ghost predicate OneCall(before: seq<Op>, after: seq<Op>, call: Call) {
    && before + [Begin(call)] <= after
    && forall k :: |before| < k < |after| ==> !after[k].Begin?
  }
}
