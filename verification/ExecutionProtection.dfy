/**
 * Stop-loss protection over whole runs: what a stored FILLED result vouches for,
 * and at which commands recovery may rightly do nothing.
 */
module ExecutionProtection {
  import opened Common
  import opened ExecutionModels
  import opened ExecutionProtocol
  import opened ExecutionSafety
  import opened ExecutionTheorems

  // ------------------------------------------------ stored fills are vouched for

  /** A call for this command is about to answer FILLED, and the broker's position carries the
      command's stop-loss. */
  predicate VouchedNow(m: Machine, id: string) {
    && m.pc.Busy? && m.pc.command.id == id && m.pc.ask.Finish? && m.pc.ask.how.Guarded?
    && Protected(m.book.sl, m.pc.ask.how.pid, m.pc.command.sl)
  }

  /** ... at some moment of the run. */
  ghost predicate Vouched(cfg: Config, m0: Machine, ops: seq<Op>, id: string) {
    || (Run(cfg, m0, ops).Some? && VouchedNow(Run(cfg, m0, ops).value, id))
    || (ops != [] && Vouched(cfg, m0, ops[..|ops| - 1], id))
  }

  predicate FillStored(j: Journal, id: string) {
    id in j.rows && j.rows[id].result.Some? && j.rows[id].result.value.status.FilledStatus?
  }

  /** Among these writes is the storing of a FILLED result. */
  predicate StoresFill(acts: seq<Act>) {
    acts != [] && ((acts[0].Save? && acts[0].result.status.FilledStatus?) || StoresFill(acts[1..]))
  }

  predicate FillComing(m: Machine, id: string) {
    m.pc.Busy? && m.pc.command.id == id && StoresFill(m.pc.acts)
  }

  lemma {:induction false} StoresFillConcat(a: seq<Act>, b: seq<Act>)
    ensures StoresFill(a + b) <==> StoresFill(a) || StoresFill(b)
  {
    if a == [] {
      assert a + b == b;
    } else {
      assert (a + b)[1..] == a[1..] + b;
      StoresFillConcat(a[1..], b);
    }
  }

  lemma NoFillWithout(acts: seq<Act>)
    requires forall k :: 0 <= k < |acts| ==> !acts[k].Save?
    ensures !StoresFill(acts)
  {
  }

  lemma OnlyLast(acts: seq<Act>, r: ExecutionResult)
    requires forall k :: 0 <= k < |acts| ==> !acts[k].Save?
    ensures StoresFill(acts + [Save(r)]) <==> r.status.FilledStatus?
  {
    StoresFillConcat(acts, [Save(r)]);
    NoFillWithout(acts);
    assert [Save(r)][1..] == [];
  }

  /** Only a call that has seen the stop-loss in place sets out to store FILLED. */
  ghost predicate FillsOnlyGuarded(pc: Pc) {
    pc.Busy? && StoresFill(pc.acts) ==> pc.ask.Finish? && pc.ask.how.Guarded? && pc.ask.out.Returned?
                                        && pc.ask.out.result.status.FilledStatus?
  }

  lemma SavingGuarded(c: Command, acts: seq<Act>, r: ExecutionResult)
    requires !r.status.FilledStatus? && forall k :: 0 <= k < |acts| ==> !acts[k].Save?
    ensures FillsOnlyGuarded(Saving(c, acts, r))
  {
    OnlyLast(acts, r);
  }

  lemma FirstGuarded(j: Journal, call: Call)
    ensures FillsOnlyGuarded(FirstPc(j, call))
  {
    var c := call.command;
    SavingGuarded(c, [Fire(ValidateFail, None)], Plain(FailedStatus, Some(InvalidCommand)));
    NoFillWithout([Note(CommandCreated, Some(Created))]);
    NoFillWithout([Fire(ValidateOk, None)]);
  }

  lemma AdoptingGuarded(c: Command, acts: seq<Act>, s: CommandState, t: Truth)
    requires forall k :: 0 <= k < |acts| ==> !acts[k].Save?
    ensures FillsOnlyGuarded(Adopting(c, acts, s, t))
  {
    var adopt := Fire(Reconcile, Some(s));
    NoFillWithout(acts + [adopt]);
    NoFillWithout(acts + [adopt, Note(SubmittedAfterReconcile, Some(Submitted))]);
    SavingGuarded(c, acts + [adopt], ResultFor(s));
  }

  lemma SentGuarded(cfg: Config, c: Command, n: nat, r: ExecutionResult)
    ensures FillsOnlyGuarded(AfterSent(cfg, c, n, r))
  {
    var heard := Note(ExecutorResult, None);
    NoFillWithout([heard]);
    NoFillWithout([heard, Fire(FullFill, None)]);
    NoFillWithout([heard, Fire(PartialFill, None), Note(CancelRemainder, Some(PartiallyFilled))]);
    if !r.status.FilledStatus? {
      SavingGuarded(c, [heard, Fire(Reject, None)], r);
      SavingGuarded(c, [heard, Fire(Fail, None)], r);
      SavingGuarded(c, [heard, Fire(Expire, None)], r);
      SavingGuarded(c, [heard, Fire(GoUnknown, None)], r);
    }
  }

  lemma ReplyGuarded(cfg: Config, m: Machine, a: Answer)
    requires m.pc.Busy? && m.pc.acts == [] && Hear(cfg, m, a).Some?
    ensures FillsOnlyGuarded(Hear(cfg, m, a).value.pc)
  {
    hide StoresFill;
    var c := m.pc.command;
    match m.pc.ask
    case Expiry =>
      NoFillWithout([Fire(Submit, None)]);
      SavingGuarded(c, [Fire(Expire, None)], Plain(ExpiredStatus, Some(CommandExpired)));
    case Send(n) => SentGuarded(cfg, c, n, a.reply);
    case LookUp(n, r) =>
      var heard := Note(ReconcileAfterTimeout, None);
      NoFillWithout([heard]);
      SavingGuarded(c, [heard, Fire(GoUnknown, None)], UnknownResult(AmbiguousResponse));
      if a.truth.discovered.Some? {
        AdoptingGuarded(c, [heard, Fire(GoUnknown, None)], a.truth.discovered.value, a.truth);
      }
    case Position(fill) =>
      SavingGuarded(c, [Fire(GoUnknown, None)], UnknownResult(AmbiguousResponse));
      NoFillWithout([Fire(SlAttaching, None)]);
    case Attach(pid, fill, n) =>
      var heard := Note(SlAttachResult, Some(Modifying));
      NoFillWithout([heard]);
      NoFillWithout([heard, Note(SlAttachBudgetSpent, Some(Modifying)),
        Note(EmergencyCloseRequested, Some(Modifying))]);
    case CloseUrgently(_) =>
      var heard := Note(EmergencyCloseResult, Some(Modifying));
      assert [heard, Fire(Close, None), Save(a.reply)] == [heard, Fire(Close, None)] + [Save(a.reply)];
      OnlyLast([heard, Fire(Close, None)], a.reply);
      var u := UnknownResult(EmergencyCloseFailed);
      assert [heard, Fire(GoUnknown, None), Save(u)] == [heard, Fire(GoUnknown, None)] + [Save(u)];
      OnlyLast([heard, Fire(GoUnknown, None)], u);
    case CloseDown(pid, n) =>
      var heard := Note(CloseResult, None);
      NoFillWithout([heard]);
      if a.reply.status.ClosedStatus? { SavingGuarded(c, [heard, Fire(Close, None)], a.reply); }
      SavingGuarded(c, [heard, Fire(GoUnknown, None)], UnknownResult(AmbiguousResponse));
    case Resolve =>
      var heard := Note(ReconciliationQuery, Some(Unknown));
      SavingGuarded(c, [heard, Note(ReconciliationAmbiguous, Some(Unknown))], UnknownResult(ReconciliationPending));
      if a.truth.discovered.Some? { AdoptingGuarded(c, [heard], a.truth.discovered.value, a.truth); }
  }

  /** A FILLED result is stored, or about to be, only after the stop-loss was seen in place. */
  lemma FillStep(cfg: Config, m: Machine, op: Op, id: string)
    requires Step(cfg, m, op).Some? && FillsGuarded(Step(cfg, m, op).value)
    requires FillStored(Step(cfg, m, op).value.journal, id) || FillComing(Step(cfg, m, op).value, id)
    ensures FillStored(m.journal, id) || FillComing(m, id) || VouchedNow(Step(cfg, m, op).value, id)
  {
    hide Transition;
    match op
    case Begin(call) =>
      hide FirstPc;
      FirstGuarded(m.journal, call);
      FirstFills(m.journal, call);
    case Write =>
    case Reply(a) =>
      hide AfterClock, AfterSent, AfterLookUp, AfterPosition, AfterAttach, AfterUrgentClose, AfterClose, AfterTruth;
      ReplyGuarded(cfg, m, a);
      ReplyKeeps(cfg, m, a);
    case Return =>
    case Crash =>
  }

  /** No call starts out to store FILLED. */
  lemma FirstFills(j: Journal, call: Call)
    ensures !StoresFill(FirstPc(j, call).acts)
  {
    FirstGuarded(j, call);
  }

  lemma ReplyKeeps(cfg: Config, m: Machine, a: Answer)
    requires m.pc.Busy? && m.pc.acts == [] && Hear(cfg, m, a).Some?
    ensures Hear(cfg, m, a).value.journal == m.journal
    ensures Hear(cfg, m, a).value.pc.Busy? && Hear(cfg, m, a).value.pc.command == m.pc.command
  {
    hide AfterClock, AfterSent, AfterLookUp, AfterPosition, AfterAttach, AfterUrgentClose, AfterClose, AfterTruth;
  }

  /** In every run against an honest broker a stored FILLED result means that the position carried
      the command's stop-loss when it was stored. */
  lemma {:induction false} StoredFillIsVouched(cfg: Config, m0: Machine, ops: seq<Op>, id: string)
    requires Initial(m0) && Run(cfg, m0, ops).Some? && HonestRun(cfg, m0, ops)
    requires FillStored(Run(cfg, m0, ops).value.journal, id) || FillComing(Run(cfg, m0, ops).value, id)
    ensures Vouched(cfg, m0, ops, id)
  {
    hide FillsGuarded, StoresFill;
    if ops != [] {
      var init := ops[..|ops| - 1];
      FillsStayGuarded(cfg, m0, ops);
      var m := Run(cfg, m0, init).value;
      FillStep(cfg, m, ops[|ops| - 1], id);
      if FillStored(m.journal, id) || FillComing(m, id) { StoredFillIsVouched(cfg, m0, init, id); }
    }
  }

  /** Whenever a call is about to answer FILLED, replays of stored answers included, the broker's
      position carried the command's stop-loss at some moment of the run. */
  lemma SlProtection(cfg: Config, m0: Machine, ops: seq<Op>)
    requires Initial(m0) && Run(cfg, m0, ops).Some? && HonestRun(cfg, m0, ops)
    requires var pc := Run(cfg, m0, ops).value.pc;
      pc.Busy? && pc.ask.Finish? && pc.ask.out.Returned? && pc.ask.out.result.status.FilledStatus?
    ensures Vouched(cfg, m0, ops, Run(cfg, m0, ops).value.pc.command.id)
    ensures var m := Run(cfg, m0, ops).value;
      m.pc.ask.how.Replayed? || VouchedNow(m, m.pc.command.id)
  {
    var m := Run(cfg, m0, ops).value;
    FillsStayGuarded(cfg, m0, ops);
    if m.pc.ask.how.Replayed? { StoredFillIsVouched(cfg, m0, ops, m.pc.command.id); }
  }

  // ---------------------------------------------------- rest without a crash

  function LastTag(audit: seq<Line>, id: string): Option<Tag> {
    if audit == [] then None
    else if audit[|audit| - 1].id == id then Some(audit[|audit| - 1].tag)
    else LastTag(audit[..|audit| - 1], id)
  }

  /** What the journal shows of a command: its state, whether FILLED is stored, its last audit tag. */
  datatype Sight = Sight(state: CommandState, stored: bool, tag: Option<Tag>)

  function SightOf(j: Journal, id: string): Sight
    requires id in j.rows
  {
    Sight(j.rows[id].state, FillStored(j, id), LastTag(j.audit, id))
  }

  /** How a command may look when no call is busy with it: raised says that a call of its died on
      the way to attaching a stop-loss. */
  predicate Settled(v: Sight, raised: bool) {
    && (v.state.Filled? ==> v.stored)
    && (v.state.Modifying? ==> v.tag == Some(Fsm(Reconcile)))
    && (v.state.PartiallyFilled? ==> raised)
  }

  function Sees(v: Sight, act: Act): Option<Sight> {
    match act
    case Save(r) => Some(v.(stored := r.status.FilledStatus?))
    case Note(tag, at) => Some(v.(state := if at.Some? then at.value else v.state, tag := Some(tag)))
    case Fire(event, target) =>
      var next := Transition(v.state, event, target);
      if next.None? then None else Some(v.(state := next.value, tag := Some(Fsm(event))))
  }

  predicate Unattachable(s: CommandState, act: Act) {
    s.PartiallyFilled? && act == Fire(SlAttaching, None)
  }

  /** Where writes lead: on, or to an end at a refused transition. */
  datatype Way = On(seen: Sight) | Dead(seen: Sight, at: Act)

  function Ahead(w: Way, act: Act): Way {
    if w.Dead? then w
    else match Sees(w.seen, act)
      case None => Dead(w.seen, act)
      case Some(next) => On(next)
  }

  function Walk(w: Way, acts: seq<Act>): Way
    decreases |acts|
  {
    if acts == [] || w.Dead? then w else Walk(Ahead(w, acts[0]), acts[1..])
  }

  /** What an open question asks of the command; an ended call must leave it settled. */
  predicate Lands(v: Sight, ask: Ask, raised: bool) {
    match ask
    case Send(_) => v.state.Submitted?
    case LookUp(_, _) => v.state.Submitted?
    case Position(_) => v.state.Filled? || v.state.PartiallyFilled?
    case Attach(_, _, _) => v.state.Modifying?
    case CloseUrgently(_) => v.state.Modifying?
    case CloseDown(_, _) => true
    case Resolve => v.state.Unknown?
    case _ => Settled(v, raised)
  }

  predicate Arrives(w: Way, ask: Ask, raised: bool) {
    if w.Dead? then Settled(w.seen, raised || Unattachable(w.seen.state, w.at)) else Lands(w.seen, ask, raised)
  }

  /** Wherever these writes may end the call, they leave the command settled. */
  predicate Settles(v: Sight, acts: seq<Act>, ask: Ask, raised: bool) {
    Arrives(Walk(On(v), acts), ask, raised)
  }

  lemma Walks(w: Way, a: Act, b: Act, c: Act, d: Act)
    ensures Walk(w, []) == w && Walk(w, [a]) == Ahead(w, a) && Walk(w, [a, b]) == Ahead(Ahead(w, a), b)
    ensures Walk(w, [a, b, c]) == Ahead(Ahead(Ahead(w, a), b), c)
    ensures Walk(w, [a, b, c, d]) == Ahead(Ahead(Ahead(Ahead(w, a), b), c), d)
  {
    hide Ahead;
    Walk1(w, a);
    Walk1(Ahead(w, a), b);
    Walk1(Ahead(Ahead(w, a), b), c);
    Walk1(Ahead(Ahead(Ahead(w, a), b), c), d);
    WalkDead(w, a, [b]);
    WalkDead(w, a, [b, c]);
    WalkDead(w, a, [b, c, d]);
    WalkDead(Ahead(w, a), b, [c]);
    WalkDead(Ahead(w, a), b, [c, d]);
    WalkDead(Ahead(Ahead(w, a), b), c, [d]);
    assert [a, b] == [a] + [b] && [a, b, c] == [a] + [b, c] && [a, b, c, d] == [a] + [b, c, d];
    assert [b, c] == [b] + [c] && [b, c, d] == [b] + [c, d] && [c, d] == [c] + [d];
  }

  lemma Walk1(w: Way, a: Act)
    ensures Walk(w, [a]) == Ahead(w, a)
  {
    assert [a][1..] == [];
  }

  lemma WalkDead(w: Way, a: Act, rest: seq<Act>)
    ensures Walk(w, [a] + rest) == Walk(Ahead(w, a), rest)
  {
    assert ([a] + rest)[1..] == rest;
  }

  predicate OnCourse(m: Machine, id: string, raised: bool) {
    id in m.journal.rows ==>
      if m.pc.Busy? && m.pc.command.id == id then Settles(SightOf(m.journal, id), m.pc.acts, m.pc.ask, raised)
      else Settled(SightOf(m.journal, id), raised)
  }

  /** This write dies on the missing edge from PARTIALLY_FILLED to attaching a stop-loss. */
  predicate RaisesNow(m: Machine, op: Op, id: string) {
    && op.Write? && m.pc.Busy? && m.pc.command.id == id && m.pc.acts != [] && id in m.journal.rows
    && Unattachable(m.journal.rows[id].state, m.pc.acts[0])
  }

  ghost predicate DiedAttaching(cfg: Config, m0: Machine, ops: seq<Op>, id: string) {
    ops != [] &&
    var init := ops[..|ops| - 1];
    || DiedAttaching(cfg, m0, init, id)
    || (Run(cfg, m0, init).Some? && RaisesNow(Run(cfg, m0, init).value, ops[|ops| - 1], id))
  }

  lemma RecordSight(j: Journal, other: string, tag: Tag, s: CommandState, id: string)
    requires id in j.rows
    ensures id in Record(j, other, tag, s).rows
    ensures SightOf(Record(j, other, tag, s), id) ==
      if other == id then SightOf(j, id).(state := s, tag := Some(tag)) else SightOf(j, id)
  {
    assert Record(j, other, tag, s).audit[..|j.audit|] == j.audit;
  }

  lemma WriteOnCourse(cfg: Config, m: Machine, id: string, raised: bool)
    requires m.pc.Busy? && m.pc.acts != [] && OnCourse(m, id, raised)
    ensures OnCourse(WriteHead(m), id, raised || RaisesNow(m, Write, id))
  {
    hide LastTag, Lands;
    if id in m.journal.rows {
      var act, s := m.pc.acts[0], StateOf(m.journal, m.pc.command.id);
      match act
      case Save(r) =>
      case Note(tag, at) => RecordSight(m.journal, m.pc.command.id, tag, if at.Some? then at.value else s, id);
      case Fire(event, target) =>
        var next := Transition(s, event, target);
        if next.Some? { RecordSight(m.journal, m.pc.command.id, Fsm(event), next.value, id); }
      WalkDead(On(SightOf(m.journal, id)), act, m.pc.acts[1..]);
      assert [act] + m.pc.acts[1..] == m.pc.acts;
    }
  }

  lemma FirstSettles(j: Journal, call: Call, raised: bool)
    requires call.command.id in j.rows && Settled(SightOf(j, call.command.id), raised)
    ensures var pc := FirstPc(j, call);
      Settles(SightOf(j, call.command.id), pc.acts, pc.ask, raised)
  {
    hide LastTag, Walk;
    var v, a := SightOf(j, call.command.id), Fire(ValidateOk, None);
    Walks(On(v), a, a, a, a);
    Walks(On(v), Note(CommandCreated, Some(Created)), a, a, a);
    SavingSettles(call.command, Fire(ValidateFail, None), a, Plain(FailedStatus, Some(InvalidCommand)), v, raised);
  }

  /** Adopting the broker's truth about an UNKNOWN command, after whatever made it so. */
  lemma AdoptingSettles(c: Command, acts: seq<Act>, s: CommandState, t: Truth, v: Sight, u: Sight, raised: bool)
    requires Walk(On(v), acts) == On(u) && u.state.Unknown?
    ensures var pc := Adopting(c, acts, s, t);
      Settles(v, pc.acts, pc.ask, raised)
  {
    hide Walk, Transition, Reconcilable;
    var adopt := Fire(Reconcile, Some(s));
    var last := if s.Submitted? then Note(SubmittedAfterReconcile, Some(Submitted)) else Save(ResultFor(s));
    WalkConcat(On(v), acts, [adopt]);
    WalkConcat(On(v), acts, [adopt, last]);
    Walks(On(u), adopt, last, last, last);
    assert acts + [adopt] + [last] == acts + [adopt, last];
    AdoptedSight(u, s);
  }

  lemma AdoptedSight(u: Sight, s: CommandState)
    requires u.state.Unknown?
    ensures Sees(u, Fire(Reconcile, Some(s))) ==
      if Reconcilable(s) then Some(Sight(s, u.stored, Some(Fsm(Reconcile)))) else None
    ensures Sees(u, Fire(Reconcile, Some(s))).None? <==> s.Created? || s.Validated? || s.Unknown?
  {
  }

  lemma {:induction false} WalkConcat(w: Way, a: seq<Act>, b: seq<Act>)
    ensures Walk(w, a + b) == Walk(Walk(w, a), b)
    decreases |a|
  {
    if a == [] {
      assert a + b == b;
    } else {
      assert (a + b)[1..] == a[1..] + b;
      WalkConcat(Ahead(w, a[0]), a[1..], b);
    }
  }

  /** The plans made of a note, a transition and a stored result. */
  lemma SavingSettles(c: Command, a: Act, b: Act, r: ExecutionResult, v: Sight, raised: bool)
    ensures var pc := Saving(c, [a], r);
      Settles(v, pc.acts, pc.ask, raised) <==> Arrives(Ahead(Ahead(On(v), a), Save(r)), pc.ask, raised)
    ensures var pc := Saving(c, [a, b], r);
      Settles(v, pc.acts, pc.ask, raised) <==> Arrives(Ahead(Ahead(Ahead(On(v), a), b), Save(r)), pc.ask, raised)
  {
    hide Walk, Ahead;
    Walks(On(v), a, b, Save(r), a);
    Walks(On(v), a, Save(r), a, a);
    assert [a] + [Save(r)] == [a, Save(r)] && [a, b] + [Save(r)] == [a, b, Save(r)];
  }

  lemma EndingSettles(c: Command, e: Event, r: ExecutionResult, v: Sight, raised: bool)
    requires v.state.Submitted? && (e.Reject? || e.Fail? || e.Expire? || e.GoUnknown?)
    ensures var pc := Saving(c, [Note(ExecutorResult, None), Fire(e, None)], r);
      Settles(v, pc.acts, pc.ask, raised)
  {
    hide Walk, Settles;
    SavingSettles(c, Note(ExecutorResult, None), Fire(e, None), r, v, raised);
  }

  lemma SentSettles(cfg: Config, c: Command, n: nat, r: ExecutionResult, v: Sight, raised: bool)
    requires v.state.Submitted?
    ensures var pc := AfterSent(cfg, c, n, r);
      Settles(v, pc.acts, pc.ask, raised)
  {
    hide Walk, Saving, Classify;
    var heard := Note(ExecutorResult, None);
    match r.status
    case FilledStatus => Walks(On(v), heard, Fire(FullFill, None), heard, heard);
    case PartialStatus =>
      Walks(On(v), heard, Fire(PartialFill, None), Note(CancelRemainder, Some(PartiallyFilled)), heard);
    case RejectedStatus => EndingSettles(c, Reject, r, v, raised);
    case FailedStatus => EndingSettles(c, Fail, r, v, raised);
    case ExpiredStatus => EndingSettles(c, Expire, r, v, raised);
    case _ =>
      Walks(On(v), heard, heard, heard, heard);
      EndingSettles(c, GoUnknown, r, v, raised);
  }

  lemma ClockSettles(c: Command, expired: bool, v: Sight, raised: bool)
    requires Settled(v, raised)
    ensures var pc := AfterClock(c, expired);
      Settles(v, pc.acts, pc.ask, raised)
  {
    hide Walk;
    var go := Fire(Submit, None);
    Walks(On(v), go, go, go, go);
    SavingSettles(c, Fire(Expire, None), go, Plain(ExpiredStatus, Some(CommandExpired)), v, raised);
  }

  lemma LookUpSettles(c: Command, n: nat, r: ExecutionResult, t: Truth, v: Sight, raised: bool)
    requires v.state.Submitted?
    ensures var pc := AfterLookUp(c, n, r, t);
      Settles(v, pc.acts, pc.ask, raised)
  {
    hide Walk, Adopting;
    var heard, lost := Note(ReconcileAfterTimeout, None), Fire(GoUnknown, None);
    Walks(On(v), heard, lost, heard, heard);
    SavingSettles(c, heard, lost, UnknownResult(AmbiguousResponse), v, raised);
    if t.discovered.Some? {
      AdoptingSettles(c, [heard, lost], t.discovered.value, t, v, v.(state := Unknown, tag := Some(Fsm(GoUnknown))),
        raised);
    }
  }

  lemma TruthSettles(c: Command, t: Truth, v: Sight, raised: bool)
    requires v.state.Unknown?
    ensures var pc := AfterTruth(c, t);
      Settles(v, pc.acts, pc.ask, raised)
  {
    hide Walk, Adopting;
    var heard := Note(ReconciliationQuery, Some(Unknown));
    Walks(On(v), heard, heard, heard, heard);
    SavingSettles(c, heard, Note(ReconciliationAmbiguous, Some(Unknown)), UnknownResult(ReconciliationPending), v,
      raised);
    if t.discovered.Some? {
      AdoptingSettles(c, [heard], t.discovered.value, t, v, v.(tag := Some(ReconciliationQuery)), raised);
    }
  }

  lemma UrgentCloseSettles(c: Command, r: ExecutionResult, v: Sight, raised: bool)
    requires v.state.Modifying?
    ensures var pc := AfterUrgentClose(c, r);
      Settles(v, pc.acts, pc.ask, raised)
  {
    hide Walk;
    var heard := Note(EmergencyCloseResult, Some(Modifying));
    Walks(On(v), heard, Fire(Close, None), Save(r), heard);
    Walks(On(v), heard, Fire(GoUnknown, None), Save(UnknownResult(EmergencyCloseFailed)), heard);
  }

  lemma CloseSettles(cfg: Config, c: Command, pid: string, n: nat, r: ExecutionResult, v: Sight, raised: bool)
    ensures var pc := AfterClose(cfg, c, pid, n, r);
      Settles(v, pc.acts, pc.ask, raised)
  {
    hide Walk;
    var heard := Note(CloseResult, None);
    Walks(On(v), heard, heard, heard, heard);
    SavingSettles(c, heard, Fire(Close, None), r, v, raised);
    SavingSettles(c, heard, Fire(GoUnknown, None), UnknownResult(AmbiguousResponse), v, raised);
  }

  lemma ReplySettles(cfg: Config, m: Machine, a: Answer, v: Sight, raised: bool)
    requires m.pc.Busy? && m.pc.acts == [] && Lands(v, m.pc.ask, raised) && Hear(cfg, m, a).Some?
    ensures var pc := Hear(cfg, m, a).value.pc;
      Settles(v, pc.acts, pc.ask, raised)
  {
    hide Settles, AfterClock, AfterSent, AfterLookUp, AfterPosition, AfterAttach, AfterUrgentClose, AfterClose,
      AfterTruth;
    var c := m.pc.command;
    match m.pc.ask
    case Expiry => ClockSettles(c, a.expired, v, raised);
    case Send(n) => SentSettles(cfg, c, n, a.reply, v, raised);
    case LookUp(n, r) => LookUpSettles(c, n, r, a.truth, v, raised);
    case Position(fill) => PositionSettles(c, fill, a.snapshot, v, raised);
    case Attach(pid, fill, n) => AttachSettles(cfg, c, pid, fill, n, a.applied, v, raised);
    case CloseUrgently(_) => UrgentCloseSettles(c, a.reply, v, raised);
    case CloseDown(pid, n) => CloseSettles(cfg, c, pid, n, a.reply, v, raised);
    case Resolve => TruthSettles(c, a.truth, v, raised);
  }

  lemma PositionSettles(c: Command, fill: ExecutionResult, p: Option<Snapshot>, v: Sight, raised: bool)
    requires v.state.Filled? || v.state.PartiallyFilled?
    ensures var pc := AfterPosition(c, fill, p);
      Settles(v, pc.acts, pc.ask, raised)
  {
    hide Walk;
    var attach, confirm := Fire(SlAttaching, None), Note(SlConfirmed, Some(Filled));
    Walks(On(v), attach, attach, attach, attach);
    Walks(On(v), confirm, Save(Confirmed(fill)), attach, attach);
    assert [confirm] + [Save(Confirmed(fill))] == [confirm, Save(Confirmed(fill))];
    SavingSettles(c, Fire(GoUnknown, None), attach, UnknownResult(AmbiguousResponse), v, raised);
  }

  lemma AttachSettles(cfg: Config, c: Command, pid: string, fill: ExecutionResult, n: nat, applied: bool, v: Sight,
                      raised: bool)
    requires v.state.Modifying?
    ensures var pc := AfterAttach(cfg, c, pid, fill, n, applied);
      Settles(v, pc.acts, pc.ask, raised)
  {
    hide Walk;
    var heard := Note(SlAttachResult, Some(Modifying));
    Walks(On(v), heard, Fire(SlAttached, None), Save(Confirmed(fill)), heard);
    assert [heard, Fire(SlAttached, None)] + [Save(Confirmed(fill))] ==
      [heard, Fire(SlAttached, None), Save(Confirmed(fill))];
    Walks(On(v), heard, Note(SlAttachBudgetSpent, Some(Modifying)), Note(EmergencyCloseRequested, Some(Modifying)),
      heard);
  }

  lemma BeginOnCourse(cfg: Config, m: Machine, call: Call, id: string, raised: bool)
    requires m.pc.Idle? && OnCourse(m, id, raised)
    ensures OnCourse(Start(m, call), id, raised)
  {
    hide Walk, LastTag;
    if EntersRow(m.journal, call) {
      Walks(On(SightOf(Start(m, call).journal, call.command.id)), Note(CommandCreated, Some(Created)),
        Fire(Submit, None), Fire(Submit, None), Fire(Submit, None));
    } else if call.command.id == id && id in m.journal.rows {
      FirstSettles(m.journal, call, raised);
    }
  }

  lemma StepOnCourse(cfg: Config, m: Machine, op: Op, id: string, raised: bool)
    requires OnCourse(m, id, raised) && Step(cfg, m, op).Some? && !op.Crash?
    ensures OnCourse(Step(cfg, m, op).value, id, raised || RaisesNow(m, op, id))
  {
    hide Transition, LastTag, Start, Hear;
    match op
    case Begin(call) => BeginOnCourse(cfg, m, call, id, raised);
    case Write => WriteOnCourse(cfg, m, id, raised);
    case Reply(a) =>
      if id in m.journal.rows && m.pc.command.id == id { ReplySettles(cfg, m, a, SightOf(m.journal, id), raised); }
      ReplyKeeps(cfg, m, a);
    case Return =>
  }

  ghost predicate CrashFree(ops: seq<Op>) {
    forall k :: 0 <= k < |ops| ==> !ops[k].Crash?
  }

  lemma NothingYet(m0: Machine, id: string)
    requires Initial(m0)
    ensures OnCourse(m0, id, false)
  {
  }

  lemma {:induction false} StaysOnCourse(cfg: Config, m0: Machine, ops: seq<Op>, id: string)
    requires Initial(m0) && Run(cfg, m0, ops).Some? && CrashFree(ops)
    ensures OnCourse(Run(cfg, m0, ops).value, id, DiedAttaching(cfg, m0, ops, id))
  {
    hide OnCourse, RaisesNow;
    if ops == [] {
      NothingYet(m0, id);
    } else {
      var init := ops[..|ops| - 1];
      StaysOnCourse(cfg, m0, init, id);
      StepOnCourse(cfg, Run(cfg, m0, init).value, ops[|ops| - 1], id, DiedAttaching(cfg, m0, init, id));
    }
  }

  /** Without a crash, a command no call is busy with is FILLED only with a stored FILLED result,
      MODIFYING only because reconciliation adopted that state, and PARTIALLY_FILLED only because
      a call of its raised on the way to attaching a stop-loss. */
  lemma CrashFreeRest(cfg: Config, m0: Machine, ops: seq<Op>, id: string)
    requires Initial(m0) && Run(cfg, m0, ops).Some? && CrashFree(ops)
    requires Run(cfg, m0, ops).value.pc.Idle? && id in Run(cfg, m0, ops).value.journal.rows
    ensures var j := Run(cfg, m0, ops).value.journal;
      && (j.rows[id].state.Filled? ==> FillStored(j, id))
      && (j.rows[id].state.Modifying? ==> LastTag(j.audit, id) == Some(Fsm(Reconcile)))
      && (j.rows[id].state.PartiallyFilled? ==> DiedAttaching(cfg, m0, ops, id))
  {
    StaysOnCourse(cfg, m0, ops, id);
  }
}
