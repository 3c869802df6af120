/**
 * Crash-safe ingestion as a machine (collector/adapters): a growing file, a
 * reader that holds a partial line, and a store that commits the cursor
 * together with each event.  A crash may come between any two operations.
 */
module Ingestion {
  import opened Common
  import opened Framing

  /** What the pipeline makes of one complete line. */
  datatype Verdict =
    | Undecodable | Blank | Malformed | Internal | UnknownType | IdentityPending | Invalid
    | Accepted(payload: string)

  type Judge = Bytes -> Verdict

  datatype Cursor = Cursor(offset: nat, line: Option<nat>, lastEvent: Option<string>)

  datatype StoredEvent = StoredEvent(id: string, payload: string)

  /** The running process: reader offset and held partial, lines not yet handled, the line
      counter, the pipeline's cursor; born is the number of events stored before it started. */
  datatype Proc =
    | Down
    | Up(offset: nat, partial: Bytes, pending: seq<RawLine>, lines: nat, cursor: Option<Cursor>, born: nat)

  /** handled is the history of frames whose commit went through. */
  datatype World = World(
    file: Bytes, saved: Option<Cursor>, events: seq<StoredEvent>, handled: seq<Bytes>, proc: Proc)

  datatype Op =
    | Append(more: Bytes) | Restart | Kill
    | Poll(size: nat) | Handle(id: string) | FailCommit

  function ResumeAt(saved: Option<Cursor>): nat {
    if saved.Some? then saved.value.offset else 0
  }

  predicate Known(events: seq<StoredEvent>, id: string) {
    exists k :: 0 <= k < |events| && events[k].id == id
  }

  function Step(judge: Judge, w: World, op: Op): Option<World> {
    match op
    case Append(more) => Some(w.(file := w.file + more))
    case Kill => Some(w.(proc := Down))
    case Restart => Some(w.(proc := Up(ResumeAt(w.saved), [], [], 0, None, |w.events|)))
    case Poll(size) =>
      if w.proc.Up? && w.proc.pending == [] && w.proc.offset + |w.proc.partial| <= size <= |w.file|
      then Some(w.(proc := Polled(w.file, size, w.proc))) else None
    case Handle(id) =>
      if w.proc.Up? && w.proc.pending != [] then HandleLine(judge, w, id) else None
    case FailCommit =>
      if w.proc.Up? && w.proc.pending != [] && !judge(w.proc.pending[0].data).Undecodable?
      then Some(w.(proc := w.proc.(pending := [], lines := w.proc.lines + 1))) else None
  }

  /** Reads on from the held partial and frames what is there. */
  function Polled(file: Bytes, size: nat, p: Proc): Proc
    requires p.Up? && p.offset + |p.partial| <= size <= |file|
  {
    if size <= p.offset || p.offset + |p.partial| == |file| then p
    else
      var buffer := p.partial + file[p.offset + |p.partial|..];
      var frames := Frames(buffer);
      p.(offset := p.offset + |Join(frames.0)|, partial := frames.1, pending := Place(frames.0, p.offset))
  }

  /** One line: an undecodable one kills the process, an accepted one commits event and cursor
      in one transaction, any other commits the cursor alone. */
  function HandleLine(judge: Judge, w: World, id: string): Option<World>
    requires w.proc.Up? && w.proc.pending != []
  {
    var p, line := w.proc, w.proc.pending[0];
    match judge(line.data)
    case Undecodable => Some(w.(proc := Down))
    case Accepted(payload) =>
      if Known(w.events, id) then None
      else
        var c := Cursor(line.start + |line.data| + 1, Some(p.lines + 1), Some(id));
        Some(Committed(w, c).(events := w.events + [StoredEvent(id, payload)]))
    case _ =>
      var last := if p.cursor.Some? then p.cursor.value.lastEvent else None;
      Some(Committed(w, Cursor(line.start + |line.data| + 1, Some(p.lines + 1), last)))
  }

  function Committed(w: World, c: Cursor): World
    requires w.proc.Up? && w.proc.pending != []
  {
    w.(saved := Some(c), handled := w.handled + [w.proc.pending[0].data],
       proc := w.proc.(pending := w.proc.pending[1..], lines := w.proc.lines + 1, cursor := Some(c)))
  }

  function Run(judge: Judge, w: World, ops: seq<Op>): Option<World> {
    if ops == [] then Some(w)
    else match Run(judge, w, ops[..|ops| - 1])
      case None => None
      case Some(before) => Step(judge, before, ops[|ops| - 1])
  }

  predicate Initial(w: World) {
    w.saved.None? && w.events == [] && w.handled == [] && w.proc.Down?
  }

  // -------------------------------------------------------------- invariant

  function Data(lines: seq<RawLine>): seq<Bytes> {
    if lines == [] then [] else [lines[0].data] + Data(lines[1..])
  }

  predicate PlacedFrom(lines: seq<RawLine>, at: nat) {
    lines == [] || (lines[0].start == at && PlacedFrom(lines[1..], at + |lines[0].data| + 1))
  }

  /** Where the next line to be handled starts. */
  function NextStart(p: Proc): nat
    requires p.Up?
  {
    if p.pending == [] then p.offset else p.pending[0].start
  }

  ghost predicate ReaderSound(w: World) {
    w.proc.Up? ==>
      var p := w.proc;
      var next := NextStart(p);
      && ResumeAt(w.saved) <= next && p.offset + |p.partial| <= |w.file|
      && w.file[p.offset..p.offset + |p.partial|] == p.partial && NEWLINE !in p.partial
      && PlacedFrom(p.pending, next)
      && next + |Join(Data(p.pending))| == p.offset && w.file[next..p.offset] == Join(Data(p.pending))
  }

  /** The store's cursor is the pipeline's, and it names the last event of this process only. */
  ghost predicate CursorSound(w: World) {
    && ResumeAt(w.saved) <= |w.file|
    && (w.proc.Up? ==>
          && w.proc.born <= |w.events|
          && (w.proc.cursor.None? ==> |w.events| == w.proc.born)
          && (w.proc.cursor.Some? ==>
                && w.saved == w.proc.cursor
                && w.proc.cursor.value.lastEvent ==
                   (if |w.events| > w.proc.born then Some(w.events[|w.events| - 1].id) else None)))
  }

  /** Payloads of the accepted lines, in order. */
  function AcceptedOf(judge: Judge, frames: seq<Bytes>): seq<string> {
    if frames == [] then []
    else
      var last := judge(frames[|frames| - 1]);
      AcceptedOf(judge, frames[..|frames| - 1]) + (if last.Accepted? then [last.payload] else [])
  }

  function Payloads(events: seq<StoredEvent>): seq<string> {
    seq(|events|, k requires 0 <= k < |events| => events[k].payload)
  }

  ghost predicate EventsSound(judge: Judge, w: World) {
    && Payloads(w.events) == AcceptedOf(judge, w.handled)
    && (forall i, k :: 0 <= i < k < |w.events| ==> w.events[i].id != w.events[k].id)
    && (forall k :: 0 <= k < |w.handled| ==> !judge(w.handled[k]).Undecodable?)
  }

  ghost predicate Sound(judge: Judge, w: World) {
    ReaderSound(w) && CursorSound(w) && EventsSound(judge, w) && |Join(w.handled)| <= ResumeAt(w.saved)
  }

  lemma {:induction false} PlaceFacts(frames: seq<Bytes>, at: nat)
    ensures Data(Place(frames, at)) == frames && PlacedFrom(Place(frames, at), at)
    ensures Place(frames, at) == [] <==> frames == []
    ensures frames != [] ==> Place(frames, at)[0] == RawLine(frames[0], at)
  {
    if frames != [] {
      PlaceFacts(frames[1..], at + |frames[0]| + 1);
      assert [frames[0]] + frames[1..] == frames;
    }
  }

  lemma TailPieces(file: Bytes, o: nat, head: Bytes, rest: Bytes)
    requires o <= |file| && file[o..] == head + rest
    ensures o + |head| + |rest| == |file|
    ensures file[o..o + |head|] == head && file[o + |head|..] == rest
  {
    assert file[o..][..|head|] == head;
    assert file[o..][|head|..] == rest;
  }

  lemma BufferIsTail(file: Bytes, p: Proc)
    requires p.Up? && p.offset + |p.partial| <= |file|
    requires file[p.offset..p.offset + |p.partial|] == p.partial
    ensures p.partial + file[p.offset + |p.partial|..] == file[p.offset..]
  {
  }

  lemma PolledIs(file: Bytes, p: Proc, size: nat, f: (seq<Bytes>, Bytes))
    requires p.Up? && p.offset < size <= |file| && p.offset + |p.partial| <= size && p.offset + |p.partial| < |file|
    requires file[p.offset..p.offset + |p.partial|] == p.partial && f == Frames(file[p.offset..])
    ensures Polled(file, size, p) == p.(offset := p.offset + |Join(f.0)|, partial := f.1,
      pending := Place(f.0, p.offset))
  {
    hide Frames;
    BufferIsTail(file, p);
  }

  /** What a poll leaves behind is a decomposition of the file from the old offset on. */
  lemma PolledFacts(file: Bytes, p: Proc, size: nat, q: Proc)
    requires p.Up? && p.offset < size <= |file| && p.offset + |p.partial| <= size && p.offset + |p.partial| < |file|
    requires file[p.offset..p.offset + |p.partial|] == p.partial && q == Polled(file, size, p)
    ensures q.Up? && Data(q.pending) == Frames(file[p.offset..]).0 && PlacedFrom(q.pending, p.offset)
    ensures p.offset <= q.offset && q.offset + |q.partial| == |file| && NEWLINE !in q.partial
    ensures file[q.offset..] == q.partial && file[p.offset..q.offset] == Join(Data(q.pending))
    ensures NextStart(q) == p.offset
  {
    hide Frames;
    var f := Frames(file[p.offset..]);
    PolledIs(file, p, size, f);
    FramesConserve(file[p.offset..]);
    PlaceFacts(f.0, p.offset);
    TailPieces(file, p.offset, Join(f.0), f.1);
  }

  lemma PollKeeps(w: World, size: nat)
    requires ReaderSound(w) && w.proc.Up? && w.proc.pending == []
    requires w.proc.offset + |w.proc.partial| <= size <= |w.file|
    ensures ReaderSound(w.(proc := Polled(w.file, size, w.proc)))
    ensures Polled(w.file, size, w.proc).Up? && NextStart(Polled(w.file, size, w.proc)) == w.proc.offset
  {
    hide Frames, Lines, Place, Join;
    if size > w.proc.offset && w.proc.offset + |w.proc.partial| < |w.file| {
      hide Polled;
      PolledFacts(w.file, w.proc, size, Polled(w.file, size, w.proc));
    }
  }

  lemma CommitKeepsReader(judge: Judge, w: World, id: string)
    requires ReaderSound(w) && w.proc.Up? && w.proc.pending != [] && HandleLine(judge, w, id).Some?
    ensures ReaderSound(HandleLine(judge, w, id).value)
    ensures ResumeAt(w.saved) <= |w.file| ==> ResumeAt(HandleLine(judge, w, id).value.saved) <= |w.file|
  {
    var p := w.proc;
    var line, rest := p.pending[0], p.pending[1..];
    assert Data(p.pending) == [line.data] + Data(rest);
    assert Join(Data(p.pending)) == line.data + [NEWLINE] + Join(Data(rest));
    var n := |line.data| + 1;
    assert PlacedFrom(rest, line.start + n);
    assert w.file[line.start + n..p.offset] == w.file[line.start..p.offset][n..];
  }

  lemma CommitKeepsCursor(judge: Judge, w: World, id: string)
    requires ReaderSound(w) && CursorSound(w) && w.proc.Up? && w.proc.pending != [] && HandleLine(judge, w, id).Some?
    ensures CursorSound(HandleLine(judge, w, id).value)
  {
    CommitKeepsReader(judge, w, id);
  }

  lemma AcceptedSnoc(judge: Judge, frames: seq<Bytes>, f: Bytes)
    ensures AcceptedOf(judge, frames + [f]) ==
      AcceptedOf(judge, frames) + (if judge(f).Accepted? then [judge(f).payload] else [])
  {
    assert (frames + [f])[..|frames|] == frames;
  }

  lemma PayloadsSnoc(events: seq<StoredEvent>, e: StoredEvent)
    ensures Payloads(events + [e]) == Payloads(events) + [e.payload]
  {
  }

  lemma CommitKeepsEvents(judge: Judge, w: World, id: string)
    requires EventsSound(judge, w) && w.proc.Up? && w.proc.pending != [] && HandleLine(judge, w, id).Some?
    ensures EventsSound(judge, HandleLine(judge, w, id).value)
  {
    hide AcceptedOf, Join, Lines;
    var w' := HandleLine(judge, w, id).value;
    var line := w.proc.pending[0].data;
    if !judge(line).Undecodable? {
      AcceptedSnoc(judge, w.handled, line);
      if judge(line).Accepted? { PayloadsSnoc(w.events, w'.events[|w.events|]); }
    }
  }

  lemma CommitKeepsCount(judge: Judge, w: World, id: string)
    requires ReaderSound(w) && |Join(w.handled)| <= ResumeAt(w.saved)
    requires w.proc.Up? && w.proc.pending != [] && HandleLine(judge, w, id).Some?
    ensures |Join(HandleLine(judge, w, id).value.handled)| <= ResumeAt(HandleLine(judge, w, id).value.saved)
  {
    JoinSnoc(w.handled, w.proc.pending[0].data);
  }

  lemma AppendKeeps(w: World, more: Bytes)
    requires ReaderSound(w)
    ensures ReaderSound(w.(file := w.file + more))
  {
    if w.proc.Up? {
      var p := w.proc;
      assert (w.file + more)[p.offset..p.offset + |p.partial|] == w.file[p.offset..p.offset + |p.partial|];
      assert (w.file + more)[NextStart(p)..p.offset] == w.file[NextStart(p)..p.offset];
    }
  }

  lemma FreshReader(w: World, p: Proc)
    requires p.Up? && p.partial == [] && p.pending == [] && ResumeAt(w.saved) <= p.offset <= |w.file|
    ensures ReaderSound(w.(proc := p))
  {
    assert w.file[p.offset..p.offset] == [];
  }

  lemma StepKeeps(judge: Judge, w: World, op: Op)
    requires Sound(judge, w) && Step(judge, w, op).Some?
    ensures Sound(judge, Step(judge, w, op).value)
  {
    match op
    case Append(more) => AppendKeeps(w, more);
    case Kill =>
    case Restart => FreshReader(w, Step(judge, w, op).value.proc);
    case Poll(size) => PollKeeps(w, size);
    case Handle(id) => 
      CommitKeepsReader(judge, w, id);
      CommitKeepsCursor(judge, w, id);
      CommitKeepsEvents(judge, w, id);
      CommitKeepsCount(judge, w, id);
    case FailCommit => FailKeeps(judge, w);
  }

  /** A failed commit drops the remaining lines but leaves offset and held partial. */
  lemma FailKeeps(judge: Judge, w: World)
    requires ReaderSound(w) && Step(judge, w, FailCommit).Some?
    ensures ReaderSound(Step(judge, w, FailCommit).value)
  {
    var p := w.proc;
    assert w.file[p.offset..p.offset] == [];
  }

  lemma {:induction false} Reachable(judge: Judge, w0: World, ops: seq<Op>)
    requires Initial(w0) && Run(judge, w0, ops).Some?
    ensures Sound(judge, Run(judge, w0, ops).value)
  {
    if ops != [] {
      Reachable(judge, w0, ops[..|ops| - 1]);
      StepKeeps(judge, Run(judge, w0, ops[..|ops| - 1]).value, ops[|ops| - 1]);
    }
  }

  // ----------------------------------------------------------- exactly once

  /** The process is about to handle a line beyond lines it dropped after a failed commit. */
  predicate Gapped(w: World) {
    w.proc.Up? && NextStart(w.proc) != ResumeAt(w.saved)
  }

  /** This operation commits a line across a gap. */
  predicate Skips(judge: Judge, w: World, op: Op) {
    op.Handle? && Gapped(w) && w.proc.pending != [] && !judge(w.proc.pending[0].data).Undecodable?
  }

  predicate NeverSkips(judge: Judge, w: World, ops: seq<Op>) {
    ops == [] ||
    var before := Run(judge, w, ops[..|ops| - 1]);
    NeverSkips(judge, w, ops[..|ops| - 1]) && (before.Some? ==> !Skips(judge, before.value, ops[|ops| - 1]))
  }

  /** Bytes of the file before the cursor that were never handled. */
  function Missing(w: World): int {
    ResumeAt(w.saved) - |Join(w.handled)|
  }

  lemma MissingStep(judge: Judge, w: World, op: Op)
    requires Sound(judge, w) && Step(judge, w, op).Some?
    ensures Missing(Step(judge, w, op).value) >= Missing(w)
    ensures Missing(Step(judge, w, op).value) == Missing(w) <==> !Skips(judge, w, op)
  {
    if op.Handle? { JoinSnoc(w.handled, w.proc.pending[0].data); }
  }

  /** The handled frames tile the file up to the cursor. */
  ghost predicate Tiled(w: World) {
    ResumeAt(w.saved) <= |w.file| && Join(w.handled) == w.file[..ResumeAt(w.saved)]
  }

  lemma TiledHandle(w: World, line: RawLine)
    requires ReaderSound(w) && Tiled(w) && w.proc.Up? && w.proc.pending != [] && line == w.proc.pending[0]
    requires line.start == ResumeAt(w.saved)
    ensures line.start + |line.data| + 1 <= |w.file|
    ensures Join(w.handled + [line.data]) == w.file[..line.start + |line.data| + 1]
  {
    JoinSnoc(w.handled, line.data);
    var rest := Data(w.proc.pending[1..]);
    assert Data(w.proc.pending) == [line.data] + rest;
    var frame := line.data + [NEWLINE];
    assert Join([line.data] + rest) == frame + Join(rest);
    var span := w.file[line.start..w.proc.offset];
    assert span[..|frame|] == frame;
    assert w.file[..line.start + |frame|] == w.file[..line.start] + span[..|frame|];
  }

  lemma TiledStep(judge: Judge, w: World, op: Op)
    requires Sound(judge, w) && Step(judge, w, op).Some? && Tiled(w) && !Skips(judge, w, op)
    ensures Tiled(Step(judge, w, op).value)
  {
    match op
    case Append(more) =>
      assert (w.file + more)[..ResumeAt(w.saved)] == w.file[..ResumeAt(w.saved)];
    case Handle(id) =>
      var line := w.proc.pending[0];
      if !judge(line.data).Undecodable? { TiledHandle(w, line); }
    case _ =>
  }

  /** Over every interleaving of appends, polls, commits, failures, crashes and restarts: the
      handled frames tile the file up to the cursor, with no gap and no overlap, if and only if
      no line was ever committed in-process across lines dropped by a failed commit. */
  lemma {:induction false} ExactlyOnceIff(judge: Judge, w0: World, ops: seq<Op>)
    requires Initial(w0) && Run(judge, w0, ops).Some?
    ensures Tiled(Run(judge, w0, ops).value) <==> NeverSkips(judge, w0, ops)
    ensures Missing(Run(judge, w0, ops).value) >= 0
    ensures Missing(Run(judge, w0, ops).value) == 0 <==> NeverSkips(judge, w0, ops)
  {
    if ops == [] {
      assert w0.file[..0] == [];
    } else {
      var init := ops[..|ops| - 1];
      ExactlyOnceIff(judge, w0, init);
      Reachable(judge, w0, init);
      var before := Run(judge, w0, init).value;
      MissingStep(judge, before, ops[|ops| - 1]);
      if NeverSkips(judge, w0, ops) { TiledStep(judge, before, ops[|ops| - 1]); }
      var after := Run(judge, w0, ops).value;
      if Tiled(after) { assert |after.file[..ResumeAt(after.saved)]| == ResumeAt(after.saved); }
    }
  }

  /** The last thing that happened to lines or process, appends and polls aside, is a failed commit. */
  predicate BehindFailure(ops: seq<Op>) {
    ops != [] && (ops[|ops| - 1].FailCommit?
                  || ((ops[|ops| - 1].Append? || ops[|ops| - 1].Poll?) && BehindFailure(ops[..|ops| - 1])))
  }

  lemma GapStep(judge: Judge, w: World, op: Op)
    requires Sound(judge, w) && Step(judge, w, op).Some?
    ensures Gapped(Step(judge, w, op).value) <==> op.FailCommit? || ((op.Append? || op.Poll?) && Gapped(w))
  {
    hide Frames, Join, Lines, Polled, EventsSound;
    match op
    case Append(more) =>
    case Kill =>
    case Restart =>
    case Poll(size) => PollKeeps(w, size);
    case Handle(id) => CommitCatchesUp(judge, w, id);
    case FailCommit => FailureLeavesGap(w);
  }

  /** The reader stands behind the lines it still has to hand over. */
  lemma FailureLeavesGap(w: World)
    requires ReaderSound(w) && w.proc.Up? && w.proc.pending != []
    ensures w.proc.offset > ResumeAt(w.saved)
  {
    DataTail(w.proc.pending);
    assert Join(Data(w.proc.pending)) != [];
  }

  lemma CommitCatchesUp(judge: Judge, w: World, id: string)
    requires ReaderSound(w) && w.proc.Up? && w.proc.pending != [] && HandleLine(judge, w, id).Some?
    ensures !Gapped(HandleLine(judge, w, id).value)
  {
    CommitKeepsReader(judge, w, id);
    var line, rest := w.proc.pending[0], w.proc.pending[1..];
    assert Data(w.proc.pending) == [line.data] + Data(rest);
    assert PlacedFrom(rest, line.start + |line.data| + 1);
  }

  /** A process gets ahead of its cursor through a failed commit of its own, and in no other way: it
      is ahead exactly until the next line is committed or the process ends. */
  lemma {:induction false} GappedIff(judge: Judge, w0: World, ops: seq<Op>)
    requires Initial(w0) && Run(judge, w0, ops).Some?
    ensures Gapped(Run(judge, w0, ops).value) <==> BehindFailure(ops)
  {
    hide Gapped, Step;
    if ops == [] {
      NothingGapped(w0);
    } else {
      var init := ops[..|ops| - 1];
      GappedIff(judge, w0, init);
      Reachable(judge, w0, init);
      GapStep(judge, Run(judge, w0, init).value, ops[|ops| - 1]);
    }
  }

  lemma NothingGapped(w0: World)
    requires Initial(w0)
    ensures !Gapped(w0)
  {
  }

  /** So lines are skipped exactly by committing one right after a failed commit of the same process,
      with nothing but appends and polls in between. */
  lemma {:induction false} SkipsIff(judge: Judge, w0: World, ops: seq<Op>)
    requires Initial(w0) && Run(judge, w0, ops).Some?
    ensures NeverSkips(judge, w0, ops) <==> forall k :: 0 <= k < |ops| ==> !CommitsBehindFailure(judge, w0, ops, k)
  {
    hide Step, BehindFailure;
    if ops != [] {
      var n := |ops| - 1;
      SkipsIff(judge, w0, ops[..n]);
      GappedIff(judge, w0, ops[..n]);
      assert Skips(judge, Run(judge, w0, ops[..n]).value, ops[n]) <==> CommitsBehindFailure(judge, w0, ops, n);
      forall k | 0 <= k < n
        ensures CommitsBehindFailure(judge, w0, ops[..n], k) <==> CommitsBehindFailure(judge, w0, ops, k)
      {
        assert ops[..n][..k] == ops[..k];
      }
    }
  }

  /** Operation k commits a line, and the process last failed to commit one. */
  predicate CommitsBehindFailure(judge: Judge, w0: World, ops: seq<Op>, k: nat)
    requires k < |ops|
  {
    && ops[k].Handle? && BehindFailure(ops[..k]) && Run(judge, w0, ops[..k]).Some?
    && var w := Run(judge, w0, ops[..k]).value;
       w.proc.Up? && w.proc.pending != [] && !judge(w.proc.pending[0].data).Undecodable?
  }

  /** Stored events are the accepted ones among the handled frames, in order, once each. */
  lemma EventsAreAcceptedFrames(judge: Judge, w0: World, ops: seq<Op>)
    requires Initial(w0) && Run(judge, w0, ops).Some?
    ensures var w := Run(judge, w0, ops).value;
      && Payloads(w.events) == AcceptedOf(judge, w.handled)
      && forall i, k :: 0 <= i < k < |w.events| ==> w.events[i].id != w.events[k].id
  {
    Reachable(judge, w0, ops);
  }

  /** The saved cursor names an event exactly when this process stored one; after a restart a
      skipped line erases the name of the last stored event. */
  lemma LastEventIsPerProcess(judge: Judge, w0: World, ops: seq<Op>)
    requires Initial(w0) && Run(judge, w0, ops).Some?
    requires var w := Run(judge, w0, ops).value; w.proc.Up? && w.proc.cursor.Some?
    ensures var w := Run(judge, w0, ops).value;
      w.saved.Some? && (w.saved.value.lastEvent.None? <==> |w.events| == w.proc.born)
  {
    Reachable(judge, w0, ops);
  }

  // ----------------------------------------------------- framing over a run

  predicate CleanPoll(w: World, op: Op) {
    op.Poll? && w.proc.Up? && w.proc.offset + |w.proc.partial| <= |w.file| ==>
      Clean(w.proc.partial + w.file[w.proc.offset + |w.proc.partial|..])
  }

  predicate AllClean(judge: Judge, w: World, ops: seq<Op>) {
    ops == [] ||
    var before := Run(judge, w, ops[..|ops| - 1]);
    AllClean(judge, w, ops[..|ops| - 1]) && (before.Some? ==> CleanPoll(before.value, ops[|ops| - 1]))
  }

  ghost predicate AllLines(frames: seq<Bytes>) {
    forall k :: 0 <= k < |frames| ==> NEWLINE !in frames[k]
  }

  lemma CleanPollStep(w: World, size: nat)
    requires ReaderSound(w) && w.proc.Up? && w.proc.pending == []
    requires w.proc.offset + |w.proc.partial| <= size <= |w.file| && CleanPoll(w, Poll(size))
    ensures AllLines(Data(Polled(w.file, size, w.proc).pending))
  {
    hide Frames;
    var p := w.proc;
    if size > p.offset && p.offset + |p.partial| < |w.file| {
      PolledFacts(w.file, p, size, Polled(w.file, size, p));
      BufferIsTail(w.file, p);
      CleanFrames(w.file[p.offset..]);
      LinesFacts(w.file[p.offset..]);
    }
  }

  lemma DataTail(lines: seq<RawLine>)
    requires lines != []
    ensures Data(lines) != [] && Data(lines)[0] == lines[0].data && Data(lines)[1..] == Data(lines[1..])
  {
  }

  lemma CleanStep(judge: Judge, w: World, op: Op)
    requires ReaderSound(w) && Step(judge, w, op).Some? && CleanPoll(w, op)
    requires AllLines(w.handled) && (w.proc.Up? ==> AllLines(Data(w.proc.pending)))
    ensures var w' := Step(judge, w, op).value;
      AllLines(w'.handled) && (w'.proc.Up? ==> AllLines(Data(w'.proc.pending)))
  {
    if op.Poll? { CleanPollStep(w, op.size); }
    if op.Handle? { DataTail(w.proc.pending); }
  }

  /** When every poll buffer ends in a newline or holds at most one, the handled frames are the
      lines of the file up to the cursor, however the appends were chunked and wherever the
      process crashed. */
  lemma {:induction false} CleanPollsFrameLines(judge: Judge, w0: World, ops: seq<Op>)
    requires Initial(w0) && Run(judge, w0, ops).Some? && AllClean(judge, w0, ops)
    ensures var w := Run(judge, w0, ops).value; AllLines(w.handled) && (w.proc.Up? ==> AllLines(Data(w.proc.pending)))
  {
    if ops != [] {
      var init := ops[..|ops| - 1];
      CleanPollsFrameLines(judge, w0, init);
      Reachable(judge, w0, init);
      CleanStep(judge, Run(judge, w0, init).value, ops[|ops| - 1]);
    }
  }

  lemma StoredEventsAreTheFile(judge: Judge, w0: World, ops: seq<Op>)
    requires Initial(w0) && Run(judge, w0, ops).Some? && AllClean(judge, w0, ops) && NeverSkips(judge, w0, ops)
    ensures var w := Run(judge, w0, ops).value;
      && ResumeAt(w.saved) <= |w.file|
      && w.handled == Split(w.file[..ResumeAt(w.saved)])
      && Payloads(w.events) == AcceptedOf(judge, Split(w.file[..ResumeAt(w.saved)]))
  {
    Reachable(judge, w0, ops);
    ExactlyOnceIff(judge, w0, ops);
    CleanPollsFrameLines(judge, w0, ops);
    SplitJoin(Run(judge, w0, ops).value.handled);
  }

  // ----------------------------------------------------------- poisoned line

  /** Decoding never recovers after a newline (true of UTF-8). */
  ghost predicate StaysUndecodable(judge: Judge) {
    forall f: Bytes, g: Bytes :: judge(f).Undecodable? ==> judge(f + [NEWLINE] + g).Undecodable?
  }

  predicate StartsWithLine(frame: Bytes, bad: Bytes) {
    frame == bad || (|frame| > |bad| && frame[..|bad| + 1] == bad + [NEWLINE])
  }

  /** The cursor stands before an undecodable line, and the reader has not got past it. */
  ghost predicate Poisoned(judge: Judge, w: World, bad: Bytes) {
    var at := ResumeAt(w.saved);
    && NEWLINE !in bad && judge(bad).Undecodable?
    && at + |bad| + 1 <= |w.file| && w.file[at..at + |bad| + 1] == bad + [NEWLINE]
    && (w.proc.Up? ==>
          && w.proc.offset >= at && !Gapped(w)
          && (w.proc.pending != [] ==> StartsWithLine(w.proc.pending[0].data, bad)))
  }

  lemma FirstLine(b: Bytes, bad: Bytes)
    requires NEWLINE !in bad && |b| > |bad| && b[..|bad| + 1] == bad + [NEWLINE]
    ensures Split(b) != [] && Split(b)[0] == bad && |Join(Split(b))| > |bad|
  {
    var tail := b[|bad| + 1..];
    assert b == (bad + [NEWLINE]) + tail;
    LineOf(bad);
    SplitConcat(bad + [NEWLINE], tail);
    JoinConcat([bad], Split(tail));
    assert Join([bad]) == bad + [NEWLINE];
  }

  lemma FirstFrame(b: Bytes, bad: Bytes)
    requires NEWLINE !in bad && |b| > |bad| && b[..|bad| + 1] == bad + [NEWLINE]
    ensures Frames(b).0 != [] && StartsWithLine(Frames(b).0[0], bad)
  {
    FirstLine(b, bad);
    if !EndsLine(b) {
      LinesFacts(b);
      var cut := |b| - |Rest(b)| - 1;
      assert cut >= |bad|;
      if cut > |bad| {
        assert b[..cut][..|bad| + 1] == b[..|bad| + 1];
      } else {
        assert b[..cut] == b[..|bad| + 1][..|bad|] == bad;
      }
    }
  }

  lemma PoisonStep(judge: Judge, w: World, op: Op, bad: Bytes)
    requires StaysUndecodable(judge) && Sound(judge, w) && Poisoned(judge, w, bad) && Step(judge, w, op).Some?
    ensures Poisoned(judge, Step(judge, w, op).value, bad) && Step(judge, w, op).value.saved == w.saved
  {
    var at := ResumeAt(w.saved);
    match op
    case Append(more) =>
      assert (w.file + more)[at..at + |bad| + 1] == w.file[at..at + |bad| + 1];
    case Poll(size) => PoisonPoll(judge, w, size, bad);
    case Handle(id) => PoisonHead(judge, w.proc.pending[0].data, bad);
    case FailCommit => PoisonHead(judge, w.proc.pending[0].data, bad);
    case _ =>
  }

  lemma PoisonPoll(judge: Judge, w: World, size: nat, bad: Bytes)
    requires ReaderSound(w) && Poisoned(judge, w, bad) && Step(judge, w, Poll(size)).Some?
    ensures Poisoned(judge, Step(judge, w, Poll(size)).value, bad)
  {
    hide Frames;
    var p := w.proc;
    if size > p.offset && p.offset + |p.partial| < |w.file| {
      PolledFacts(w.file, p, size, Polled(w.file, size, p));
      var b := w.file[p.offset..];
      assert b[..|bad| + 1] == w.file[p.offset..p.offset + |bad| + 1];
      FirstFrame(b, bad);
      DataTail(Polled(w.file, size, p).pending);
    }
  }

  lemma PoisonHead(judge: Judge, frame: Bytes, bad: Bytes)
    requires StaysUndecodable(judge) && judge(bad).Undecodable? && StartsWithLine(frame, bad)
    ensures judge(frame).Undecodable?
  {
    if frame != bad {
      assert frame == bad + [NEWLINE] + frame[|bad| + 1..];
    }
  }

  /** One undecodable line at the cursor stops ingestion for good: no restart, no append and no
      poll ever moves the cursor past it, against the promise that the stream cannot be blocked. */
  lemma {:induction false} PoisonBlocksForever(judge: Judge, w: World, ops: seq<Op>, bad: Bytes)
    requires StaysUndecodable(judge) && Sound(judge, w) && w.proc.Down? && Poisoned(judge, w, bad)
    requires Run(judge, w, ops).Some?
    ensures Sound(judge, Run(judge, w, ops).value) && Poisoned(judge, Run(judge, w, ops).value, bad)
    ensures Run(judge, w, ops).value.saved == w.saved && Run(judge, w, ops).value.events == w.events
  {
    if ops != [] {
      var init := ops[..|ops| - 1];
      PoisonBlocksForever(judge, w, init, bad);
      var before := Run(judge, w, init).value;
      StepKeeps(judge, before, ops[|ops| - 1]);
      PoisonStep(judge, before, ops[|ops| - 1], bad);
      if ops[|ops| - 1].Handle? { PoisonHead(judge, before.proc.pending[0].data, bad); }
    }
  }

  lemma RunSnoc(judge: Judge, w: World, ops: seq<Op>, op: Op)
    requires Run(judge, w, ops).Some?
    ensures Run(judge, w, ops + [op]) == Step(judge, Run(judge, w, ops).value, op)
  {
    assert (ops + [op])[..|ops|] == ops;
  }

  /** No run whatever moves the cursor. */
  ghost predicate Blocked(judge: Judge, w: World) {
    forall ops :: Run(judge, w, ops).Some? ==> Run(judge, w, ops).value.saved == w.saved
  }

  /** The first line after the cursor, newline included, is what the file shows there. */
  lemma HeadOfFile(file: Bytes, at: nat)
    requires at <= |file| && Split(file[at..]) != []
    ensures var head := Split(file[at..])[0];
      NEWLINE !in head && at + |head| + 1 <= |file| && file[at..at + |head| + 1] == head + [NEWLINE]
  {
    var b := file[at..];
    LinesFacts(b);
    var head := Split(b)[0];
    assert Join(Split(b)) == head + [NEWLINE] + Join(Split(b)[1..]);
    assert b[..|head| + 1] == head + [NEWLINE];
    assert file[at..at + |head| + 1] == b[..|head| + 1];
  }

  /** One poll of a process that starts at the cursor of a file ending in a newline. */
  lemma PolledFromCursor(judge: Judge, w: World, head: Bytes, rest: seq<Bytes>)
    requires w.proc.Down? && ResumeAt(w.saved) < |w.file| && EndsLine(w.file)
    requires Split(w.file[ResumeAt(w.saved)..]) == [head] + rest
    ensures Run(judge, w, [Restart, Poll(|w.file|)]).Some?
    ensures var v := Run(judge, w, [Restart, Poll(|w.file|)]).value;
      && v.proc.Up? && v.proc.pending != [] && v.proc.pending[0] == RawLine(head, ResumeAt(w.saved))
      && v.saved == w.saved && v.events == w.events
  {
    hide Frames, Lines, Polled, Place, Join, Split;
    var at, size := ResumeAt(w.saved), |w.file|;
    RunSnoc(judge, w, [], Restart);
    RunSnoc(judge, w, [Restart], Poll(size));
    assert [] + [Restart] == [Restart] && [Restart] + [Poll(size)] == [Restart, Poll(size)];
    var p := Up(at, [], [], 0, None, |w.events|);
    var b := w.file[at..];
    assert w.file[at..at] == [] && b[|b| - 1] == w.file[|w.file| - 1];
    FramesOfEnded(b);
    PolledIs(w.file, p, size, Frames(b));
    PlaceFacts(Split(b), at);
    assert ([head] + rest)[0] == head;
  }

  lemma FramesOfEnded(b: Bytes)
    requires EndsLine(b)
    ensures Frames(b) == (Split(b), [])
  {
    hide Lines;
  }

  /** A decodable line at the cursor can always be got past: end the last line, restart, poll. */
  lemma DecodableMoves(judge: Judge, w: World) returns (ops: seq<Op>)
    requires w.proc.Down? && ResumeAt(w.saved) <= |w.file| && Split(w.file[ResumeAt(w.saved)..]) != []
    requires !judge(Split(w.file[ResumeAt(w.saved)..])[0]).Undecodable?
    ensures Run(judge, w, ops).Some? && ResumeAt(Run(judge, w, ops).value.saved) > ResumeAt(w.saved)
  {
    hide Frames, Lines, Polled;
    var at := ResumeAt(w.saved);
    var b := w.file[at..];
    var ended := w.(file := w.file + [NEWLINE]);
    assert ended.file[at..] == b + [NEWLINE];
    LinesSnoc(b, NEWLINE);
    var head, rest := Split(b)[0], Split(b)[1..] + [Rest(b)];
    assert Split(ended.file[at..]) == [head] + rest;
    PolledFromCursor(judge, ended, head, rest);
    var v := Run(judge, ended, [Restart, Poll(|ended.file|)]).value;
    var id := FreshId(w.events);
    RunSnoc(judge, ended, [Restart, Poll(|ended.file|)], Handle(id));
    RunSnoc(judge, w, [], Append([NEWLINE]));
    assert [] + [Append([NEWLINE])] == [Append([NEWLINE])];
    RunConcat(judge, w, [Append([NEWLINE])], [Restart, Poll(|ended.file|)] + [Handle(id)]);
    ops := [Append([NEWLINE])] + ([Restart, Poll(|ended.file|)] + [Handle(id)]);
  }

  lemma {:induction false} RunConcat(judge: Judge, w: World, a: seq<Op>, b: seq<Op>)
    requires Run(judge, w, a).Some?
    ensures Run(judge, w, a + b) == Run(judge, Run(judge, w, a).value, b)
  {
    hide Step;
    if b == [] {
      assert a + b == a;
    } else {
      var init := b[..|b| - 1];
      assert (a + b)[..|a + b| - 1] == a + init;
      RunConcat(judge, w, a, init);
    }
  }

  /** An id no stored event has. */
  lemma {:induction false} FreshId(events: seq<StoredEvent>) returns (id: string)
    ensures !Known(events, id) && forall k :: 0 <= k < |events| ==> |events[k].id| < |id|
  {
    if events == [] {
      id := "x";
    } else {
      var before := FreshId(events[..|events| - 1]);
      var last := events[|events| - 1].id;
      id := if |last| < |before| then before else last + "x";
      forall k | 0 <= k < |events| ensures |events[k].id| < |id| {
        if k < |events| - 1 { assert events[..|events| - 1][k] == events[k]; }
      }
    }
  }

  lemma CursorInFile(judge: Judge, w: World)
    requires Sound(judge, w)
    ensures ResumeAt(w.saved) <= |w.file|
  {
    hide EventsSound, ReaderSound;
  }

  /** The promise that a bad line cannot block the stream fails exactly for undecodable ones: with a
      complete line at the cursor, no run ever moves the cursor if and only if that line is
      undecodable. */
  lemma BlockedIff(judge: Judge, w: World)
    requires StaysUndecodable(judge) && Sound(judge, w) && w.proc.Down?
    requires Split(w.file[ResumeAt(w.saved)..]) != []
    ensures Blocked(judge, w) <==> judge(Split(w.file[ResumeAt(w.saved)..])[0]).Undecodable?
  {
    hide Split, Sound, StaysUndecodable, EventsSound, ReaderSound;
    CursorInFile(judge, w);
    var head := Split(w.file[ResumeAt(w.saved)..])[0];
    HeadOfFile(w.file, ResumeAt(w.saved));
    if judge(head).Undecodable? {
      assert Poisoned(judge, w, head);
      forall ops | Run(judge, w, ops).Some? ensures Run(judge, w, ops).value.saved == w.saved {
        PoisonBlocksForever(judge, w, ops, head);
      }
    } else {
      var ops := DecodableMoves(judge, w);
    }
  }

  /** One appended line is enough to get there. */
  lemma PoisonReached(judge: Judge, w0: World, bad: Bytes)
    requires StaysUndecodable(judge) && Initial(w0) && w0.file == [] && NEWLINE !in bad && judge(bad).Undecodable?
    ensures Run(judge, w0, [Append(bad + [NEWLINE])]).Some?
    ensures var w := Run(judge, w0, [Append(bad + [NEWLINE])]).value;
      Sound(judge, w) && w.proc.Down? && Poisoned(judge, w, bad) && Blocked(judge, w)
  {
    hide Lines, EventsSound, StaysUndecodable;
    var ops := [Append(bad + [NEWLINE])];
    RunSnoc(judge, w0, [], ops[0]);
    assert [] + [ops[0]] == ops;
    Reachable(judge, w0, ops);
    var w := Run(judge, w0, ops).value;
    assert w.file == bad + [NEWLINE];
    assert w.file[0..] == w.file;
    LineOf(bad);
    BlockedIff(judge, w);
  }

  // ----------------------------------------------------------- a skipped line

  /** A commit that fails once, in a process that goes on: the first line is never handled, the
      second one is, and the cursor stands behind both. */
  lemma FailedCommitSkips(judge: Judge, w0: World, a: Bytes, b: Bytes) returns (ops: seq<Op>)
    requires Initial(w0) && w0.file == [] && NEWLINE !in a && NEWLINE !in b
    requires !judge(a).Undecodable? && !judge(b).Undecodable?
    ensures Run(judge, w0, ops).Some? && !NeverSkips(judge, w0, ops)
    ensures var w := Run(judge, w0, ops).value;
      w.handled == [b] && Missing(w) == |a| + 1 && w.file == a + [NEWLINE] + b + [NEWLINE]
        && ResumeAt(w.saved) == |w.file|
  {
    hide Lines, Frames, Polled, NeverSkips;
    var fileA := a + [NEWLINE];
    var w1 := w0.(file := fileA);
    assert w0.file + fileA == fileA;
    RunSnoc(judge, w0, [], Append(fileA));
    assert [] + [Append(fileA)] == [Append(fileA)];
    assert fileA[0..] == fileA;
    LineOf(a);
    assert [a] + [] == [a];
    PolledFromCursor(judge, w1, a, []);
    var start := [Append(fileA)] + [Restart, Poll(|fileA|)];
    RunConcat(judge, w0, [Append(fileA)], [Restart, Poll(|fileA|)]);
    var w2 := Run(judge, w0, start).value;
    OneLineRead(judge, w1, a);
    RunSnoc(judge, w0, start, FailCommit);
    var w3 := Step(judge, w2, FailCommit).value;
    ops := SecondLine(judge, w0, start + [FailCommit], w3, a, b);
  }

  /** A poll that finds exactly one more line. */
  lemma OneLinePolled(file: Bytes, p: Proc, a: Bytes)
    requires p.Up? && p.partial == [] && p.offset <= |file| && file[p.offset..] == a + [NEWLINE] && NEWLINE !in a
    ensures Polled(file, |file|, p) == p.(offset := |file|, pending := [RawLine(a, p.offset)])
  {
    hide Lines;
    LineOf(a);
    var b := file[p.offset..];
    assert [] + b == b && file[p.offset + 0..] == b && b[|b| - 1] == NEWLINE;
    assert Frames(b) == ([a], []);
    assert [a][1..] == [];
    assert Place([a], p.offset) == [RawLine(a, p.offset)];
    assert Join([a]) == a + [NEWLINE];
  }

  lemma OneLineRead(judge: Judge, w: World, a: Bytes)
    requires w.proc.Down? && w.saved.None? && w.file == a + [NEWLINE] && NEWLINE !in a
    ensures Run(judge, w, [Restart, Poll(|w.file|)]) ==
      Some(w.(proc := Up(|w.file|, [], [RawLine(a, 0)], 0, None, |w.events|)))
  {
    hide Polled;
    RunSnoc(judge, w, [], Restart);
    RunSnoc(judge, w, [Restart], Poll(|w.file|));
    assert [] + [Restart] == [Restart] && [Restart] + [Poll(|w.file|)] == [Restart, Poll(|w.file|)];
    assert w.file[0..] == w.file;
    OneLinePolled(w.file, Up(0, [], [], 0, None, |w.events|), a);
  }

  lemma SecondLine(judge: Judge, w0: World, start: seq<Op>, w3: World, a: Bytes, b: Bytes) returns (ops: seq<Op>)
    requires Run(judge, w0, start) == Some(w3)
    requires w3 == World(a + [NEWLINE], None, [], [], Up(|a| + 1, [], [], 1, None, 0)) && NEWLINE !in b
      && !judge(b).Undecodable?
    ensures Run(judge, w0, ops).Some? && !NeverSkips(judge, w0, ops)
    ensures var w := Run(judge, w0, ops).value;
      w.handled == [b] && Missing(w) == |a| + 1 && w.file == a + [NEWLINE] + b + [NEWLINE]
        && ResumeAt(w.saved) == |w.file|
  {
    hide Polled, NeverSkips, Run;
    var more := b + [NEWLINE];
    RunSnoc(judge, w0, start, Append(more));
    var w4 := w3.(file := w3.file + more);
    assert w4.file == a + [NEWLINE] + b + [NEWLINE];
    var size := |w4.file|;
    RunSnoc(judge, w0, start + [Append(more)], Poll(size));
    assert w4.file[|a| + 1..] == more;
    OneLinePolled(w4.file, w4.proc, b);
    ops := start + [Append(more)] + [Poll(size)];
    var w5 := w4.(proc := Up(size, [], [RawLine(b, |a| + 1)], 1, None, 0));
    ops := HandleSkips(judge, w0, ops, w5, b);
    assert Join([b]) == more;
  }

  lemma HandleSkips(judge: Judge, w0: World, before: seq<Op>, w: World, b: Bytes) returns (ops: seq<Op>)
    requires Run(judge, w0, before) == Some(w) && w.proc.Up? && w.events == [] && w.handled == []
      && !judge(b).Undecodable?
    requires w.proc.pending != [] && w.proc.pending[0].data == b && Gapped(w)
    ensures Run(judge, w0, ops).Some? && !NeverSkips(judge, w0, ops)
    ensures var v := Run(judge, w0, ops).value;
      v.handled == [b] && v.file == w.file && ResumeAt(v.saved) == w.proc.pending[0].start + |b| + 1
  {
    RunSnoc(judge, w0, before, Handle(""));
    ops := before + [Handle("")];
    assert ops[..|before|] == before;
  }
}
