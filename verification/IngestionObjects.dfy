/**
 * Reader, repository and pipeline as the source runs them (collector/adapters,
 * collector/persistence): objects updated line by line.  A poll cycle is proved
 * to be a run of the ingestion machine, whatever fails or dies on the way.
 */
module IngestionObjects {
  import opened Common
  import opened Framing
  import opened Ingestion

  /** The source path at one poll: no file, or an identity, a stat size and what could be read. */
  datatype FileView = Missing | Present(identity: int, size: nat, content: Option<Bytes>)

  datatype PollResult = PollResult(
    lines: seq<RawLine>, offset: nat, heldPartial: bool, rotation: bool, unavailable: bool, bytesRead: nat)

  /** What a poll makes of a present file, from a resume point and a held partial line: the lines
      it emits, the new resume point and the new partial.  Reading starts behind the held bytes. */
  function Reading(file: FileView, from: nat, held: Bytes): (seq<RawLine>, nat, Bytes)
    requires file.Present?
  {
    if file.size <= from || file.content.None? || |file.content.value| <= from + |held| then ([], from, held)
    else
      var frames := Frames(held + file.content.value[from + |held|..]);
      (Place(frames.0, from), from + |Join(frames.0)|, frames.1)
  }

  class JsonlFileReader {
    var offset: nat
    var partial: Bytes
    var identity: Option<int>
    var gap: bool

    constructor (startOffset: int)
      ensures offset == (if startOffset > 0 then startOffset else 0)
      ensures partial == [] && identity == None && !gap
    {
      offset := if startOffset > 0 then startOffset else 0;
      partial, identity, gap := [], None, false;
    }

    /** The file was replaced, came back after a gap, or shrank below the cursor. */
    predicate Rotates(file: FileView)
      reads this
    {
      file.Present? && ((identity.Some? && (gap || identity.value != file.identity)) || file.size < offset)
    }

    method Reset()
      modifies this
      ensures offset == 0 && partial == [] && identity == None && !gap
    {
      offset, partial, identity, gap := 0, [], None, false;
    }

    /** Nothing advances when the file is missing or unreadable; otherwise the emitted lines, the
        new offset and the held partial decompose the bytes from the old offset on. */
    method Poll(file: FileView) returns (r: PollResult)
      modifies this
      ensures r.unavailable ==> r.lines == []
      ensures file.Missing? ==>
        && r == PollResult([], old(offset), false, false, true, 0)
        && gap && offset == old(offset) && partial == old(partial) && identity == old(identity)
      ensures file.Present? ==>
        && identity == Some(file.identity) && !gap && r.rotation == old(Rotates(file))
        && r.offset == offset && r.heldPartial == (partial != [])
      ensures file.Present? ==>
        var from := if r.rotation then 0 else old(offset);
        var held := if r.rotation then [] else old(partial);
        && (r.lines, offset, partial) == Reading(file, from, held)
        && r.unavailable == (file.size > from && file.content.None?)
        && r.bytesRead == (if file.size > from && file.content.Some? && |file.content.value| > from + |held|
                           then |file.content.value| - from - |held| else 0)
    {
      hide Frames, Lines, Join, Place;
      if file.Missing? {
        gap := true;
        return PollResult([], offset, false, false, true, 0);
      }
      var rotation := false;
      if identity.Some? && gap {
        Reset();
        rotation := true;
      } else if identity.Some? && file.identity != identity.value {
        Reset();
        rotation := true;
      } else if file.size < offset {
        Reset();
        rotation := true;
      }
      identity, gap := Some(file.identity), false;
      if file.size <= offset {
        return PollResult([], offset, partial != [], rotation, false, 0);
      }
      if file.content.None? {
        return PollResult([], offset, partial != [], rotation, true, 0);
      }
      var content := file.content.value;
      var chunk := if offset + |partial| <= |content| then content[offset + |partial|..] else [];
      if chunk == [] {
        return PollResult([], offset, partial != [], rotation, false, 0);
      }
      var buffer := partial + chunk;
      var frames, newPartial := Frame(buffer);
      var newOffset := offset + |partial| + |chunk| - |newPartial|;
      var lines := PlaceFrames(frames, offset);
      FramesConserve(buffer);
      partial, offset := newPartial, newOffset;
      return PollResult(lines, offset, partial != [], rotation, false, |chunk|);
    }
  }

  /** The bytes a poll emits and holds are the file's bytes from the resume point on if and only if
      the held partial is still what the file shows there. */
  lemma PollConservesIff(file: FileView, from: nat, held: Bytes)
    requires file.Present? && file.content.Some? && file.size > from && |file.content.value| > from + |held|
    ensures var (lines, offset, partial) := Reading(file, from, held);
      Join(Data(lines)) + partial == file.content.value[from..] <==> file.content.value[from..from + |held|] == held
  {
    hide Frames;
    var content := file.content.value;
    var buffer := held + content[from + |held|..];
    FramesConserve(buffer);
    PlaceFacts(Frames(buffer).0, from);
    assert content[from..] == content[from..from + |held|] + content[from + |held|..];
    assert buffer[..|held|] == held && content[from..][..|held|] == content[from..from + |held|];
  }

  /** A file that shrinks into the held partial line and grows again is not taken for a new one: the
      reader emits a line made of bytes the file no longer holds. */
  method StalePartialIsEmitted(a: Bytes, b: Bytes) returns (lines: seq<RawLine>)
    requires |a| == |b| > 0 && a != b && NEWLINE !in a && NEWLINE !in b
    ensures lines == [RawLine(a, 0)] && (b + [NEWLINE])[..|a|] != a
  {
    hide Reading;
    var reader := new JsonlFileReader(0);
    FirstReading(a);
    var before := reader.Poll(Present(1, |a|, Some(a)));
    ShrunkReading(a, b[..1]);
    var shrunk := reader.Poll(Present(1, 1, Some(b[..1])));
    GrownReading(a, b);
    var grown := reader.Poll(Present(1, |b| + 1, Some(b + [NEWLINE])));
    lines := grown.lines;
    assert (b + [NEWLINE])[..|a|] == b;
  }

  lemma FirstReading(a: Bytes)
    requires a != [] && NEWLINE !in a
    ensures Reading(Present(1, |a|, Some(a)), 0, []) == ([], 0, a)
  {
    hide Lines;
    LinesOfUnbroken(a);
    assert [] + a[0..] == a && a[|a| - 1] in a;
  }

  lemma ShrunkReading(a: Bytes, less: Bytes)
    requires |less| <= |a|
    ensures Reading(Present(1, |less|, Some(less)), 0, a) == ([], 0, a)
  {
  }

  lemma GrownReading(a: Bytes, b: Bytes)
    requires |a| == |b| && NEWLINE !in a
    ensures Reading(Present(1, |b| + 1, Some(b + [NEWLINE])), 0, a) == ([RawLine(a, 0)], |a| + 1, [])
  {
    hide Lines;
    LineOf(a);
    var content := b + [NEWLINE];
    assert content[0 + |a|..] == [NEWLINE];
    FramesOfEnded(a + [NEWLINE]);
    assert [a][1..] == [];
    assert Place([a], 0) == [RawLine(a, 0)];
    assert Join([a]) == a + [NEWLINE];
  }

  /** Frames a buffer; only one that ends in a newline is taken apart line by line. */
  method Frame(buffer: Bytes) returns (frames: seq<Bytes>, partial: Bytes)
    requires buffer != []
    ensures (frames, partial) == Frames(buffer)
  {
    LinesFacts(buffer);
    if buffer[|buffer| - 1] == NEWLINE {
      return Split(buffer), [];
    }
    var (before, after) := Lines(buffer);
    if before == [] {
      return [], buffer;
    }
    return [buffer[..|buffer| - |after| - 1]], after;
  }

  method PlaceFrames(frames: seq<Bytes>, from: nat) returns (lines: seq<RawLine>)
    ensures lines == Place(frames, from)
  {
    lines := [];
    var cursor: nat := from;
    for i := 0 to |frames|
      invariant lines + Place(frames[i..], cursor) == Place(frames, from)
    {
      assert frames[i..][1..] == frames[i + 1..];
      lines := lines + [RawLine(frames[i], cursor)];
      cursor := cursor + |frames[i]| + 1;
    }
    assert frames[|frames|..] == [];
  }

  /** Cursor and event tables; every commit may fail, and then changes nothing. */
  class IngestionRepository {
    var cursor: Option<Cursor>
    var events: seq<StoredEvent>
    ghost var handled: seq<Bytes>

    constructor ()
      ensures cursor == None && events == [] && handled == []
    {
      cursor, events, handled := None, [], [];
    }

    method SaveIngestionCursor(c: Cursor, ghost frames: seq<Bytes>) returns (ok: bool)
      modifies this
      ensures events == old(events)
      ensures if ok then cursor == Some(c) && handled == frames else cursor == old(cursor) && handled == old(handled)
    {
      ok := *;
      if ok { cursor, handled := Some(c), frames; }
    }

    /** Event row and cursor in one transaction; an event id that is already taken by another
        event is a conflict and rolls the transaction back. */
    method InsertEventWithCursor(e: StoredEvent, c: Cursor, ghost frame: Bytes) returns (ok: bool)
      modifies this
      ensures ok ==> !Known(old(events), e.id)
      ensures if ok then events == old(events) + [e] && cursor == Some(c) && handled == old(handled) + [frame]
              else events == old(events) && cursor == old(cursor) && handled == old(handled)
    {
      ok := *;
      var taken := exists k :: 0 <= k < |events| && events[k].id == e.id;
      if taken { ok := false; }
      if ok { events, cursor, handled := events + [e], Some(c), handled + [frame]; }
    }
  }

  datatype Counters = Counters(
    read: nat, parsed: nat, valid: nat, persisted: nat, invalid: nat, identityPending: nat, internal: nat,
    unknown: nat, malformed: nat, parseErrors: nat, persistenceErrors: nat, rotations: nat)
  {
    /** Every parsed or malformed line is accounted for exactly once. */
    predicate Balanced() {
      && parsed + malformed == internal + invalid + valid
      && malformed == parseErrors && valid == persisted + persistenceErrors
      && malformed + parsed <= read && malformed + unknown + identityPending <= invalid
    }
  }

  lemma KnownInTail(events: seq<StoredEvent>, base: nat, id: string)
    requires base <= |events| && Known(events[base..], id)
    ensures Known(events, id)
  {
    var k :| 0 <= k < |events[base..]| && events[base..][k].id == id;
    assert events[base + k].id == id;
  }

  lemma LineKills(judge: Judge, w: World)
    requires w.proc.Up? && w.proc.pending != []
    ensures Step(judge, w, Kill) == Some(w.(proc := Down))
    ensures judge(w.proc.pending[0].data).Undecodable? ==> Step(judge, w, Handle("")) == Some(w.(proc := Down))
  {
  }

  /** How a poll cycle ended: all lines handled, a commit failed, or the process died. */
  datatype Ending = Complete | CommitFailed | Died

  class IngestionPipeline {
    const repo: IngestionRepository
    const reader: JsonlFileReader
    const judge: Judge
    var counters: Counters
    var lineNumber: nat
    var cursor: Option<Cursor>
    ghost var base: nat
    ghost var born: nat

    /** The machine's view of this process, its file and its store. */
    ghost function View(file: Bytes, pending: seq<RawLine>): World
      requires base <= |repo.events|
      reads this, reader, repo
    {
      World(file, repo.cursor, repo.events[base..], repo.handled,
            Up(reader.offset, reader.partial, pending, lineNumber, cursor, born))
    }

    constructor (repo: IngestionRepository, reader: JsonlFileReader, judge: Judge)
      ensures this.repo == repo && this.reader == reader && this.judge == judge
      ensures counters.Balanced() && lineNumber == 0 && cursor == None && base == 0 && born == |repo.events|
    {
      this.repo, this.reader, this.judge := repo, reader, judge;
      counters := Counters(0, 0, 0, 0, 0, 0, 0, 0, 0, 0, 0, 0);
      lineNumber, cursor, base, born := 0, None, 0, |repo.events|;
    }

    /** The world a poll starts from: this one, or a new stream at byte zero after a rotation. */
    ghost function PollStart(file: Bytes, rotated: bool): World
      requires base <= |repo.events|
      reads this, reader, repo
    {
      if rotated then
        var zero := Some(Cursor(0, None, None));
        World(file, zero, [], [], Up(0, [], [], lineNumber, zero, 0))
      else View(file, [])
    }

    /** Present, readable and only grown since the last poll, unless it was replaced. */
    ghost predicate Grown(file: FileView)
      reads reader
    {
      && file.Present? && file.content.Some? && file.size <= |file.content.value|
      && (!reader.Rotates(file) ==> reader.offset + |reader.partial| <= file.size)
    }

    /** One poll cycle.  polled is where the poll leaves the machine, its lines pending; ops is what
        then happened to them.  For a file that has only grown, the poll is the machine's own. */
    method ProcessOnce(file: FileView) returns (end: Ending, ghost reset: bool, ghost polled: World, ghost ops: seq<Op>)
      requires base <= |repo.events| && counters.Balanced()
      modifies this, reader, repo
      ensures base <= |repo.events| && counters.Balanced()
      ensures old(repo.events) <= repo.events
      ensures counters.persisted - old(counters.persisted) == |repo.events| - |old(repo.events)|
      ensures reset ==> old(reader.Rotates(file))
      ensures reset ==> end == CommitFailed && repo.cursor == old(repo.cursor) && repo.events == old(repo.events)
      ensures file.Missing? ==>
        end == Complete && ops == [] && repo.cursor == old(repo.cursor) && repo.events == old(repo.events)
        && reader.gap && reader.offset == old(reader.offset) && reader.partial == old(reader.partial)
      ensures file.Present? ==>
        (polled.proc.Up? && var rotated := old(reader.Rotates(file));
         (polled.proc.pending, polled.proc.offset, polled.proc.partial) ==
           Reading(file, if rotated then 0 else old(reader.offset), if rotated then [] else old(reader.partial)))
      ensures file.Present? ==> reader.offset == polled.proc.offset && reader.partial == polled.proc.partial
      ensures reset ==> ops == [] && cursor == old(cursor) && lineNumber == old(lineNumber)
      ensures file.Present? && !reset ==>
        && (forall k :: 0 <= k < |ops| ==> ops[k].Handle? || ops[k].FailCommit? || ops[k].Kill?)
        && match end
           case Complete => Run(judge, polled, ops) == Some(View(polled.file, []))
           case CommitFailed => Run(judge, polled, ops) == Some(View(polled.file, [])) && ops != []
             && ops[|ops| - 1].FailCommit?
           case Died => Run(judge, polled, ops) == Some(View(polled.file, []).(proc := Down))
      ensures old(Grown(file)) && !reset ==>
        Step(judge, old(PollStart(file.content.value, reader.Rotates(file))), Poll(file.size)) == Some(polled)
    {
      hide Frames, Lines, Join, Place, HandleLine, Reading, Polled, Run, Step;
      ops := [];
      ghost var content := if file.Present? && file.content.Some? then file.content.value else [];
      ghost var rotated, grown := reader.Rotates(file), Grown(file);
      ghost var w := PollStart(content, rotated);
      var poll := reader.Poll(file);
      reset := false;
      polled := View(content, poll.lines);
      if poll.rotation {
        counters := counters.(rotations := counters.rotations + 1);
        var zero := Cursor(0, None, None);
        var ok := repo.SaveIngestionCursor(zero, []);
        if !ok {
          reset := true;
          return CommitFailed, reset, polled, ops;
        }
        cursor, base, born := Some(zero), |repo.events|, 0;
        assert repo.events[base..] == [];
      }
      polled := View(content, poll.lines);
      NothingDone(polled);
      if grown { PollIsTheMachines(content, file, w, polled.proc); }
      if poll.unavailable {
        return Complete, reset, polled, ops;
      }
      end, ops := HandleLines(poll.lines, content, polled, []);
    }

    lemma NothingDone(w: World)
      ensures Run(judge, w, []) == Some(w)
    {
    }

    /** Reading a grown file is what the machine's poll does. */
    lemma PollIsTheMachines(content: Bytes, file: FileView, w: World, p: Proc)
      requires file.Present? && file.content == Some(content) && w.proc.Up?
      requires w.proc.offset + |w.proc.partial| <= file.size <= |content| && w.proc.pending == [] && w.file == content
      requires p.Up? && (p.pending, p.offset, p.partial) == Reading(file, w.proc.offset, w.proc.partial)
      requires p == w.proc.(pending := p.pending, offset := p.offset, partial := p.partial)
      ensures Step(judge, w, Poll(file.size)) == Some(w.(proc := p))
    {
      hide Frames, Join, Place;
    }

    /** Handles the lines of a poll in order, up to the first failure. */
    method HandleLines(lines: seq<RawLine>, ghost file: Bytes, ghost w: World, ghost before: seq<Op>)
      returns (end: Ending, ghost ops: seq<Op>)
      requires base <= |repo.events| && counters.Balanced() && Run(judge, w, before) == Some(View(file, lines))
      modifies this, repo
      ensures base <= |repo.events| && counters.Balanced() && old(repo.events) <= repo.events
      ensures counters.persisted - old(counters.persisted) == |repo.events| - |old(repo.events)|
      ensures before <= ops && forall k :: |before| <= k < |ops| ==>
        ops[k].Handle? || ops[k].FailCommit? || ops[k].Kill?
      ensures end == CommitFailed ==> |ops| > |before| && ops[|ops| - 1].FailCommit?
      ensures Run(judge, w, ops) == Some(
        match end
        case Died => View(file, []).(proc := Down)
        case _ => View(file, []))
    {
      hide Step;
      ops := before;
      for i := 0 to |lines|
        invariant base <= |repo.events| && counters.Balanced() && old(repo.events) <= repo.events
        invariant counters.persisted - old(counters.persisted) == |repo.events| - |old(repo.events)|
        invariant before <= ops
        invariant forall k :: |before| <= k < |ops| ==> ops[k].Handle? || ops[k].FailCommit? || ops[k].Kill?
        invariant Run(judge, w, ops) == Some(View(file, lines[i..]))
      {
        ghost var op;
        end, op := ProcessLine(lines[i], file, lines[i..]);
        assert (ops + [op])[..|ops|] == ops;
        ops := ops + [op];
        assert lines[i..][1..] == lines[i + 1..];
        if end != Complete { return; }
      }
      end := Complete;
    }

    /** Handles one complete line; the cursor moves only when its commit goes through. */
    method ProcessLine(line: RawLine, ghost file: Bytes, ghost pending: seq<RawLine>)
      returns (end: Ending, ghost op: Op)
      requires base <= |repo.events| && counters.Balanced() && pending != [] && pending[0] == line
      modifies this, repo
      ensures base == old(base) <= |repo.events| && counters.Balanced() && old(repo.events) <= repo.events
      ensures counters.persisted - old(counters.persisted) == |repo.events| - |old(repo.events)|
      ensures op.Handle? || op.FailCommit? || op.Kill?
      ensures end == CommitFailed <==> op.FailCommit?
      ensures Step(judge, old(View(file, pending)), op) == Some(
        match end
        case Complete => View(file, pending[1..])
        case CommitFailed => View(file, [])
        case Died => View(file, []).(proc := Down))
    {
      hide Step, Frames, Join, Place;
      ghost var w := View(file, pending);
      LineKills(judge, w);
      counters := counters.(read := counters.read + 1);
      lineNumber := lineNumber + 1;
      assert View(file, pending).(proc := View(file, pending).proc.(lines := lineNumber - 1)) == w;
      var crash: bool := *;
      if crash { return Died, Kill; }
      var verdict := judge(line.data);
      match verdict {
        case Undecodable => return Died, Handle("");
        case Blank =>
        case Malformed =>
          counters := counters.(parseErrors := counters.parseErrors + 1, invalid := counters.invalid + 1,
                                malformed := counters.malformed + 1);
        case Internal => counters := counters.(parsed := counters.parsed + 1, internal := counters.internal + 1);
        case UnknownType =>
          counters := counters.(parsed := counters.parsed + 1, invalid := counters.invalid + 1,
            unknown := counters.unknown + 1);
        case IdentityPending =>
          counters := counters.(parsed := counters.parsed + 1, invalid := counters.invalid + 1,
                                identityPending := counters.identityPending + 1);
        case Invalid => counters := counters.(parsed := counters.parsed + 1, invalid := counters.invalid + 1);
        case Accepted(payload) =>
          counters := counters.(parsed := counters.parsed + 1, valid := counters.valid + 1);
          end, op := PersistEvent(line, payload, file, pending);
          return;
      }
      end, op := SkipLine(line, file, pending);
    }

    /** The line after its line number was taken and before anything was committed. */
    ghost predicate Numbered(line: RawLine, pending: seq<RawLine>)
      reads this
    {
      pending != [] && pending[0] == line && lineNumber > 0
    }

    /** Commits event and cursor together. */
    method PersistEvent(line: RawLine, payload: string, ghost file: Bytes, ghost pending: seq<RawLine>)
      returns (end: Ending, ghost op: Op)
      requires base <= |repo.events| && Numbered(line, pending) && judge(line.data) == Accepted(payload)
      modifies this`counters, this`cursor, repo
      ensures base <= |repo.events| && old(repo.events) <= repo.events
      ensures end == CommitFailed || end == Complete
      ensures end == CommitFailed ==> op == FailCommit && repo.events == old(repo.events)
      ensures end == Complete ==> op.Handle? && |repo.events| == |old(repo.events)| + 1
      ensures counters == if end == Complete then old(counters).(persisted := old(counters).persisted + 1)
        else old(counters).(persistenceErrors := old(counters).persistenceErrors + 1)
      ensures var w := old(View(file, pending));
        Step(judge, w.(proc := w.proc.(lines := lineNumber - 1)), op)
        == Some(View(file, if end == Complete then pending[1..] else []))
    {
      var id: string := *;
      var c := CursorFor(line, Some(id));
      var ok := repo.InsertEventWithCursor(StoredEvent(id, payload), c, line.data);
      if !ok {
        counters := counters.(persistenceErrors := counters.persistenceErrors + 1);
        return CommitFailed, FailCommit;
      }
      cursor := Some(c);
      counters := counters.(persisted := counters.persisted + 1);
      assert repo.events[base..] == old(repo.events)[base..] + [StoredEvent(id, payload)];
      if Known(old(repo.events)[base..], id) { KnownInTail(old(repo.events), base, id); }
      return Complete, Handle(id);
    }

    /** Commits the cursor past a line that carries no event. */
    method SkipLine(line: RawLine, ghost file: Bytes, ghost pending: seq<RawLine>) returns (end: Ending, ghost op: Op)
      requires base <= |repo.events| && Numbered(line, pending)
      requires !judge(line.data).Accepted? && !judge(line.data).Undecodable?
      modifies this`cursor, repo
      ensures repo.events == old(repo.events)
      ensures (end == CommitFailed && op == FailCommit) || (end == Complete && op.Handle?)
      ensures var w := old(View(file, pending));
        Step(judge, w.(proc := w.proc.(lines := lineNumber - 1)), op)
        == Some(View(file, if end == Complete then pending[1..] else []))
    {
      var c := CursorFor(line, None);
      var ok := repo.SaveIngestionCursor(c, repo.handled + [line.data]);
      if !ok { return CommitFailed, FailCommit; }
      cursor := Some(c);
      return Complete, Handle("");
    }

    function CursorFor(line: RawLine, lastEvent: Option<string>): Cursor
      reads this
    {
      var last := if lastEvent.None? && cursor.Some? then cursor.value.lastEvent else lastEvent;
      Cursor(line.start + |line.data| + 1, Some(lineNumber), last)
    }
  }

  /** A process starts where the stored cursor says. */
  method Start(repo: IngestionRepository, judge: Judge, ghost w: World) returns (p: IngestionPipeline)
    requires w.saved == repo.cursor && w.events == repo.events && w.handled == repo.handled
    ensures fresh(p) && fresh(p.reader) && p.repo == repo && p.judge == judge && p.counters.Balanced()
    ensures p.base == 0 && Step(judge, w, Restart) == Some(p.View(w.file, []))
  {
    var offset := if repo.cursor.None? then 0 else repo.cursor.value.offset;
    var reader := new JsonlFileReader(offset);
    p := new IngestionPipeline(repo, reader, judge);
    assert repo.events[0..] == repo.events;
  }
}
