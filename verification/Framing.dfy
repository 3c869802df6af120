/** Line framing of an append-only byte stream (collector/adapters/reader.py). */
module Framing {
  newtype Byte = b: int | 0 <= b < 256

  type Bytes = seq<Byte>

  const NEWLINE: Byte := 10

  datatype RawLine = RawLine(data: Bytes, start: nat)

  /** The bytes that a list of frames stands for: each frame with its newline. */
  function Join(frames: seq<Bytes>): Bytes {
    if frames == [] then [] else frames[0] + [NEWLINE] + Join(frames[1..])
  }

  /** The complete lines of a stream, and what follows the last newline. */
  function Lines(b: Bytes): (seq<Bytes>, Bytes) {
    if b == [] then ([], [])
    else
      var (done, rest) := Lines(b[..|b| - 1]);
      if b[|b| - 1] == NEWLINE then (done + [rest], []) else (done, rest + [b[|b| - 1]])
  }

  function Split(b: Bytes): seq<Bytes> { Lines(b).0 }

  function Rest(b: Bytes): Bytes { Lines(b).1 }

  predicate EndsLine(b: Bytes) {
    b == [] || b[|b| - 1] == NEWLINE
  }

  /** How one poll frames its buffer: all lines when it ends in a newline, else everything up to
      the last newline as a single frame. */
  function Frames(b: Bytes): (seq<Bytes>, Bytes) {
    if EndsLine(b) then (Split(b), [])
    else if Split(b) == [] then ([], b)
    else
      LinesFacts(b);
      ([b[..|b| - |Rest(b)| - 1]], Rest(b))
  }

  // ------------------------------------------------------------------ laws

  lemma {:induction false} JoinConcat(a: seq<Bytes>, b: seq<Bytes>)
    ensures Join(a + b) == Join(a) + Join(b)
  {
    if a == [] {
      assert a + b == b;
    } else {
      assert (a + b)[1..] == a[1..] + b;
      JoinConcat(a[1..], b);
    }
  }

  lemma JoinSnoc(a: seq<Bytes>, f: Bytes)
    ensures Join(a + [f]) == Join(a) + f + [NEWLINE]
  {
    JoinConcat(a, [f]);
    assert Join([f]) == f + [NEWLINE];
  }

  lemma LinesSnoc(b: Bytes, c: Byte)
    ensures Lines(b + [c]) == if c == NEWLINE then (Split(b) + [Rest(b)], []) else (Split(b), Rest(b) + [c])
  {
    assert (b + [c])[..|b|] == b;
  }

  /** Lines plus remainder reproduce the stream, and none of them holds a newline. */
  lemma {:induction false} LinesFacts(b: Bytes)
    ensures Join(Split(b)) + Rest(b) == b && |Join(Split(b))| + |Rest(b)| == |b|
    ensures NEWLINE !in Rest(b) && forall k :: 0 <= k < |Split(b)| ==> NEWLINE !in Split(b)[k]
    ensures EndsLine(b) <==> Rest(b) == []
    ensures Split(b) != [] ==> |Join(Split(b))| > 0
  {
    if b != [] {
      var init, c := b[..|b| - 1], b[|b| - 1];
      LinesFacts(init);
      assert init + [c] == b;
      if c == NEWLINE { JoinSnoc(Split(init), Rest(init)); }
    }
  }

  /** Splitting does not depend on how the stream was cut, if it was cut at a line end. */
  lemma {:induction false} SplitConcat(a: Bytes, b: Bytes)
    requires EndsLine(a)
    ensures Split(a + b) == Split(a) + Split(b) && Rest(a + b) == Rest(b)
  {
    if b == [] {
      assert a + b == a;
      LinesFacts(a);
    } else {
      var init, c := b[..|b| - 1], b[|b| - 1];
      SplitConcat(a, init);
      assert b == init + [c];
      SplitConcatByte(a, init, c);
    }
  }

  lemma SplitConcatByte(a: Bytes, b: Bytes, c: Byte)
    requires Split(a + b) == Split(a) + Split(b) && Rest(a + b) == Rest(b)
    ensures Split(a + (b + [c])) == Split(a) + Split(b + [c]) && Rest(a + (b + [c])) == Rest(b + [c])
  {
    hide Lines;
    assert a + (b + [c]) == (a + b) + [c];
    LinesSnoc(a + b, c);
    LinesSnoc(b, c);
  }

  /** Lines can be recovered from what they stand for. */
  lemma {:induction false} SplitJoin(frames: seq<Bytes>)
    requires forall k :: 0 <= k < |frames| ==> NEWLINE !in frames[k]
    ensures Split(Join(frames)) == frames && EndsLine(Join(frames))
  {
    if frames != [] {
      var init, f := frames[..|frames| - 1], frames[|frames| - 1];
      SplitJoin(init);
      assert init + [f] == frames;
      JoinSnoc(init, f);
      LineOf(f);
      assert Join(init) + f + [NEWLINE] == Join(init) + (f + [NEWLINE]);
      SplitConcat(Join(init), f + [NEWLINE]);
    }
  }

  lemma {:induction false} LinesOfUnbroken(f: Bytes)
    requires NEWLINE !in f
    ensures Lines(f) == ([], f)
  {
    if f != [] {
      LinesOfUnbroken(f[..|f| - 1]);
      assert f[..|f| - 1] + [f[|f| - 1]] == f;
    }
  }

  lemma LineOf(f: Bytes)
    requires NEWLINE !in f
    ensures Split(f + [NEWLINE]) == [f]
  {
    LinesOfUnbroken(f);
    LinesSnoc(f, NEWLINE);
  }

  lemma CutBeforeRest(b: Bytes)
    requires !EndsLine(b) && Split(b) != []
    ensures |b| > |Rest(b)|
    ensures b[..|b| - |Rest(b)|] == Join(Split(b)) && b[|b| - |Rest(b)|..] == Rest(b)
    ensures b[..|b| - |Rest(b)| - 1] + [NEWLINE] == Join(Split(b))
  {
    LinesFacts(b);
    var init, f := Split(b)[..|Split(b)| - 1], Split(b)[|Split(b)| - 1];
    assert init + [f] == Split(b);
    JoinSnoc(init, f);
    var n := |Join(Split(b))|;
    assert b[..n] == Join(Split(b));
    assert b[..n - 1] == b[..n][..n - 1];
  }

  /** Whatever the framing, frames and held partial reproduce the buffer. */
  lemma FramesConserve(b: Bytes)
    ensures Join(Frames(b).0) + Frames(b).1 == b
    ensures NEWLINE !in Frames(b).1
  {
    LinesFacts(b);
    if !EndsLine(b) && Split(b) != [] {
      CutBeforeRest(b);
      JoinSnoc([], b[..|b| - |Rest(b)| - 1]);
      assert [] + [b[..|b| - |Rest(b)| - 1]] == [b[..|b| - |Rest(b)| - 1]];
    }
  }

  /** A poll buffer that the reader frames line by line. */
  predicate Clean(b: Bytes) {
    EndsLine(b) || |Split(b)| <= 1
  }

  lemma CleanFrames(b: Bytes)
    requires Clean(b)
    ensures Frames(b).0 == Split(b)
  {
    if !EndsLine(b) && Split(b) != [] {
      CutBeforeRest(b);
      var f, frame := Split(b)[0], b[..|b| - |Rest(b)| - 1];
      JoinSnoc([], f);
      assert Split(b) == [] + [f] && Join(Split(b)) == f + [NEWLINE];
      assert frame == (frame + [NEWLINE])[..|frame|] == (f + [NEWLINE])[..|f|] == f;
      assert [frame] == Split(b);
    }
  }

  /** Every emitted frame is a single line if and only if the buffer was clean. */
  lemma FramesAreLinesIffClean(b: Bytes)
    ensures Clean(b) <==> forall k :: 0 <= k < |Frames(b).0| ==> NEWLINE !in Frames(b).0[k]
  {
    if Clean(b) {
      CleanFrames(b);
      LinesFacts(b);
    } else {
      UncleanFrame(b);
    }
  }

  lemma UncleanFrame(b: Bytes)
    requires !Clean(b)
    ensures |Frames(b).0| == 1 && NEWLINE in Frames(b).0[0]
  {
    CutBeforeRest(b);
    var lines := Split(b);
    var first, rest := lines[0], lines[1..];
    assert lines == [first] + rest;
    JoinConcat([first], rest);
    assert Join([first]) == first + [NEWLINE];
    assert |Join(rest)| > 0;
    var frame := b[..|b| - |Rest(b)| - 1];
    assert frame[|first|] == (frame + [NEWLINE])[|first|] == NEWLINE;
  }

  /** The frames of a poll as raw lines, with cumulative start offsets. */
  function Place(frames: seq<Bytes>, at: nat): seq<RawLine> {
    if frames == [] then [] else [RawLine(frames[0], at)] + Place(frames[1..], at + |frames[0]| + 1)
  }
}
