/** Several goroutines write frames to one connection: pushes (writeFrame), heartbeats and pongs (WriteControl).
  * Each takes the mutex of the Server, writes its frame in pieces, and releases the mutex.  WriteControl writes
  * header and body separately and writeFrame flushes a buffer, so a piece can be any part of a frame. */
module FrameWriters {
  import opened Bytes
  import opened Frames

  type WriterId = nat

  datatype Lock = Free | Held(owner: WriterId, sent: nat)

  /** jobs: what each writer still has to send, in its own order.  done: the frames sent, in lock order. */
  datatype Line = Line(
    jobs: map<WriterId, seq<Frame>>,
    lock: Lock,
    done: seq<(WriterId, Frame)>,
    wire: seq<byte>)

  datatype Step = Acquire(writer: WriterId) | WritePiece(n: nat) | Release

  function Start(jobs: map<WriterId, seq<Frame>>): Line {
    Line(jobs, Free, [], [])
  }

  /** The frame that the lock holder is sending. */
  function Current(s: Line): Frame
    requires s.lock.Held? && s.lock.owner in s.jobs && s.jobs[s.lock.owner] != []
  {
    s.jobs[s.lock.owner][0]
  }

  predicate Enabled(s: Line, step: Step) {
    match step
    case Acquire(t) => s.lock.Free? && t in s.jobs && s.jobs[t] != []
    case WritePiece(n) =>
      && s.lock.Held? && s.lock.owner in s.jobs && s.jobs[s.lock.owner] != []
      && s.lock.sent + n <= |EncodeFrame(Current(s))|
    case Release =>
      && s.lock.Held? && s.lock.owner in s.jobs && s.jobs[s.lock.owner] != []
      && s.lock.sent == |EncodeFrame(Current(s))|
  }

  function Next(s: Line, step: Step): Line
    requires Enabled(s, step)
  {
    match step
    case Acquire(t) => s.(lock := Held(t, 0))
    case WritePiece(n) =>
      var sent := s.lock.sent;
      s.(lock := Held(s.lock.owner, sent + n), wire := s.wire + EncodeFrame(Current(s))[sent..sent + n])
    case Release =>
      var t := s.lock.owner;
      Line(s.jobs[t := s.jobs[t][1..]], Free, s.done + [(t, Current(s))], s.wire)
  }

  ghost predicate Reaches(s: Line, steps: seq<Step>, end: Line)
    decreases |steps|
  {
    if steps == [] then s == end
    else Enabled(s, steps[0]) && Reaches(Next(s, steps[0]), steps[1..], end)
  }

  function FramesOf(done: seq<(WriterId, Frame)>): (fs: seq<Frame>)
    ensures |fs| == |done| && forall i :: 0 <= i < |fs| ==> fs[i] == done[i].1
  {
    seq(|done|, i requires 0 <= i < |done| => done[i].1)
  }

  /** The frames of one writer, in the order in which they were sent. */
  function SentBy(done: seq<(WriterId, Frame)>, t: WriterId): seq<Frame> {
    if done == [] then []
    else
      var (owner, f) := done[|done| - 1];
      SentBy(done[..|done| - 1], t) + if owner == t then [f] else []
  }

  /** The part of the lock holder's frame that is already on the wire. */
  function InFlight(s: Line): seq<byte> {
    if s.lock.Held? && s.lock.owner in s.jobs && s.jobs[s.lock.owner] != [] &&
       s.lock.sent <= |EncodeFrame(Current(s))|
    then EncodeFrame(Current(s))[..s.lock.sent] else []
  }

  ghost predicate HolderHasJob(s: Line) {
    s.lock.Held? ==>
      s.lock.owner in s.jobs && s.jobs[s.lock.owner] != [] && s.lock.sent <= |EncodeFrame(Current(s))|
  }

  ghost predicate JobsKept(start: map<WriterId, seq<Frame>>, s: Line) {
    && s.jobs.Keys == start.Keys
    && (forall t :: t in start ==> SentBy(s.done, t) + s.jobs[t] == start[t])
    && (forall i :: 0 <= i < |s.done| ==> s.done[i].0 in start && s.done[i].1 in start[s.done[i].0])
  }

  ghost predicate Inv(start: map<WriterId, seq<Frame>>, s: Line) {
    && HolderHasJob(s)
    && JobsKept(start, s)
    && s.wire == EncodeFrames(FramesOf(s.done)) + InFlight(s)
  }

  lemma {:induction false} EncodeFramesSnoc(fs: seq<Frame>, f: Frame)
    ensures EncodeFrames(fs + [f]) == EncodeFrames(fs) + EncodeFrame(f)
  {
    if fs == [] {
      assert [f][1..] == [];
    } else {
      EncodeFramesSnoc(fs[1..], f);
      assert (fs + [f])[1..] == fs[1..] + [f];
    }
  }

  lemma StepKeepsInv(start: map<WriterId, seq<Frame>>, s: Line, step: Step)
    requires Inv(start, s) && Enabled(s, step)
    ensures Inv(start, Next(s, step))
  {
    hide EncodeFrames, SentBy;
    match step
    case Acquire(t) => AcquireKeepsWire(s, t);
    case WritePiece(n) =>
      PieceKeepsWire(s, n);
      hide InFlight;
    case Release =>
      ReleaseKeepsJobs(start, s);
      ReleaseKeepsWire(s);
      hide JobsKept, FramesOf;
  }

  lemma AcquireKeepsWire(s: Line, t: WriterId)
    requires Enabled(s, Acquire(t))
    ensures InFlight(Next(s, Acquire(t))) == [] == InFlight(s)
  {
  }

  lemma PieceKeepsWire(s: Line, n: nat)
    requires HolderHasJob(s) && Enabled(s, WritePiece(n))
    ensures InFlight(Next(s, WritePiece(n))) ==
            InFlight(s) + EncodeFrame(Current(s))[s.lock.sent..s.lock.sent + n]
  {
    var bytes, sent := EncodeFrame(Current(s)), s.lock.sent;
    assert bytes[..sent + n] == bytes[..sent] + bytes[sent..sent + n];
  }

  lemma ReleaseKeepsWire(s: Line)
    requires HolderHasJob(s) && Enabled(s, Release)
    requires s.wire == EncodeFrames(FramesOf(s.done)) + InFlight(s)
    ensures s.wire == EncodeFrames(FramesOf(Next(s, Release).done))
  {
    var f := Current(s);
    assert FramesOf(s.done + [(s.lock.owner, f)]) == FramesOf(s.done) + [f];
    EncodeFramesSnoc(FramesOf(s.done), f);
    assert EncodeFrame(f)[..s.lock.sent] == EncodeFrame(f);
  }

  lemma ReleaseKeepsJobs(start: map<WriterId, seq<Frame>>, s: Line)
    requires JobsKept(start, s) && Enabled(s, Release)
    ensures JobsKept(start, Next(s, Release))
  {
    var s' := Next(s, Release);
    var t, f := s.lock.owner, Current(s);
    assert s'.done[..|s'.done| - 1] == s.done;
    assert start[t][|SentBy(s.done, t)|] == f;
    forall u | u in start ensures SentBy(s'.done, u) + s'.jobs[u] == start[u] {
      if u == t {
        assert s.jobs[t] == [f] + s'.jobs[t];
      } else {
        assert SentBy(s'.done, u) == SentBy(s.done, u);
      }
    }
  }

  lemma {:induction false} ReachesKeepsInv(start: map<WriterId, seq<Frame>>, s: Line, steps: seq<Step>, end: Line)
    requires Inv(start, s) && Reaches(s, steps, end)
    ensures Inv(start, end)
    decreases |steps|
  {
    if steps != [] {
      StepKeepsInv(start, s, steps[0]);
      ReachesKeepsInv(start, Next(s, steps[0]), steps[1..], end);
    }
  }

  /** Under every interleaving the wire holds whole frames, one after the other, followed by the part of the lock
    * holder's frame that is already out; and each writer's frames are sent in its own order, none lost. */
  lemma WireHoldsWholeFrames(jobs: map<WriterId, seq<Frame>>, steps: seq<Step>, s: Line)
    requires Reaches(Start(jobs), steps, s)
    ensures s.wire == EncodeFrames(FramesOf(s.done)) + InFlight(s)
    ensures s.lock.Free? ==> InFlight(s) == []
    ensures forall t :: t in jobs ==> t in s.jobs && SentBy(s.done, t) + s.jobs[t] == jobs[t]
    ensures forall i :: 0 <= i < |s.done| ==> s.done[i].0 in jobs && s.done[i].1 in jobs[s.done[i].0]
  {
    ReachesKeepsInv(jobs, Start(jobs), steps, s);
  }

  /** The frames whose last byte is out: all that are done, and the lock holder's when only Release is missing. */
  function CompletelyOut(s: Line): seq<(WriterId, Frame)> {
    if s.lock.Held? && s.lock.owner in s.jobs && s.jobs[s.lock.owner] != [] &&
       s.lock.sent == |EncodeFrame(Current(s))|
    then s.done + [(s.lock.owner, Current(s))] else s.done
  }

  ghost predicate AllSendable(jobs: map<WriterId, seq<Frame>>) {
    forall t, f :: t in jobs && f in jobs[t] ==> f.Sendable()
  }

  lemma CurrentIsAJob(start: map<WriterId, seq<Frame>>, s: Line)
    requires HolderHasJob(s) && JobsKept(start, s) && s.lock.Held?
    ensures s.lock.owner in start && Current(s) in start[s.lock.owner]
    ensures SentBy(s.done, s.lock.owner) + [Current(s)] <= start[s.lock.owner]
  {
    var t := s.lock.owner;
    assert s.jobs[t] == [Current(s)] + s.jobs[t][1..];
    assert start[t] == SentBy(s.done, t) + [Current(s)] + s.jobs[t][1..];
    assert start[t][|SentBy(s.done, t)|] == Current(s);
  }

  lemma OutFacts(start: map<WriterId, seq<Frame>>, s: Line)
    requires HolderHasJob(s) && JobsKept(start, s)
    ensures forall i :: 0 <= i < |CompletelyOut(s)| ==>
                          CompletelyOut(s)[i].0 in start && CompletelyOut(s)[i].1 in start[CompletelyOut(s)[i].0]
    ensures forall t :: t in start ==> SentBy(CompletelyOut(s), t) <= start[t]
    ensures s.lock.Held? ==> s.lock.owner in start && Current(s) in start[s.lock.owner]
  {
    if s.lock.Held? {
      CurrentIsAJob(start, s);
      if s.lock.sent == |EncodeFrame(Current(s))| {
        var out := CompletelyOut(s);
        assert out[..|out| - 1] == s.done;
        forall t | t in start ensures SentBy(out, t) <= start[t] {
          assert SentBy(out, t) == SentBy(s.done, t) + if t == s.lock.owner then [Current(s)] else [];
        }
      }
    }
  }

  ghost predicate OutSendable(s: Line) {
    && (forall i :: 0 <= i < |CompletelyOut(s)| ==> CompletelyOut(s)[i].1.Sendable())
    && (s.lock.Held? && HolderHasJob(s) ==> Current(s).Sendable())
  }

  /** At every moment, and wherever the stream is cut, the reader at the other end has acted on exactly the frames
    * that are completely out, up to a close frame. */
  lemma ReaderFollowsWriters(jobs: map<WriterId, seq<Frame>>, steps: seq<Step>, s: Line)
    requires AllSendable(jobs)
    requires Reaches(Start(jobs), steps, s)
    ensures Receive(s.wire).0 == ExpectedActions(FramesOf(CompletelyOut(s)))
  {
    ReachesKeepsInv(jobs, Start(jobs), steps, s);
    OutFacts(jobs, s);
    var out := CompletelyOut(s);
    forall i | 0 <= i < |out| ensures out[i].1.Sendable() {
      assert out[i].1 in jobs[out[i].0];
    }
    WireIsRead(s);
  }

  lemma WireIsRead(s: Line)
    requires HolderHasJob(s) && OutSendable(s)
    requires s.wire == EncodeFrames(FramesOf(s.done)) + InFlight(s)
    ensures Receive(s.wire).0 == ExpectedActions(FramesOf(CompletelyOut(s)))
  {
    var out := FramesOf(CompletelyOut(s));
    assert forall i :: 0 <= i < |out| ==> out[i].Sendable();
    if s.lock.Free? {
      SilentTail(out, []);
    } else if s.lock.sent < |EncodeFrame(Current(s))| {
      PartialFrameIsSilent(Current(s), s.lock.sent);
      SilentTail(out, InFlight(s));
    } else {
      assert out == FramesOf(s.done) + [Current(s)];
      EncodeFramesSnoc(FramesOf(s.done), Current(s));
      assert InFlight(s) == EncodeFrame(Current(s));
      assert s.wire == EncodeFrames(out) + [];
      SilentTail(out, []);
    }
  }

  lemma SilentTail(fs: seq<Frame>, tail: seq<byte>)
    requires forall i :: 0 <= i < |fs| ==> fs[i].Sendable()
    requires Receive(tail).0 == []
    ensures Receive(EncodeFrames(fs) + tail).0 == ExpectedActions(fs)
  {
    ReceiveFrames(fs, tail);
    assert ExpectedActions(fs) + [] == ExpectedActions(fs);
  }
}
