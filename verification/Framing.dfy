/** Companion frames in a byte stream: start byte, 16-bit length, type byte and payload;
    and the framer that finds them again however the stream is cut. */
module Framing {
  import opened Basics

  const START: byte := 0xAA
  const HEADER_LEN := 3

  /** Frames found, and the bytes kept for later. */
  datatype Scanned = Scanned(frames: seq<seq<byte>>, left: seq<byte>)

  /** Drop everything before the first start byte. */
  function Resync(buf: seq<byte>): (r: seq<byte>)
    ensures |r| <= |buf| && (r == [] || r[0] == START)
  {
    if buf == [] || buf[0] == START then buf else Resync(buf[1..])
  }

  function Length(buf: seq<byte>): nat
    requires |buf| >= HEADER_LEN
  {
    FromLe(buf[1..3])
  }

  /** Everything a buffer yields. */
  function Scan(buf: seq<byte>, max: nat): Scanned
    decreases |buf|
  {
    var b := Resync(buf);
    if |b| < HEADER_LEN then Scanned([], b)
    else if Length(b) == 0 || Length(b) > max then Scan(b[1..], max)
    else if |b| < HEADER_LEN + Length(b) then Scanned([], b)
    else
      var s := Scan(b[HEADER_LEN + Length(b)..], max);
      Scanned([b[HEADER_LEN..HEADER_LEN + Length(b)]] + s.frames, s.left)
  }

  function Push(left: seq<byte>, bytes: seq<byte>, max: nat): Scanned { Scan(left + bytes, max) }

  /** Push the chunks one after the other. */
  function PushAll(left: seq<byte>, chunks: seq<seq<byte>>, max: nat): Scanned
    decreases |chunks|
  {
    if chunks == [] then Scanned([], left)
    else
      var s := Push(left, chunks[0], max);
      var rest := PushAll(s.left, chunks[1..], max);
      Scanned(s.frames + rest.frames, rest.left)
  }

  function Concat(chunks: seq<seq<byte>>): seq<byte> {
    if chunks == [] then [] else chunks[0] + Concat(chunks[1..])
  }

  // ----- cutting the stream -----------------------------------------------------------------------

  lemma {:induction false} ResyncAppend(a: seq<byte>, b: seq<byte>)
    ensures Resync(a + b) == if Resync(a) == [] then Resync(b) else Resync(a) + b
  {
    if a == [] {
      assert a + b == b;
    } else if a[0] != START {
      assert (a + b)[1..] == a[1..] + b;
      ResyncAppend(a[1..], b);
    }
  }

  lemma ResyncTwice(b: seq<byte>)
    ensures Resync(Resync(b)) == Resync(b)
  {
  }

  lemma ScanResync(a: seq<byte>, b: seq<byte>, max: nat)
    requires Resync(a) == Resync(b)
    ensures Scan(a, max) == Scan(b, max)
  {
  }

  /** One round of the scan on a resynchronised buffer. */
  lemma ScanRound(b: seq<byte>, max: nat)
    requires Resync(b) == b
    ensures |b| < HEADER_LEN ==> Scan(b, max) == Scanned([], b)
    ensures |b| >= HEADER_LEN && (Length(b) == 0 || Length(b) > max) ==> Scan(b, max) == Scan(b[1..], max)
    ensures |b| >= HEADER_LEN && 0 < Length(b) <= max && |b| < HEADER_LEN + Length(b) ==> Scan(b, max) == Scanned([], b)
    ensures |b| >= HEADER_LEN && 0 < Length(b) <= max && |b| >= HEADER_LEN + Length(b) ==>
              var s := Scan(b[HEADER_LEN + Length(b)..], max);
              Scan(b, max) == Scanned([b[HEADER_LEN..HEADER_LEN + Length(b)]] + s.frames, s.left)
  {
  }

  /** Frames found so far, and those still in the buffer, are those of the whole. */
  ghost predicate Continues(whole: Scanned, out: seq<seq<byte>>, rest: Scanned) {
    whole == Scanned(out + rest.frames, rest.left)
  }

  lemma ContinuesFrame(whole: Scanned, out: seq<seq<byte>>, f: seq<byte>, rest: Scanned)
    requires Continues(whole, out, Scanned([f] + rest.frames, rest.left))
    ensures Continues(whole, out + [f], rest)
  {
    assert out + ([f] + rest.frames) == out + [f] + rest.frames;
  }

  /** Scanning a stream is scanning its first part, and then what that left with the rest. */
  lemma {:induction false} ScanAppend(a: seq<byte>, b: seq<byte>, max: nat)
    ensures Continues(Scan(a + b, max), Scan(a, max).frames, Scan(Scan(a, max).left + b, max))
    decreases |a|
  {
    var r := Resync(a);
    ResyncAppend(a, b);
    ResyncTwice(a);
    ScanResync(a, r, max);
    if r == [] {
      assert [] + b == b;
      ScanResync(a + b, b, max);
    } else {
      ResyncAppend(r, b);
      ScanResync(a + b, r + b, max);
      ResyncedAppend(r, b, max);
    }
  }

  lemma {:induction false} ResyncedAppend(r: seq<byte>, b: seq<byte>, max: nat)
    requires r != [] && Resync(r) == r && Resync(r + b) == r + b
    ensures Continues(Scan(r + b, max), Scan(r, max).frames, Scan(Scan(r, max).left + b, max))
    decreases |r|, 1
  {
    ScanRound(r, max);
    if |r| < HEADER_LEN || (0 < Length(r) <= max && |r| < HEADER_LEN + Length(r)) {
      ContinuesStart(Scan(r + b, max));
    } else if Length(r) == 0 || Length(r) > max {
      assert (r + b)[1..3] == r[1..3] && (r + b)[1..] == r[1..] + b;
      ScanRound(r + b, max);
      ScanAppend(r[1..], b, max);
    } else {
      FrameAppend(r, b, max);
    }
  }

  lemma ContinuesStart(whole: Scanned)
    ensures Continues(whole, [], whole)
  {
    assert [] + whole.frames == whole.frames;
  }

  lemma {:induction false} FrameAppend(r: seq<byte>, b: seq<byte>, max: nat)
    requires |r| >= HEADER_LEN && Resync(r) == r && Resync(r + b) == r + b
    requires 0 < Length(r) <= max && |r| >= HEADER_LEN + Length(r)
    ensures Continues(Scan(r + b, max), Scan(r, max).frames, Scan(Scan(r, max).left + b, max))
    decreases |r|, 0
  {
    var n := Length(r);
    var frame, rest := r[HEADER_LEN..HEADER_LEN + n], r[HEADER_LEN + n..];
    assert (r + b)[1..3] == r[1..3];
    FrameSlices(r, b, n);
    ScanRound(r, max);
    ScanRound(r + b, max);
    ScanAppend(rest, b, max);
    ContinuesPrepend(frame, Scan(rest + b, max), Scan(rest, max).frames, Scan(Scan(rest, max).left + b, max));
  }

  lemma FrameSlices(r: seq<byte>, b: seq<byte>, n: nat)
    requires |r| >= HEADER_LEN + n
    ensures (r + b)[HEADER_LEN + n..] == r[HEADER_LEN + n..] + b
    ensures (r + b)[HEADER_LEN..HEADER_LEN + n] == r[HEADER_LEN..HEADER_LEN + n]
  {
  }

  lemma ContinuesPrepend(f: seq<byte>, whole: Scanned, out: seq<seq<byte>>, rest: Scanned)
    requires Continues(whole, out, rest)
    ensures Continues(Scanned([f] + whole.frames, whole.left), [f] + out, rest)
  {
    assert [f] + (out + rest.frames) == [f] + out + rest.frames;
  }

  /** What is left over is short, and yields nothing more by itself. */
  lemma {:induction false} LeftoverShort(buf: seq<byte>, max: nat)
    ensures |Scan(buf, max).left| < HEADER_LEN + max
    ensures Scan(Scan(buf, max).left, max) == Scanned([], Scan(buf, max).left)
    decreases |buf|
  {
    var b := Resync(buf);
    assert Resync(b) == b;
    if |b| >= HEADER_LEN {
      if Length(b) == 0 || Length(b) > max {
        LeftoverShort(b[1..], max);
      } else if |b| >= HEADER_LEN + Length(b) {
        LeftoverShort(b[HEADER_LEN + Length(b)..], max);
      }
    }
  }

  /** However a stream is cut into pushes, the frames and the leftover are those of one push
      of the whole. */
  lemma {:induction false} CutsDoNotMatter(left: seq<byte>, chunks: seq<seq<byte>>, max: nat)
    requires Scan(left, max) == Scanned([], left)
    ensures PushAll(left, chunks, max) == Push(left, Concat(chunks), max)
    ensures |PushAll(left, chunks, max).left| < HEADER_LEN + max
    decreases |chunks|
  {
    if chunks == [] {
      assert left + [] == left;
      LeftoverShort(left, max);
    } else {
      var c, rest := chunks[0], Concat(chunks[1..]);
      assert left + (c + rest) == (left + c) + rest;
      ScanAppend(left + c, rest, max);
      LeftoverShort(left + c, max);
      CutsDoNotMatter(Scan(left + c, max).left, chunks[1..], max);
    }
  }

  // ----- frames come back ---------------------------------------------------------------------------

  /** A frame as the writer finishes it. */
  function Frame(payload: seq<byte>): seq<byte> {
    [START] + Le(|payload| % U16, 2) + payload
  }

  lemma FrameFirst(payload: seq<byte>, rest: seq<byte>, max: nat)
    requires 1 <= |payload| <= max && |payload| < U16
    ensures Scan(Frame(payload) + rest, max) == Scanned([payload] + Scan(rest, max).frames, Scan(rest, max).left)
  {
    var b := Frame(payload) + rest;
    Pow256Values();
    LeRoundTrip(|payload|, 2);
    assert b[1..3] == Le(|payload|, 2);
    assert Length(b) == |payload|;
    assert b[HEADER_LEN..HEADER_LEN + |payload|] == payload;
    assert b[HEADER_LEN + |payload|..] == rest;
  }

  function Frames(payloads: seq<seq<byte>>): seq<byte> {
    if payloads == [] then [] else Frame(payloads[0]) + Frames(payloads[1..])
  }

  /** The framer can return this payload: not empty, within its limit and within the
      16-bit length field. */
  predicate Returnable(payload: seq<byte>, max: nat) { 1 <= |payload| <= max && |payload| < U16 }

  lemma {:induction false} FramesScan(payloads: seq<seq<byte>>, max: nat)
    requires forall i :: 0 <= i < |payloads| ==> Returnable(payloads[i], max)
    ensures Scan(Frames(payloads), max) == Scanned(payloads, [])
    decreases |payloads|
  {
    if payloads != [] {
      FrameFirst(payloads[0], Frames(payloads[1..]), max);
      FramesScan(payloads[1..], max);
      assert [payloads[0]] + payloads[1..] == payloads;
    }
  }

  lemma LengthBound(b: seq<byte>)
    requires |b| >= HEADER_LEN
    ensures Length(b) < U16
  {
    Pow256Values();
    FromLeBound(b[1..3]);
  }

  /** Whatever the bytes, the framer returns only such payloads. */
  lemma {:induction false} ScannedReturnable(buf: seq<byte>, max: nat)
    ensures forall f :: f in Scan(buf, max).frames ==> Returnable(f, max)
    decreases |buf|
  {
    var b := Resync(buf);
    if |b| >= HEADER_LEN {
      LengthBound(b);
      if Length(b) == 0 || Length(b) > max {
        ScannedReturnable(b[1..], max);
      } else if |b| >= HEADER_LEN + Length(b) {
        ScannedReturnable(b[HEADER_LEN + Length(b)..], max);
      }
    }
  }

  /** Back-to-back frames, even behind garbage without a start byte, come back as exactly
      their payloads if and only if each payload is not empty, within the limit and shorter
      than 65536 bytes; and then nothing is left over. */
  lemma FramesComeBack(garbage: seq<byte>, payloads: seq<seq<byte>>, max: nat)
    requires START !in garbage
    ensures
      var s := Scan(garbage + Frames(payloads), max);
      && (s.frames == payloads <==> forall i :: 0 <= i < |payloads| ==> Returnable(payloads[i], max))
      && (s.frames == payloads ==> s.left == [])
  {
    NoStart(garbage);
    ResyncAppend(garbage, Frames(payloads));
    ScanResync(garbage + Frames(payloads), Frames(payloads), max);
    ScannedReturnable(Frames(payloads), max);
    if forall i :: 0 <= i < |payloads| ==> Returnable(payloads[i], max) {
      FramesScan(payloads, max);
    } else {
      var i :| 0 <= i < |payloads| && !Returnable(payloads[i], max);
      assert payloads[i] in payloads;
    }
  }

  lemma {:induction false} NoStart(b: seq<byte>)
    requires START !in b
    ensures Resync(b) == []
  {
    if b != [] { NoStart(b[1..]); }
  }
}

/** The framer as an object that drains its buffer in place. */
module FramerObject {
  import opened Basics
  import Spec = Framing

  class Framer {
    const max: nat
    var buf: seq<byte>

    /** Between pushes the buffer holds no complete frame. */
    ghost predicate Valid() reads this { Spec.Scan(buf, max) == Spec.Scanned([], buf) }

    constructor (max: nat)
      ensures Valid() && buf == [] && this.max == max
    {
      this.max := max;
      buf := [];
    }

    /** Drop bytes up to the first start byte; false when there is none. */
    method Resync() returns (found: bool)
      modifies this
      ensures buf == Spec.Resync(old(buf)) && (found <==> buf != [])
    {
      var i := 0;
      while i < |buf| && buf[i] != Spec.START
        invariant 0 <= i <= |buf| && buf == old(buf)
        invariant Spec.Resync(buf[i..]) == Spec.Resync(buf)
      {
        assert buf[i..][1..] == buf[i + 1..];
        i := i + 1;
      }
      found := i < |buf|;
      buf := buf[i..];
    }

    method Push(bytes: seq<byte>) returns (out: seq<seq<byte>>)
      requires Valid()
      modifies this
      ensures Valid() && Spec.Scanned(out, buf) == Spec.Push(old(buf), bytes, max)
      ensures |buf| < Spec.HEADER_LEN + max
    {
      buf := buf + bytes;
      ghost var all := buf;
      ghost var whole := Spec.Scan(buf, max);
      out := [];
      assert [] + whole.frames == whole.frames;
      while true
        invariant Spec.Continues(whole, out, Spec.Scan(buf, max))
        decreases |buf|
      {
        ghost var before := buf;
        var found := Resync();
        Spec.ResyncTwice(before);
        Spec.ScanResync(before, buf, max);
        Spec.ScanRound(buf, max);
        if !found || |buf| < Spec.HEADER_LEN { break; }
        var len := FromLe(buf[1..3]);
        if len == 0 || len > max {
          buf := buf[1..];
          continue;
        }
        if |buf| < Spec.HEADER_LEN + len { break; }
        var frame := buf[Spec.HEADER_LEN..Spec.HEADER_LEN + len];
        buf := buf[Spec.HEADER_LEN + len..];
        Spec.ContinuesFrame(whole, out, frame, Spec.Scan(buf, max));
        out := out + [frame];
      }
      assert out + [] == out;
      Spec.LeftoverShort(all, max);
    }
  }
}
