/** The companion writer and reader as objects: a vector that grows and a slice that
    shrinks. */
module CompanionObject {
  import opened Basics
  import opened CompanionWire
  import opened Codec = CompanionCodec

  /** The frame under construction.  Every method takes, for its contract only, what will
      be written after it. */
  class Writer {
    var buf: seq<byte>

    constructor (code: byte, ghost k: seq<byte>)
      ensures buf + k == [Framing.START, 0, 0] + PutU8(code, k)
    {
      buf := [Framing.START, 0, 0, code];
    }

    method Append(b: seq<byte>, ghost k: seq<byte>)
      modifies this
      ensures buf + k == old(buf) + (b + k)
    {
      buf := buf + b;
    }

    method U8(v: byte, ghost k: seq<byte>)
      modifies this
      ensures buf + k == old(buf) + PutU8(v, k)
    {
      Append([v], k);
    }

    method U16(v: u16, ghost k: seq<byte>)
      modifies this
      ensures buf + k == old(buf) + PutU16(v, k)
    {
      Append(Le(v, 2), k);
    }

    method U32(v: u32, ghost k: seq<byte>)
      modifies this
      ensures buf + k == old(buf) + PutU32(v, k)
    {
      Append(Le(v, 4), k);
    }

    method I8(v: i8, ghost k: seq<byte>)
      modifies this
      ensures buf + k == old(buf) + PutI8(v, k)
    {
      Append([v % 256], k);
    }

    method I16(v: i16, ghost k: seq<byte>)
      modifies this
      ensures buf + k == old(buf) + PutI16(v, k)
    {
      Append(Le(v % 0x1_0000, 2), k);
    }

    method I32(v: i32, ghost k: seq<byte>)
      modifies this
      ensures buf + k == old(buf) + PutI32(v, k)
    {
      Append(Le(v % 0x1_0000_0000, 4), k);
    }

    method Bytes(b: seq<byte>, ghost k: seq<byte>)
      modifies this
      ensures buf + k == old(buf) + PutBytes(b, k)
    {
      var n: byte := Min(|b|, 255);
      U8(n, b[..n] + k);
      Append(b[..n], k);
    }

    method Blob16(b: seq<byte>, ghost k: seq<byte>)
      modifies this
      ensures buf + k == old(buf) + PutBlob(b, k)
    {
      var n: u16 := Min(|b|, 65535);
      U16(n, b[..n] + k);
      Append(b[..n], k);
    }

    /** Cut on a character boundary at 255 bytes. */
    method Str(s: Text, ghost k: seq<byte>)
      modifies this
      ensures buf + k == old(buf) + PutStr(s, k)
    {
      var n := Min(|s|, 255);
      while n > 0 && !Boundary(s, n)
        invariant 0 <= n <= |s| && CutFrom(s, n) == Cut(s)
      {
        n := n - 1;
      }
      Bytes(s[..n], k);
    }

    method Id(id: NodeId, ghost k: seq<byte>)
      modifies this
      ensures buf + k == old(buf) + PutId(id, k)
    {
      match id {
        case Star(a) =>
          U8(ProtoCode(MeshStar), PutBytes(a, k));
          Bytes(a, k);
        case Tastic(n) =>
          U8(ProtoCode(Meshtastic), PutBytes(Le(n, 4), k));
          Bytes(Le(n, 4), k);
        case Core(c) =>
          U8(ProtoCode(MeshCore), PutBytes(c, k));
          Bytes(c, k);
        case Broadcast(p) =>
          U8(ProtoCode(p), PutBytes([], k));
          Bytes([], k);
      }
    }

    method Ids(ids: seq<NodeId>, ghost k: seq<byte>)
      modifies this
      ensures buf + k == old(buf) + PutIds(ids, k)
    {
      var i := 0;
      while i < |ids|
        invariant 0 <= i <= |ids|
        invariant buf + PutIds(ids[i..], k) == old(buf) + PutIds(ids, k)
      {
        assert ids[i..][1..] == ids[i + 1..];
        Id(ids[i], PutIds(ids[i + 1..], k));
        i := i + 1;
      }
    }

    method Event(e: Codec.Event, ghost k: seq<byte>)
      modifies this
      ensures buf + k == old(buf) + PutEvent(e, k)
    {
      match e {
        case ModeChanged(m) =>
          U8(6, PutU8(ModeCode(m), k));
          U8(ModeCode(m), k);
        case RouteFound(id, hops) =>
          U8(4, PutId(id, PutU8(hops, k)));
          Id(id, PutU8(hops, k));
          U8(hops, k);
        case NeighborUp(id) =>
          U8(1, PutId(id, k));
          Id(id, k);
        case NeighborDown(id) =>
          U8(2, PutId(id, k));
          Id(id, k);
        case SessionEstablished(id) =>
          U8(3, PutId(id, k));
          Id(id, k);
        case RouteLost(id) =>
          U8(5, PutId(id, k));
          Id(id, k);
      }
    }

    /** One field of any kind. */
    method Field(v: Value, ghost k: seq<byte>)
      modifies this
      ensures buf + k == old(buf) + Put(v, k)
    {
      match v {
        case VU8(n) => U8(n, k);
        case VI8(n) => I8(n, k);
        case VU16(n) => U16(n, k);
        case VI16(n) => I16(n, k);
        case VU32(n) => U32(n, k);
        case VI32(n) => I32(n, k);
        case VBool(f) => U8(if f then 1 else 0, k);
        case VStr(s) => Str(s, k);
        case VKey(b) => Bytes(b, k);
        case VBlob(b) => Blob16(b, k);
        case VId(id) => Id(id, k);
        case VIds(ids) =>
          var n: byte := Min(|ids|, 255);
          U8(n, PutIds(ids[..n], k));
          Ids(ids[..n], k);
        case VMode(m) => U8(ModeCode(m), k);
        case VSecurity(s) => U8(SecurityCode(s), k);
        case VDelivery(d) => U8(DeliveryCode(d), k);
        case VProto(p) => U8(ProtoCode(p), k);
        case VEvent(e) => Event(e, k);
      }
    }

    method Fields(vs: seq<Value>)
      modifies this
      ensures buf == old(buf) + PutAll(vs, [])
    {
      var i := 0;
      while i < |vs|
        invariant 0 <= i <= |vs|
        invariant buf + PutAll(vs[i..], []) == old(buf) + PutAll(vs, [])
      {
        assert vs[i..][1..] == vs[i + 1..];
        Field(vs[i], PutAll(vs[i + 1..], []));
        i := i + 1;
      }
      assert buf + [] == buf;
    }

    /** Fill in the length. */
    method Finish(ghost payload: seq<byte>) returns (frame: seq<byte>)
      requires buf == [Framing.START, 0, 0] + payload
      ensures frame == Framing.Frame(payload)
    {
      var len := (|buf| - Framing.HEADER_LEN) % Basics.U16;
      frame := [buf[0]] + Le(len, 2) + buf[Framing.HEADER_LEN..];
    }
  }

  /** The frame of a message with this type byte and these fields. */
  method EncodeFields(code: byte, vs: seq<Value>) returns (frame: seq<byte>)
    ensures frame == Framing.Frame(PutU8(code, PutAll(vs, [])))
  {
    var w := new Writer(code, PutAll(vs, []));
    ghost var start := w.buf;
    w.Fields(vs);
    frame := w.Finish(PutU8(code, PutAll(vs, [])));
  }

  method EncodeRequest(r: Request) returns (frame: seq<byte>)
    ensures frame == Framing.Frame(PutRequest(r, []))
  {
    frame := EncodeFields(RequestCode(r), RequestValues(r));
  }

  method EncodeResponse(r: Response) returns (frame: seq<byte>)
    ensures frame == Framing.Frame(PutResponse(r, []))
  {
    frame := EncodeFields(ResponseCode(r), ResponseValues(r));
  }

  /** The unread part of a frame.  Each method reads one value off its front, or fails and
      leaves nothing to rely on. */
  class Reader {
    var rest: seq<byte>

    constructor (frame: seq<byte>)
      ensures rest == frame
    {
      rest := frame;
    }

    /** What a read must do: the value and the rest the reading function gives. */
    ghost predicate Did<T>(r: Parsed<T>, expected: Parsed<T>)
      reads this
    {
      match expected
      case Bad(e) => r == Bad(e)
      case Good(v, k) => r == Good(v, k) && rest == k
    }

    method Take(n: nat) returns (r: Parsed<seq<byte>>)
      modifies this
      ensures Did(r, CompanionWire.Take(old(rest), n))
    {
      if |rest| < n { return Bad(DecodeError.Truncated); }
      var a := rest[..n];
      rest := rest[n..];
      return Good(a, rest);
    }

    method U8() returns (r: Parsed<byte>)
      modifies this
      ensures Did(r, GetU8(old(rest)))
    {
      var a := Take(1);
      if a.Bad? { return Bad(a.error); }
      return Good(a.value[0], rest);
    }

    method U16() returns (r: Parsed<u16>)
      modifies this
      ensures Did(r, GetU16(old(rest)))
    {
      var a := Take(2);
      if a.Bad? { return Bad(a.error); }
      Bounds(a.value);
      return Good(FromLe(a.value), rest);
    }

    method U32() returns (r: Parsed<u32>)
      modifies this
      ensures Did(r, GetU32(old(rest)))
    {
      var a := Take(4);
      if a.Bad? { return Bad(a.error); }
      Bounds(a.value);
      return Good(FromLe(a.value), rest);
    }

    method Bytes() returns (r: Parsed<seq<byte>>)
      modifies this
      ensures Did(r, GetBytes(old(rest)))
    {
      var n := U8();
      if n.Bad? { return Bad(n.error); }
      r := Take(n.value);
    }

    method Blob16() returns (r: Parsed<seq<byte>>)
      modifies this
      ensures Did(r, GetBlob(old(rest)))
    {
      var n := U16();
      if n.Bad? { return Bad(n.error); }
      r := Take(n.value);
    }

    method Str() returns (r: Parsed<Text>)
      modifies this
      ensures Did(r, GetStr(old(rest)))
    {
      var b := Bytes();
      if b.Bad? { return Bad(b.error); }
      if !Utf8(b.value) { return Bad(BadUtf8); }
      return Good(b.value, rest);
    }

    method Id() returns (r: Parsed<NodeId>)
      modifies this
      ensures Did(r, GetId(old(rest)))
    {
      var code := U8();
      if code.Bad? { return Bad(code.error); }
      var b := Bytes();
      if b.Bad? { return Bad(b.error); }
      var p, s := ProtoOf(code.value), b.value;
      if s == [] { return Good(Broadcast(p), rest); }
      if p.MeshStar? && |s| == 8 { return Good(Star(s), rest); }
      if p.Meshtastic? && |s| == 4 {
        Bounds(s);
        return Good(Tastic(FromLe(s)), rest);
      }
      if p.MeshCore? && |s| <= 32 { return Good(Core(s), rest); }
      return Bad(BadValue);
    }

    method Mode() returns (r: Parsed<Codec.Mode>)
      modifies this
      ensures Did(r, GetMode(old(rest)))
    {
      var v := U8();
      if v.Bad? { return Bad(v.error); }
      match v.value {
        case 0 => return Good(Native, rest);
        case 1 => return Good(MeshCoreMode, rest);
        case 2 => return Good(MeshtasticMode, rest);
        case 3 => return Good(Scanning, rest);
        case _ => return Bad(BadValue);
      }
    }

    method I8() returns (r: Parsed<i8>)
      modifies this
      ensures Did(r, GetI8(old(rest)))
    {
      var v := U8();
      if v.Bad? { return Bad(v.error); }
      return Good(Signed(v.value, 256), rest);
    }

    method I16() returns (r: Parsed<i16>)
      modifies this
      ensures Did(r, GetI16(old(rest)))
    {
      var v := U16();
      if v.Bad? { return Bad(v.error); }
      return Good(Signed(v.value, 0x1_0000), rest);
    }

    method I32() returns (r: Parsed<i32>)
      modifies this
      ensures Did(r, GetI32(old(rest)))
    {
      var v := U32();
      if v.Bad? { return Bad(v.error); }
      return Good(Signed(v.value, 0x1_0000_0000), rest);
    }

    method Delivery() returns (r: Parsed<Codec.Delivery>)
      modifies this
      ensures Did(r, GetDelivery(old(rest)))
    {
      var v := U8();
      if v.Bad? { return Bad(v.error); }
      match v.value {
        case 0 => return Good(Queued, rest);
        case 1 => return Good(Sent, rest);
        case 2 => return Good(HopAcked, rest);
        case 3 => return Good(Delivered, rest);
        case 4 => return Good(Stored, rest);
        case 5 => return Good(Failed, rest);
        case _ => return Bad(BadValue);
      }
    }

    method Event() returns (r: Parsed<Codec.Event>)
      modifies this
      ensures Did(r, GetEvent(old(rest)))
    {
      var kind := U8();
      if kind.Bad? { return Bad(kind.error); }
      if kind.value == 6 {
        var m := Mode();
        if m.Bad? { return Bad(m.error); }
        return Good(ModeChanged(m.value), rest);
      }
      if kind.value == 0 || kind.value > 6 { return Bad(BadValue); }
      var id := Id();
      if id.Bad? { return Bad(id.error); }
      match kind.value {
        case 1 => return Good(NeighborUp(id.value), rest);
        case 2 => return Good(NeighborDown(id.value), rest);
        case 3 => return Good(SessionEstablished(id.value), rest);
        case 5 => return Good(RouteLost(id.value), rest);
        case _ =>
          var hops := U8();
          if hops.Bad? { return Bad(hops.error); }
          return Good(RouteFound(id.value, hops.value), rest);
      }
    }

    /** One more of `left` identities. */
    method NextId(ghost whole: Parsed<seq<NodeId>>, ghost ids: seq<NodeId>, ghost left: nat) returns (id: Parsed<NodeId>)
      requires left > 0 && Continues(whole, ids, GetIds(rest, left))
      modifies this
      ensures id.Good? ==> Continues(whole, ids + [id.value], GetIds(rest, left - 1))
      ensures id.Bad? ==> whole == Bad(id.error)
    {
      ghost var b := rest;
      id := Id();
      if id.Good? { IdContinues(whole, ids, left, b, id.value, rest); }
    }

    method IdsOf(n: nat) returns (r: Parsed<seq<NodeId>>)
      modifies this
      ensures Did(r, GetIds(old(rest), n))
    {
      ghost var whole := GetIds(rest, n);
      var ids, i := [], 0;
      ContinuesStart(whole);
      while i < n
        invariant 0 <= i <= n && Continues(whole, ids, GetIds(rest, n - i))
      {
        var id := NextId(whole, ids, n - i);
        if id.Bad? { return Bad(id.error); }
        ids := ids + [id.value];
        i := i + 1;
      }
      ContinuesEnd(whole, ids, GetIds(rest, 0), rest);
      return Good(ids, rest);
    }

    /** A count and that many identities. */
    method Ids() returns (r: Parsed<Value>)
      modifies this
      ensures Did(r, GetIdList(old(rest)))
    {
      var n := U8();
      if n.Bad? { return Bad(n.error); }
      var ids := IdsOf(n.value);
      return if ids.Bad? then Bad(ids.error) else Good(VIds(ids.value), ids.rest);
    }

    /** One field. */
    method Field(kind: Kind) returns (r: Parsed<Value>)
      modifies this
      ensures Did(r, Get(kind, old(rest)))
    {
      match kind {
        case KU8 => var v := U8(); return if v.Bad? then Bad(v.error) else Good(VU8(v.value), v.rest);
        case KI8 => var v := I8(); return if v.Bad? then Bad(v.error) else Good(VI8(v.value), v.rest);
        case KU16 => var v := U16(); return if v.Bad? then Bad(v.error) else Good(VU16(v.value), v.rest);
        case KI16 => var v := I16(); return if v.Bad? then Bad(v.error) else Good(VI16(v.value), v.rest);
        case KU32 => var v := U32(); return if v.Bad? then Bad(v.error) else Good(VU32(v.value), v.rest);
        case KI32 => var v := I32(); return if v.Bad? then Bad(v.error) else Good(VI32(v.value), v.rest);
        case KBool => var v := U8(); return if v.Bad? then Bad(v.error) else Good(VBool(v.value != 0), v.rest);
        case KSecurity => var v := U8(); return if v.Bad? then Bad(v.error) else Good(VSecurity(SecurityOf(v.value)), v.rest);
        case KProto => var v := U8(); return if v.Bad? then Bad(v.error) else Good(VProto(ProtoOf(v.value)), v.rest);
        case _ => r := LongField(kind);
      }
    }

    method LongField(kind: Kind) returns (r: Parsed<Value>)
      requires kind in {KStr, KKey, KBlob, KId, KIds, KMode, KDelivery, KEvent, KI32OrZero, KStrOrEmpty}
      modifies this
      ensures Did(r, Get(kind, old(rest)))
    {
      match kind {
        case KStr => var v := Str(); return if v.Bad? then Bad(v.error) else Good(VStr(v.value), v.rest);
        case KKey =>
          var v := Bytes();
          return if v.Bad? then Bad(v.error) else if |v.value| != 32 then Bad(BadValue) else Good(VKey(v.value), v.rest);
        case KBlob => var v := Blob16(); return if v.Bad? then Bad(v.error) else Good(VBlob(v.value), v.rest);
        case KId => var v := Id(); return if v.Bad? then Bad(v.error) else Good(VId(v.value), v.rest);
        case KIds => r := Ids();
        case KMode => var v := Mode(); return if v.Bad? then Bad(v.error) else Good(VMode(v.value), v.rest);
        case KDelivery => var v := Delivery(); return if v.Bad? then Bad(v.error) else Good(VDelivery(v.value), v.rest);
        case KEvent => var v := Event(); return if v.Bad? then Bad(v.error) else Good(VEvent(v.value), v.rest);
        case KI32OrZero =>
          if |rest| < 4 { return Good(VI32(0), rest); }
          var v := I32();
          return Good(VI32(v.value), v.rest);
        case KStrOrEmpty =>
          var before := rest;
          var v := Str();
          if v.Bad? { rest := before; }
          return if v.Bad? then Good(VStr([]), rest) else Good(VStr(v.value), v.rest);
      }
    }

    method Fields(kinds: seq<Kind>) returns (r: Parsed<seq<Value>>)
      modifies this
      ensures Did(r, GetAll(kinds, old(rest)))
    {
      ghost var start := rest;
      var vs, i := [], 0;
      assert kinds[0..] == kinds;
      ContinuesStart(GetAll(kinds, start));
      while i < |kinds|
        invariant 0 <= i <= |kinds|
        invariant Continues(GetAll(kinds, start), vs, GetAll(kinds[i..], rest))
      {
        assert kinds[i..][1..] == kinds[i + 1..];
        ghost var b := rest;
        var v := Field(kinds[i]);
        if v.Bad? { return Bad(v.error); }
        FieldContinues(GetAll(kinds, start), vs, kinds[i..], b, v.value, rest);
        vs := vs + [v.value];
        i := i + 1;
      }
      assert vs + [] == vs;
      return Good(vs, rest);
    }
  }

  /** What has been read so far, and what is still to come, make up the whole. */
  ghost predicate Continues<T>(whole: Parsed<seq<T>>, done: seq<T>, todo: Parsed<seq<T>>) {
    whole == match todo case Bad(e) => Bad(e) case Good(more, k) => Good(done + more, k)
  }

  lemma ContinuesStart<T>(whole: Parsed<seq<T>>)
    ensures Continues(whole, [], whole)
  {
    if whole.Good? { assert [] + whole.value == whole.value; }
  }

  lemma ContinuesEnd<T>(whole: Parsed<seq<T>>, done: seq<T>, todo: Parsed<seq<T>>, k: seq<byte>)
    requires Continues(whole, done, todo) && todo == Good([], k)
    ensures whole == Good(done, k)
  {
    assert done + [] == done;
  }

  lemma FieldContinues(whole: Parsed<seq<Value>>, done: seq<Value>, kinds: seq<Kind>, b: seq<byte>, v: Value, k: seq<byte>)
    requires kinds != [] && Get(kinds[0], b) == Good(v, k) && Continues(whole, done, GetAll(kinds, b))
    ensures Continues(whole, done + [v], GetAll(kinds[1..], k))
  {
    var more := GetAll(kinds[1..], k);
    if more.Good? { assert done + ([v] + more.value) == done + [v] + more.value; }
  }

  lemma IdContinues(whole: Parsed<seq<NodeId>>, done: seq<NodeId>, n: nat, b: seq<byte>, id: NodeId, k: seq<byte>)
    requires n > 0 && GetId(b) == Good(id, k) && Continues(whole, done, GetIds(b, n))
    ensures Continues(whole, done + [id], GetIds(k, n - 1))
  {
    var more := GetIds(k, n - 1);
    if more.Good? { assert done + ([id] + more.value) == done + [id] + more.value; }
  }

  method DecodeRequest(frame: seq<byte>) returns (r: Parsed<Request>)
    ensures r == GetRequest(frame)
  {
    var reader := new Reader(frame);
    var t := reader.U8();
    if t.Bad? { return Bad(t.error); }
    var layout := RequestLayout(t.value);
    if layout.None? { return Bad(UnknownType(t.value)); }
    var vs := reader.Fields(layout.value);
    if vs.Bad? { return Bad(vs.error); }
    return Good(MakeRequest(t.value, vs.value), vs.rest);
  }

  method DecodeResponse(frame: seq<byte>) returns (r: Parsed<Response>)
    ensures r == GetResponse(frame)
  {
    var reader := new Reader(frame);
    var t := reader.U8();
    if t.Bad? { return Bad(t.error); }
    var layout := ResponseLayout(t.value);
    if layout.None? { return Bad(UnknownType(t.value)); }
    var vs := reader.Fields(layout.value);
    if vs.Bad? { return Bad(vs.error); }
    return Good(MakeResponse(t.value, vs.value), vs.rest);
  }
}
