/** Requests and responses of the companion protocol: each is a type byte and a list of
    fields, written and read in the order of its layout. */
module CompanionCodec {
  import opened Basics
  import opened CompanionWire
  import opened Framing

  const VERSION: byte := 1

  // ----- fields -----------------------------------------------------------------------------------------

  datatype Mode = Native | MeshCoreMode | MeshtasticMode | Scanning

  datatype Security = NoSecurity | E2e | Envelope | Group | Channel | Direct | Bridged | Plain | Opaque

  datatype Delivery = Queued | Sent | HopAcked | Delivered | Stored | Failed

  datatype Event =
    | NeighborUp(id: NodeId) | NeighborDown(id: NodeId) | SessionEstablished(id: NodeId)
    | RouteFound(id: NodeId, hops: byte) | RouteLost(id: NodeId) | ModeChanged(mode: Mode)

  type Bytes32 = s: seq<byte> | |s| == 32 witness Be(0, 32)

  /** The kinds of field.  The last two may be missing at the end of a frame from an older
      sender, and then read as zero or empty. */
  datatype Kind =
    | KU8 | KI8 | KU16 | KI16 | KU32 | KI32 | KBool | KStr | KKey | KBlob | KId | KIds
    | KMode | KSecurity | KDelivery | KProto | KEvent | KI32OrZero | KStrOrEmpty

  datatype Value =
    | VU8(u8: byte) | VI8(i8: i8) | VU16(u16: u16) | VI16(i16: i16) | VU32(u32: u32) | VI32(i32: i32)
    | VBool(flag: bool) | VStr(text: Text) | VKey(key: Bytes32) | VBlob(blob: seq<byte>)
    | VId(id: NodeId) | VIds(ids: seq<NodeId>)
    | VMode(mode: Mode) | VSecurity(security: Security) | VDelivery(delivery: Delivery) | VProto(proto: Proto)
    | VEvent(event: Event)

  predicate HasKind(v: Value, kind: Kind) {
    match kind
    case KU8 => v.VU8? case KI8 => v.VI8? case KU16 => v.VU16? case KI16 => v.VI16? case KU32 => v.VU32?
    case KI32 => v.VI32? case KBool => v.VBool? case KStr => v.VStr? case KKey => v.VKey? case KBlob => v.VBlob?
    case KId => v.VId? case KIds => v.VIds? case KMode => v.VMode? case KSecurity => v.VSecurity?
    case KDelivery => v.VDelivery? case KProto => v.VProto? case KEvent => v.VEvent?
    case KI32OrZero => v.VI32? case KStrOrEmpty => v.VStr?
  }

  function ModeCode(m: Mode): byte { match m case Native => 0 case MeshCoreMode => 1 case MeshtasticMode => 2 case Scanning => 3 }

  function SecurityCode(s: Security): byte {
    match s
    case NoSecurity => 0 case E2e => 1 case Envelope => 2 case Group => 3 case Channel => 4
    case Direct => 5 case Bridged => 6 case Plain => 7 case Opaque => 8
  }

  function DeliveryCode(d: Delivery): byte {
    match d case Queued => 0 case Sent => 1 case HopAcked => 2 case Delivered => 3 case Stored => 4 case Failed => 5
  }

  function PutEvent(e: Event, k: seq<byte>): seq<byte> {
    match e
    case NeighborUp(id) => PutU8(1, PutId(id, k))
    case NeighborDown(id) => PutU8(2, PutId(id, k))
    case SessionEstablished(id) => PutU8(3, PutId(id, k))
    case RouteFound(id, hops) => PutU8(4, PutId(id, PutU8(hops, k)))
    case RouteLost(id) => PutU8(5, PutId(id, k))
    case ModeChanged(m) => PutU8(6, PutU8(ModeCode(m), k))
  }

  function PutIds(ids: seq<NodeId>, k: seq<byte>): seq<byte> {
    if ids == [] then k else PutId(ids[0], PutIds(ids[1..], k))
  }

  /** Write a field in front of what follows it. */
  function Put(v: Value, k: seq<byte>): seq<byte> {
    match v
    case VU8(n) => PutU8(n, k)
    case VI8(n) => PutI8(n, k)
    case VU16(n) => PutU16(n, k)
    case VI16(n) => PutI16(n, k)
    case VU32(n) => PutU32(n, k)
    case VI32(n) => PutI32(n, k)
    case VBool(f) => PutU8(if f then 1 else 0, k)
    case VStr(s) => PutStr(s, k)
    case VKey(b) => PutBytes(b, k)
    case VBlob(b) => PutBlob(b, k)
    case VId(id) => PutId(id, k)
    case VIds(ids) => PutU8(Min(|ids|, 255), PutIds(ids[..Min(|ids|, 255)], k))
    case VMode(m) => PutU8(ModeCode(m), k)
    case VSecurity(s) => PutU8(SecurityCode(s), k)
    case VDelivery(d) => PutU8(DeliveryCode(d), k)
    case VProto(p) => PutU8(ProtoCode(p), k)
    case VEvent(e) => PutEvent(e, k)
  }

  function GetMode(b: seq<byte>): Parsed<Mode> {
    var v :- GetU8(b);
    match v.0
    case 0 => Good(Native, v.1) case 1 => Good(MeshCoreMode, v.1)
    case 2 => Good(MeshtasticMode, v.1) case 3 => Good(Scanning, v.1)
    case _ => Bad(BadValue)
  }

  /** Unknown labels read as none. */
  function SecurityOf(v: byte): Security {
    match v
    case 1 => E2e case 2 => Envelope case 3 => Group case 4 => Channel case 5 => Direct
    case 6 => Bridged case 7 => Plain case 8 => Opaque case _ => NoSecurity
  }

  function GetDelivery(b: seq<byte>): Parsed<Delivery> {
    var v :- GetU8(b);
    match v.0
    case 0 => Good(Queued, v.1) case 1 => Good(Sent, v.1) case 2 => Good(HopAcked, v.1)
    case 3 => Good(Delivered, v.1) case 4 => Good(Stored, v.1) case 5 => Good(Failed, v.1)
    case _ => Bad(BadValue)
  }

  function GetEvent(b: seq<byte>): Parsed<Event> {
    var kind :- GetU8(b);
    if kind.0 == 6 then var m :- GetMode(kind.1); Good(ModeChanged(m.0), m.1)
    else if kind.0 == 0 || kind.0 > 6 then Bad(BadValue)
    else
      var id :- GetId(kind.1);
      match kind.0
      case 1 => Good(NeighborUp(id.0), id.1)
      case 2 => Good(NeighborDown(id.0), id.1)
      case 3 => Good(SessionEstablished(id.0), id.1)
      case 5 => Good(RouteLost(id.0), id.1)
      case _ => var hops :- GetU8(id.1); Good(RouteFound(id.0, hops.0), hops.1)
  }

  function GetIds(b: seq<byte>, n: nat): Parsed<seq<NodeId>> {
    if n == 0 then Good([], b)
    else
      var id :- GetId(b);
      var rest :- GetIds(id.1, n - 1);
      Good([id.0] + rest.0, rest.1)
  }

  function GetKey(b: seq<byte>): Parsed<Value> {
    var s :- GetBytes(b);
    if |s.0| == 32 then Good(VKey(s.0), s.1) else Bad(BadValue)
  }

  function GetIdList(b: seq<byte>): Parsed<Value> {
    var n :- GetU8(b);
    var ids :- GetIds(n.1, n.0);
    Good(VIds(ids.0), ids.1)
  }

  /** Read a field. */
  function Get(kind: Kind, b: seq<byte>): (r: Parsed<Value>)
    ensures r.Good? ==> HasKind(r.value, kind)
  {
    match kind
    case KU8 => var v :- GetU8(b); Good(VU8(v.0), v.1)
    case KI8 => var v :- GetI8(b); Good(VI8(v.0), v.1)
    case KU16 => var v :- GetU16(b); Good(VU16(v.0), v.1)
    case KI16 => var v :- GetI16(b); Good(VI16(v.0), v.1)
    case KU32 => var v :- GetU32(b); Good(VU32(v.0), v.1)
    case KI32 => var v :- GetI32(b); Good(VI32(v.0), v.1)
    case KBool => var v :- GetU8(b); Good(VBool(v.0 != 0), v.1)
    case KStr => var v :- GetStr(b); Good(VStr(v.0), v.1)
    case KKey => GetKey(b)
    case KBlob => var v :- GetBlob(b); Good(VBlob(v.0), v.1)
    case KId => var v :- GetId(b); Good(VId(v.0), v.1)
    case KIds => GetIdList(b)
    case KMode => var v :- GetMode(b); Good(VMode(v.0), v.1)
    case KSecurity => var v :- GetU8(b); Good(VSecurity(SecurityOf(v.0)), v.1)
    case KDelivery => var v :- GetDelivery(b); Good(VDelivery(v.0), v.1)
    case KProto => var v :- GetU8(b); Good(VProto(ProtoOf(v.0)), v.1)
    case KEvent => var v :- GetEvent(b); Good(VEvent(v.0), v.1)
    case KI32OrZero => var (v, rest) := GetI32OrZero(b); Good(VI32(v), rest)
    case KStrOrEmpty => var (v, rest) := GetStrOrEmpty(b); Good(VStr(v), rest)
  }

  /** Values that the format can carry whole. */
  predicate Carried(v: Value) {
    match v
    case VStr(s) => Fits(s)
    case VBlob(b) => |b| <= 65535
    case VId(id) => IdOk(id)
    case VIds(ids) => |ids| <= 255 && forall i :: 0 <= i < |ids| ==> IdOk(ids[i])
    case VEvent(e) => e.ModeChanged? || IdOk(e.id)
    case _ => true
  }

  lemma {:induction false} IdsBack(ids: seq<NodeId>, k: seq<byte>)
    requires forall i :: 0 <= i < |ids| ==> IdOk(ids[i])
    ensures GetIds(PutIds(ids, k), |ids|) == Good(ids, k)
  {
    if ids != [] {
      IdFits(ids[0], PutIds(ids[1..], k));
      IdsBack(ids[1..], k);
      assert [ids[0]] + ids[1..] == ids;
    }
  }

  lemma IdListBack(ids: seq<NodeId>, k: seq<byte>)
    requires Carried(VIds(ids))
    ensures GetIdList(Put(VIds(ids), k)) == Good(VIds(ids), k)
  {
    assert ids[..|ids|] == ids;
    ByteBack(|ids|, PutIds(ids, k));
    IdsBack(ids, k);
  }

  lemma ReadsEvent(kind: byte, b: seq<byte>, id: NodeId, k: seq<byte>)
    requires GetId(b) == Good(id, k) && 1 <= kind <= 5
    ensures kind == 1 ==> GetEvent(PutU8(kind, b)) == Good(NeighborUp(id), k)
    ensures kind == 2 ==> GetEvent(PutU8(kind, b)) == Good(NeighborDown(id), k)
    ensures kind == 3 ==> GetEvent(PutU8(kind, b)) == Good(SessionEstablished(id), k)
    ensures kind == 5 ==> GetEvent(PutU8(kind, b)) == Good(RouteLost(id), k)
    ensures kind == 4 && GetU8(k).Good? ==> GetEvent(PutU8(kind, b)) == Good(RouteFound(id, GetU8(k).value), GetU8(k).rest)
  {
  }

  lemma EventBack(e: Event, k: seq<byte>)
    requires Carried(VEvent(e))
    ensures GetEvent(PutEvent(e, k)) == Good(e, k)
  {
    match e
    case ModeChanged(_) =>
    case RouteFound(id, hops) =>
      IdFits(id, PutU8(hops, k));
      ByteBack(hops, k);
      ReadsEvent(4, PutId(id, PutU8(hops, k)), id, PutU8(hops, k));
    case NeighborUp(id) => EventIdBack(1, id, k);
    case NeighborDown(id) => EventIdBack(2, id, k);
    case SessionEstablished(id) => EventIdBack(3, id, k);
    case RouteLost(id) => EventIdBack(5, id, k);
  }

  lemma EventIdBack(kind: byte, id: NodeId, k: seq<byte>)
    requires IdOk(id) && kind in [1, 2, 3, 5]
    ensures
      var e := if kind == 1 then NeighborUp(id) else if kind == 2 then NeighborDown(id)
               else if kind == 3 then SessionEstablished(id) else RouteLost(id);
      GetEvent(PutU8(kind, PutId(id, k))) == Good(e, k)
  {
    IdFits(id, k);
    ReadsEvent(kind, PutId(id, k), id, k);
  }

  lemma StrOrEmptyBack(s: Text, k: seq<byte>)
    requires Fits(s)
    ensures Get(KStr, Put(VStr(s), k)) == Good(VStr(s), k) && Get(KStrOrEmpty, Put(VStr(s), k)) == Good(VStr(s), k)
  {
    StringFits(s, k);
  }

  lemma NumberBack(v: Value, kind: Kind, k: seq<byte>)
    requires HasKind(v, kind) && (v.VU8? || v.VI8? || v.VU16? || v.VI16? || v.VU32? || v.VI32? || v.VBool?)
    ensures Get(kind, Put(v, k)) == Good(v, k)
  {
    match v
    case VU8(n) => ByteBack(n, k);
    case VI8(n) => I8Back(n, k);
    case VU16(n) => U16Back(n, k);
    case VI16(n) => I16Back(n, k);
    case VU32(n) => U32Back(n, k);
    case VI32(n) => I32Back(n, k);
    case VBool(f) => ByteBack(if f then 1 else 0, k);
  }

  lemma CodeBack(v: Value, kind: Kind, k: seq<byte>)
    requires HasKind(v, kind) && (v.VMode? || v.VSecurity? || v.VDelivery? || v.VProto?)
    ensures Get(kind, Put(v, k)) == Good(v, k)
  {
  }

  /** A field comes back as it was. */
  lemma ValueBack(v: Value, kind: Kind, k: seq<byte>)
    requires HasKind(v, kind) && Carried(v)
    ensures Get(kind, Put(v, k)) == Good(v, k)
  {
    match v
    case VStr(s) => StrOrEmptyBack(s, k);
    case VKey(b) => BytesFit(b, k);
    case VBlob(b) => BytesFit(b, k);
    case VId(id) => IdFits(id, k);
    case VIds(ids) => IdListBack(ids, k);
    case VEvent(e) => EventBack(e, k);
    case VMode(_) => CodeBack(v, kind, k);
    case VSecurity(_) => CodeBack(v, kind, k);
    case VDelivery(_) => CodeBack(v, kind, k);
    case VProto(_) => CodeBack(v, kind, k);
    case _ => NumberBack(v, kind, k);
  }

  // ----- lists of fields --------------------------------------------------------------------------------

  predicate HasLayout(vs: seq<Value>, kinds: seq<Kind>) {
    |vs| == |kinds| && forall i :: 0 <= i < |vs| ==> HasKind(vs[i], kinds[i])
  }

  function PutAll(vs: seq<Value>, k: seq<byte>): seq<byte> {
    if vs == [] then k else Put(vs[0], PutAll(vs[1..], k))
  }

  function GetAll(kinds: seq<Kind>, b: seq<byte>): (r: Parsed<seq<Value>>)
    ensures r.Good? ==> HasLayout(r.value, kinds)
  {
    if kinds == [] then Good([], b)
    else
      var v :- Get(kinds[0], b);
      var vs :- GetAll(kinds[1..], v.1);
      Good([v.0] + vs.0, vs.1)
  }

  lemma {:induction false} GetAllStep(kinds: seq<Kind>, b: seq<byte>, v: Value, b': seq<byte>, vs: seq<Value>, k: seq<byte>)
    requires kinds != [] && Get(kinds[0], b) == Good(v, b') && GetAll(kinds[1..], b') == Good(vs, k)
    ensures GetAll(kinds, b) == Good([v] + vs, k)
  {
  }

  lemma {:induction false} AllBack(vs: seq<Value>, kinds: seq<Kind>, k: seq<byte>)
    requires HasLayout(vs, kinds) && forall i :: 0 <= i < |vs| ==> Carried(vs[i])
    ensures GetAll(kinds, PutAll(vs, k)) == Good(vs, k)
  {
    if vs != [] {
      var rest := PutAll(vs[1..], k);
      ValueBack(vs[0], kinds[0], rest);
      AllBack(vs[1..], kinds[1..], k);
      GetAllStep(kinds, Put(vs[0], rest), vs[0], rest, vs[1..], k);
      assert [vs[0]] + vs[1..] == vs;
    }
  }

  // ----- requests ---------------------------------------------------------------------------------------

  datatype Settings = Settings(name: Text, role: byte, profile: byte, txPower: i8, mode: Mode, beaconInterval: u16)

  const SETTINGS := [KStr, KU8, KU8, KI8, KMode, KU16]

  function SettingsValues(s: Settings): seq<Value> {
    [VStr(s.name), VU8(s.role), VU8(s.profile), VI8(s.txPower), VMode(s.mode), VU16(s.beaconInterval)]
  }

  function MakeSettings(vs: seq<Value>): Settings
    requires HasLayout(vs, SETTINGS)
  {
    Settings(vs[0].text, vs[1].u8, vs[2].u8, vs[3].i8, vs[4].mode, vs[5].u16)
  }

  datatype Request =
    | GetInfo
    | GetNodes
    | SendText(to: NodeId, reliability: byte, text: Text)
    | GetNetworks
    | SetMode(mode: Mode)
    | GetStatus
    | SetName(name: Text)
    | SetRole(role: byte)
    | Announce
    | GetMessages(afterSeq: u32)
    | SetTime(unixS: u32)
    | Reboot
    | Ping(nonce: u32)
    | GetSettings
    | SetSettings(settings: Settings)
    | SetPosition(latE7: i32, lonE7: i32)
    | TraceTo(to: NodeId)
    | SendImage(to: NodeId, reliability: byte, data: seq<byte>)
    | SetProfilePhoto(data: seq<byte>)

  function RequestCode(r: Request): byte {
    match r
    case GetInfo => 0x01 case GetNodes => 0x02 case SendText(_, _, _) => 0x03 case GetNetworks => 0x04
    case SetMode(_) => 0x05 case GetStatus => 0x06 case SetName(_) => 0x07 case SetRole(_) => 0x08
    case Announce => 0x09 case GetMessages(_) => 0x0A case SetTime(_) => 0x0B case Reboot => 0x0C
    case Ping(_) => 0x0D case GetSettings => 0x0E case SetSettings(_) => 0x0F case SetPosition(_, _) => 0x10
    case TraceTo(_) => 0x11 case SendImage(_, _, _) => 0x12 case SetProfilePhoto(_) => 0x13
  }

  /** The fields that follow a request's type byte, in order. */
  function RequestLayout(code: byte): Option<seq<Kind>> {
    match code
    case 0x03 => Some([KId, KU8, KStr])
    case 0x05 => Some([KMode])
    case 0x07 => Some([KStr])
    case 0x08 => Some([KU8])
    case 0x0A => Some([KU32])
    case 0x0B => Some([KU32])
    case 0x0D => Some([KU32])
    case 0x0F => Some(SETTINGS)
    case 0x10 => Some([KI32, KI32])
    case 0x11 => Some([KId])
    case 0x12 => Some([KId, KU8, KBlob])
    case 0x13 => Some([KBlob])
    case _ => if 1 <= code <= 0x0E then Some([]) else None
  }

  function RequestValues(r: Request): seq<Value> {
    match r
    case SendText(to, reliability, text) => [VId(to), VU8(reliability), VStr(text)]
    case SetMode(m) => [VMode(m)]
    case SetName(n) => [VStr(n)]
    case SetRole(v) => [VU8(v)]
    case GetMessages(n) => [VU32(n)]
    case SetTime(n) => [VU32(n)]
    case Ping(n) => [VU32(n)]
    case SetSettings(s) => SettingsValues(s)
    case SetPosition(lat, lon) => [VI32(lat), VI32(lon)]
    case TraceTo(to) => [VId(to)]
    case SendImage(to, reliability, data) => [VId(to), VU8(reliability), VBlob(data)]
    case SetProfilePhoto(data) => [VBlob(data)]
    case _ => []
  }

  function MakeRequest(code: byte, vs: seq<Value>): Request
    requires RequestLayout(code).Some? && HasLayout(vs, RequestLayout(code).value)
  {
    match code
    case 0x01 => GetInfo
    case 0x02 => GetNodes
    case 0x03 => SendText(vs[0].id, vs[1].u8, vs[2].text)
    case 0x04 => GetNetworks
    case 0x05 => SetMode(vs[0].mode)
    case 0x06 => GetStatus
    case 0x07 => SetName(vs[0].text)
    case 0x08 => SetRole(vs[0].u8)
    case 0x09 => Announce
    case 0x0A => GetMessages(vs[0].u32)
    case 0x0B => SetTime(vs[0].u32)
    case 0x0C => Reboot
    case 0x0D => Ping(vs[0].u32)
    case 0x0E => GetSettings
    case 0x0F => SetSettings(MakeSettings(vs))
    case 0x10 => SetPosition(vs[0].i32, vs[1].i32)
    case 0x11 => TraceTo(vs[0].id)
    case 0x12 => SendImage(vs[0].id, vs[1].u8, vs[2].blob)
    case _ => SetProfilePhoto(vs[0].blob)
  }

  /** Type byte and fields. */
  function PutRequest(r: Request, k: seq<byte>): seq<byte> { PutU8(RequestCode(r), PutAll(RequestValues(r), k)) }

  /** Read a request; bytes behind it are tolerated. */
  function GetRequest(b: seq<byte>): Parsed<Request> {
    var t :- GetU8(b);
    match RequestLayout(t.0)
    case None => Bad(UnknownType(t.0))
    case Some(kinds) =>
      var vs :- GetAll(kinds, t.1);
      Good(MakeRequest(t.0, vs.0), vs.1)
  }

  predicate RequestOk(r: Request) {
    forall i :: 0 <= i < |RequestValues(r)| ==> Carried(RequestValues(r)[i])
  }

  /** Values and layout agree, and give the request back. */
  lemma RequestMade(r: Request)
    ensures RequestLayout(RequestCode(r)).Some? && HasLayout(RequestValues(r), RequestLayout(RequestCode(r)).value)
    ensures MakeRequest(RequestCode(r), RequestValues(r)) == r
  {
  }

  /** A request comes back as it was, whatever a newer sender appends. */
  lemma RequestBack(r: Request, k: seq<byte>)
    requires RequestOk(r)
    ensures GetRequest(PutRequest(r, k)) == Good(r, k)
  {
    var code, vs := RequestCode(r), RequestValues(r);
    RequestMade(r);
    ByteBack(code, PutAll(vs, k));
    AllBack(vs, RequestLayout(code).value, k);
  }

  // ----- responses --------------------------------------------------------------------------------------

  datatype NodeInfo = NodeInfo(
    name: Text, id: NodeId, publicKey: Bytes32, role: byte, firmware: Text, frequencyHz: u32, bandwidthHz: u32,
    spreadingFactor: byte, codingRate: byte, txPower: i8, capabilities: u16)

  const INFO := [KU8, KStr, KId, KKey, KU8, KStr, KU32, KU32, KU8, KU8, KI8, KU16]

  function InfoValues(i: NodeInfo): seq<Value> {
    [VU8(VERSION), VStr(i.name), VId(i.id), VKey(i.publicKey), VU8(i.role), VStr(i.firmware), VU32(i.frequencyHz),
     VU32(i.bandwidthHz), VU8(i.spreadingFactor), VU8(i.codingRate), VI8(i.txPower), VU16(i.capabilities)]
  }

  function MakeInfo(vs: seq<Value>): NodeInfo
    requires HasLayout(vs, INFO)
  {
    NodeInfo(vs[1].text, vs[2].id, vs[3].key, vs[4].u8, vs[5].text, vs[6].u32, vs[7].u32, vs[8].u8, vs[9].u8,
     vs[10].i8, vs[11].u16)
  }

  lemma InfoMade(i: NodeInfo)
    ensures HasLayout(InfoValues(i), INFO) && MakeInfo(InfoValues(i)) == i
  {
  }

  datatype NodeEntry = NodeEntry(
    id: NodeId, name: Text, rssi: i16, snrQ: i8, security: Security, hops: byte, flags: byte, lastSeenS: u32, latE7: i32, lonE7: i32)

  const NODE := [KId, KStr, KI16, KI8, KSecurity, KU8, KU8, KU32, KI32OrZero, KI32OrZero]

  function NodeValues(n: NodeEntry): seq<Value> {
    [VId(n.id), VStr(n.name), VI16(n.rssi), VI8(n.snrQ), VSecurity(n.security), VU8(n.hops), VU8(n.flags),
     VU32(n.lastSeenS), VI32(n.latE7), VI32(n.lonE7)]
  }

  function MakeNode(vs: seq<Value>): NodeEntry
    requires HasLayout(vs, NODE)
  {
    NodeEntry(vs[0].id, vs[1].text, vs[2].i16, vs[3].i8, vs[4].security, vs[5].u8, vs[6].u8, vs[7].u32, vs[8].i32,
     vs[9].i32)
  }

  lemma NodeMade(n: NodeEntry)
    ensures HasLayout(NodeValues(n), NODE) && MakeNode(NodeValues(n)) == n
  {
  }

  datatype Message = Message(
    from: NodeId, fromName: Text, channel: Text, text: Text, security: Security, rssi: i16, snrQ: i8, hops: byte,
    ageS: u32, seqNo: u32, via: Text)

  const MESSAGE := [KU32, KId, KStr, KStr, KStr, KSecurity, KI16, KI8, KU8, KU32, KStrOrEmpty]

  function MessageValues(m: Message): seq<Value> {
    [VU32(m.seqNo), VId(m.from), VStr(m.fromName), VStr(m.channel), VStr(m.text), VSecurity(m.security), VI16(m.rssi),
     VI8(m.snrQ), VU8(m.hops), VU32(m.ageS), VStr(m.via)]
  }

  function MakeMessage(vs: seq<Value>): Message
    requires HasLayout(vs, MESSAGE)
  {
    Message(vs[1].id, vs[2].text, vs[3].text, vs[4].text, vs[5].security, vs[6].i16, vs[7].i8, vs[8].u8, vs[9].u32,
     vs[0].u32, vs[10].text)
  }

  lemma MessageMade(m: Message)
    ensures HasLayout(MessageValues(m), MESSAGE) && MakeMessage(MessageValues(m)) == m
  {
  }

  datatype Network = Network(proto: Proto, name: Text, nodes: byte, rssi: i16, frames: u32, lastSeenS: u32)

  const NETWORK := [KProto, KStr, KU8, KI16, KU32, KU32]

  function NetworkValues(n: Network): seq<Value> {
    [VProto(n.proto), VStr(n.name), VU8(n.nodes), VI16(n.rssi), VU32(n.frames), VU32(n.lastSeenS)]
  }

  function MakeNetwork(vs: seq<Value>): Network
    requires HasLayout(vs, NETWORK)
  {
    Network(vs[0].proto, vs[1].text, vs[2].u8, vs[3].i16, vs[4].u32, vs[5].u32)
  }

  lemma NetworkMade(n: Network)
    ensures HasLayout(NetworkValues(n), NETWORK) && MakeNetwork(NetworkValues(n)) == n
  {
  }

  datatype Status = Status(
    mode: Mode, batteryMv: u16, uptimeS: u32, neighbors: byte, zone: byte, sessions: byte, rxFrames: u32, txFrames: u32,
    dutyPermille: u16, unread: byte, lastRssi: i16, lastSnrQ: i8)

  const STATUS := [KMode, KU16, KU32, KU8, KU8, KU8, KU32, KU32, KU16, KU8, KI16, KI8]

  function StatusValues(s: Status): seq<Value> {
    [VMode(s.mode), VU16(s.batteryMv), VU32(s.uptimeS), VU8(s.neighbors), VU8(s.zone), VU8(s.sessions),
     VU32(s.rxFrames), VU32(s.txFrames), VU16(s.dutyPermille), VU8(s.unread), VI16(s.lastRssi), VI8(s.lastSnrQ)]
  }

  function MakeStatus(vs: seq<Value>): Status
    requires HasLayout(vs, STATUS)
  {
    Status(vs[0].mode, vs[1].u16, vs[2].u32, vs[3].u8, vs[4].u8, vs[5].u8, vs[6].u32, vs[7].u32, vs[8].u16, vs[9].u8,
     vs[10].i16, vs[11].i8)
  }

  lemma StatusMade(s: Status)
    ensures HasLayout(StatusValues(s), STATUS) && MakeStatus(StatusValues(s)) == s
  {
  }

  datatype Image = Image(seqNo: u32, from: NodeId, fromName: Text, kind: byte, data: seq<byte>, rssi: i16, hops: byte, ageS: u32)

  const IMAGE := [KU32, KId, KStr, KU8, KI16, KU8, KU32, KBlob]

  function ImageValues(i: Image): seq<Value> {
    [VU32(i.seqNo), VId(i.from), VStr(i.fromName), VU8(i.kind), VI16(i.rssi), VU8(i.hops), VU32(i.ageS),
     VBlob(i.data)]
  }

  function MakeImage(vs: seq<Value>): Image
    requires HasLayout(vs, IMAGE)
  {
    Image(vs[0].u32, vs[1].id, vs[2].text, vs[3].u8, vs[7].blob, vs[4].i16, vs[5].u8, vs[6].u32)
  }

  lemma ImageMade(i: Image)
    ensures HasLayout(ImageValues(i), IMAGE) && MakeImage(ImageValues(i)) == i
  {
  }

  datatype Response =
    | Info(info: NodeInfo)
    | Node(entry: NodeEntry)
    | SendResult(handle: u32, accepted: bool, reason: byte)
    | MessageIs(message: Message)
    | DeliveryUpdate(handle: u32, state: Delivery, reason: byte)
    | NetworkIs(network: Network)
    | StatusIs(status: Status)
    | EventIs(event: Event)
    | End(kind: byte)
    | Pong(nonce: u32)
    | Error(code: byte, text: Text)
    | SettingsAre(settings: Settings)
    | ImageIs(image: Image)
    | Trace(to: NodeId, reached: bool, hops: seq<NodeId>, rttMs: u32)

  function ResponseCode(r: Response): byte {
    match r
    case Info(_) => 0x81 case Node(_) => 0x82 case SendResult(_, _, _) => 0x83 case MessageIs(_) => 0x84
    case DeliveryUpdate(_, _, _) => 0x85 case NetworkIs(_) => 0x86 case StatusIs(_) => 0x87 case EventIs(_) => 0x88
    case SettingsAre(_) => 0x89 case Trace(_, _, _, _) => 0x8A case ImageIs(_) => 0x8B case Pong(_) => 0x8D
    case End(_) => 0x8F case Error(_, _) => 0xFF
  }

  function ResponseLayout(code: byte): Option<seq<Kind>> {
    match code
    case 0x81 => Some(INFO)
    case 0x82 => Some(NODE)
    case 0x83 => Some([KU32, KBool, KU8])
    case 0x84 => Some(MESSAGE)
    case 0x85 => Some([KU32, KDelivery, KU8])
    case 0x86 => Some(NETWORK)
    case 0x87 => Some(STATUS)
    case 0x88 => Some([KEvent])
    case 0x89 => Some(SETTINGS)
    case 0x8A => Some([KId, KBool, KU32, KIds])
    case 0x8B => Some(IMAGE)
    case 0x8D => Some([KU32])
    case 0x8F => Some([KU8])
    case 0xFF => Some([KU8, KStr])
    case _ => None
  }

  function ResponseValues(r: Response): seq<Value> {
    match r
    case Info(i) => InfoValues(i)
    case Node(n) => NodeValues(n)
    case SendResult(handle, accepted, reason) => [VU32(handle), VBool(accepted), VU8(reason)]
    case MessageIs(m) => MessageValues(m)
    case DeliveryUpdate(handle, state, reason) => [VU32(handle), VDelivery(state), VU8(reason)]
    case NetworkIs(n) => NetworkValues(n)
    case StatusIs(s) => StatusValues(s)
    case EventIs(e) => [VEvent(e)]
    case End(kind) => [VU8(kind)]
    case Pong(n) => [VU32(n)]
    case Error(code, text) => [VU8(code), VStr(text)]
    case SettingsAre(s) => SettingsValues(s)
    case ImageIs(i) => ImageValues(i)
    case Trace(to, reached, hops, rtt) => [VId(to), VBool(reached), VU32(rtt), VIds(hops)]
  }

  function MakeResponse(code: byte, vs: seq<Value>): Response
    requires ResponseLayout(code).Some? && HasLayout(vs, ResponseLayout(code).value)
  {
    match code
    case 0x81 => Info(MakeInfo(vs))
    case 0x82 => Node(MakeNode(vs))
    case 0x83 => SendResult(vs[0].u32, vs[1].flag, vs[2].u8)
    case 0x84 => MessageIs(MakeMessage(vs))
    case 0x85 => DeliveryUpdate(vs[0].u32, vs[1].delivery, vs[2].u8)
    case 0x86 => NetworkIs(MakeNetwork(vs))
    case 0x87 => StatusIs(MakeStatus(vs))
    case 0x88 => EventIs(vs[0].event)
    case 0x89 => SettingsAre(MakeSettings(vs))
    case 0x8A => Trace(vs[0].id, vs[1].flag, vs[3].ids, vs[2].u32)
    case 0x8B => ImageIs(MakeImage(vs))
    case 0x8D => Pong(vs[0].u32)
    case 0x8F => End(vs[0].u8)
    case _ => Error(vs[0].u8, vs[1].text)
  }

  function PutResponse(r: Response, k: seq<byte>): seq<byte> { PutU8(ResponseCode(r), PutAll(ResponseValues(r), k)) }

  function GetResponse(b: seq<byte>): Parsed<Response> {
    var t :- GetU8(b);
    match ResponseLayout(t.0)
    case None => Bad(UnknownType(t.0))
    case Some(kinds) =>
      var vs :- GetAll(kinds, t.1);
      Good(MakeResponse(t.0, vs.0), vs.1)
  }

  predicate ResponseOk(r: Response) {
    forall i :: 0 <= i < |ResponseValues(r)| ==> Carried(ResponseValues(r)[i])
  }

  lemma ShortMade(r: Response)
    requires !(r.Info? || r.Node? || r.MessageIs? || r.NetworkIs? || r.StatusIs? || r.ImageIs?)
    ensures ResponseLayout(ResponseCode(r)).Some? && HasLayout(ResponseValues(r), ResponseLayout(ResponseCode(r)).value)
    ensures MakeResponse(ResponseCode(r), ResponseValues(r)) == r
  {
  }

  lemma ResponseMade(r: Response)
    ensures ResponseLayout(ResponseCode(r)).Some? && HasLayout(ResponseValues(r), ResponseLayout(ResponseCode(r)).value)
    ensures MakeResponse(ResponseCode(r), ResponseValues(r)) == r
  {
    match r
    case Info(i) => InfoMade(i);
    case Node(n) => NodeMade(n);
    case MessageIs(m) => MessageMade(m);
    case NetworkIs(n) => NetworkMade(n);
    case StatusIs(s) => StatusMade(s);
    case ImageIs(i) => ImageMade(i);
    case _ => ShortMade(r);
  }

  /** A response comes back as it was, whatever a newer sender appends. */
  lemma ResponseBack(r: Response, k: seq<byte>)
    requires ResponseOk(r)
    ensures GetResponse(PutResponse(r, k)) == Good(r, k)
  {
    var code, vs := ResponseCode(r), ResponseValues(r);
    ResponseMade(r);
    ByteBack(code, PutAll(vs, k));
    AllBack(vs, ResponseLayout(code).value, k);
  }

  // ----- streams of messages ----------------------------------------------------------------------------

  function RequestPayloads(rs: seq<Request>): seq<seq<byte>> {
    seq(|rs|, i requires 0 <= i < |rs| => PutRequest(rs[i], []))
  }

  function ResponsePayloads(rs: seq<Response>): seq<seq<byte>> {
    seq(|rs|, i requires 0 <= i < |rs| => PutResponse(rs[i], []))
  }

  /** A list of well-formed requests, written back to back, cut into chunks in any way and
      pushed chunk by chunk: the framer returns exactly the requests' payloads if and only
      if each fits the limit and the 16-bit length field; and then the payloads decode to
      exactly that list. */
  lemma RequestsComeBack(rs: seq<Request>, chunks: seq<seq<byte>>, max: nat)
    requires Concat(chunks) == Frames(RequestPayloads(rs))
    requires forall i :: 0 <= i < |rs| ==> RequestOk(rs[i])
    ensures
      var s := PushAll([], chunks, max);
      && (s.frames == RequestPayloads(rs) <==> forall i :: 0 <= i < |rs| ==> |PutRequest(rs[i], [])| <= Min(max, 65535))
      && (s.frames == RequestPayloads(rs) ==>
            s.left == [] && forall i :: 0 <= i < |rs| ==> GetRequest(s.frames[i]) == Good(rs[i], []))
  {
    var ps := RequestPayloads(rs);
    StreamComesBack(ps, chunks, max);
    forall i | 0 <= i < |rs|
      ensures GetRequest(ps[i]) == Good(rs[i], []) && ps[i] == PutRequest(rs[i], []) && |ps[i]| > 0
    {
      RequestBack(rs[i], []);
    }
  }

  lemma ResponsesComeBack(rs: seq<Response>, chunks: seq<seq<byte>>, max: nat)
    requires Concat(chunks) == Frames(ResponsePayloads(rs))
    requires forall i :: 0 <= i < |rs| ==> ResponseOk(rs[i])
    ensures
      var s := PushAll([], chunks, max);
      && (s.frames == ResponsePayloads(rs) <==> forall i :: 0 <= i < |rs| ==> |PutResponse(rs[i], [])| <= Min(max, 65535))
      && (s.frames == ResponsePayloads(rs) ==>
            s.left == [] && forall i :: 0 <= i < |rs| ==> GetResponse(s.frames[i]) == Good(rs[i], []))
  {
    var ps := ResponsePayloads(rs);
    StreamComesBack(ps, chunks, max);
    forall i | 0 <= i < |rs|
      ensures GetResponse(ps[i]) == Good(rs[i], []) && ps[i] == PutResponse(rs[i], []) && |ps[i]| > 0
    {
      ResponseBack(rs[i], []);
    }
  }

  lemma StreamComesBack(payloads: seq<seq<byte>>, chunks: seq<seq<byte>>, max: nat)
    requires Concat(chunks) == Frames(payloads)
    ensures
      var s := PushAll([], chunks, max);
      && (s.frames == payloads <==> forall i :: 0 <= i < |payloads| ==> Returnable(payloads[i], max))
      && (s.frames == payloads ==> s.left == [])
  {
    assert Scan([], max) == Scanned([], []);
    CutsDoNotMatter([], chunks, max);
    assert [] + Frames(payloads) == Frames(payloads);
    FramesComeBack([], payloads, max);
  }

  /** A profile photo of 65533 bytes or more is well formed and yet never comes back: its
      payload outgrows the length field, which wraps, and nothing the framer finds in its
      frame decodes to it, whatever the limit and however the stream is cut. */
  lemma LongPhotoIsLost(data: seq<byte>, chunks: seq<seq<byte>>, max: nat)
    requires 65533 <= |data| <= 65535
    requires Concat(chunks) == Frame(PutRequest(SetProfilePhoto(data), []))
    ensures RequestOk(SetProfilePhoto(data)) && |PutRequest(SetProfilePhoto(data), [])| == |data| + 3
    ensures forall f :: f in PushAll([], chunks, max).frames ==> GetRequest(f) != Good(SetProfilePhoto(data), [])
  {
    var r := SetProfilePhoto(data);
    PhotoPayload(data);
    assert Scan([], max) == Scanned([], []);
    CutsDoNotMatter([], chunks, max);
    var buf := Frame(PutRequest(r, []));
    assert [] + buf == buf;
    ScannedReturnable(buf, max);
    forall f | f in Scan(buf, max).frames ensures GetRequest(f) != Good(r, []) { PhotoNeeds(f, data); }
  }

  lemma PhotoPayload(data: seq<byte>)
    requires |data| <= 65535
    ensures |PutRequest(SetProfilePhoto(data), [])| == |data| + 3
  {
    assert RequestValues(SetProfilePhoto(data)) == [VBlob(data)];
    assert PutAll([VBlob(data)], []) == PutBlob(data, []);
    assert data[..|data|] == data;
  }

  /** A request that carries a photo is longer than the photo. */
  lemma PhotoNeeds(f: seq<byte>, data: seq<byte>)
    ensures GetRequest(f) == Good(SetProfilePhoto(data), []) ==> |f| >= |data| + 3
  {
    if GetRequest(f) == Good(SetProfilePhoto(data), []) {
      assert f[0] == 0x13;
      assert GetAll([KBlob], f[1..]).Good?;
    }
  }
}
