/** The transmit queue: what a full queue drops, and which frame goes out next. */
module TxQueue {
  import opened Basics
  import opened Packet

  // Priorities, most urgent first.
  const PRIO_CONTROL: byte := 0
  const PRIO_DATA: byte := 1

  datatype TxItem = TxItem(frame: seq<byte>, notBefore: nat, ptype: PacketType, priority: byte, isRelay: bool, dst: Address)

  /** Among the first `n` items, the relayed one to drop: the least urgent, the last of equals. */
  function Victim(q: seq<TxItem>, n: nat): (r: Option<nat>)
    requires n <= |q|
    ensures r.None? <==> forall j :: 0 <= j < n ==> !q[j].isRelay
    ensures r.Some? ==>
              && r.value < n && q[r.value].isRelay
              && forall j :: 0 <= j < n && q[j].isRelay ==>
                   q[j].priority <= q[r.value].priority && (j > r.value ==> q[j].priority < q[r.value].priority)
  {
    if n == 0 then None
    else
      var r := Victim(q, n - 1);
      if q[n - 1].isRelay && (r.None? || q[n - 1].priority >= q[r.value].priority) then Some(n - 1) else r
  }

  function RemoveAt<T>(s: seq<T>, i: nat): (r: seq<T>)
    requires i < |s|
    ensures |r| == |s| - 1
  {
    s[..i] + s[i + 1..]
  }

  /** Queue an item; a full queue makes room by dropping a relayed item, or refuses. */
  function Push(q: seq<TxItem>, item: TxItem, max: nat): (r: Option<seq<TxItem>>)
    ensures r.Some? ==> 0 < |r.value| <= Basics.Max(|q|, max) && r.value[|r.value| - 1] == item
    ensures r.None? <==> |q| >= max && forall i <- q :: !i.isRelay
  {
    if |q| < max then Some(q + [item])
    else
      match Victim(q, |q|)
      case None => None
      case Some(i) => Some(RemoveAt(q, i) + [item])
  }

  // ----- the next frame -------------------------------------------------------------------

  predicate Before(a: TxItem, b: TxItem) {
    a.priority < b.priority || (a.priority == b.priority && a.notBefore < b.notBefore)
  }

  /** `r` is the frame to send: eligible, and no eligible frame is more urgent; the first of
      equals. */
  ghost predicate IsNext(q: seq<TxItem>, now: nat, r: Option<nat>) {
    match r
    case None => forall i <- q :: i.notBefore > now
    case Some(b) =>
      && b < |q| && q[b].notBefore <= now
      && forall j :: 0 <= j < |q| && q[j].notBefore <= now ==> !Before(q[j], q[b]) && (j < b ==> Before(q[b], q[j]))
  }

  /** Scan the queue for the frame to send. */
  method PickNext(q: seq<TxItem>, now: nat) returns (best: Option<nat>)
    ensures IsNext(q, now, best)
  {
    best := None;
    var i := 0;
    while i < |q|
      invariant 0 <= i <= |q|
      invariant IsNext(q[..i], now, best)
    {
      if q[i].notBefore <= now {
        match best {
          case None => best := Some(i);
          case Some(b) => if Before(q[i], q[b]) { best := Some(i); }
        }
      }
      assert q[..i + 1] == q[..i] + [q[i]];
      i := i + 1;
    }
    assert q[..|q|] == q;
  }

  /** Scan the queue for the relayed item to drop. */
  method FindVictim(q: seq<TxItem>) returns (r: Option<nat>)
    ensures r == Victim(q, |q|)
  {
    r := None;
    var i := 0;
    while i < |q|
      invariant 0 <= i <= |q| && r == Victim(q, i)
    {
      if q[i].isRelay && (r.None? || q[i].priority >= q[r.value].priority) { r := Some(i); }
      i := i + 1;
    }
  }
}
