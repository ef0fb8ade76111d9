/** The relay's reliability layer as an object: the pending table and the transmit queue
    changed in place, method by method equal to the functions of HopReliability. */
module RelayObject {
  import opened Basics
  import opened Packet
  import opened TxQueue
  import Spec = HopReliability
  import PacketIds
  import Copies = HopCopies

  class Relay {
    const config: Spec.Config
    const tables: Spec.Tables
    var pending: seq<Spec.Pending>
    var queue: seq<TxItem>
    var packetIds: u32
    var tick: nat
    ghost var queued: seq<PacketKey>
    ghost var calls: seq<PacketKey>

    ghost function Model(): Spec.State reads this {
      Spec.State(pending, queue, packetIds, tick, queued, calls)
    }

    constructor (config: Spec.Config, tables: Spec.Tables, seed: u32)
      ensures Model() == Copies.Run(config, tables, seed, [])
      ensures this.config == config && this.tables == tables
    {
      this.config, this.tables := config, tables;
      pending, queue, packetIds, tick, queued, calls := [], [], seed, 0, [], [];
    }

    method NewPacketId() returns (id: u32)
      modifies this`packetIds
      ensures id == packetIds == PacketIds.NextId(old(packetIds))
    {
      packetIds := (packetIds + 1) % U32 * PacketIds.MULTIPLIER % U32;
      return packetIds;
    }

    method Enqueue(p: Packet, notBefore: nat, priority: byte, isRelay: bool) returns (ok: bool)
      modifies this`queue, this`queued
      ensures Model() == Spec.Enqueue(config, old(Model()), p, notBefore, priority, isRelay)
      ensures ok <==> queued != old(queued)
    {
      var frame := Encode(p, config.key);
      if frame.Err? { return false; }
      if |queue| >= config.maxQueue {
        var i := FindVictim(queue);
        if i.None? { return false; }
        queue := RemoveAt(queue, i.value);
      }
      queue := queue + [TxItem(frame.value, notBefore, p.header.ptype, priority, isRelay, p.header.dst)];
      queued := queued + [p.header.Key()];
      return true;
    }

    /** Keep the entries whose key is another. */
    method RetainOthers(key: PacketKey)
      modifies this`pending
      ensures pending == Spec.Without(old(pending), key)
    {
      var kept: seq<Spec.Pending> := [];
      var i := |pending|;
      while i > 0
        invariant 0 <= i <= |pending| && pending == old(pending)
        invariant kept == Spec.Without(pending[i..], key)
      {
        i := i - 1;
        assert pending[i..][1..] == pending[i + 1..];
        if pending[i].key != key { kept := [pending[i]] + kept; }
      }
      assert pending[0..] == pending;
      pending := kept;
    }

    method TrackHop(p: Packet, nextHop: Address, now: nat, isRelay: bool)
      modifies this`pending, this`tick
      ensures Model() == Spec.Track(config, tables, old(Model()), p, nextHop, now, isRelay)
    {
      if config.retries == 0 || |pending| >= config.cap { return; }
      var key := p.header.Key();
      RetainOthers(key);
      var due := now + Spec.HopTimeout(config, p) + tables.random(tick) % 200;
      tick := tick + 1;
      pending := pending + [Spec.Pending(key, nextHop, p, 1, due, isRelay, false)];
    }

    /** Track a packet and queue its first copy, as forwarding and routing do. */
    method HandOver(p: Packet, nextHop: Address, at: nat, priority: byte, isRelay: bool) returns (ok: bool)
      modifies this
      ensures Model() == Spec.Send(config, tables, old(Model()), p, nextHop, at, priority, isRelay)
    {
      TrackHop(p, nextHop, at, isRelay);
      calls := calls + [p.header.Key()];
      ok := Enqueue(p, at, priority, isRelay);
    }

    method HopConfirmed(key: PacketKey, from: Address)
      modifies this`pending
      ensures pending == Spec.Confirmed(old(pending), key, from)
    {
      var kept: seq<Spec.Pending> := [];
      var i := |pending|;
      while i > 0
        invariant 0 <= i <= |pending| && pending == old(pending)
        invariant kept == Spec.Confirmed(pending[i..], key, from)
      {
        i := i - 1;
        assert pending[i..][1..] == pending[i + 1..];
        if !(pending[i].key == key && pending[i].nextHop == from) { kept := [pending[i]] + kept; }
      }
      assert pending[0..] == pending;
      pending := kept;
    }

    method SendRouteError(to: Address, unreachable: Address, now: nat)
      modifies this
      ensures Model() == Spec.ReportError(config, tables, old(Model()), to, unreachable, now)
    {
      var route := tables.nextHop(tick, to);
      if to == config.me || route.None? {
        tick := tick + 1;
        return;
      }
      SendReport(Spec.ErrorPacket(config, tables, packetIds, tick, to, unreachable), tables.nextHop(tick + 2, to), now);
    }

    /** Draw the id of the report and hand it over. */
    method SendReport(p: Packet, nextHop: Option<Address>, now: nat)
      requires p.header.packetId == PacketIds.NextId(packetIds)
      modifies this
      ensures Model() == Spec.SendReport(config, tables, old(Model()), p, nextHop, now)
    {
      var _ := NewPacketId();
      tick := tick + 3;
      if nextHop.Some? {
        var _ := HandOver(p, nextHop.value, now, PRIO_CONTROL, true);
      }
    }

    /** Mark the first entry with this key. */
    method MarkRerouted(key: PacketKey)
      modifies this`pending
      ensures pending == Spec.MarkRerouted(old(pending), key)
    {
      var i := 0;
      while i < |pending| && pending[i].key != key
        invariant 0 <= i <= |pending| && pending == old(pending)
        invariant Spec.MarkRerouted(pending, key) == pending[..i] + Spec.MarkRerouted(pending[i..], key)
      {
        assert pending[i..][1..] == pending[i + 1..];
        i := i + 1;
      }
      if i < |pending| { pending := pending[i := pending[i].(rerouted := true)]; }
    }

    method Reroute(h: Spec.Pending, alt: Address, now: nat)
      modifies this
      ensures Model() == Spec.Reroute(config, tables, old(Model()), h, alt, now)
    {
      var p := h.packet.(header := h.packet.header.(nextHop := Short(alt)));
      TrackHop(p, alt, now, h.isRelay);
      MarkRerouted(p.header.Key());
      var _ := Enqueue(p, now, PRIO_DATA, h.isRelay);
    }

    method GiveUp(h: Spec.Pending, alt: Option<Address>, now: nat)
      modifies this
      ensures Model() == Spec.GiveUp(config, tables, old(Model()), h, alt, now)
    {
      if alt.Some? && alt.value != h.nextHop {
        Reroute(h, alt.value, now);
      } else if config.reports {
        SendRouteError(h.packet.header.src, h.packet.header.dst, now);
      }
    }

    method Drop(i: nat) returns (h: Spec.Pending, alt: Option<Address>)
      requires i < |pending|
      modifies this`pending, this`tick
      ensures Model() == Spec.Dropped(old(Model()), i)
      ensures h == old(pending[i]) && alt == Spec.Alternative(tables, old(Model()), h)
    {
      h := pending[i];
      alt := if h.rerouted then None else tables.nextHop(tick, h.packet.header.dst);
      pending, tick := RemoveAt(pending, i), tick + 1;
    }

    method Fail(i: nat, now: nat)
      requires i < |pending|
      modifies this
      ensures Model() == Spec.Fail(config, tables, old(Model()), i, now)
    {
      var h, alt := Drop(i);
      GiveUp(h, alt, now);
    }

    method Retransmit(i: nat, now: nat)
      requires i < |pending|
      modifies this
      ensures Model() == Spec.Retransmit(config, tables, old(Model()), i, now)
    {
      var h := pending[i];
      var jitter := tables.random(tick) % 300;
      tick := tick + 1;
      pending := pending[i := h.(attempts := (h.attempts + 1) % 256, due := now + Spec.HopTimeout(config, h.packet) + jitter)];
      var _ := Enqueue(h.packet, now + jitter, PRIO_DATA, h.isRelay);
    }

    /** The retransmission loop.  It ends although a failure can append an entry behind
        the index. */
    method Poll(now: nat)
      modifies this
      ensures Model() == Spec.PollFrom(config, tables, old(Model()), 0, now)
    {
      var i := 0;
      while i < |pending|
        invariant Spec.PollFrom(config, tables, Model(), i, now) == Spec.PollFrom(config, tables, old(Model()), 0, now)
        decreases Spec.Exhausted(pending, i, config.retries), |pending| - i
      {
        ghost var s := Model();
        Spec.TurnDecreases(config, tables, s, i, now);
        if pending[i].due > now {
          i := i + 1;
        } else if pending[i].attempts > config.retries {
          Fail(i, now);
        } else {
          Retransmit(i, now);
          i := i + 1;
        }
      }
    }
  }
}
