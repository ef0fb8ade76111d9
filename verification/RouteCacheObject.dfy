/** The route cache as an object over the sorted vector map, method by method equal to the
    functions of Routing. */
module RouteCacheObject {
  import opened Basics
  import opened SortedTable
  import opened SmallMapObject
  import Stable = StableSort
  import Spec = Routing

  /** Sort a list in place. */
  method SortList(list: seq<Spec.RouteEntry>, now: nat) returns (sorted: seq<Spec.RouteEntry>)
    ensures sorted == Stable.Sort(list, Spec.CostAt(now))
  {
    var v := new Spec.RouteEntry[|list|](i requires 0 <= i < |list| => list[i]);
    assert v[..] == list;
    Stable.SortByKey(v, Spec.CostAt(now));
    return v[..];
  }

  /** The first entry through `hop`. */
  method FindEntry(list: seq<Spec.RouteEntry>, hop: Address) returns (r: Option<nat>)
    ensures r == Spec.FindHop(list, hop)
  {
    var i := 0;
    while i < |list|
      invariant 0 <= i <= |list|
      invariant Spec.FindHop(list, hop) ==
                match Spec.FindHop(list[i..], hop) { case None => None case Some(j) => Some(i + j) }
    {
      if list[i].nextHop == hop { return Some(i); }
      assert list[i..][1..] == list[i + 1..];
      i := i + 1;
    }
    return None;
  }

  method RetainEntries(list: seq<Spec.RouteEntry>, keep: Spec.RouteEntry -> bool) returns (kept: seq<Spec.RouteEntry>)
    ensures kept == Spec.Select(list, keep)
  {
    kept := [];
    var i := |list|;
    while i > 0
      invariant 0 <= i <= |list| && kept == Spec.Select(list[i..], keep)
    {
      i := i - 1;
      assert list[i..][1..] == list[i + 1..];
      if keep(list[i]) { kept := [list[i]] + kept; }
    }
  }

  /** The latest use of any entry of a list. */
  method LatestUse(list: seq<Spec.RouteEntry>) returns (t: nat)
    ensures t == Spec.LastUse(list)
  {
    t := 0;
    var i := |list|;
    while i > 0
      invariant 0 <= i <= |list| && t == Spec.LastUse(list[i..])
    {
      i := i - 1;
      assert list[i..][1..] == list[i + 1..];
      if list[i].lastUsed >= t { t := list[i].lastUsed; }
    }
  }

  /** The destination unused for longest, the first of equals. */
  method LeastUsed(items: Spec.Table) returns (victim: nat)
    requires items != []
    ensures victim == Spec.Victim(items, |items|)
  {
    victim := 0;
    var i := 1;
    while i < |items|
      invariant 1 <= i <= |items| && victim == Spec.Victim(items, i)
    {
      var used := LatestUse(items[i].value);
      var least := LatestUse(items[victim].value);
      if used < least { victim := i; }
      i := i + 1;
    }
  }

  /** Add or refresh an entry in a destination's list. */
  method PlaceEntry(config: Spec.Config, routes: seq<Spec.RouteEntry>, e: Spec.RouteEntry, now: nat)
    returns (list: seq<Spec.RouteEntry>, better: bool)
    ensures (list, better) == Spec.Place(config, routes, e, now)
  {
    list := routes;
    var i := FindEntry(list, e.nextHop);
    if i.Some? {
      var existing := list[i.value];
      better := e.cost <= existing.cost || e.source.Discovery?;
      list := list[i.value := if better then e else existing.(expiresAt := Max(existing.expiresAt, e.expiresAt))];
      list := SortList(list, now);
    } else {
      list := SortList(list + [e], now);
      if |list| > config.alternatives { list := list[..config.alternatives]; }
      var j := FindEntry(list, e.nextHop);
      better := j.Some?;
    }
  }

  class RouteCache {
    const config: Spec.Config
    const routes: SmallMap<seq<Spec.RouteEntry>>

    ghost predicate Valid() reads this, routes { routes.Valid() }

    constructor (config: Spec.Config)
      ensures Valid() && fresh(routes) && routes.items == Spec.Run(config, []) && this.config == config
    {
      this.config := config;
      routes := new SmallMap();
    }

    /** Drop the destination unused for longest if a new one finds the table full. */
    method MakeRoom(dst: Address)
      requires Valid()
      modifies routes
      ensures Valid() && routes.items == Spec.Evict(config, old(routes.items), dst)
    {
      var present := routes.Get(dst);
      if present.Some? || |routes.items| < config.maxDestinations || routes.items == [] { return; }
      var victim := LeastUsed(routes.items);
      var _ := routes.Remove(routes.items[victim].key);
    }

    /** A destination's list, empty if it has none. */
    method Routes(dst: Address) returns (list: seq<Spec.RouteEntry>)
      requires Valid()
      ensures list == Spec.ListOf(routes.items, dst)
    {
      var found := routes.Get(dst);
      return match found case None => [] case Some(l) => l;
    }

    method Store(dst: Address, list: seq<Spec.RouteEntry>)
      requires Valid()
      modifies routes
      ensures Valid() && routes.items == Put(old(routes.items), dst, list)
    {
      var _ := routes.Insert(dst, list);
    }

    method Insert(entry: Spec.RouteEntry, now: nat) returns (better: bool)
      requires Valid()
      modifies routes
      ensures Valid() && (routes.items, better) == Spec.Insert(config, old(routes.items), entry, now)
    {
      var e := entry.(learnedAt := now, lastUsed := now);
      if e.expiresAt == 0 { e := e.(expiresAt := now + config.routeTtl); }
      assert e == Spec.Stamped(config, entry, now);
      MakeRoom(e.dst);
      var list := Routes(e.dst);
      list, better := PlaceEntry(config, list, e, now);
      Store(e.dst, list);
    }

    /** The best live route. */
    method Lookup(dst: Address, now: nat) returns (r: Option<Spec.RouteEntry>)
      requires Valid()
      ensures r == Spec.Lookup(routes.items, dst, now)
    {
      var found := routes.Get(dst);
      if found.None? { return None; }
      var list := found.value;
      var best: Option<nat> := None;
      var i := 0;
      while i < |list|
        invariant 0 <= i <= |list| && best == Spec.Best(list, now, i)
      {
        if list[i].Live(now) && (best.None? || list[i].EffectiveCost(now) < list[best.value].EffectiveCost(now)) { best := Some(i); }
        i := i + 1;
      }
      return match best case None => None case Some(b) => Some(list[b]);
    }

    /** Change the entry through `hop`, if there is one. */
    method Change(dst: Address, hop: Address, f: Spec.RouteEntry -> Spec.RouteEntry)
      requires Valid()
      modifies routes
      ensures Valid() && routes.items == Spec.Change(old(routes.items), dst, hop, f)
    {
      var found := routes.Get(dst);
      if found.None? { return; }
      var list := found.value;
      var i := FindEntry(list, hop);
      if i.Some? { var _ := routes.Insert(dst, list[i.value := f(list[i.value])]); }
    }

    method Touch(dst: Address, hop: Address, now: nat)
      requires Valid()
      modifies routes
      ensures Valid() && routes.items == Spec.Step(config, old(routes.items), Spec.Touch(dst, hop, now))
    {
      Change(dst, hop, Spec.Touched(config, now));
    }

    method MarkSuccess(dst: Address, hop: Address, now: nat)
      requires Valid()
      modifies routes
      ensures Valid() && routes.items == Spec.Step(config, old(routes.items), Spec.Success(dst, hop, now))
    {
      Change(dst, hop, Spec.Succeeded(config, now));
    }

    method MarkFailure(dst: Address, hop: Address) returns (removed: bool)
      requires Valid()
      modifies routes
      ensures Valid() && (routes.items, removed) == Spec.MarkFailure(config, old(routes.items), dst, hop)
    {
      removed := false;
      var found := routes.Get(dst);
      if found.None? { return; }
      var list := found.value;
      var i := FindEntry(list, hop);
      if i.Some? {
        var r := list[i.value].(failures := SatAdd(list[i.value].failures, 1, 255));
        list := list[i.value := r];
        removed := r.failures >= config.maxFailures;
        if removed { list := RetainEntries(list, Spec.NotVia(hop)); }
      }
      if list == [] {
        var _ := routes.Remove(dst);
      } else if i.Some? {
        var _ := routes.Insert(dst, list);
      }
    }

    /** Keep the entries that satisfy `keep`; lists left empty go.  Returns the destinations
        that lost an entry, and how many entries went. */
    method Sweep(keep: Spec.RouteEntry -> bool) returns (affected: seq<nat>, dropped: int)
      requires Valid()
      modifies routes
      ensures Valid() && routes.items == Spec.Prune(old(routes.items), keep)
      ensures affected == Spec.Affected(old(routes.items), keep) && dropped == Spec.Dropped(old(routes.items), keep)
    {
      ghost var was := routes.items;
      var swept: seq<Item<seq<Spec.RouteEntry>>> := [];
      affected, dropped := [], 0;
      var i := |routes.items|;
      while i > 0
        invariant 0 <= i <= |was| && routes.items == was && Valid()
        invariant swept == Spec.Prune(was[i..], keep)
        invariant affected == Spec.Affected(was[i..], keep) && dropped == Spec.Dropped(was[i..], keep)
      {
        i := i - 1;
        assert was[i..][1..] == was[i + 1..];
        var item := routes.items[i];
        var list := RetainEntries(item.value, keep);
        if |list| != |item.value| { affected := [item.key] + affected; }
        dropped := dropped + |item.value| - |list|;
        if list != [] { swept := [Item(item.key, list)] + swept; }
      }
      assert was[0..] == was;
      Spec.PruneSorted(was, keep);
      routes.items := swept;
    }

    method InvalidateVia(hop: Address) returns (affected: seq<nat>)
      requires Valid()
      modifies routes
      ensures Valid() && routes.items == Spec.Step(config, old(routes.items), Spec.InvalidateVia(hop))
      ensures affected == Spec.Affected(old(routes.items), Spec.NotVia(hop))
    {
      var dropped;
      affected, dropped := Sweep(Spec.NotVia(hop));
    }

    method Expire(now: nat) returns (dropped: int)
      requires Valid()
      modifies routes
      ensures Valid() && routes.items == Spec.Step(config, old(routes.items), Spec.Expire(now))
      ensures dropped == Spec.Dropped(old(routes.items), Spec.LiveAt(now))
    {
      var affected;
      affected, dropped := Sweep(Spec.LiveAt(now));
    }

    method Remove(dst: Address) returns (was: bool)
      requires Valid()
      modifies routes
      ensures Valid() && routes.items == Spec.Step(config, old(routes.items), Spec.Remove(dst))
      ensures was <==> dst in old(routes.Map())
    {
      GetIsContents(routes.items, dst);
      var removed := routes.Remove(dst);
      was := removed.Some?;
    }
  }
}
