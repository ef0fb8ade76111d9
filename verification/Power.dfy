/** The regulatory duty cycle: a log of recent transmissions limits the airtime that
    may be started in any window. */
module Power {
  import opened Basics

  const LOG_CAP := 4096

  datatype Entry = Entry(at: nat, airtime: u32)

  /** The transmit log, oldest first, and what has already been dropped from its front. */
  datatype Meter = Meter(gone: seq<Entry>, log: seq<Entry>) {
    function History(): seq<Entry> { gone + log }

    /** Drop the oldest entry. */
    function Drop(): Meter
      requires log != []
    {
      Meter(gone + [log[0]], log[1..])
    }
  }

  datatype Config = Config(window: nat, permille: u16) {
    function Budget(): nat { window * permille / 1000 }
  }

  function Sum(log: seq<Entry>): nat {
    if log == [] then 0 else log[0].airtime + Sum(log[1..])
  }

  /** Forget what lies more than a window back. */
  function Prune(c: Config, m: Meter, now: nat): Meter
    decreases |m.log|
  {
    if m.log != [] && SatSub(now, m.log[0].at) > c.window then Prune(c, m.Drop(), now) else m
  }

  predicate CanTransmit(c: Config, m: Meter, now: nat, airtime: u32) {
    Sum(Prune(c, m, now).log) + airtime <= c.Budget()
  }

  function RecordTx(c: Config, m: Meter, now: nat, airtime: u32): Meter {
    var p := Prune(c, m, now);
    var r := p.(log := p.log + [Entry(now, airtime)]);
    if |r.log| > LOG_CAP then r.Drop() else r
  }

  // ----- runs ------------------------------------------------------------------------------

  /** A frame offered to the transmitter, or a reading of the meter, at some time. */
  datatype Event = Offer(now: nat, airtime: u32) | Query(now: nat)

  /** A frame is sent exactly when the meter allows it, and is then recorded. */
  function Step(c: Config, m: Meter, e: Event): Meter {
    match e
    case Query(now) => Prune(c, m, now)
    case Offer(now, airtime) =>
      var p := Prune(c, m, now);
      if CanTransmit(c, m, now, airtime) then RecordTx(c, p, now, airtime) else p
  }

  function Run(c: Config, es: seq<Event>): Meter {
    if es == [] then Meter([], []) else Step(c, Run(c, es[..|es| - 1]), es[|es| - 1])
  }

  /** Times never go back, and every frame takes at least `least` on air. */
  ghost predicate Legal(es: seq<Event>, least: nat) {
    && (forall i, j :: 0 <= i < j < |es| ==> es[i].now <= es[j].now)
    && (forall i :: 0 <= i < |es| && es[i].Offer? ==> es[i].airtime >= least)
  }

  /** The airtime started in the closed interval from `from` to `from + window`. */
  ghost function Started(h: seq<Entry>, from: nat, window: nat): nat {
    if h == [] then 0
    else (if from <= h[0].at <= from + window then h[0].airtime else 0) + Started(h[1..], from, window)
  }

  ghost predicate Within(h: seq<Entry>, c: Config) {
    forall from: nat :: Started(h, from, c.window) <= c.Budget()
  }

  // ----- sums ------------------------------------------------------------------------------

  lemma {:induction false} SumAppend(a: seq<Entry>, b: seq<Entry>)
    ensures Sum(a + b) == Sum(a) + Sum(b)
  {
    if a == [] {
      assert a + b == b;
    } else {
      assert (a + b)[1..] == a[1..] + b;
      SumAppend(a[1..], b);
    }
  }

  lemma {:induction false} StartedAppend(a: seq<Entry>, b: seq<Entry>, from: nat, window: nat)
    ensures Started(a + b, from, window) == Started(a, from, window) + Started(b, from, window)
  {
    if a == [] {
      assert a + b == b;
    } else {
      assert (a + b)[1..] == a[1..] + b;
      StartedAppend(a[1..], b, from, window);
    }
  }

  lemma {:induction false} StartedAtMost(a: seq<Entry>, from: nat, window: nat)
    ensures Started(a, from, window) <= Sum(a)
  {
    if a != [] { StartedAtMost(a[1..], from, window); }
  }

  lemma {:induction false} StartedEarlier(a: seq<Entry>, from: nat, window: nat)
    requires forall e <- a :: e.at < from
    ensures Started(a, from, window) == 0
  {
    if a != [] { StartedEarlier(a[1..], from, window); }
  }

  lemma {:induction false} SumAtLeast(a: seq<Entry>, least: nat)
    requires forall e <- a :: e.airtime >= least
    ensures Sum(a) >= |a| * least
  {
    if a != [] { SumAtLeast(a[1..], least); }
  }

  // ----- safety ----------------------------------------------------------------------------

  /** What was dropped is more than a window old. */
  ghost predicate Inv(c: Config, m: Meter, last: nat, least: nat) {
    && (forall e <- m.gone :: e.at + c.window < last)
    && (forall e <- m.log :: e.at <= last && e.airtime >= least)
    && Sum(m.log) <= c.Budget()
  }

  lemma {:induction false} PruneKeeps(c: Config, m: Meter, last: nat, now: nat, least: nat)
    requires Inv(c, m, last, least) && last <= now
    ensures Inv(c, Prune(c, m, now), now, least) && Prune(c, m, now).History() == m.History()
    ensures Prune(c, Prune(c, m, now), now) == Prune(c, m, now)
    decreases |m.log|
  {
    if m.log != [] && SatSub(now, m.log[0].at) > c.window {
      assert m.Drop().History() == m.History();
      PruneKeeps(c, m.Drop(), now, now, least);
    }
  }

  /** Only what the log holds can count in a window that reaches up to `now`. */
  lemma LogCovers(c: Config, m: Meter, now: nat, least: nat, from: nat)
    requires Inv(c, m, now, least) && from <= now <= from + c.window
    ensures Started(m.History(), from, c.window) <= c.Budget()
  {
    StartedAppend(m.gone, m.log, from, c.window);
    StartedEarlier(m.gone, from, c.window);
    StartedAtMost(m.log, from, c.window);
  }

  /** Recording never makes the log too long, so nothing that still counts is dropped. */
  lemma RecordKeeps(c: Config, m: Meter, now: nat, airtime: u32, least: nat)
    requires Inv(c, m, now, least) && m == Prune(c, m, now)
    requires Sum(m.log) + airtime <= c.Budget() && airtime >= least && c.Budget() < (LOG_CAP + 1) * least
    ensures Inv(c, RecordTx(c, m, now, airtime), now, least)
    ensures RecordTx(c, m, now, airtime).History() == m.History() + [Entry(now, airtime)]
  {
    var log := m.log + [Entry(now, airtime)];
    SumAppend(m.log, [Entry(now, airtime)]);
    SumAtLeast(log, least);
    MulCancel(|log|, LOG_CAP + 1, least);
    assert m.gone + log == m.History() + [Entry(now, airtime)];
  }

  lemma StepSafe(c: Config, m: Meter, last: nat, e: Event, least: nat)
    requires Inv(c, m, last, least) && Within(m.History(), c) && last <= e.now && (e.Offer? ==> e.airtime >= least)
    requires c.Budget() < (LOG_CAP + 1) * least
    ensures Inv(c, Step(c, m, e), e.now, least) && Within(Step(c, m, e).History(), c)
  {
    var p := Prune(c, m, e.now);
    PruneKeeps(c, m, last, e.now, least);
    if e.Offer? && CanTransmit(c, m, e.now, e.airtime) {
      RecordKeeps(c, p, e.now, e.airtime, least);
      var r := RecordTx(c, p, e.now, e.airtime);
      forall from: nat ensures Started(r.History(), from, c.window) <= c.Budget() {
        StartedAppend(m.History(), [Entry(e.now, e.airtime)], from, c.window);
        if from <= e.now <= from + c.window { LogCovers(c, r, e.now, least, from); }
      }
    }
  }

  lemma {:induction false} RunSafe(c: Config, es: seq<Event>, least: nat)
    requires Legal(es, least) && c.Budget() < (LOG_CAP + 1) * least
    ensures Inv(c, Run(c, es), if es == [] then 0 else es[|es| - 1].now, least)
    ensures Within(Run(c, es).History(), c)
    decreases |es|
  {
    if es != [] {
      var es' := es[..|es| - 1];
      RunSafe(c, es', least);
      var last := if es' == [] then 0 else es'[|es'| - 1].now;
      assert last <= es[|es| - 1].now;
      StepSafe(c, Run(c, es'), last, es[|es| - 1], least);
    }
  }

  // ----- and exactly when -------------------------------------------------------------------

  /** `n` frames of the same airtime offered at once. */
  function Burst(n: nat, airtime: u32): seq<Event> {
    seq(n, _ => Offer(0, airtime))
  }

  ghost predicate Uniform(h: seq<Entry>, airtime: u32) {
    forall i :: 0 <= i < |h| ==> h[i] == Entry(0, airtime)
  }

  lemma {:induction false} SumAtMost(a: seq<Entry>, most: nat)
    requires forall e <- a :: e.airtime <= most
    ensures Sum(a) <= |a| * most
  {
    if a != [] { SumAtMost(a[1..], most); }
  }

  lemma {:induction false} StartedBurst(h: seq<Entry>, window: nat, airtime: u32)
    requires Uniform(h, airtime)
    ensures Started(h, 0, window) == |h| * airtime
  {
    if h != [] {
      StartedBurst(h[1..], window, airtime);
      assert |h| * airtime == airtime + (|h| - 1) * airtime;
    }
  }

  lemma UniformRecord(c: Config, m: Meter, airtime: u32)
    requires Uniform(m.gone, airtime) && Uniform(m.log, airtime) && |m.log| <= LOG_CAP && Prune(c, m, 0) == m
    ensures
      var r := RecordTx(c, m, 0, airtime);
      |r.gone| + |r.log| == |m.gone| + |m.log| + 1 && |r.log| <= LOG_CAP && Uniform(r.gone, airtime) && Uniform(r.log, airtime)
  {
  }

  /** The state of the meter in a burst of `n` frames. */
  ghost predicate InBurst(m: Meter, n: nat, airtime: u32) {
    |m.gone| + |m.log| == n && |m.log| <= LOG_CAP && Uniform(m.gone, airtime) && Uniform(m.log, airtime)
  }

  /** Once the log is full the meter stops counting: the next frame is not refused either. */
  lemma BurstStep(c: Config, m: Meter, n: nat, airtime: u32)
    requires c.Budget() >= (LOG_CAP + 1) * airtime && InBurst(m, n, airtime)
    ensures InBurst(Step(c, m, Offer(0, airtime)), n + 1, airtime)
  {
    assert Prune(c, m, 0) == m;
    SumAtMost(m.log, airtime);
    MulMonotone(|m.log|, LOG_CAP, airtime);
    UniformRecord(c, m, airtime);
  }

  lemma {:induction false} BurstPasses(c: Config, n: nat, airtime: u32)
    requires c.Budget() >= (LOG_CAP + 1) * airtime
    ensures InBurst(Run(c, Burst(n, airtime)), n, airtime)
  {
    var es := Burst(n, airtime);
    if n > 0 {
      BurstPasses(c, n - 1, airtime);
      assert es[..n - 1] == Burst(n - 1, airtime) && es[n - 1] == Offer(0, airtime);
      BurstStep(c, Run(c, Burst(n - 1, airtime)), n - 1, airtime);
    }
  }

  /** The airtime started in every closed window stays within the budget over every run,
      exactly when the budget is less than 4097 times the least airtime of a frame:
      beyond that the 4096 entry log forgets transmissions that still count. */
  lemma DutyCycle(c: Config, least: u32)
    requires least > 0
    ensures (forall es :: Legal(es, least) ==> Within(Run(c, es).History(), c)) <==> c.Budget() < (LOG_CAP + 1) * least
  {
    if c.Budget() < (LOG_CAP + 1) * least {
      forall es | Legal(es, least) ensures Within(Run(c, es).History(), c) { RunSafe(c, es, least); }
    } else {
      var n := c.Budget() + 1;
      BurstPasses(c, n, least);
      var h := Run(c, Burst(n, least)).History();
      StartedBurst(h, c.window, least);
      MulMonotone(1, least, n);
      assert Started(h, 0, c.window) > c.Budget();
      assert Legal(Burst(n, least), least) && !Within(h, c);
    }
  }
}
