/** The transmit side of a node: the duty-cycle meter and the frame queue it guards. */
module Transmitter {
  import opened Basics
  import opened TxQueue
  import opened Radio
  import Spec = Power

  class PowerManager {
    const config: Spec.Config
    var txLog: seq<Spec.Entry>
    var airtimeInWindow: nat
    ghost var gone: seq<Spec.Entry>

    /** The running sum is the sum of the log. */
    ghost predicate Valid() reads this { airtimeInWindow == Spec.Sum(txLog) }

    ghost function Model(): Spec.Meter reads this { Spec.Meter(gone, txLog) }

    constructor (config: Spec.Config)
      ensures Valid() && Model() == Spec.Meter([], []) && this.config == config
    {
      this.config := config;
      txLog, airtimeInWindow, gone := [], 0, [];
    }

    method DropFirst()
      requires Valid() && txLog != []
      modifies this
      ensures Valid() && Model() == old(Model()).Drop()
    {
      airtimeInWindow := airtimeInWindow - txLog[0].airtime;
      gone := gone + [txLog[0]];
      txLog := txLog[1..];
    }

    method Prune(now: nat)
      requires Valid()
      modifies this
      ensures Valid() && Model() == Spec.Prune(config, old(Model()), now)
    {
      while txLog != [] && SatSub(now, txLog[0].at) > config.window
        invariant Valid() && Spec.Prune(config, Model(), now) == Spec.Prune(config, old(Model()), now)
        decreases |txLog|
      {
        DropFirst();
      }
    }

    method CanTransmit(now: nat, airtime: u32) returns (ok: bool)
      requires Valid()
      modifies this
      ensures Valid() && Model() == Spec.Prune(config, old(Model()), now)
      ensures ok == Spec.CanTransmit(config, old(Model()), now, airtime)
    {
      Prune(now);
      ok := airtimeInWindow + airtime <= config.Budget();
    }

    method RecordTx(now: nat, airtime: u32)
      requires Valid()
      modifies this
      ensures Valid() && Model() == Spec.RecordTx(config, old(Model()), now, airtime)
    {
      Prune(now);
      Spec.SumAppend(txLog, [Spec.Entry(now, airtime)]);
      txLog := txLog + [Spec.Entry(now, airtime)];
      airtimeInWindow := airtimeInWindow + airtime;
      if |txLog| > Spec.LOG_CAP { DropFirst(); }
    }
  }

  /** A node's transmit queue behind its meter. */
  class Sender {
    const profile: Profile
    const power: PowerManager
    var awake: bool
    var queue: seq<TxItem>

    ghost predicate Valid() reads this, power { profile.Sound() && power.Valid() }

    constructor (profile: Profile, power: PowerManager)
      requires profile.Sound() && power.Valid()
      ensures Valid() && queue == [] && this.profile == profile && this.power == power && awake
    {
      this.profile, this.power := profile, power;
      awake, queue := true, [];
    }

    /** The next frame for the radio: the most urgent eligible one, if the node is awake and
        the duty cycle lets it out; one that does not fit stays queued. */
    method NextTx(now: nat) returns (item: Option<TxItem>, ghost best: Option<nat>)
      requires Valid()
      modifies this, power
      ensures Valid() && awake == old(awake) && IsNext(old(queue), now, best)
      ensures !awake || best.None? ==> item == None && queue == old(queue) && power.Model() == old(power.Model())
      ensures awake && best.Some? ==>
                var next := old(queue)[best.value];
                var airtime := profile.AirtimeMs(|next.frame|);
                && power.Model() == Spec.Step(power.config, old(power.Model()), Spec.Offer(now, airtime))
                && if Spec.CanTransmit(power.config, old(power.Model()), now, airtime)
                   then item == Some(next) && queue == RemoveAt(old(queue), best.value)
                   else item == None && queue == old(queue)
    {
      var i := PickNext(queue, now);
      item, best := None, i;
      if awake && i.Some? {
        var airtime := profile.AirtimeMs(|queue[i.value].frame|);
        var ok := power.CanTransmit(now, airtime);
        if ok {
          item := Some(queue[i.value]);
          queue := RemoveAt(queue, i.value);
          power.RecordTx(now, airtime);
        }
      }
    }
  }

  /** On the default profile and limits (1 % of an hour), whatever frames a node sends,
      every closed hour stays within its 36 seconds. */
  lemma DefaultDutyCycle(es: seq<Spec.Event>)
    requires forall i, j :: 0 <= i < j < |es| ==> es[i].now <= es[j].now
    requires EU868.Sound()
    requires forall i :: 0 <= i < |es| && es[i].Offer? ==>
               exists len: nat :: 31 <= len <= 255 && es[i].airtime == EU868.AirtimeMs(len)
    ensures Spec.Within(Spec.Run(Spec.Config(3_600_000, 10), es).History(), Spec.Config(3_600_000, 10))
  {
    forall i | 0 <= i < |es| && es[i].Offer? ensures es[i].airtime >= 183 {
      var len: nat :| 31 <= len <= 255 && es[i].airtime == EU868.AirtimeMs(len);
      LeastAirtimes(len);
    }
    Spec.RunSafe(Spec.Config(3_600_000, 10), es, 183);
  }
}
