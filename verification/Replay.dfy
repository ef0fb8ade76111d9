/** The 64-entry anti-replay window of a transport session. */
module Replay {
  import opened Bits

  const SIZE: nat := 64

  /** The window's three fields as a value. */
  datatype Window = Window(top: nat, bitmap: nat, acceptedAny: bool) {

    predicate Check(ctr: nat) {
      if !acceptedAny then true
      else if ctr > top then true
      else
        var diff := top - ctr;
        diff < SIZE && And(bitmap, Shl(SIZE, 1, diff)) == 0
    }

    /** The window after `ctr` is offered; it is recorded exactly when `Check` passes. */
    function Offer(ctr: nat): Window {
      if !Check(ctr) then this
      else if !acceptedAny then Window(ctr, 1, true)
      else if ctr > top then
        var shift := ctr - top;
        Window(ctr, Or(if shift >= SIZE then 0 else Shl(SIZE, bitmap, shift), 1), true)
      else this.(bitmap := Or(bitmap, Shl(SIZE, 1, top - ctr)))
    }
  }

  const EMPTY := Window(0, 0, false)

  /** What RFC 4303, section 3.4.3 asks of a 64-entry window: the counter is new
      and not 64 or more behind the greatest one accepted. */
  ghost predicate Fresh(accepted: set<nat>, ctr: nat) {
    ctr !in accepted && forall a <- accepted :: ctr + SIZE > a
  }

  /** Bit `i` tells whether `top - i` has been accepted. */
  ghost predicate Records(bitmap: nat, top: nat, accepted: set<nat>) {
    forall i: nat :: i < SIZE ==> (Bit(bitmap, i) <==> i <= top && top - i in accepted)
  }

  /** `w` represents the set of counters accepted so far. */
  ghost predicate Represents(w: Window, accepted: set<nat>) {
    && w.bitmap < Pow2(SIZE)
    && (w.acceptedAny <==> accepted != {})
    && (w.acceptedAny ==>
          && w.top in accepted
          && (forall a <- accepted :: a <= w.top)
          && Records(w.bitmap, w.top, accepted))
  }

  lemma CheckIsFresh(w: Window, accepted: set<nat>, ctr: nat)
    requires Represents(w, accepted)
    ensures w.Check(ctr) <==> Fresh(accepted, ctr)
  {
    if w.acceptedAny && ctr <= w.top && w.top - ctr < SIZE {
      MaskTestsBit(SIZE, w.bitmap, w.top - ctr);
      assert w.top - (w.top - ctr) == ctr;
    }
  }

  /** Offering a counter keeps the representation: the accepted set grows by the
      counter exactly when it was fresh. */
  lemma OfferRepresents(w: Window, accepted: set<nat>, ctr: nat)
    requires Represents(w, accepted)
    ensures Represents(w.Offer(ctr), if Fresh(accepted, ctr) then accepted + {ctr} else accepted)
  {
    CheckIsFresh(w, accepted, ctr);
    assert Pow2(SIZE) > 1;
    if w.Check(ctr) {
      if !w.acceptedAny {
        forall i: nat | i < SIZE ensures Bit(1, i) <==> i <= ctr && ctr - i in accepted + {ctr} {
          BitOne(i);
        }
      } else if ctr > w.top {
        OfferAbove(w, accepted, ctr);
      } else {
        OfferInside(w, accepted, ctr);
      }
    }
  }

  lemma OfferAbove(w: Window, accepted: set<nat>, ctr: nat)
    requires Represents(w, accepted) && w.acceptedAny && ctr > w.top
    ensures Represents(w.Offer(ctr), accepted + {ctr})
  {
    var shift := ctr - w.top;
    var bitmap := w.Offer(ctr).bitmap;
    ShiftedBound(w.bitmap, shift);
    forall i: nat | i < SIZE ensures Bit(bitmap, i) <==> i == 0 || (i >= shift && Bit(w.bitmap, i - shift)) {
      ShiftedBit(w.bitmap, shift, i);
    }
    ShiftRecords(w.bitmap, w.top, bitmap, accepted, ctr);
  }

  /** A bitmap moved up and given the new bit 0 records the new counter as well. */
  lemma ShiftRecords(bitmap: nat, top: nat, bitmap': nat, accepted: set<nat>, ctr: nat)
    requires Records(bitmap, top, accepted) && ctr > top && forall a <- accepted :: a <= top
    requires forall i: nat :: i < SIZE ==> (Bit(bitmap', i) <==> i == 0 || (i >= ctr - top && Bit(bitmap, i - (ctr - top))))
    ensures Records(bitmap', ctr, accepted + {ctr})
  {
    forall i: nat | i < SIZE ensures Bit(bitmap', i) <==> i <= ctr && ctr - i in accepted + {ctr} {
      if i >= ctr - top {
        assert top - (i - (ctr - top)) == ctr - i;
      }
    }
  }

  lemma ShiftedBound(bitmap: nat, shift: nat)
    requires bitmap < Pow2(SIZE)
    ensures Or(if shift >= SIZE then 0 else Shl(SIZE, bitmap, shift), 1) < Pow2(SIZE)
  {
    ShlBound(SIZE, bitmap, shift);
    assert Pow2(SIZE) > 1;
    OrBound(if shift >= SIZE then 0 else Shl(SIZE, bitmap, shift), 1, SIZE);
  }

  /** After a shift bit 0 is the new counter, and bit `i` what bit `i - shift` was. */
  lemma ShiftedBit(bitmap: nat, shift: nat, i: nat)
    requires bitmap < Pow2(SIZE) && 0 < shift && i < SIZE
    ensures
      var shifted := if shift >= SIZE then 0 else Shl(SIZE, bitmap, shift);
      Bit(Or(shifted, 1), i) <==> i == 0 || (i >= shift && Bit(bitmap, i - shift))
  {
    var shifted := if shift >= SIZE then 0 else Shl(SIZE, bitmap, shift);
    BitOr(shifted, 1, i);
    BitOne(i);
    if shift >= SIZE {
      BitZero(i);
    } else {
      BitShl(SIZE, bitmap, shift, i);
    }
  }

  lemma OfferInside(w: Window, accepted: set<nat>, ctr: nat)
    requires Represents(w, accepted) && w.acceptedAny && ctr <= w.top && w.top - ctr < SIZE
    requires w.Check(ctr)
    ensures Represents(w.Offer(ctr), accepted + {ctr})
  {
    var d := w.top - ctr;
    var bitmap := w.Offer(ctr).bitmap;
    MarkedBound(w.bitmap, d);
    forall i: nat | i < SIZE ensures Bit(bitmap, i) <==> i == d || Bit(w.bitmap, i) {
      MarkedBit(w.bitmap, d, i);
    }
    MarkRecords(w.bitmap, w.top, bitmap, accepted, ctr);
  }

  lemma MarkRecords(bitmap: nat, top: nat, bitmap': nat, accepted: set<nat>, ctr: nat)
    requires Records(bitmap, top, accepted) && ctr <= top
    requires forall i: nat :: i < SIZE ==> (Bit(bitmap', i) <==> i == top - ctr || Bit(bitmap, i))
    ensures Records(bitmap', top, accepted + {ctr})
  {
  }

  lemma MarkedBound(bitmap: nat, d: nat)
    requires bitmap < Pow2(SIZE)
    ensures Or(bitmap, Shl(SIZE, 1, d)) < Pow2(SIZE)
  {
    assert Pow2(SIZE) > 1;
    ShlBound(SIZE, 1, d);
    OrBound(bitmap, Shl(SIZE, 1, d), SIZE);
  }

  lemma MarkedBit(bitmap: nat, d: nat, i: nat)
    requires bitmap < Pow2(SIZE) && d < SIZE && i < SIZE
    ensures Bit(Or(bitmap, Shl(SIZE, 1, d)), i) <==> i == d || Bit(bitmap, i)
  {
    assert Pow2(SIZE) > 1;
    BitOr(bitmap, Shl(SIZE, 1, d), i);
    BitShl(SIZE, 1, d, i);
    if i >= d { BitOne(i - d); }
  }

  /** The window after a whole run of offered counters. */
  ghost function After(offered: seq<nat>): Window {
    if offered == [] then EMPTY else After(offered[..|offered| - 1]).Offer(offered[|offered| - 1])
  }

  /** The counters of the run that an ideal, unbounded-memory window accepts. */
  ghost function Accepted(offered: seq<nat>): set<nat> {
    if offered == [] then {}
    else
      var before := Accepted(offered[..|offered| - 1]);
      var c := offered[|offered| - 1];
      if Fresh(before, c) then before + {c} else before
  }

  /** After any run, the bitmap window accepts the next counter exactly when the
      ideal window does, and bit `i` records whether `top - i` was accepted. */
  lemma {:induction false} WindowRefinesIdeal(offered: seq<nat>, ctr: nat)
    ensures After(offered).Check(ctr) <==> Fresh(Accepted(offered), ctr)
    ensures Represents(After(offered), Accepted(offered))
  {
    if offered != [] {
      WindowRefinesIdeal(offered[..|offered| - 1], ctr);
      OfferRepresents(After(offered[..|offered| - 1]), Accepted(offered[..|offered| - 1]), offered[|offered| - 1]);
    }
    CheckIsFresh(After(offered), Accepted(offered), ctr);
  }

  /** The window as the object a session owns. */
  class ReplayWindow {
    var top: nat
    var bitmap: nat
    var acceptedAny: bool
    /** Every counter this window has accepted. */
    ghost var accepted: set<nat>

    ghost predicate Valid()
      reads this
    {
      Represents(Model(), accepted)
    }

    function Model(): Window
      reads this
    {
      Window(top, bitmap, acceptedAny)
    }

    constructor ()
      ensures Valid() && accepted == {} && Model() == EMPTY
    {
      top, bitmap, acceptedAny := 0, 0, false;
      accepted := {};
    }

    method Check(ctr: nat) returns (ok: bool)
      requires Valid()
      ensures ok <==> Fresh(accepted, ctr)
      ensures ok == Model().Check(ctr)
    {
      CheckIsFresh(Model(), accepted, ctr);
      if !acceptedAny {
        return true;
      }
      if ctr > top {
        return true;
      }
      var diff := top - ctr;
      if diff >= SIZE {
        return false;
      }
      return And(bitmap, Shl(SIZE, 1, diff)) == 0;
    }

    method Accept(ctr: nat) returns (ok: bool)
      requires Valid()
      modifies this
      ensures Valid()
      ensures ok <==> Fresh(old(accepted), ctr)
      ensures accepted == if ok then old(accepted) + {ctr} else old(accepted)
      ensures Model() == old(Model()).Offer(ctr)
    {
      OfferRepresents(Model(), accepted, ctr);
      ok := Check(ctr);
      if !ok {
        return;
      }
      accepted := accepted + {ctr};
      if !acceptedAny {
        acceptedAny := true;
        top := ctr;
        bitmap := 1;
        return;
      }
      if ctr > top {
        var shift := ctr - top;
        bitmap := if shift >= SIZE then 0 else Shl(SIZE, bitmap, shift);
        bitmap := Or(bitmap, 1);
        top := ctr;
      } else {
        bitmap := Or(bitmap, Shl(SIZE, 1, top - ctr));
      }
    }
  }
}
