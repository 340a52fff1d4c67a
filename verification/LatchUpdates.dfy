/** Updating latches one after the other, and when that is updating them all at once. */
module LatchUpdates {
  import opened Circuits

  datatype Status = Undefined | Simulated | New | Old

  /** What simulation keeps for an object. */
  datatype Info = Info(status: Status, value: bool, ones: nat, toggles: nat)

  // ----- Latches -----

  predicate Fits(l: Latch, n: nat) {
    l.input < n && l.box < n && l.output < n && l.driver < n
  }

  function SetLatch(info: seq<Info>, l: Latch): seq<Info>
    requires Fits(l, |info|)
  {
    info[l.input := info[l.driver]][l.box := info[l.driver]][l.output := info[l.driver]]
  }

  ghost predicate LatchesFit(latches: seq<Latch>, n: nat) {
    forall k | 0 <= k < |latches| :: Fits(latches[k], n)
  }

  /** update_FFs after its first k latches. */
  ghost function SetLatches(info: seq<Info>, latches: seq<Latch>, k: nat): (r: seq<Info>)
    requires LatchesFit(latches, |info|) && k <= |latches|
    ensures |r| == |info|
  {
    if k == 0 then info else SetLatch(SetLatches(info, latches, k - 1), latches[k - 1])
  }

  lemma SetLatchAt(info: seq<Info>, l: Latch, o: nat)
    requires Fits(l, |info|) && Writes(l, o)
    ensures o < |info| && SetLatch(info, l)[o] == info[l.driver]
  {
  }

  /** Every latch output takes what its driver held before the update. */
  ghost predicate Simultaneous(info: seq<Info>, latches: seq<Latch>)
    requires LatchesFit(latches, |info|)
  {
    forall k | 0 <= k < |latches| :: SetLatches(info, latches, |latches|)[latches[k].output] == info[latches[k].driver]
  }

  /** Latches i .. j - 1 leave an object alone that none of them writes. */
  lemma {:induction false} SegmentFrame(info: seq<Info>, latches: seq<Latch>, i: nat, j: nat, o: nat)
    requires LatchesFit(latches, |info|) && i <= j <= |latches| && o < |info|
    requires forall k | i <= k < j :: !Writes(latches[k], o)
    ensures SetLatches(info, latches, j)[o] == SetLatches(info, latches, i)[o]
    decreases j
  {
    if i < j {
      SegmentFrame(info, latches, i, j - 1, o);
    }
  }

  lemma LatchFrame(info: seq<Info>, latches: seq<Latch>, o: nat)
    requires LatchesFit(latches, |info|) && o < |info| && forall k | 0 <= k < |latches| :: !Writes(latches[k], o)
    ensures SetLatches(info, latches, |latches|)[o] == info[o]
  {
    SegmentFrame(info, latches, 0, |latches|, o);
  }

  /** When latch k is updated its driver still holds what it held before the update. */
  lemma DriverKept(info: seq<Info>, latches: seq<Latch>, k: nat)
    requires LatchesFit(latches, |info|) && Apart(latches) && k < |latches| && InOrder(latches[..k + 1])
    ensures SetLatches(info, latches, k)[latches[k].driver] == info[latches[k].driver]
  {
    var w := latches[k].driver;
    if i :| 0 <= i < k && Writes(latches[i], w) {
      assert latches[i].driver == w by {
        assert latches[..k + 1][i] == latches[i] && latches[..k + 1][k] == latches[k];
      }
      FedBack(info, latches, i, k);
    } else {
      SegmentFrame(info, latches, 0, k, w);
    }
  }

  /** A latch that writes its own driver leaves it as it was. */
  lemma FedBack(info: seq<Info>, latches: seq<Latch>, i: nat, k: nat)
    requires LatchesFit(latches, |info|) && Apart(latches) && i < k < |latches| && Writes(latches[i], latches[i].driver)
    ensures SetLatches(info, latches, k)[latches[i].driver] == info[latches[i].driver]
  {
    hide Apart;
    var w := latches[i].driver;
    LaterUnwritten(latches, i, k, w);
    SegmentFrame(info, latches, 0, i, w);
    SegmentFrame(info, latches, i + 1, k, w);
  }

  /** The output of latch k ends up with what the driver held when the latch was updated. */
  lemma OutputKept(info: seq<Info>, latches: seq<Latch>, k: nat)
    requires LatchesFit(latches, |info|) && Apart(latches) && k < |latches|
    ensures SetLatches(info, latches, |latches|)[latches[k].output] == SetLatches(info, latches, k)[latches[k].driver]
  {
    hide Apart, SetLatch;
    var o := latches[k].output;
    LaterUnwritten(latches, k, |latches|, o);
    SetLatchAt(SetLatches(info, latches, k), latches[k], o);
    assert SetLatches(info, latches, k + 1) == SetLatch(SetLatches(info, latches, k), latches[k]);
    hide SetLatches, Writes, LatchesFit;
    SegmentFrame(info, latches, k + 1, |latches|, o);
  }

  lemma {:induction false} FirstOutOfOrder(latches: seq<Latch>) returns (i: nat, k: nat)
    requires !InOrder(latches)
    ensures i < k < |latches| && Writes(latches[i], latches[k].driver) && latches[i].driver != latches[k].driver
    ensures InOrder(latches[..k])
  {
    var front := latches[..|latches| - 1];
    if InOrder(front) {
      i, k :| 0 <= i < k < |latches| && Writes(latches[i], latches[k].driver) && latches[i].driver != latches[k].driver;
      assert k == |front| by {
        assert forall a | 0 <= a < |front| :: front[a] == latches[a];
      }
    } else {
      i, k := FirstOutOfOrder(front);
      assert front[..k] == latches[..k];
    }
  }

  /** Data on which an out-of-order latch takes the new value of its driver instead of the old one. */
  lemma OutOfOrderFails(latches: seq<Latch>, n: nat) returns (info: seq<Info>)
    requires LatchesFit(latches, n) && Apart(latches) && !InOrder(latches)
    ensures |info| == n && !Simultaneous(info, latches)
  {
    hide Apart;
    var i, k := FirstOutOfOrder(latches);
    var w := latches[k].driver;
    info := seq(n, o => Info(New, o == w, 0, 0));
    assert InOrder(latches[..i + 1]) by {
      assert forall a | 0 <= a <= i :: latches[..i + 1][a] == latches[..k][a];
    }
    hide InOrder;
    DriverKept(info, latches, i);
    assert SetLatches(info, latches, i + 1)[w] == info[latches[i].driver];
    LaterUnwritten(latches, i, k, w);
    SegmentFrame(info, latches, i + 1, k, w);
    OutputKept(info, latches, k);
    assert SetLatches(info, latches, |latches|)[latches[k].output] != info[w];
  }

  lemma LaterUnwritten(latches: seq<Latch>, i: nat, k: nat, w: nat)
    requires Apart(latches) && i < k <= |latches| && Writes(latches[i], w)
    ensures forall a | 0 <= a < i || i + 1 <= a < k :: !Writes(latches[a], w)
  {
  }

  /**
   * Updating the latches one by one is updating them all at once, whatever they hold, exactly when no latch reads what
   * an earlier one writes (other than a value fed back to itself).
   */
  lemma LatchOrderExact(latches: seq<Latch>, n: nat)
    requires LatchesFit(latches, n) && Apart(latches)
    ensures InOrder(latches) <==> forall info: seq<Info> | |info| == n :: Simultaneous(info, latches)
  {
    if InOrder(latches) {
      forall info: seq<Info> | |info| == n ensures Simultaneous(info, latches) {
        InOrderSimultaneous(info, latches);
      }
    } else {
      var info := OutOfOrderFails(latches, n);
      assert |info| == n && !Simultaneous(info, latches);
    }
  }

  lemma InOrderSimultaneous(info: seq<Info>, latches: seq<Latch>)
    requires LatchesFit(latches, |info|) && Apart(latches) && InOrder(latches)
    ensures Simultaneous(info, latches)
  {
    forall k | 0 <= k < |latches| ensures SetLatches(info, latches, |latches|)[latches[k].output] == info[latches[k].driver] {
      OutputKept(info, latches, k);
      assert InOrder(latches[..k + 1]);
      DriverKept(info, latches, k);
    }
  }
}
