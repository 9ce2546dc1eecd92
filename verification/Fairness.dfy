/** Round-robin arbitration makes progress. */
module Fairness {
  import opened Words
  import opened Chip

  /** How far channel j is behind the last grant, going round n channels. */
  function Dist(j: int, last: int, n: int): int {
    if j > last then j - last - 1 else j + n - last - 1
  }

  predicate Within(r: set<int>, n: int) {
    forall i :: i in r ==> 0 <= i < n
  }

  /** The arbiter grants the ready channel closest behind the last grant. */
  lemma Nearest(r: set<int>, last: int, j: int, n: int)
    requires 0 <= last < n <= SLOTS && Within(r, n) && j in r
    ensures Dist(Pick(r, last), last, n) <= Dist(j, last, n) < n
  {
  }

  /** A waiting channel comes strictly closer with every grant that passes it over. */
  lemma Closer(r: set<int>, last: int, j: int, n: int)
    requires 0 <= last < n <= SLOTS && Within(r, n) && j in r && Pick(r, last) != j
    ensures 0 <= Dist(j, Pick(r, last), n) < Dist(j, last, n)
  {
    Nearest(r, last, j, n);
  }

  // ----- who is granted -----

  predicate IsReady(d: Dma, i: int)
    requires d.Ok()
  {
    0 <= i < SLOTS && CanRun(d.v, d.ch[i])
  }

  /** CTRL bit 1 is set. */
  predicate IsHigh(d: Dma, i: int)
    requires d.Ok() && 0 <= i < SLOTS
  {
    d.ch[i].ctrl / 2 % 2 == 1
  }

  /** Channel i is ready, and no ready channel has priority over it. */
  ghost predicate Contends(d: Dma, i: int)
    requires d.Ok()
  {
    IsReady(d, i) && (IsHigh(d, i) || forall j :: IsReady(d, j) ==> !IsHigh(d, j))
  }

  lemma FavouredContend(d: Dma, i: int)
    requires d.Ok()
    ensures i in Favoured(d) <==> Contends(d, i)
  {
    hide CanRun;
    var hp := d.Ready() * d.High();
    if i in Favoured(d) && hp == {} {
      forall j | IsReady(d, j) ensures !IsHigh(d, j) { assert j !in hp; }
    }
    if Contends(d, i) && hp != {} {
      var j :| j in hp;
      assert IsReady(d, j) && IsHigh(d, j);
    }
  }

  lemma StepGrants(m: Machine)
    requires m.Ok() && Step(m).Done? && Favoured(Tick(m.dma, 4)) != {}
    ensures exists i :: 0 <= i < SLOTS && i in Favoured(Tick(m.dma, 4))
    ensures Step(m).value.last == Pick(Favoured(Tick(m.dma, 4)), m.last)
  {
    SomeReady(Tick(m.dma, 4));
    hide Transfer;
  }

  /** One cycle, once the timers have ticked. While a high-priority channel is ready the grant goes
      to such a channel, otherwise to any ready one; among those it goes to the one closest behind
      the last grant; and with none ready the last grant stands. */
  lemma {:induction false} GrantExact(m: Machine)
    requires m.Ok() && Step(m).Done?
    ensures var d, k := Tick(m.dma, 4), Step(m).value.last;
            && Step(m).value.cycle == m.cycle + 1 && ((forall i :: !IsReady(d, i)) ==> k == m.last)
            && ((exists i :: IsReady(d, i)) ==> IsReady(d, k))
            && (forall i :: IsReady(d, i) && IsHigh(d, i) ==>
                  0 <= k < SLOTS && IsHigh(d, k) && Dist(k, m.last, SLOTS) <= Dist(i, m.last, SLOTS))
            && ((forall i :: IsReady(d, i) ==> !IsHigh(d, i)) ==>
                  forall i :: IsReady(d, i) ==> Dist(k, m.last, SLOTS) <= Dist(i, m.last, SLOTS))
  {
    var d, k := Tick(m.dma, 4), Step(m).value.last;
    hide Tick, Transfer, CanRun;
    if d.Ready() == {} {
      forall i ensures !IsReady(d, i) { assert i !in d.Ready(); }
    } else {
      StepGrants(m);
      var f := Favoured(d);
      hide Step, Favoured;
      FavouredContend(d, k);
      forall i | IsReady(d, i) && (IsHigh(d, i) || forall j :: IsReady(d, j) ==> !IsHigh(d, j))
        ensures Dist(k, m.last, SLOTS) <= Dist(i, m.last, SLOTS) && (IsHigh(d, i) ==> IsHigh(d, k))
      {
        FavouredContend(d, i);
        Nearest(f, m.last, i, SLOTS);
      }
    }
  }

  /** Channels 3 and 5 are ready and the last grant was 4: channel 3 is granted if it alone has high
      priority, and channel 5 if neither has. */
  lemma {:induction false} HighFirst(m: Machine)
    requires m.Ok() && Step(m).Done? && m.last == 4
    requires forall i :: IsReady(Tick(m.dma, 4), i) <==> i == 3 || i == 5
    requires !IsHigh(Tick(m.dma, 4), 5)
    ensures Step(m).value.last == if IsHigh(Tick(m.dma, 4), 3) then 3 else 5
  {
    hide Tick, Step, IsReady, IsHigh;
    var d, k := Tick(m.dma, 4), Step(m).value.last;
    GrantExact(m);
    assert IsReady(d, 3) && IsReady(d, 5) && IsReady(d, k);
  }

  // ----- progress -----

  /** Channel j contends at each of the next k cycles, and only channels below n are ever ready. */
  ghost predicate Waits(m: Machine, j: int, n: int, k: nat)
    requires m.Ok()
    decreases k
  {
    k > 0 ==>
      var d := Tick(m.dma, 4);
      && Contends(d, j) && (forall i :: IsReady(d, i) ==> i < n)
      && Step(m).Done? && Waits(Step(m).value, j, n, k - 1)
  }

  /** Over any run, a channel that stays ready in the favoured class is granted within as many
      cycles as there are channels. */
  lemma {:induction false} Progress(m: Machine, j: int, n: int, k: nat) returns (t: nat)
    requires m.Ok() && m.last < n <= SLOTS && 0 <= j < n && Waits(m, j, n, k) && k > Dist(j, m.last, n)
    ensures t < k && Steps(m, t + 1).Done? && Steps(m, t + 1).value.last == j
    decreases k
  {
    hide Step, Favoured, Steps, Tick, CanRun;
    var f, m1 := Favoured(Tick(m.dma, 4)), Step(m).value;
    FavouredContend(Tick(m.dma, 4), j);
    forall i | i in f ensures 0 <= i < n { FavouredContend(Tick(m.dma, 4), i); }
    StepGrants(m);
    if m1.last == j {
      t := 0;
      OneStep(m);
    } else {
      Closer(f, m.last, j, n);
      var u := Progress(m1, j, n, k - 1);
      StepsFront(m, u + 2);
      t := u + 1;
    }
  }
}
