/** The pacing timers' closed-form schedule against their cycle-by-cycle accumulators. */
module Pacing {
  import opened Words
  import opened Chip

  datatype Due = Never | At(cycle: nat) {
    predicate By(now: nat) {
      At? && cycle <= now
    }
  }

  /** A scheduled timer: the accumulator as of cycle last, and the cycle of the next pulse. */
  datatype Slot = Slot(reg: Word, acc: nat, last: nat, next: Due) {
    function X(): int { reg / 0x1_0000 }
    function Y(): int { reg % 0x1_0000 }
    predicate Active() { X() != 0 && Y() != 0 }

    /** The timer this slot stands for at cycle now. */
    function Now(now: nat): Timer
      requires last <= now
    {
      if Active() then Acc(X(), now - last, acc, reg) else Timer(reg, acc)
    }

    /** The schedule is right and not overdue. */
    predicate Ok(now: nat) {
      last <= now && next == Schedule(this) && !next.By(now)
    }
  }

  function Acc(x: int, n: nat, acc: nat, reg: Word): Timer
    requires x >= 0
  {
    Timer(reg, acc + x * n)
  }

  /** How many cycles until acc, growing by x, first reaches y. */
  function FirstPulse(acc: nat, x: int, y: int): (n: nat)
    requires x > 0
    ensures n >= 1 && acc + n * x >= y && forall k :: 1 <= k < n ==> acc + k * x < y
  {
    if acc < y then
      var n := (y - acc + x - 1) / x;
      CeilingDivision(y - acc, x, n);
      n
    else 1
  }

  lemma CeilingDivision(d: int, x: int, n: int)
    requires d > 0 && x > 0 && n == (d + x - 1) / x
    ensures n >= 1 && n * x >= d && forall k :: 1 <= k < n ==> k * x < d
  {
    assert n * x <= d + x - 1 < n * x + x;
    assert n < 1 ==> n * x <= 0;
    forall k | 1 <= k < n ensures k * x < d {
      Below(k, n - 1, x);
    }
  }

  lemma Below(k: int, n: int, x: int)
    requires k <= n && x > 0
    ensures k * x <= n * x
  {
    assert n * x - k * x == (n - k) * x;
  }

  function Schedule(t: Slot): Due {
    if !t.Active() then Never else At(t.last + FirstPulse(t.acc, t.X(), t.Y()))
  }

  /** A register write restarts the schedule from the stored accumulator. */
  function Rewrite(t: Slot, reg: Word, now: nat): (r: Slot)
    ensures r.Ok(now)
  {
    var t := t.(reg := reg, last := now);
    t.(next := Schedule(t))
  }

  /** Bringing a due timer up to date. */
  function Fire(t: Slot, now: nat): (r: Slot)
    requires t.Active() && t.last <= now
    ensures r.Ok(now) && r.reg == t.reg
  {
    var t := t.(acc := (t.acc + t.X() * (now - t.last)) % t.Y(), last := now);
    t.(next := Schedule(t))
  }

  function Owed(t: Slot, now: nat): (p: nat)
    requires t.Active() && t.last <= now
  {
    (t.acc + t.X() * (now - t.last)) / t.Y()
  }

  /** A cycle on which no pulse is due leaves the per-cycle accumulator one x further on. */
  lemma QuietCycle(t: Slot, now: nat)
    requires t.Ok(now) && t.Active() && !t.next.By(now + 1)
    ensures t.Ok(now + 1)
    ensures TickPulses(t.Now(now)) == 0 && TickAcc(t.Now(now)) == t.Now(now + 1)
  {
    hide Slot.X, Slot.Y, Timer.X, Timer.Y, FirstPulse;
    var k := now - t.last;
    SameFields(t, now);
    OneMore(t.X(), k);
    assert t.acc + (k + 1) * t.X() < t.Y();
    Small(t.acc + t.X() * k + t.X(), t.Y());
  }

  lemma SameFields(t: Slot, now: nat)
    requires t.last <= now
    ensures t.Now(now).X() == t.X() > -1 && t.Now(now).Y() == t.Y() > -1 && t.Now(now).reg == t.reg
  {
  }

  lemma OneMore(x: int, k: int)
    ensures x * (k + 1) == x * k + x == (k + 1) * x
  {
  }

  lemma Small(a: int, y: int)
    requires 0 <= a < y
    ensures a / y == 0 && a % y == a
  {
  }

  /** On the scheduled cycle, the closed form delivers the pulses and the remainder the
      accumulator loop would. */
  lemma DueCycle(t: Slot, now: nat)
    requires t.Ok(now) && t.Active() && t.next.By(now + 1)
    ensures Owed(t, now + 1) == TickPulses(t.Now(now)) > 0
    ensures Fire(t, now + 1).Now(now + 1) == TickAcc(t.Now(now))
  {
    hide Slot.X, Slot.Y, Timer.X, Timer.Y, FirstPulse;
    var k := now - t.last;
    SameFields(t, now);
    OneMore(t.X(), k);
    assert t.acc + (k + 1) * t.X() >= t.Y();
    AtLeastOne(t.acc + t.X() * k + t.X(), t.Y());
    var r := Fire(t, now + 1);
    SameFields(r, now + 1);
    SameReg(t, r);
    assert r.X() * (now + 1 - (now + 1)) == 0;
  }

  lemma SameReg(t: Slot, r: Slot)
    requires t.reg == r.reg
    ensures t.X() == r.X() && t.Y() == r.Y()
  {
  }

  lemma AtLeastOne(a: int, y: int)
    requires y > 0 && a >= y
    ensures a / y > 0
  {
  }

  /** A register write loses the fraction accrued since the last pulse: it agrees with a timer
      that keeps its accumulator exactly when nothing has accrued. */
  lemma RewriteExact(t: Slot, reg: Word, now: nat)
    requires t.Ok(now)
    ensures Rewrite(t, reg, now).Now(now) == t.Now(now).(reg := reg) <==> (!t.Active() || now == t.last)
  {
    var r := Rewrite(t, reg, now);
    assert r.X() * (now - now) == 0;
    if t.Active() && now > t.last {
      assert t.X() * (now - t.last) > 0 by { Below(1, now - t.last, t.X()); }
    }
    assert now == t.last ==> t.X() * (now - t.last) == 0;
  }

  /** Halfway to its next pulse, a timer rewritten with its own value forgets the half. */
  lemma RewriteLoses()
    ensures var t := Slot(0x1_0002, 0, 0, At(2)); t.Ok(1) && Rewrite(t, t.reg, 1).Now(1) != t.Now(1)
  {
    var t := Slot(0x1_0002, 0, 0, At(2));
    assert t.X() == 1 && t.Y() == 2;
    assert FirstPulse(0, 1, 2) == 2;
    RewriteExact(t, t.reg, 1);
    assert t.Now(1).(reg := t.reg) == t.Now(1);
  }
}
