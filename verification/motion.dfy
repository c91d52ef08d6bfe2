/**
 * Actuator motion in main.rs: the signed distance between two gear positions
 * (`actuator_control`) and the simulated move (`move_actuator`), which pulses
 * one motor pin once per millimetre and pulses both pins as a position marker.
 */
module Motion {

  /** `ACTUATOR_DISTANCE_BETWEEN_POSITIONS`: 70 mm of throw over three gaps, in integer division. */
  const DISTANCE: int := 70 / 3

  /** The two motor-drive outputs. */
  datatype Pin = MotorPlus | MotorMinus

  /** The pin that does not pulse. */
  function Other(p: Pin): Pin
  {
    if p == MotorPlus then MotorMinus else MotorPlus
  }

  /**
   * What the move does with the pins: `Hold(p)` sets `p` low before the loop,
   * `Marker` sets both pins high then both low, `Pulse(p)` sets `p` high then low.
   */
  datatype MotorEvent = Hold(pin: Pin) | Marker | Pulse(pin: Pin)

  /**
   * The signed move from position `current` to position `requested`
   * (main.rs:266); positions are button discriminants, 4 being UNSET.
   */
  function MoveAmount(current: nat, requested: nat): (amount: int)
    requires current <= 4 && requested <= 4
    ensures amount == 0 <==> current == requested
    ensures amount < 0 <==> current < requested
    ensures -92 <= amount <= 92
    ensures amount % DISTANCE == 0
    ensures (if amount < 0 then -amount else amount) / DISTANCE
            == (if current < requested then requested - current else current - requested)
  {
    ScaledDistance(current - requested);
    (current - requested) * DISTANCE
  }

  /** A whole number of gaps, up to four either way, is a multiple of DISTANCE with that quotient. */
  lemma ScaledDistance(d: int)
    requires -4 <= d <= 4
    ensures (d * DISTANCE) % DISTANCE == 0
    ensures (if d < 0 then -(d * DISTANCE) else d * DISTANCE) / DISTANCE == (if d < 0 then -d else d)
  {
    if d == -4 { assert d * DISTANCE == -92; }
    else if d == -3 { assert d * DISTANCE == -69; }
    else if d == -2 { assert d * DISTANCE == -46; }
    else if d == -1 { assert d * DISTANCE == -23; }
    else if d == 0 { assert d * DISTANCE == 0; }
    else if d == 1 { assert d * DISTANCE == 23; }
    else if d == 2 { assert d * DISTANCE == 46; }
    else if d == 3 { assert d * DISTANCE == 69; }
    else { assert d * DISTANCE == 92; }
  }

  /** How many multiples of DISTANCE lie in `[lo, hi)`. */
  function MultiplesIn(lo: int, hi: int): nat
    decreases hi - lo
  {
    if hi <= lo then 0 else MultiplesIn(lo, hi - 1) + (if (hi - 1) % DISTANCE == 0 then 1 else 0)
  }

  /**
   * The events of the loop iterations `lo..=hi` that pulse `p`: a marker at a
   * multiple of DISTANCE unless it is the first multiple reached, then a pulse.
   */
  function Stroke(lo: int, hi: int, p: Pin): seq<MotorEvent>
    decreases hi - lo
  {
    if hi < lo then []
    else Stroke(lo, hi - 1, p)
         + (if hi % DISTANCE == 0 && MultiplesIn(lo, hi) != 0 then [Marker] else [])
         + [Pulse(p)]
  }

  /** The events of `move_actuator(amount)` (main.rs:172-235). */
  function MoveTrace(amount: int): seq<MotorEvent>
  {
    if amount < 0 then [Hold(MotorMinus)] + Stroke(amount, 0, MotorPlus)
    else [Hold(MotorPlus)] + Stroke(0, amount, MotorMinus)
  }

  /** The number of pulses of pin `p` in a trace. */
  function Pulses(t: seq<MotorEvent>, p: Pin): nat
  {
    if t == [] then 0 else Pulses(t[..|t| - 1], p) + (if t[|t| - 1] == Pulse(p) then 1 else 0)
  }

  /** The number of markers in a trace. */
  function Markers(t: seq<MotorEvent>): nat
  {
    if t == [] then 0 else Markers(t[..|t| - 1]) + (if t[|t| - 1] == Marker then 1 else 0)
  }

  lemma {:induction false} CountsAppend(a: seq<MotorEvent>, b: seq<MotorEvent>, p: Pin)
    ensures Pulses(a + b, p) == Pulses(a, p) + Pulses(b, p)
    ensures Markers(a + b) == Markers(a) + Markers(b)
    decreases |b|
  {
    if b == [] {
      assert a + b == a;
    } else {
      var b' := b[..|b| - 1];
      assert (a + b)[..|a + b| - 1] == a + b';
      CountsAppend(a, b', p);
    }
  }

  /** Counting multiples from the bottom of the range instead of the top. */
  lemma {:induction false} MultiplesFromBottom(lo: int, hi: int)
    requires lo < hi
    ensures MultiplesIn(lo, hi) == (if lo % DISTANCE == 0 then 1 else 0) + MultiplesIn(lo + 1, hi)
    decreases hi - lo
  {
    if lo + 1 < hi {
      MultiplesFromBottom(lo, hi - 1);
    }
  }

  /** One more millimetre adds a multiple exactly when it lands on one. */
  lemma NextQuotient(n: nat)
    ensures (n + 1) / DISTANCE == n / DISTANCE + (if (n + 1) % DISTANCE == 0 then 1 else 0)
  {
  }

  /** Negation keeps multiples of DISTANCE and only them. */
  lemma NegatedMultiple(n: nat)
    ensures (-(n as int)) % DISTANCE == 0 <==> n % DISTANCE == 0
  {
    assert DISTANCE == 23;
    if n % DISTANCE == 0 {
      var k := n / DISTANCE;
      assert -(n as int) == DISTANCE * (-k);
    }
    if (-(n as int)) % DISTANCE == 0 {
      var k := (-(n as int)) / DISTANCE;
      assert n == DISTANCE * (-k);
    }
  }

  /** `[0, n]` holds `n / DISTANCE + 1` multiples. */
  lemma {:induction false} MultiplesUp(n: nat)
    ensures MultiplesIn(0, n + 1) == n / DISTANCE + 1
  {
    if n > 0 {
      MultiplesUp(n - 1);
      NextQuotient(n - 1);
    }
  }

  /** `[-n, 0]` holds `n / DISTANCE + 1` multiples. */
  lemma {:induction false} MultiplesDown(n: nat)
    ensures MultiplesIn(-(n as int), 1) == n / DISTANCE + 1
  {
    if n > 0 {
      var lo := -(n as int);
      MultiplesFromBottom(lo, 1);
      MultiplesDown(n - 1);
      NextQuotient(n - 1);
      NegatedMultiple(n);
    }
  }

  /** The events one loop iteration appends after the earlier ones. */
  lemma StrokeStep(lo: int, hi: int, p: Pin)
    requires lo <= hi
    ensures var mark := hi % DISTANCE == 0 && MultiplesIn(lo, hi) != 0;
      Stroke(lo, hi, p) == Stroke(lo, hi - 1, p) + (if mark then [Marker, Pulse(p)] else [Pulse(p)])
  {
    var mark := hi % DISTANCE == 0 && MultiplesIn(lo, hi) != 0;
    if mark {
      assert [Marker] + [Pulse(p)] == [Marker, Pulse(p)];
    }
  }

  /** A stroke pulses its pin once per iteration and no other pin. */
  lemma {:induction false} StrokePulses(lo: int, hi: int, p: Pin)
    requires lo <= hi + 1
    ensures Pulses(Stroke(lo, hi, p), p) == hi - lo + 1
    ensures Pulses(Stroke(lo, hi, p), Other(p)) == 0
    decreases hi - lo
  {
    if lo <= hi {
      StrokePulses(lo, hi - 1, p);
      StrokeStep(lo, hi, p);
      var prev := Stroke(lo, hi - 1, p);
      var tail := Stroke(lo, hi, p)[|prev|..];
      assert Stroke(lo, hi, p) == prev + tail;
      CountsAppend(prev, tail, p);
      CountsAppend(prev, tail, Other(p));
      assert tail[..|tail| - 1] == [] || tail[..|tail| - 1] == [Marker];
      assert [Marker][..0] == [];
    }
  }

  /** A stroke marks every multiple of DISTANCE it crosses except the first. */
  lemma {:induction false} StrokeMarkers(lo: int, hi: int, p: Pin)
    requires lo <= hi + 1
    ensures Markers(Stroke(lo, hi, p)) == if MultiplesIn(lo, hi + 1) == 0 then 0 else MultiplesIn(lo, hi + 1) - 1
    decreases hi - lo
  {
    if lo <= hi {
      StrokeMarkers(lo, hi - 1, p);
      StrokeStep(lo, hi, p);
      var prev := Stroke(lo, hi - 1, p);
      var tail := Stroke(lo, hi, p)[|prev|..];
      assert Stroke(lo, hi, p) == prev + tail;
      CountsAppend(prev, tail, p);
      assert tail[..|tail| - 1] == [] || tail[..|tail| - 1] == [Marker];
      assert [Marker][..0] == [];
    }
  }

  /**
   * `move_actuator(amount)` holds the idle pin low, pulses the other pin
   * `|amount| + 1` times and marks `|amount| / DISTANCE` positions; a negative
   * amount pulses motor-plus, any other amount motor-minus.
   */
  lemma MoveTraceCounts(amount: int)
    ensures var pulsed := if amount < 0 then MotorPlus else MotorMinus;
      && MoveTrace(amount)[0] == Hold(Other(pulsed))
      && Pulses(MoveTrace(amount), pulsed) == (if amount < 0 then -amount else amount) + 1
      && Pulses(MoveTrace(amount), Other(pulsed)) == 0
      && Markers(MoveTrace(amount)) == (if amount < 0 then -amount else amount) / DISTANCE
  {
    if amount < 0 {
      NegativeAmountCounts(amount);
    } else {
      NonNegativeAmountCounts(amount);
    }
  }

  /** A negative amount pulses motor-plus (the branch the source logs as `direction=FORWARD`). */
  lemma NegativeAmountCounts(amount: int)
    requires amount < 0
    ensures Pulses(MoveTrace(amount), MotorPlus) == -amount + 1
    ensures Pulses(MoveTrace(amount), MotorMinus) == 0
    ensures Markers(MoveTrace(amount)) == (-amount) / DISTANCE
  {
    var n: nat := -amount;
    var t := Stroke(amount, 0, MotorPlus);
    assert MoveTrace(amount) == [Hold(MotorMinus)] + t;
    StrokePulses(amount, 0, MotorPlus);
    StrokeMarkers(amount, 0, MotorPlus);
    MultiplesDown(n);
    assert MultiplesIn(amount, 1) == n / DISTANCE + 1;
    HoldUncounted(MotorMinus, t);
  }

  /** An amount of zero or more pulses motor-minus (the branch the source logs as `direction=BACKWARD`). */
  lemma NonNegativeAmountCounts(amount: int)
    requires amount >= 0
    ensures Pulses(MoveTrace(amount), MotorMinus) == amount + 1
    ensures Pulses(MoveTrace(amount), MotorPlus) == 0
    ensures Markers(MoveTrace(amount)) == amount / DISTANCE
  {
    var t := Stroke(0, amount, MotorMinus);
    assert MoveTrace(amount) == [Hold(MotorPlus)] + t;
    StrokePulses(0, amount, MotorMinus);
    StrokeMarkers(0, amount, MotorMinus);
    MultiplesUp(amount);
    HoldUncounted(MotorPlus, t);
  }

  /** Holding a pin low is neither a pulse nor a marker. */
  lemma HoldUncounted(q: Pin, t: seq<MotorEvent>)
    ensures Pulses([Hold(q)] + t, MotorPlus) == Pulses(t, MotorPlus)
    ensures Pulses([Hold(q)] + t, MotorMinus) == Pulses(t, MotorMinus)
    ensures Markers([Hold(q)] + t) == Markers(t)
  {
    assert [Hold(q)][..0] == [];
    CountsAppend([Hold(q)], t, MotorPlus);
    CountsAppend([Hold(q)], t, MotorMinus);
  }

  /** `move_actuator` (main.rs:172-235), its pin writes recorded as events. */
  method MoveActuator(amount: int) returns (events: seq<MotorEvent>)
    requires -128 <= amount <= 127
    ensures events == MoveTrace(amount)
  {
    if amount < 0 {
      events := [Hold(MotorMinus)];
      var pos := 0;
      for i := amount to 1
        invariant events == [Hold(MotorMinus)] + Stroke(amount, i - 1, MotorPlus)
        invariant pos == MultiplesIn(amount, i)
      {
        // Rust's remainder truncates, but it is zero exactly when Dafny's is.
        if i % DISTANCE == 0 {
          if pos != 0 {
            events := events + [Marker];
          }
          pos := pos + 1;
        }
        events := events + [Pulse(MotorPlus)];
      }
    } else {
      events := [Hold(MotorPlus)];
      var pos := 0;
      for i := 0 to amount + 1
        invariant events == [Hold(MotorPlus)] + Stroke(0, i - 1, MotorMinus)
        invariant pos == MultiplesIn(0, i)
      {
        if i % DISTANCE == 0 {
          if pos != 0 {
            events := events + [Marker];
          }
          pos := pos + 1;
        }
        events := events + [Pulse(MotorMinus)];
      }
    }
  }
}
