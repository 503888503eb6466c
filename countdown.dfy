/**
 * The per-tick arithmetic of the countdown: a positive distance in
 * milliseconds to the wedding is split into days, hours, minutes and seconds
 * by fixed-radix division.  Every operand is a non-negative integer, so the
 * source's `Math.floor(a / b)` is Dafny's `a / b` here.
 */
module Countdown {

  const MsPerSecond: int := 1000
  const MsPerMinute: int := 1000 * 60
  const MsPerHour: int := 1000 * 60 * 60
  const MsPerDay: int := 1000 * 60 * 60 * 24

  datatype TimeLeft = TimeLeft(days: int, hours: int, minutes: int, seconds: int)

  /** The display fields are within their radix: what a clock face can show. */
  predicate WellFormed(t: TimeLeft) {
    && 0 <= t.days
    && 0 <= t.hours < 24
    && 0 <= t.minutes < 60
    && 0 <= t.seconds < 60
  }

  /** Whole seconds a well-formed countdown stands for. */
  function TotalSeconds(t: TimeLeft): (seconds: int) {
    t.days * 86400 + t.hours * 3600 + t.minutes * 60 + t.seconds
  }

  /** The decomposition the page performs when the distance is positive. */
  function Decompose(distance: nat): (t: TimeLeft)
    ensures WellFormed(t)
  {
    TimeLeft(
      distance / MsPerDay,
      (distance % MsPerDay) / MsPerHour,
      (distance % MsPerHour) / MsPerMinute,
      (distance % MsPerMinute) / MsPerSecond)
  }

  /** Taking a remainder by a coarser unit first does not change the remainder by a finer one. */
  lemma {:induction false} ModOfMod(d: nat, unit: int, k: int)
    requires 0 < unit && 0 < k
    ensures (d % (unit * k)) % unit == d % unit
    ensures (d % (unit * k)) / unit == (d / unit) % k
  {
    var q := d / (unit * k);
    var r := d % (unit * k);
    assert d == (unit * k) * q + r;
    var q2 := r / unit;
    var r2 := r % unit;
    assert r == unit * q2 + r2 && 0 <= r2 < unit;
    assert d == unit * (k * q + q2) + r2 by {
      assert (unit * k) * q == unit * (k * q);
    }
    DivModUnique(d, unit, k * q + q2, r2);
    assert 0 <= q2 < k by {
      assert unit * q2 <= r < unit * k;
    }
    DivModUnique(d / unit, k, q, q2);
  }

  /** Integer division is determined by any quotient and remainder that fit. */
  lemma {:induction false} DivModUnique(d: int, b: int, q: int, r: int)
    requires 0 < b && 0 <= r < b && d == b * q + r
    ensures d / b == q && d % b == r
  {
    var q' := d / b;
    var r' := d % b;
    assert b * q' + r' == b * q + r;
    assert b * (q - q') == r' - r;
    if q' != q {
      AtLeastOneUnit(b, if q' < q then q - q' else q' - q);
      assert false;
    }
  }

  /** A non-zero multiple of a positive unit is at least one unit away from zero. */
  lemma {:induction false} AtLeastOneUnit(b: int, k: int)
    requires 0 < b && 1 <= k
    ensures b * k >= b
  {
    assert b * k == b + b * (k - 1);
  }

  /** The four fields add back up to the whole seconds of the distance. */
  lemma {:induction false} DecomposeRecomposes(distance: nat)
    ensures TotalSeconds(Decompose(distance)) == distance / 1000
  {
    var t := Decompose(distance);
    var s := distance / 1000;
    ModOfMod(distance, 1000, 60);
    ModOfMod(distance, 60000, 60);
    ModOfMod(distance, 3600000, 24);
    ModOfMod(distance / 1000, 60, 60);
    ModOfMod(distance / 1000, 3600, 24);
    DivOfDiv(distance, 1000, 60);
    DivOfDiv(distance, 60000, 60);
    DivOfDiv(distance, 3600000, 24);
    DivOfDiv(s, 60, 60);
    DivOfDiv(s, 3600, 24);
    // s == 86400 * (s / 86400) + 3600 * ((s / 3600) % 24) + 60 * ((s / 60) % 60) + s % 60
    assert t.seconds == s % 60;
    assert t.minutes == (s / 60) % 60;
    assert t.hours == (s / 3600) % 24;
    assert t.days == s / 86400;
    assert s / 60 == 60 * (s / 3600) + (s / 60) % 60;
    assert s / 3600 == 24 * (s / 86400) + (s / 3600) % 24;
  }

  /** Dividing twice is dividing once by the product. */
  lemma {:induction false} DivOfDiv(d: nat, a: int, b: int)
    requires 0 < a && 0 < b
    ensures d / a / b == d / (a * b)
  {
    var q := d / a / b;
    var r1 := d % a;
    var r2 := (d / a) % b;
    assert d == a * (d / a) + r1;
    assert d / a == b * q + r2;
    assert a * (d / a) == a * (b * q) + a * r2;
    assert a * (b * q) == (a * b) * q;
    assert d == (a * b) * q + (a * r2 + r1);
    assert a * r2 + r1 < a * b by {
      AtLeastOneUnit(a, b - r2);
      assert a * (b - r2) == a * b - a * r2;
    }
    DivModUnique(d, a * b, q, a * r2 + r1);
  }

  /** Decomposition inverts recomposition: a well-formed countdown plus any sub-second remainder comes back unchanged. */
  lemma {:induction false} RecomposeDecomposes(t: TimeLeft, ms: int)
    requires WellFormed(t) && 0 <= ms < 1000
    ensures Decompose(TotalSeconds(t) * 1000 + ms) == t
  {
    var d := TotalSeconds(t) * 1000 + ms;
    var inDay := t.hours * MsPerHour + t.minutes * MsPerMinute + t.seconds * MsPerSecond + ms;
    assert d == MsPerDay * t.days + inDay;
    DivModUnique(d, MsPerDay, t.days, inDay);
    var inHour := t.minutes * MsPerMinute + t.seconds * MsPerSecond + ms;
    DivModUnique(inDay, MsPerHour, t.hours, inHour);
    assert d == MsPerHour * (24 * t.days + t.hours) + inHour;
    DivModUnique(d, MsPerHour, 24 * t.days + t.hours, inHour);
    DivModUnique(inHour, MsPerMinute, t.minutes, t.seconds * MsPerSecond + ms);
    var inMinute := t.seconds * MsPerSecond + ms;
    assert d == MsPerMinute * (1440 * t.days + 60 * t.hours + t.minutes) + inMinute;
    DivModUnique(d, MsPerMinute, 1440 * t.days + 60 * t.hours + t.minutes, inMinute);
    DivModUnique(inMinute, MsPerSecond, t.seconds, ms);
  }

  /** 90 061 000 ms is one day, one hour, one minute and one second. */
  lemma DecomposeExample()
    ensures Decompose(90061000) == TimeLeft(1, 1, 1, 1)
  {
  }
}
