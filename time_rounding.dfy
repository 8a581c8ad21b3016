/** Ceiling-based time rounding in src/components/TimeRounding.tsx: every
    duration goes up to the next whole multiple of the chosen interval,
    amounts are rebilled at one hourly rate, and the panel reports how many
    hours rounding adds. */
module TimeRounding {
  import opened Seqs
  import opened Entries

  /** The intervals the selector offers, in minutes. */
  type Interval = i: int | i == 15 || i == 30 || i == 60 witness 15

  /** The panel's defaults: 15 minutes and 75 an hour. */
  const DefaultInterval: Interval := 15
  const DefaultRate: real := 75.0

  /** `interval / 60`, the interval in hours. */
  function Step(interval: Interval): (s: real)
    ensures s == 0.25 || s == 0.5 || s == 1.0
  {
    interval as real / 60.0
  }

  /** `Math.ceil`: the least integer not below `x`. */
  function Ceil(x: real): (c: int)
    ensures x <= c as real < x + 1.0
  {
    -((-x).Floor)
  }

  /** `x` is a whole number of intervals. */
  predicate IsMultiple(x: real, interval: Interval) {
    (x / Step(interval)).Floor as real == x / Step(interval)
  }

  /** Dividing by a positive step and multiplying back. */
  lemma DivMul(x: real, s: real)
    requires s > 0.0
    ensures (x / s) * s == x
  {
  }

  lemma MulDiv(k: real, s: real)
    requires s > 0.0
    ensures (k * s) / s == k
  {
  }

  /** Multiplying by a positive step keeps order. */
  lemma MulLe(x: real, y: real, s: real)
    requires x <= y && s > 0.0
    ensures x * s <= y * s
  {
  }

  lemma MulLt(x: real, y: real, s: real)
    requires x < y && s > 0.0
    ensures x * s < y * s
  {
  }

  /** Dividing by a positive step keeps order. */
  lemma DivLe(x: real, y: real, s: real)
    requires x <= y && s > 0.0
    ensures x / s <= y / s
  {
  }

  lemma AddOneMul(q: real, s: real)
    ensures (q + 1.0) * s == q * s + s
  {
  }

  /** `Math.ceil(x / s) * s` is not below `x` and less than one step above it. */
  lemma ScaledCeil(x: real, s: real)
    requires s > 0.0
    ensures x <= Ceil(x / s) as real * s < x + s
  {
    var q := x / s;
    var c := Ceil(q) as real;
    MulLe(q, c, s);
    MulLt(c, q + 1.0, s);
    assert c * s < (q + 1.0) * s;
    DivMul(x, s);
    assert q * s == x;
    AddOneMul(q, s);
    assert (q + 1.0) * s == q * s + s;
    assert c * s < x + s;
  }

  /** A whole number of steps divided by the step is whole. */
  lemma WholeSteps(r: real, n: int, s: real)
    requires s > 0.0 && r == n as real * s
    ensures (r / s).Floor as real == r / s
  {
    MulDiv(n as real, s);
    assert r / s == n as real;
  }

  /** `roundTime`: `Math.ceil(t / (interval / 60)) * (interval / 60)`. It is
      a whole number of intervals, not below `t`, and less than one
      interval above it. */
  function RoundTime(t: real, interval: Interval): (r: real)
    ensures t <= r < t + Step(interval)
    ensures IsMultiple(r, interval)
  {
    var s := Step(interval);
    ScaledCeil(t, s);
    var n := Ceil(t / s);
    WholeSteps(n as real * s, n, s);
    n as real * s
  }

  /** Rounding gives the least whole number of intervals not below `t`. */
  lemma RoundTimeLeast(t: real, m: real, interval: Interval)
    requires IsMultiple(m, interval) && t <= m
    ensures RoundTime(t, interval) <= m
  {
    var s := Step(interval);
    assert RoundTime(t, interval) == Ceil(t / s) as real * s;
    LeastMultiple(t, m, s);
  }

  /** `Math.ceil(x)` is at most any integer not below `x`. */
  lemma CeilLeast(x: real, k: int)
    requires x <= k as real
    ensures Ceil(x) <= k
  {
  }

  /** The least-multiple argument for a positive step. */
  lemma LeastMultiple(t: real, m: real, s: real)
    requires s > 0.0
    requires (m / s).Floor as real == m / s && t <= m
    ensures Ceil(t / s) as real * s <= m
  {
    var k := (m / s).Floor;
    DivLe(t, m, s);
    CeilLeast(t / s, k);
    MulLe(Ceil(t / s) as real, k as real, s);
    DivMul(m, s);
  }

  /** Rounding what is already rounded changes nothing. */
  lemma RoundTimeIdempotent(t: real, interval: Interval)
    ensures RoundTime(RoundTime(t, interval), interval) == RoundTime(t, interval)
  {
    var r := RoundTime(t, interval);
    RoundTimeLeast(r, r, interval);
  }

  /** Rounding keeps the order of durations. */
  lemma RoundTimeMonotone(t: real, u: real, interval: Interval)
    requires t <= u
    ensures RoundTime(t, interval) <= RoundTime(u, interval)
  {
    RoundTimeLeast(t, RoundTime(u, interval), interval);
  }

  /** No time stays no time. */
  lemma RoundTimeZero(interval: Interval)
    ensures RoundTime(0.0, interval) == 0.0
  {
    assert IsMultiple(0.0, interval);
    RoundTimeLeast(0.0, 0.0, interval);
  }

  /** 1.1 hours at 30 minutes bills as 1.5 hours; a whole hour at 15
      minutes stays one hour. */
  lemma RoundTimeExamples()
    ensures RoundTime(1.1, 30) == 1.5
    ensures RoundTime(1.0, 15) == 1.0
  {
    assert IsMultiple(1.5, 30);
    RoundTimeLeast(1.1, 1.5, 30);
    assert IsMultiple(1.0, 15);
    RoundTimeLeast(1.0, 1.0, 15);
  }

  /** The entry `applyTimeRounding` makes of `e`. */
  function Rounded(e: TimeEntry, interval: Interval, rate: real): TimeEntry {
    var t := RoundTime(e.timeDecimal, interval);
    e.(timeDecimal := t, amount := t * rate)
  }

  /** `applyTimeRounding`: same entries in the same order, each duration
      rounded up and billed at the rate, every other field as it was. */
  function ApplyTimeRounding(es: seq<TimeEntry>, interval: Interval, rate: real): (r: seq<TimeEntry>)
    ensures |r| == |es|
    ensures forall i :: 0 <= i < |es| ==>
      && r[i].timeDecimal == RoundTime(es[i].timeDecimal, interval)
      && r[i].amount == r[i].timeDecimal * rate
      && r[i].(timeDecimal := es[i].timeDecimal, amount := es[i].amount) == es[i]
  {
    var r := seq(|es|, i requires 0 <= i < |es| => Rounded(es[i], interval, rate));
    assert forall i :: 0 <= i < |es| ==> RoundedFields(es[i], r[i], interval, rate) by {
      forall i | 0 <= i < |es| ensures RoundedFields(es[i], r[i], interval, rate) {
        RoundedShape(es[i], interval, rate);
      }
    }
    r
  }

  /** `r` is `e` with the duration rounded and the amount rebilled. */
  ghost predicate RoundedFields(e: TimeEntry, r: TimeEntry, interval: Interval, rate: real) {
    && r.timeDecimal == RoundTime(e.timeDecimal, interval)
    && r.amount == r.timeDecimal * rate
    && r.(timeDecimal := e.timeDecimal, amount := e.amount) == e
  }

  lemma RoundedShape(e: TimeEntry, interval: Interval, rate: real)
    ensures RoundedFields(e, Rounded(e, interval, rate), interval, rate)
  {
  }

  /** `recalculateAmounts`: durations untouched, each amount rebilled at
      the rate, every other field as it was. */
  function RecalculateAmounts(es: seq<TimeEntry>, rate: real): (r: seq<TimeEntry>)
    ensures |r| == |es|
    ensures forall i :: 0 <= i < |es| ==>
      && r[i].timeDecimal == es[i].timeDecimal
      && r[i].amount == es[i].timeDecimal * rate
      && r[i].(amount := es[i].amount) == es[i]
  {
    seq(|es|, i requires 0 <= i < |es| => es[i].(amount := es[i].timeDecimal * rate))
  }

  /** Rounding twice at one interval and rate is rounding once. */
  lemma ApplyIdempotent(es: seq<TimeEntry>, interval: Interval, rate: real)
    ensures ApplyTimeRounding(ApplyTimeRounding(es, interval, rate), interval, rate)
         == ApplyTimeRounding(es, interval, rate)
  {
    var once := ApplyTimeRounding(es, interval, rate);
    var twice := ApplyTimeRounding(once, interval, rate);
    forall i | 0 <= i < |es| ensures twice[i] == once[i] {
      RoundTimeIdempotent(es[i].timeDecimal, interval);
      assert twice[i] == Rounded(once[i], interval, rate);
      RoundedFixed(once[i], interval, rate);
    }
    assert twice == once;
  }

  /** An entry already rounded and billed at the rate is left as it is. */
  lemma RoundedFixed(e: TimeEntry, interval: Interval, rate: real)
    requires RoundTime(e.timeDecimal, interval) == e.timeDecimal && e.amount == e.timeDecimal * rate
    ensures Rounded(e, interval, rate) == e
  {
  }

  /** Rounded entries are already billed at the rate they were rounded with. */
  lemma RecalculateAfterApply(es: seq<TimeEntry>, interval: Interval, rate: real)
    ensures RecalculateAmounts(ApplyTimeRounding(es, interval, rate), rate) == ApplyTimeRounding(es, interval, rate)
  {
  }

  /** `totalRoundedHours`: the sum of the rounded durations. */
  function RoundedHours(es: seq<TimeEntry>, interval: Interval): real {
    if es == [] then 0.0 else RoundTime(es[0].timeDecimal, interval) + RoundedHours(es[1..], interval)
  }

  /** `timeDifference`: rounded total minus original total. */
  function TimeDifference(es: seq<TimeEntry>, interval: Interval): real {
    RoundedHours(es, interval) - Total(es, Hours)
  }

  /** Rounding adds at least nothing and less than one interval per entry. */
  lemma {:induction false} TimeDifferenceBounds(es: seq<TimeEntry>, interval: Interval)
    ensures 0.0 <= TimeDifference(es, interval) <= |es| as real * Step(interval)
    ensures es != [] ==> TimeDifference(es, interval) < |es| as real * Step(interval)
  {
    if es != [] {
      TimeDifferenceBounds(es[1..], interval);
    }
  }

  /** The rounded total is the hours of the rounded entries. */
  lemma {:induction false} RoundedHoursApplied(es: seq<TimeEntry>, interval: Interval, rate: real)
    ensures RoundedHours(es, interval) == Total(ApplyTimeRounding(es, interval, rate), Hours)
  {
    if es != [] {
      RoundedHoursApplied(es[1..], interval, rate);
      var r := ApplyTimeRounding(es, interval, rate);
      assert r[1..] == ApplyTimeRounding(es[1..], interval, rate);
    }
  }

  /** After rounding, the amounts add up to the hours at the rate; with
      `RoundedHoursApplied`, those hours are the panel's rounded total. */
  lemma AppliedAmount(es: seq<TimeEntry>, interval: Interval, rate: real)
    ensures Total(ApplyTimeRounding(es, interval, rate), Amount)
         == Total(ApplyTimeRounding(es, interval, rate), Hours) * rate
  {
    AmountsBilled(ApplyTimeRounding(es, interval, rate), ApplyTimeRounding(es, interval, rate), rate);
  }

  /** Recalculated amounts add up to the unchanged hours at the rate. */
  lemma RecalculatedAmount(es: seq<TimeEntry>, rate: real)
    ensures Total(RecalculateAmounts(es, rate), Amount) == Total(es, Hours) * rate
  {
    AmountsBilled(RecalculateAmounts(es, rate), es, rate);
  }

  /** Entries billed position by position at one rate for the hours of a
      list of the same length add up to that list's hours at the rate. */
  lemma {:induction false} AmountsBilled(es: seq<TimeEntry>, hs: seq<TimeEntry>, rate: real)
    requires |es| == |hs|
    requires forall i :: 0 <= i < |es| ==> es[i].amount == hs[i].timeDecimal * rate
    ensures Total(es, Amount) == Total(hs, Hours) * rate
  {
    if es != [] {
      AmountsBilled(es[1..], hs[1..], rate);
      assert Total(es, Amount) == es[0].amount + Total(es[1..], Amount);
      assert Total(hs, Hours) == hs[0].timeDecimal + Total(hs[1..], Hours);
    }
  }
}
