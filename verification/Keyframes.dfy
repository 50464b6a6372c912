/** Sampling an animation track: interpolation between the two keyframes around a time. */
module Keyframes {

  /** A keyframe; `value` lists the components of the scalar or vector. */
  datatype Key = Key(time: real, value: seq<real>)

  /** `mix`, one component at a time. */
  function Mix(start: seq<real>, end: seq<real>, r: real): (m: seq<real>)
    requires |start| == |end|
    ensures |m| == |start|
  {
    seq(|start|, i requires 0 <= i < |start| => start[i] * (1.0 - r) + end[i] * r)
  }

  predicate Sorted(keys: seq<Key>) {
    forall i, j | 0 <= i < j < |keys| :: keys[i].time <= keys[j].time
  }

  /** Every key has `n` components. */
  predicate Shaped(keys: seq<Key>, n: nat) {
    forall i | 0 <= i < |keys| :: |keys[i].value| == n
  }

  /** The track's value at a time, by linear scan: constant before the first and after the last key, straight
      between two neighbours. */
  function Scan(keys: seq<Key>, time: real, n: nat): (v: seq<real>)
    requires keys != [] && Shaped(keys, n)
    ensures |v| == n
  {
    if |keys| == 1 || time <= keys[0].time then keys[0].value
    else if time < keys[1].time then Interpolated(keys[0], keys[1], time, n)
    else Scan(keys[1..], time, n)
  }

  /** `std::lower_bound` on the key times. */
  method LowerBound(keys: seq<Key>, time: real) returns (pos: nat)
    requires Sorted(keys)
    ensures pos <= |keys|
    ensures forall i | 0 <= i < pos :: keys[i].time < time
    ensures forall i | pos <= i < |keys| :: time <= keys[i].time
  {
    pos := 0;
    var count: nat := |keys|;
    while count > 0
      invariant pos + count <= |keys|
      invariant forall i | 0 <= i < pos :: keys[i].time < time
      invariant forall i | pos + count <= i < |keys| :: time <= keys[i].time
    {
      var step := count / 2;
      if keys[pos + step].time < time {
        pos := pos + step + 1;
        count := count - (step + 1);
      } else {
        count := step;
      }
    }
  }

  /** `sample`; `current` is what the referenced value holds before the call. */
  method Sample(time: real, keys: seq<Key>, current: seq<real>, n: nat) returns (ok: bool, value: seq<real>)
    requires Sorted(keys) && Shaped(keys, n)
    ensures ok <==> keys != []
    ensures value == if keys == [] then current else Scan(keys, time, n)
  {
    if |keys| == 0 { return false, current; }
    if |keys| == 1 { return true, keys[0].value; }
    if time <= keys[0].time { return true, keys[0].value; }
    var pos := LowerBound(keys, time);
    ScanSkips(keys, time, n, pos);
    if pos == 0 { assert false; }  // the search never stops at the first key: it lies before the time
    if pos == |keys| { return true, keys[|keys| - 1].value; }
    var before := pos - 1;
    var deltaTime := keys[pos].time - keys[before].time;
    var r := if deltaTime != 0.0 then (time - keys[before].time) / deltaTime else 0.5;
    assert deltaTime > 0.0;
    return true, Mix(keys[before].value, keys[pos].value, r);
  }

  lemma MixEnds(a: seq<real>, b: seq<real>)
    requires |a| == |b|
    ensures Mix(a, b, 0.0) == a && Mix(a, b, 1.0) == b
  {
  }

  lemma QuotientOfEqual(a: real, b: real)
    requires a == b && b != 0.0
    ensures a / b == 1.0
  {
  }

  /** Keys that lie before the time, except the last of them, play no part. */
  lemma {:induction false} ScanSkips(keys: seq<Key>, time: real, n: nat, pos: nat)
    requires keys != [] && Sorted(keys) && Shaped(keys, n) && pos <= |keys|
    requires forall i | 0 <= i < pos :: keys[i].time < time
    requires forall i | pos <= i < |keys| :: time <= keys[i].time
    ensures pos == 0 ==> Scan(keys, time, n) == keys[0].value
    ensures pos == |keys| ==> Scan(keys, time, n) == keys[|keys| - 1].value
    ensures 0 < pos < |keys| ==> Scan(keys, time, n) == Interpolated(keys[pos - 1], keys[pos], time, n)
  {
    if pos > 1 {
      ScanSkips(keys[1..], time, n, pos - 1);
    } else if pos == 1 && |keys| > 1 && time == keys[1].time {
      MixEnds(keys[0].value, keys[1].value);
      QuotientOfEqual(time - keys[0].time, keys[1].time - keys[0].time);
    }
  }

  function Interpolated(before: Key, after: Key, time: real, n: nat): seq<real>
    requires before.time < after.time && |before.value| == |after.value| == n
  {
    Mix(before.value, after.value, (time - before.time) / (after.time - before.time))
  }

  // ----- what the interpolation means -----

  /** At the time of a key the track has the value of the first key with that time. */
  lemma {:induction false} HitsKeys(keys: seq<Key>, n: nat, i: nat)
    requires Sorted(keys) && Shaped(keys, n) && i < |keys|
    requires forall j | 0 <= j < i :: keys[j].time < keys[i].time
    ensures Scan(keys, keys[i].time, n) == keys[i].value
  {
    if i > 0 { HitsKeys(keys[1..], n, i - 1); }
  }

  /** Before the first key and after the last one the track stands still. */
  lemma {:induction false} StandsStillOutside(keys: seq<Key>, time: real, n: nat)
    requires keys != [] && Sorted(keys) && Shaped(keys, n)
    ensures time <= keys[0].time ==> Scan(keys, time, n) == keys[0].value
    ensures time > keys[|keys| - 1].time ==> Scan(keys, time, n) == keys[|keys| - 1].value
  {
    if |keys| > 1 { StandsStillOutside(keys[1..], time, n); }
  }

  /** Between two neighbouring keys every component moves along a straight line from the one to the other. */
  lemma {:induction false} StraightBetween(keys: seq<Key>, time: real, n: nat, i: nat, c: nat)
    requires Sorted(keys) && Shaped(keys, n) && i + 1 < |keys| && c < n
    requires keys[i].time < time < keys[i + 1].time
    ensures (Scan(keys, time, n)[c] - keys[i].value[c]) * (keys[i + 1].time - keys[i].time)
         == (keys[i + 1].value[c] - keys[i].value[c]) * (time - keys[i].time)
  {
    hide Mix, Interpolated;
    if i > 0 {
      StraightBetween(keys[1..], time, n, i - 1, c);
    } else {
      StraightFrom(keys[0], keys[1], time, n, c);
    }
  }

  lemma StraightFrom(before: Key, after: Key, time: real, n: nat, c: nat)
    requires before.time < time < after.time && |before.value| == |after.value| == n && c < n
    ensures (Interpolated(before, after, time, n)[c] - before.value[c]) * (after.time - before.time)
         == (after.value[c] - before.value[c]) * (time - before.time)
  {
    var d, dt := time - before.time, after.time - before.time;
    Quotient(d, dt, d / dt);
    Proportion(before.value[c], after.value[c], d, dt, d / dt, Interpolated(before, after, time, n)[c]);
  }

  lemma Quotient(d: real, dt: real, r: real)
    requires dt != 0.0 && r == d / dt
    ensures r * dt == d
  {
  }

  lemma Proportion(a: real, b: real, d: real, dt: real, r: real, m: real)
    requires r * dt == d && m == a * (1.0 - r) + b * r
    ensures (m - a) * dt == (b - a) * d
  {
    assert m - a == (b - a) * r;
    assert (b - a) * r * dt == (b - a) * (r * dt);
  }

  predicate Between(x: real, a: real, b: real) { (a <= x <= b) || (b <= x <= a) }

  lemma MixBetween(a: real, b: real, r: real)
    requires 0.0 <= r <= 1.0
    ensures Between(a * (1.0 - r) + b * r, a, b)
  {
    assert a * (1.0 - r) + b * r == a + (b - a) * r == b + (a - b) * (1.0 - r);
  }

  lemma Fraction(d: real, dt: real)
    requires 0.0 <= d <= dt && dt > 0.0
    ensures 0.0 <= d / dt <= 1.0
  {
  }

  /** Between two neighbouring keys every component stays between theirs. */
  lemma {:induction false} StaysBetweenNeighbours(keys: seq<Key>, time: real, n: nat, i: nat, c: nat)
    requires Sorted(keys) && Shaped(keys, n) && i + 1 < |keys| && c < n
    requires keys[i].time < time < keys[i + 1].time
    ensures Between(Scan(keys, time, n)[c], keys[i].value[c], keys[i + 1].value[c])
  {
    if i > 0 {
      StaysBetweenNeighbours(keys[1..], time, n, i - 1, c);
    } else {
      var dt, d := keys[1].time - keys[0].time, time - keys[0].time;
      Fraction(d, dt);
      MixBetween(keys[0].value[c], keys[1].value[c], d / dt);
    }
  }

  /** Going from `from` to `to` in `dt`, `s` times the value changes by at least `slope` per unit of time. */
  predicate Rises(s: real, slope: real, from: real, to: real, dt: real) { s * (to - from) >= slope * dt }

  predicate Steep(keys: seq<Key>, n: nat, c: nat, s: real, slope: real)
    requires Shaped(keys, n) && c < n
  {
    forall i | 1 <= i < |keys| ::
      Rises(s, slope, keys[i - 1].value[c], keys[i].value[c], keys[i].time - keys[i - 1].time)
  }

  function At(a: real, b: real, r: real): real { a * (1.0 - r) + b * r }

  lemma SegmentSteep(a: real, b: real, dt: real, d: real, d': real, s: real, slope: real)
    requires dt > 0.0 && 0.0 <= d <= d' && Rises(s, slope, a, b, dt)
    ensures Rises(s, slope, At(a, b, d / dt), At(a, b, d' / dt), d' - d)
  {
    var r, r' := d / dt, d' / dt;
    var gap := r' - r;
    assert d == r * dt && d' == r' * dt;
    assert gap >= 0.0 by { assert gap * dt == d' - d; }
    var m, m' := At(a, b, r), At(a, b, r');
    assert m' - m == (b - a) * gap;
    assert s * (m' - m) == (s * (b - a)) * gap;
    assert (s * (b - a)) * gap >= (slope * dt) * gap by { ScaleLess(slope * dt, s * (b - a), gap); }
    assert (slope * dt) * gap == slope * (gap * dt);
  }

  lemma ScaleLess(x: real, y: real, k: real)
    requires x <= y && k >= 0.0
    ensures x * k <= y * k
  {
  }

  lemma Chain(s: real, slope: real, x: real, y: real, z: real, t: real, u: real)
    requires Rises(s, slope, x, y, t) && Rises(s, slope, y, z, u)
    ensures Rises(s, slope, x, z, t + u)
  {
    assert s * (z - x) == s * (y - x) + s * (z - y);
    assert slope * (t + u) == slope * t + slope * u;
  }

  lemma Longer(s: real, slope: real, x: real, y: real, dt: real, dt': real)
    requires Rises(s, slope, x, y, dt) && dt <= dt' && slope <= 0.0
    ensures Rises(s, slope, x, y, dt')
  {
    ScaleLess(dt, dt', -slope);
  }

  /** A bound on the slope between keys bounds the change between any two times. */
  lemma {:induction false} SlopeBound(keys: seq<Key>, t: real, t': real, n: nat, c: nat, s: real, slope: real)
    requires keys != [] && Shaped(keys, n) && c < n && t <= t' && slope <= 0.0
    requires Steep(keys, n, c, s, slope)
    requires forall i | 1 <= i < |keys| :: keys[i - 1].time < keys[i].time
    ensures Rises(s, slope, Scan(keys, t, n)[c], Scan(keys, t', n)[c], t' - t)
  {
    if |keys| == 1 || t' <= keys[0].time {
      Longer(s, slope, 0.0, 0.0, 0.0, t' - t);
      assert Scan(keys, t, n)[c] == Scan(keys, t', n)[c];
    } else if t' <= keys[1].time {
      FirstSegment(keys, t, t', n, c, s, slope);
    } else {
      TailSteep(keys, n, c, s, slope);
      var u := if t <= keys[1].time then keys[1].time else t;
      SlopeBound(keys[1..], u, t', n, c, s, slope);
      if t <= keys[1].time {
        FirstSegment(keys, t, u, n, c, s, slope);
        Chain(s, slope, Scan(keys, t, n)[c], Scan(keys, u, n)[c], Scan(keys, t', n)[c], u - t, t' - u);
      }
    }
  }

  lemma TailSteep(keys: seq<Key>, n: nat, c: nat, s: real, slope: real)
    requires |keys| > 1 && Shaped(keys, n) && c < n && Steep(keys, n, c, s, slope)
    requires forall i | 1 <= i < |keys| :: keys[i - 1].time < keys[i].time
    ensures Steep(keys[1..], n, c, s, slope)
    ensures forall i | 1 <= i < |keys[1..]| :: keys[1..][i - 1].time < keys[1..][i].time
  {
    var tail := keys[1..];
    forall i | 1 <= i < |tail|
      ensures tail[i - 1].time < tail[i].time
      ensures Rises(s, slope, tail[i - 1].value[c], tail[i].value[c], tail[i].time - tail[i - 1].time)
    {
      assert tail[i] == keys[i + 1] && tail[i - 1] == keys[i + 1 - 1];
    }
  }

  lemma FirstSegment(keys: seq<Key>, t: real, t': real, n: nat, c: nat, s: real, slope: real)
    requires |keys| > 1 && Shaped(keys, n) && c < n && t <= t' && slope <= 0.0
    requires keys[0].time < t' <= keys[1].time
    requires Rises(s, slope, keys[0].value[c], keys[1].value[c], keys[1].time - keys[0].time)
    ensures Rises(s, slope, Scan(keys, t, n)[c], Scan(keys, t', n)[c], t' - t)
  {
    var dt := keys[1].time - keys[0].time;
    var d := if t <= keys[0].time then 0.0 else t - keys[0].time;
    var d' := t' - keys[0].time;
    SegmentSteep(keys[0].value[c], keys[1].value[c], dt, d, d', s, slope);
    AtEnds(keys, t, n, c);
    AtEnds(keys, t', n, c);
    Longer(s, slope, Scan(keys, t, n)[c], Scan(keys, t', n)[c], d' - d, t' - t);
  }

  lemma AtEnds(keys: seq<Key>, t: real, n: nat, c: nat)
    requires |keys| > 1 && Shaped(keys, n) && c < n && keys[0].time < keys[1].time && t <= keys[1].time
    ensures var d := if t <= keys[0].time then 0.0 else t - keys[0].time;
            var dt := keys[1].time - keys[0].time;
            Scan(keys, t, n)[c] == At(keys[0].value[c], keys[1].value[c], d / dt)
  {
  }

  /** When the key times strictly increase and a component never falls from key to key, the track never falls. */
  lemma Monotone(keys: seq<Key>, t: real, t': real, n: nat, c: nat)
    requires keys != [] && Shaped(keys, n) && c < n && t <= t'
    requires forall i, j | 0 <= i < j < |keys| :: keys[i].time < keys[j].time
    requires forall i | 1 <= i < |keys| :: keys[i - 1].value[c] <= keys[i].value[c]
    ensures Scan(keys, t, n)[c] <= Scan(keys, t', n)[c]
  {
    SlopeBound(keys, t, t', n, c, 1.0, 0.0);
  }

  predicate Slower(speed: real, from: real, to: real, dt: real) {
    -(speed * dt) <= to - from <= speed * dt
  }

  /** The track is as smooth as its keys: a bound on the speed between keys bounds the speed everywhere. */
  lemma SpeedBound(keys: seq<Key>, t: real, t': real, n: nat, c: nat, speed: real)
    requires keys != [] && Shaped(keys, n) && c < n && t <= t' && speed >= 0.0
    requires forall i, j | 0 <= i < j < |keys| :: keys[i].time < keys[j].time
    requires forall i | 1 <= i < |keys| ::
      Slower(speed, keys[i - 1].value[c], keys[i].value[c], keys[i].time - keys[i - 1].time)
    ensures Slower(speed, Scan(keys, t, n)[c], Scan(keys, t', n)[c], t' - t)
  {
    forall i | 1 <= i < |keys|
      ensures Rises(1.0, -speed, keys[i - 1].value[c], keys[i].value[c], keys[i].time - keys[i - 1].time)
      ensures Rises(-1.0, -speed, keys[i - 1].value[c], keys[i].value[c], keys[i].time - keys[i - 1].time)
    {
      BothWays(speed, keys[i - 1].value[c], keys[i].value[c], keys[i].time - keys[i - 1].time);
    }
    SlopeBound(keys, t, t', n, c, 1.0, -speed);
    SlopeBound(keys, t, t', n, c, -1.0, -speed);
    BothWays(speed, Scan(keys, t, n)[c], Scan(keys, t', n)[c], t' - t);
  }

  lemma BothWays(speed: real, from: real, to: real, dt: real)
    ensures Slower(speed, from, to, dt) <==>
            Rises(1.0, -speed, from, to, dt) && Rises(-1.0, -speed, from, to, dt)
  {
  }
}
