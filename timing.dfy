/** The frame timer: a fixed-capacity history of frame durations, shifted
    one slot toward the front on every tick, with the newest duration in the
    last slot. */
module Timing {
  import opened Wrappers

  /** The history capacity the viewer instantiates the meter with. */
  const DefaultHistorySize: nat := 10

  /** A history of `n` zero durations, as the constructor leaves it. */
  function Zeros(n: nat): (r: seq<real>)
    ensures |r| == n && forall i :: 0 <= i < n ==> r[i] == 0.0
  {
    seq(n, _ => 0.0)
  }

  /** The history after one tick that measured `d`: every sample moves one
      slot toward the front, the oldest is dropped and `d` takes the last slot. */
  function Shift(s: seq<real>, d: real): (r: seq<real>)
    requires |s| > 0
    ensures |r| == |s|
    ensures r[|s| - 1] == d
    ensures forall i :: 0 <= i < |s| - 1 ==> r[i] == s[i + 1]
  {
    s[1..] + [d]
  }

  /** The history after one tick per element of `ds`, in order. */
  function Replay(s: seq<real>, ds: seq<real>): (r: seq<real>)
    requires |s| > 0
    ensures |r| == |s|
    decreases |ds|
  {
    if |ds| == 0 then s else Replay(Shift(s, ds[0]), ds[1..])
  }

  /** All durations are non-negative, as they are for a clock that does not
      run backwards. */
  predicate NonNegative(s: seq<real>)
  {
    forall i :: 0 <= i < |s| ==> s[i] >= 0.0
  }

  /** Left-to-right sum, the order in which the average accumulates. */
  function Sum(s: seq<real>): (r: real)
    ensures NonNegative(s) ==> r >= 0.0
  {
    if |s| == 0 then 0.0 else Sum(s[..|s| - 1]) + s[|s| - 1]
  }

  /** The average over every slot: the sum shared out over the slots. */
  function Mean(s: seq<real>): (r: real)
    requires |s| > 0
    ensures r * |s| as real == Sum(s)
    ensures NonNegative(s) ==> r >= 0.0
  {
    Sum(s) / |s| as real
  }

  /** Whatever the history held, after the ticks `ds` it is the last `|s|`
      entries of the old history followed by `ds`. */
  lemma {:induction false} ReplayWindow(s: seq<real>, ds: seq<real>)
    requires |s| > 0
    ensures Replay(s, ds) == (s + ds)[|ds|..]
    decreases |ds|
  {
    if |ds| > 0 {
      var s' := Shift(s, ds[0]);
      ReplayWindow(s', ds[1..]);
      assert s' == s[1..] + [ds[0]];
      assert s' + ds[1..] == s[1..] + ds;
      assert (s[1..] + ds)[|ds| - 1..] == (s + ds)[|ds|..];
    }
  }

  /** A tick after a run of ticks shifts the history the run left, so a
      meter ticked in a loop holds `Replay` of its start and the durations so
      far. */
  lemma ReplaySnoc(s: seq<real>, ds: seq<real>, d: real)
    requires |s| > 0
    ensures Replay(s, ds + [d]) == Shift(Replay(s, ds), d)
  {
    ReplayWindow(s, ds + [d]);
    ReplayWindow(s, ds);
    assert s + (ds + [d]) == (s + ds) + [d];
  }

  /** After `k <= n` ticks from construction the first `n - k` slots still
      hold 0 and the last `k` hold the measured durations in order. */
  lemma FreshHistory(n: nat, ds: seq<real>)
    requires 0 < n && |ds| <= n
    ensures Replay(Zeros(n), ds) == Zeros(n - |ds|) + ds
  {
    ReplayWindow(Zeros(n), ds);
    var z, w := Zeros(n) + ds, Zeros(n - |ds|) + ds;
    forall i | 0 <= i < n
      ensures z[|ds|..][i] == w[i]
    {
      if i < n - |ds| {
        assert z[|ds| + i] == 0.0;
      } else {
        assert z[|ds| + i] == ds[i - (n - |ds|)];
      }
    }
    assert z[|ds|..] == w;
  }

  /** Once at least `|s|` ticks happened the history holds exactly the
      latest `|s|` durations: nothing of the earlier history survives. */
  lemma FullHistory(s: seq<real>, ds: seq<real>)
    requires 0 < |s| <= |ds|
    ensures Replay(s, ds) == ds[|ds| - |s|..]
  {
    ReplayWindow(s, ds);
    assert (s + ds)[|ds|..] == ds[|ds| - |s|..];
  }

  lemma {:induction false} SumZeros(n: nat)
    ensures Sum(Zeros(n)) == 0.0
  {
    if n > 0 {
      assert Zeros(n)[..n - 1] == Zeros(n - 1);
      SumZeros(n - 1);
    }
  }

  lemma {:induction false} SumAppend(a: seq<real>, b: seq<real>)
    ensures Sum(a + b) == Sum(a) + Sum(b)
    decreases |b|
  {
    if |b| == 0 {
      assert a + b == a;
    } else {
      assert (a + b)[..|a + b| - 1] == a + b[..|b| - 1];
      SumAppend(a, b[..|b| - 1]);
    }
  }

  /** The running total after a tick: the dropped oldest sample leaves it and
      the new duration enters it. */
  lemma SumShift(s: seq<real>, d: real)
    requires |s| > 0
    ensures Sum(Shift(s, d)) == Sum(s) - s[0] + d
  {
    assert s == [s[0]] + s[1..];
    SumAppend([s[0]], s[1..]);
    SumAppend(s[1..], [d]);
    assert Sum([s[0]]) == Sum([]) + s[0];
    assert Sum([d]) == Sum([]) + d;
  }

  /** Fewer ticks than the capacity: the zeros still in the history count in
      the average, so it is the measured total over the whole capacity. */
  lemma FreshMean(n: nat, ds: seq<real>)
    requires 0 < n && |ds| <= n
    ensures Mean(Replay(Zeros(n), ds)) == Sum(ds) / n as real
  {
    FreshSum(n, ds);
  }

  /** Fewer ticks than the capacity: the total is the measured durations'. */
  lemma FreshSum(n: nat, ds: seq<real>)
    requires 0 < n && |ds| <= n
    ensures |Replay(Zeros(n), ds)| == n && Sum(Replay(Zeros(n), ds)) == Sum(ds)
  {
    FreshHistory(n, ds);
    SumAppend(Zeros(n - |ds|), ds);
    SumZeros(n - |ds|);
  }

  class FpsMeter {
    /** The clock reading of the previous tick (the clock's epoch at first). */
    var last: real
    const history: array<real>

    ghost predicate Valid()
      reads this
    {
      history.Length > 0
    }

    constructor (n: nat)
      requires n > 0
      ensures Valid() && fresh(history)
      ensures history.Length == n && history[..] == Zeros(n)
      ensures last == 0.0
    {
      last := 0.0;
      history := new real[n](_ => 0.0);
    }

    /** The meter as the viewer declares it, with the default capacity. */
    constructor Default()
      ensures Valid() && fresh(history)
      ensures history.Length == DefaultHistorySize && history[..] == Zeros(DefaultHistorySize)
      ensures last == 0.0
    {
      last := 0.0;
      history := new real[DefaultHistorySize](_ => 0.0);
    }

    /** Records the time elapsed since the previous tick, `now` being the
        clock reading taken by the tick. */
    method Tick(now: real)
      requires Valid()
      modifies this, history
      ensures Valid()
      ensures history[..] == Shift(old(history[..]), now - old(last))
      ensures last == now
    {
      var duration := now - last;
      last := now;
      var n := history.Length;
      var i := 0;
      while i < n - 1
        invariant 0 <= i <= n - 1 && last == now
        invariant forall k :: 0 <= k < i ==> history[k] == old(history[k + 1])
        invariant forall k :: i <= k < n ==> history[k] == old(history[k])
      {
        history[i] := history[i + 1];
        i := i + 1;
      }
      history[n - 1] := duration;
    }

    /** The duration measured by the most recent tick. */
    method Delta() returns (d: real)
      requires Valid()
      ensures d == history[history.Length - 1]
    {
      d := history[history.Length - 1];
    }

    /** The mean of every slot of the history, zeros included. */
    method DeltaAvg() returns (avg: real)
      requires Valid()
      ensures avg == Mean(history[..])
    {
      var total := 0.0;
      var i := 0;
      while i < history.Length
        invariant 0 <= i <= history.Length
        invariant total == Sum(history[..i])
      {
        assert history[..i + 1][..i] == history[..i];
        total := total + history[i];
        i := i + 1;
      }
      assert history[..i] == history[..];
      avg := total / history.Length as real;
    }

    /** Frames per second, the reciprocal of the average duration; `None`
        where the average is zero. */
    method Fps() returns (r: Option<real>)
      requires Valid()
      ensures r.None? <==> Sum(history[..]) == 0.0
      ensures r.Some? ==> r.value * Mean(history[..]) == 1.0
      ensures r.Some? && NonNegative(history[..]) ==> r.value > 0.0
    {
      var avg := DeltaAvg();
      if avg == 0.0 {
        r := None;
      } else {
        r := Some(1.0 / avg);
      }
    }
  }
}
