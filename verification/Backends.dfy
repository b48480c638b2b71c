/** Weighted backend selection with 32-bit weights. */
module Backends {
  import opened Text
  import opened Words
  import opened Config

  function WeightSum(backends: seq<Backend>): nat {
    if backends == [] then 0
    else WeightSum(backends[..|backends| - 1]) + backends[|backends| - 1].weight
  }

  /** The total the proxy draws from: the sum of the weights, wrapped to 32 bits. */
  function DrawRange(backends: seq<Backend>): nat {
    WeightSum(backends) % U32
  }

  /** `pick` lies between the prefix sums on either side of backend `i`. */
  predicate IsSelected(backends: seq<Backend>, pick: nat, i: int) {
    0 <= i < |backends| && WeightSum(backends[..i]) <= pick < WeightSum(backends[..i + 1])
  }

  /** Returns the position of the backend for the random number `draw`.  The source's fallback
      after the loop is never reached. */
  method SelectBackend(backends: seq<Backend>, draw: nat) returns (chosen: Option<nat>)
    requires DrawRange(backends) > 0 ==> draw < DrawRange(backends)
    ensures chosen.None? <==> DrawRange(backends) == 0
    ensures chosen.Some? ==> IsSelected(backends, draw, chosen.value)
  {
    chosen := None;
    var total := 0;
    for i := 0 to |backends|
      invariant total == WeightSum(backends[..i]) % U32
    {
      WeightSumStep(backends, i);
      WrappedSum(WeightSum(backends[..i]), backends[i].weight);
      total := (total + backends[i].weight) % U32;
    }
    assert backends[..|backends|] == backends;
    if total == 0 {
      return None;
    }
    var pick := draw;
    for i := 0 to |backends|
      invariant pick >= 0 && pick + WeightSum(backends[..i]) == draw
    {
      WeightSumStep(backends, i);
      if backends[i].weight == 0 {
        continue;
      }
      if pick < backends[i].weight {
        return Some(i);
      }
      pick := pick - backends[i].weight;
    }
    assert false;
  }

  lemma WrappedSum(a: nat, b: nat)
    ensures (a % U32 + b) % U32 == (a + b) % U32
  {
    assert a == a / U32 * U32 + a % U32;
  }

  lemma {:induction false} WeightSumMonotone(backends: seq<Backend>, i: nat, j: nat)
    requires i <= j <= |backends|
    ensures WeightSum(backends[..i]) <= WeightSum(backends[..j])
  {
    if i < j {
      WeightSumMonotone(backends, i, j - 1);
      assert backends[..j][..j - 1] == backends[..j - 1];
    }
  }

  lemma WeightSumStep(backends: seq<Backend>, i: nat)
    requires i < |backends|
    ensures WeightSum(backends[..i + 1]) == WeightSum(backends[..i]) + backends[i].weight
  {
    assert backends[..i + 1][..i] == backends[..i];
  }

  /** Every number below the sum of the weights selects exactly one backend, of positive weight. */
  lemma {:induction false} EveryPickSelectsOne(backends: seq<Backend>, pick: nat)
    requires pick < WeightSum(backends)
    ensures exists i :: IsSelected(backends, pick, i)
    ensures forall i, j :: IsSelected(backends, pick, i) && IsSelected(backends, pick, j) ==> i == j
    ensures forall i :: IsSelected(backends, pick, i) ==> backends[i].weight > 0
  {
    assert backends[..|backends|] == backends;
    var i := SelectedBackend(backends, pick, |backends|);
    forall i, j | IsSelected(backends, pick, i) && IsSelected(backends, pick, j)
      ensures i == j
    {
      if i < j {
        WeightSumMonotone(backends, i + 1, j);
      } else if j < i {
        WeightSumMonotone(backends, j + 1, i);
      }
    }
    forall i | IsSelected(backends, pick, i)
      ensures backends[i].weight > 0
    {
      WeightSumStep(backends, i);
    }
  }

  lemma {:induction false} SelectedBackend(backends: seq<Backend>, pick: nat, n: nat) returns (i: nat)
    requires n <= |backends| && pick < WeightSum(backends[..n])
    ensures i < n && IsSelected(backends, pick, i)
  {
    i := n - 1;
    if pick < WeightSum(backends[..i]) {
      i := SelectedBackend(backends, pick, i);
    }
  }

  // Proportionality

  ghost function Picks(backends: seq<Backend>, i: nat): set<nat> {
    set pick: nat | 0 <= pick < DrawRange(backends) && IsSelected(backends, pick, i)
  }

  /** Backend `i` is chosen for exactly as many draws as its weight says. */
  ghost predicate Proportional(backends: seq<Backend>) {
    forall i :: 0 <= i < |backends| ==> |Picks(backends, i)| == backends[i].weight
  }

  ghost function Interval(low: nat, high: nat): set<nat> {
    set p: nat | p < high && AtLeast(p, low)
  }

  predicate AtLeast(p: nat, low: nat) {
    low <= p
  }

  lemma {:induction false} IntervalSize(low: nat, high: nat)
    requires low <= high
    ensures |Interval(low, high)| == high - low
    decreases high - low
  {
    if low < high {
      IntervalSize(low, high - 1);
      assert Interval(low, high) == Interval(low, high - 1) + {high - 1};
    } else {
      assert Interval(low, high) == {};
    }
  }

  lemma PicksAreAnInterval(backends: seq<Backend>, i: nat, low: nat, high: nat)
    requires i < |backends|
    requires low == WeightSum(backends[..i]) <= high
    requires high == if WeightSum(backends[..i + 1]) <= DrawRange(backends) then WeightSum(backends[..i + 1]) else DrawRange(backends)
    ensures |Picks(backends, i)| == high - low
  {
    assert Picks(backends, i) == Interval(low, high);
    IntervalSize(low, high);
  }

  /** Selection is exactly proportional to the weights if and only if they sum to less than 2^32. */
  lemma {:induction false} ProportionalIff(backends: seq<Backend>)
    ensures Proportional(backends) <==> WeightSum(backends) < 0x1_0000_0000
  {
    if WeightSum(backends) < U32 {
      SmallSumIsProportional(backends);
    } else {
      OverflowIsNotProportional(backends);
    }
  }

  lemma {:induction false} SmallSumIsProportional(backends: seq<Backend>)
    requires WeightSum(backends) < U32
    ensures Proportional(backends)
  {
    assert backends[..|backends|] == backends;
    forall i | 0 <= i < |backends|
      ensures |Picks(backends, i)| == backends[i].weight
    {
      WeightSumStep(backends, i);
      WeightSumMonotone(backends, i + 1, |backends|);
      PicksAreAnInterval(backends, i, WeightSum(backends[..i]), WeightSum(backends[..i + 1]));
    }
  }

  lemma {:induction false} OverflowIsNotProportional(backends: seq<Backend>)
    requires WeightSum(backends) >= U32
    ensures !Proportional(backends)
  {
    assert backends[..|backends|] == backends;
    var range := DrawRange(backends);
    var i := SelectedBackend(backends, range, |backends|);
    WeightSumStep(backends, i);
    PicksAreAnInterval(backends, i, WeightSum(backends[..i]), range);
    assert |Picks(backends, i)| < backends[i].weight;
  }

  /** Two backends of weight 2^31: every request is refused although both may serve. */
  lemma OverflowRefusesAll(b: Backend)
    requires b.weight == U32 / 2
    ensures DrawRange([b, b]) == 0 && !Proportional([b, b])
  {
    assert [b, b][..1] == [b] && [b][..0] == [];
    assert WeightSum([b, b]) == WeightSum([b]) + b.weight;
    ProportionalIff([b, b]);
  }
}
