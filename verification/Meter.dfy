/** Meter arithmetic (internal/store/util.go, and its copy in internal/state/registry.go): the
    cumulative energy register is a 32-bit counter of Wh, and DeltaWh undoes one wrap-around. */
module Meter {
  const ROLLOVER: real := 4294967295.0
  const MODULUS: real := 4294967296.0

  function DeltaWh(previous: real, current: real): real {
    var delta := current - previous;
    if delta >= 0.0 then delta else current + (ROLLOVER - previous) + 1.0
  }

  /** `k` full turns of the register. */
  function Turns(k: int): real { k as real * MODULUS }

  predicate InRange(r: real) { 0.0 <= r < MODULUS }

  ghost predicate Congruent(a: real, b: real) {
    exists k: int :: a - b == Turns(k)
  }

  /** DeltaWh is characterised: on register readings it is the one value in [0, 2^32) congruent to
      the difference of the readings. */
  lemma DeltaIsTheResidue(previous: real, current: real, d: real)
    requires InRange(previous) && InRange(current)
    ensures d == DeltaWh(previous, current) <==> InRange(d) && Congruent(d, current - previous)
  {
    var delta := DeltaWh(previous, current);
    assert delta - (current - previous) == Turns(if current < previous then 1 else 0);
    if InRange(d) && Congruent(d, current - previous) {
      var k :| d - (current - previous) == Turns(k);
      var j: int := k - (if current < previous then 1 else 0);
      assert d - delta == Turns(j);
      assert j == 0;
    }
  }

  /** Outside the register's range the result can be negative: exactly when the earlier reading is
      more than one whole turn above the later one. */
  lemma DeltaNegativeIff(previous: real, current: real)
    ensures DeltaWh(previous, current) < 0.0 <==> previous > current + MODULUS
  {}

  // ---------------------------------------------------------------- runs of readings

  /** What the register shows once `energy` Wh have flowed in total. */
  function Reading(energy: real): real {
    energy - Turns((energy / MODULUS).Floor)
  }

  function Readings(energy: seq<real>): seq<real> {
    seq(|energy|, i requires 0 <= i < |energy| => Reading(energy[i]))
  }

  /** Cumulative energies that never fall and never grow by a whole turn between two readings. */
  predicate Plausible(energy: seq<real>) {
    forall i :: 0 <= i < |energy| - 1 ==> 0.0 <= energy[i + 1] - energy[i] < MODULUS
  }

  /** Sum of the per-step deltas over a run of readings. */
  function SumOfSteps(readings: seq<real>): real {
    if |readings| < 2 then 0.0
    else SumOfSteps(readings[..|readings| - 1])
         + DeltaWh(readings[|readings| - 2], readings[|readings| - 1])
  }

  lemma ReadingInRange(energy: real)
    ensures InRange(Reading(energy))
  {
    var q := energy / MODULUS;
    assert q.Floor as real <= q < q.Floor as real + 1.0;
    assert q * MODULUS == energy;
  }

  /** One step: less than a turn of energy is recovered exactly from the two readings. */
  lemma StepRecoversEnergy(e0: real, e1: real)
    requires 0.0 <= e1 - e0 < MODULUS
    ensures DeltaWh(Reading(e0), Reading(e1)) == e1 - e0
  {
    ReadingInRange(e0);
    ReadingInRange(e1);
    var k0, k1 := (e0 / MODULUS).Floor, (e1 / MODULUS).Floor;
    assert (e1 - e0) - (Reading(e1) - Reading(e0)) == Turns(k1 - k0);
    DeltaIsTheResidue(Reading(e0), Reading(e1), e1 - e0);
  }

  /** Telescoping: over any run of readings the per-step deltas add up to the energy that flowed,
      however many times the register wrapped. */
  lemma {:induction false} StepsTelescope(energy: seq<real>)
    requires |energy| > 0 && Plausible(energy)
    ensures SumOfSteps(Readings(energy)) == energy[|energy| - 1] - energy[0]
  {
    var n := |energy|;
    if n >= 2 {
      var init := energy[..n - 1];
      StepsTelescope(init);
      assert Readings(energy)[..n - 1] == Readings(init);
      StepRecoversEnergy(energy[n - 2], energy[n - 1]);
    }
  }

  /** The store's start-to-last delta equals that sum exactly while less than one turn has flowed. */
  lemma StartToLastIff(energy: seq<real>)
    requires |energy| > 0 && Plausible(energy)
    ensures DeltaWh(Reading(energy[0]), Reading(energy[|energy| - 1])) == SumOfSteps(Readings(energy))
       <==> energy[|energy| - 1] - energy[0] < MODULUS
  {
    var last := energy[|energy| - 1];
    StepsTelescope(energy);
    NeverFalls(energy);
    ReadingInRange(energy[0]);
    ReadingInRange(last);
    if last - energy[0] < MODULUS {
      StepRecoversEnergy(energy[0], last);
    } else {
      DeltaIsTheResidue(Reading(energy[0]), Reading(last), DeltaWh(Reading(energy[0]), Reading(last)));
    }
  }

  lemma {:induction false} NeverFalls(energy: seq<real>)
    requires |energy| > 0 && Plausible(energy)
    ensures energy[0] <= energy[|energy| - 1]
  {
    if |energy| > 1 { NeverFalls(energy[..|energy| - 1]); }
  }
}
