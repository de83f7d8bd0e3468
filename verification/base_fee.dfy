/**
 backend/src/market/BaseFeeController.js: the base fee of the next capacity window, after the rule
 of EIP-1559, section "Specification", in whole units.
 */
module BaseFee {
  import opened BigInt

  datatype Config = Config(
    targetUtilisationBps: int, maxChangeBps: int, minBaseFee: int, maxBaseFee: int, smoothingFactor: int)

  const DEFAULT_CONFIG := Config(5000, 1250, 100, 1000000000, 8)

  function Clamp(c: Config, fee: int): int {
    if fee < c.minBaseFee then c.minBaseFee else if fee > c.maxBaseFee then c.maxBaseFee else fee
  }

  function Utilisation(bps: int): (u: int)
    ensures 0 <= u <= 10000
  {
    if bps < 0 then 0 else if bps > 10000 then 10000 else bps
  }

  /** No more than the largest change, when that is positive. */
  function Capped(delta: int, most: int): int {
    if delta > most && most > 0 then most else delta
  }

  function CalculateNextBaseFee(c: Config, fee: int, utilisationBps: int): int
    requires c.targetUtilisationBps * c.smoothingFactor > 0
  {
    var util := Utilisation(utilisationBps);
    var most := Quotient(fee * c.maxChangeBps, 10000);
    if util == c.targetUtilisationBps then Clamp(c, fee)
    else if util > c.targetUtilisationBps then
      var delta := Quotient(fee * (util - c.targetUtilisationBps), c.targetUtilisationBps * c.smoothingFactor);
      Clamp(c, fee + Capped(if delta == 0 then 1 else delta, most))
    else
      var delta :=
        Capped(Quotient(fee * (c.targetUtilisationBps - util), c.targetUtilisationBps * c.smoothingFactor), most);
      Clamp(c, if fee > delta then fee - delta else c.minBaseFee)
  }

  /** Whatever the fee and the load, the next fee is in range. */
  lemma NextInRange(c: Config, fee: int, utilisationBps: int)
    requires c.targetUtilisationBps * c.smoothingFactor > 0 && c.minBaseFee <= c.maxBaseFee
    ensures c.minBaseFee <= CalculateNextBaseFee(c, fee, utilisationBps) <= c.maxBaseFee
  {
  }

  // ----- the default configuration

  function Next(fee: int, utilisationBps: int): int {
    CalculateNextBaseFee(DEFAULT_CONFIG, fee, utilisationBps)
  }

  predicate InRange(fee: int) {
    DEFAULT_CONFIG.minBaseFee <= fee <= DEFAULT_CONFIG.maxBaseFee
  }

  /** The change for a distance of `d` basis points from the target. */
  function Delta(fee: int, d: int): int
    requires fee >= 0 && d >= 0
  {
    fee * d / 40000
  }

  lemma DeltaMonotone(f: nat, g: nat, d: nat, e: nat)
    requires f <= g && d <= e
    ensures Delta(f, d) <= Delta(g, e)
  {
    assert f * d <= g * d <= g * e;
  }

  /** At most an eighth of the fee, so the cap of the code never bites. */
  lemma DeltaAtMostEighth(fee: nat, d: nat)
    requires d <= 5000
    ensures 0 <= Delta(fee, d) <= fee / 8 == fee * 1250 / 10000
  {
    DeltaMonotone(fee, fee, d, 5000);
  }

  /** In range, the step is one division, a clamp, and a minimum rise of one. */
  lemma NextIs(fee: int, utilisationBps: int)
    requires InRange(fee)
    ensures var u := Utilisation(utilisationBps);
            Next(fee, utilisationBps) == Clamp(DEFAULT_CONFIG,
              if u > 5000 then fee + (if Delta(fee, u - 5000) == 0 then 1 else Delta(fee, u - 5000))
                else fee - Delta(fee, 5000 - u))
  {
    var u := Utilisation(utilisationBps);
    DeltaAtMostEighth(fee, if u > 5000 then u - 5000 else 5000 - u);
    assert fee * 0 == 0;
  }

  /** One step changes the fee by at most an eighth. */
  lemma OneStep(fee: int, utilisationBps: int)
    requires InRange(fee)
    ensures InRange(Next(fee, utilisationBps))
    ensures 7 * fee <= 8 * Next(fee, utilisationBps) <= 9 * fee
  {
    NextIs(fee, utilisationBps);
    var u := Utilisation(utilisationBps);
    DeltaAtMostEighth(fee, if u > 5000 then u - 5000 else 5000 - u);
  }

  /** A larger fee stays at least as large after a decrease: a unit more costs at most a unit. */
  lemma {:induction false} DecreaseKeepsOrder(f: nat, g: nat, d: nat)
    requires f <= g && d <= 5000
    ensures f - Delta(f, d) <= g - Delta(g, d)
  {
    if f < g {
      DecreaseKeepsOrder(f, g - 1, d);
      assert g * d == (g - 1) * d + d;
    }
  }

  /** The step is monotone in the fee and in the load. */
  lemma NextMonotone(f: int, g: int, u: int, v: int)
    requires InRange(f) && InRange(g) && f <= g && u <= v
    ensures Next(f, u) <= Next(g, v)
  {
    NextIs(f, u);
    NextIs(g, v);
    var x, y := Utilisation(u), Utilisation(v);
    if x > 5000 {
      DeltaMonotone(f, g, x - 5000, y - 5000);
    } else if y > 5000 {
      DeltaAtMostEighth(f, 5000 - x);
      DeltaAtMostEighth(g, y - 5000);
    } else {
      DecreaseKeepsOrder(f, g, 5000 - x);
      DeltaMonotone(g, g, 5000 - y, 5000 - x);
    }
  }

  // ----- many windows

  function FeeAfter(fee: int, loads: seq<int>): int {
    if loads == [] then fee else Next(FeeAfter(fee, loads[..|loads| - 1]), loads[|loads| - 1])
  }

  function Power(b: nat, k: nat): nat {
    if k == 0 then 1 else b * Power(b, k - 1)
  }

  lemma {:induction false} StaysInRange(fee: int, loads: seq<int>)
    requires InRange(fee)
    ensures InRange(FeeAfter(fee, loads))
  {
    if loads != [] {
      StaysInRange(fee, loads[..|loads| - 1]);
      OneStep(FeeAfter(fee, loads[..|loads| - 1]), loads[|loads| - 1]);
    }
  }

  lemma {:induction false} FallsAtMost(fee: int, loads: seq<int>, k: nat)
    requires InRange(fee) && k == |loads|
    ensures Power(7, k) * fee <= Power(8, k) * FeeAfter(fee, loads)
  {
    if k > 0 {
      var before, after := FeeAfter(fee, loads[..k - 1]), FeeAfter(fee, loads);
      FallsAtMost(fee, loads[..k - 1], k - 1);
      StaysInRange(fee, loads[..k - 1]);
      OneStep(before, loads[k - 1]);
      Chain(Power(7, k - 1), Power(8, k - 1), 7, 8, fee, before, after);
    }
  }

  lemma {:induction false} RisesAtMost(fee: int, loads: seq<int>, k: nat)
    requires InRange(fee) && k == |loads|
    ensures Power(8, k) * FeeAfter(fee, loads) <= Power(9, k) * fee
  {
    if k > 0 {
      var before, after := FeeAfter(fee, loads[..k - 1]), FeeAfter(fee, loads);
      RisesAtMost(fee, loads[..k - 1], k - 1);
      StaysInRange(fee, loads[..k - 1]);
      OneStep(before, loads[k - 1]);
      Chain(8, 9, Power(8, k - 1), Power(9, k - 1), after, before, fee);
    }
  }

  lemma Chain(a: nat, b: nat, m: nat, n: nat, x: int, y: int, z: int)
    requires a * x <= b * y && m * y <= n * z
    ensures a * m * x <= b * n * z
  {
    assert m * (a * x) <= m * (b * y);
    assert b * (m * y) <= b * (n * z);
    assert m * (b * y) == b * (m * y);
    assert m * (a * x) == a * m * x && b * (n * z) == b * n * z;
  }

  /** Over any windows the fee stays in range, and each window is worth at most an eighth either way. */
  lemma ManyWindows(fee: int, loads: seq<int>)
    requires InRange(fee)
    ensures InRange(FeeAfter(fee, loads))
    ensures Power(7, |loads|) * fee <= Power(8, |loads|) * FeeAfter(fee, loads) <= Power(9, |loads|) * fee
  {
    StaysInRange(fee, loads);
    FallsAtMost(fee, loads, |loads|);
    RisesAtMost(fee, loads, |loads|);
  }

  lemma {:induction false} HigherLoadsHigherFee(f: int, g: int, loads: seq<int>, higher: seq<int>)
    requires InRange(f) && InRange(g) && f <= g && |loads| == |higher| &&
               forall i :: 0 <= i < |loads| ==> loads[i] <= higher[i]
    ensures FeeAfter(f, loads) <= FeeAfter(g, higher)
  {
    if loads != [] {
      var k := |loads| - 1;
      HigherLoadsHigherFee(f, g, loads[..k], higher[..k]);
      ManyWindows(f, loads[..k]);
      ManyWindows(g, higher[..k]);
      NextMonotone(FeeAfter(f, loads[..k]), FeeAfter(g, higher[..k]), loads[k], higher[k]);
    }
  }

  lemma {:induction false} RisesEachWindow(fee: int, loads: seq<int>)
    requires InRange(fee) && forall i :: 0 <= i < |loads| ==> loads[i] > 5000
    ensures InRange(FeeAfter(fee, loads)) &&
              (FeeAfter(fee, loads) >= fee + |loads| || FeeAfter(fee, loads) == DEFAULT_CONFIG.maxBaseFee)
  {
    if loads != [] {
      var k := |loads| - 1;
      RisesEachWindow(fee, loads[..k]);
      NextIs(FeeAfter(fee, loads[..k]), loads[k]);
      DeltaAtMostEighth(FeeAfter(fee, loads[..k]), Utilisation(loads[k]) - 5000);
    }
  }

  /** Sustained load above the target reaches the maximum. */
  lemma SustainedLoadReachesMax(fee: int, loads: seq<int>)
    requires InRange(fee) && (forall i :: 0 <= i < |loads| ==> loads[i] > 5000) &&
               |loads| >= DEFAULT_CONFIG.maxBaseFee - fee
    ensures FeeAfter(fee, loads) == DEFAULT_CONFIG.maxBaseFee
  {
    RisesEachWindow(fee, loads);
  }

  lemma {:induction false} FallsEachWindow(fee: int, loads: seq<int>)
    requires InRange(fee) && forall i :: 0 <= i < |loads| ==> loads[i] <= 0
    ensures InRange(FeeAfter(fee, loads)) &&
              (FeeAfter(fee, loads) <= fee - 12 * |loads| || FeeAfter(fee, loads) == DEFAULT_CONFIG.minBaseFee)
  {
    if loads != [] {
      var k := |loads| - 1;
      FallsEachWindow(fee, loads[..k]);
      NextIs(FeeAfter(fee, loads[..k]), loads[k]);
    }
  }

  /** Sustained idleness reaches the minimum. */
  lemma IdlenessReachesMin(fee: int, loads: seq<int>)
    requires InRange(fee) && (forall i :: 0 <= i < |loads| ==> loads[i] <= 0) &&
               12 * |loads| >= fee - DEFAULT_CONFIG.minBaseFee
    ensures FeeAfter(fee, loads) == DEFAULT_CONFIG.minBaseFee
  {
    FallsEachWindow(fee, loads);
  }

  /**
   Where the fee stands still: at the target, at the bounds, and below the target when the decrease
   rounds down to nothing.
   */
  lemma StandsStillExactly(fee: int, utilisationBps: int)
    requires InRange(fee)
    ensures var u := Utilisation(utilisationBps);
            Next(fee, utilisationBps) == fee <==>
              if u > 5000 then fee == DEFAULT_CONFIG.maxBaseFee
              else fee == DEFAULT_CONFIG.minBaseFee || fee * (5000 - u) < 40000
  {
    NextIs(fee, utilisationBps);
    var u := Utilisation(utilisationBps);
    DeltaAtMostEighth(fee, if u > 5000 then u - 5000 else 5000 - u);
  }

  // ----- the same load for many windows

  function Windows(load: int, k: nat): seq<int> {
    seq(k, _ => load)
  }

  lemma NextOfWindows(fee: int, load: int, k: nat)
    ensures FeeAfter(fee, Windows(load, k + 1)) == Next(FeeAfter(fee, Windows(load, k)), load)
  {
    assert Windows(load, k + 1)[..k] == Windows(load, k);
  }

  /** Below this load, the fee just above the minimum still falls. */
  predicate Converges(load: int) {
    Utilisation(load) < 5000 && 101 * (5000 - Utilisation(load)) >= 40000
  }

  lemma {:induction false} FallsToMin(fee: int, load: int, k: nat)
    requires InRange(fee) && Converges(load)
    ensures InRange(FeeAfter(fee, Windows(load, k)))
    ensures FeeAfter(fee, Windows(load, k)) <= fee - k || FeeAfter(fee, Windows(load, k)) == DEFAULT_CONFIG.minBaseFee
  {
    if k > 0 {
      var before := FeeAfter(fee, Windows(load, k - 1));
      FallsToMin(fee, load, k - 1);
      NextOfWindows(fee, load, k - 1);
      NextIs(before, load);
      if before > 100 { DeltaMonotone(101, before, 5000 - Utilisation(load), 5000 - Utilisation(load)); }
    }
  }

  lemma {:induction false} StaysAboveMin(fee: int, load: int, k: nat)
    requires InRange(fee) && fee > 100 && !Converges(load)
    ensures 101 <= FeeAfter(fee, Windows(load, k)) && InRange(FeeAfter(fee, Windows(load, k)))
  {
    if k > 0 {
      var before := FeeAfter(fee, Windows(load, k - 1));
      StaysAboveMin(fee, load, k - 1);
      NextOfWindows(fee, load, k - 1);
      NextIs(101, load);
      NextMonotone(101, before, load, load);
      OneStep(before, load);
    }
  }

  /**
   Under a load that stays the same, the fee reaches its minimum exactly when it is there already or
   the load is at least 397 basis points below the target, and then within one window a unit.
   */
  lemma ReachesMinExactly(fee: int, load: int)
    requires InRange(fee)
    ensures (exists k: nat :: FeeAfter(fee, Windows(load, k)) == DEFAULT_CONFIG.minBaseFee) <==>
            fee == DEFAULT_CONFIG.minBaseFee || Converges(load)
    ensures Converges(load) <==> Utilisation(load) <= 5000 - 397
    ensures Converges(load) ==>
              FeeAfter(fee, Windows(load, fee - DEFAULT_CONFIG.minBaseFee)) == DEFAULT_CONFIG.minBaseFee
  {
    if Converges(load) { FallsToMin(fee, load, fee - DEFAULT_CONFIG.minBaseFee); }
    if fee == DEFAULT_CONFIG.minBaseFee {
      assert FeeAfter(fee, Windows(load, 0)) == fee;
    } else if !Converges(load) {
      forall k: nat
        ensures FeeAfter(fee, Windows(load, k)) != DEFAULT_CONFIG.minBaseFee
      {
        StaysAboveMin(fee, load, k);
      }
    }
  }
}
