/** How often krypton lets reactions 3 and 4 fire (apps/q5/krypton/krypton.c:107-121). */
module ReactionBudget {

  function Min(a: nat, b: nat): nat { if a < b then a else b }

  predicate CanReact3(n2: int, o2: int, temperature: int) {
    n2 > 0 && o2 > 1 && temperature <= 120
  }

  predicate CanReact4(o2: int, temperature: int) {
    o2 > 2 && temperature >= 60
  }

  /** Rounds of reactions 3 and 4, in closed form.  Between 60 and 120 degrees they alternate
      while five O2 and one N2 are left for a whole round; then one of them uses up the rest. */
  function Budget(n2: nat, o2: nat, temperature: int): (nat, nat) {
    if temperature < 60 then (Min(n2, o2 / 2), 0)
    else if temperature > 120 then (0, o2 / 3)
    else
      var r := Min(n2, o2 / 5);
      (r + Min(n2 - r, (o2 - 5 * r) / 2), r + if n2 == r then (o2 - 5 * r) / 3 else 0)
  }

  /** The plan never asks for more molecules than there will be, and stops only when neither
      reaction is possible any more. */
  lemma BudgetIsFeasibleAndExhaustive(n2: nat, o2: nat, temperature: int)
    ensures var (a, b) := Budget(n2, o2, temperature);
      && a <= n2
      && 2 * a + 3 * b <= o2
      && (temperature > 120 ==> a == 0)
      && (temperature < 60 ==> b == 0)
      && !CanReact3(n2 - a, o2 - 2 * a - 3 * b, temperature)
      && !CanReact4(o2 - 2 * a - 3 * b, temperature)
  {
    var r := Min(n2, o2 / 5);
    if 60 <= temperature <= 120 && n2 != r {
      assert o2 - 5 * r < 5;
    }
  }

  /** The plan in terms of the molecules alone: it asks for no more of them than there are, uses no
      reaction at a temperature that rules it out, and leaves too few for another one; where both
      reactions can happen they take turns, and reaction 3 is first, so reaction 4 is ahead only if
      the N2 is used up, and reaction 3 only if too little O2 was left for reaction 4 behind it. */
  predicate IsPlan(n2: nat, o2: nat, temperature: int, a: nat, b: nat) {
    && a <= n2 && 2 * a + 3 * b <= o2
    && (temperature > 120 ==> a == 0)
    && (temperature < 60 ==> b == 0)
    && (temperature <= 120 ==> a == n2 || o2 - 2 * a - 3 * b <= 1)
    && (temperature >= 60 ==> o2 - 2 * a - 3 * b <= 2)
    && (60 <= temperature <= 120 ==>
          && (b > a ==> a == n2)
          && (a > b ==> o2 - 2 * (b + 1) - 3 * b <= 2))
  }

  /** There is one such plan. */
  lemma PlanIsBudget(n2: nat, o2: nat, temperature: int, a: nat, b: nat)
    ensures IsPlan(n2, o2, temperature, a, b) <==> (a, b) == Budget(n2, o2, temperature)
  {
    if 60 <= temperature <= 120 {
      BudgetIsFeasibleAndExhaustive(n2, o2, temperature);
      var r := Min(n2, o2 / 5);
      if IsPlan(n2, o2, temperature, a, b) {
        assert b <= r || a == n2;
        assert Min(a, b) == r;
      }
    }
  }

  /** What one pass of krypton's loop takes from `n2` and `o2`. */
  function Pass(n2: nat, o2: nat, temperature: int): (nat, nat) {
    var a := if CanReact3(n2, o2, temperature) then 1 else 0;
    (a, if CanReact4(o2 - 2 * a, temperature) then 1 else 0)
  }

  lemma BudgetOfOnePass(n2: nat, o2: nat, temperature: int)
    ensures var (a, b) := Pass(n2, o2, temperature);
      && a <= n2 && 2 * a + 3 * b <= o2
      && Budget(n2, o2, temperature).0 == a + Budget(n2 - a, o2 - 2 * a - 3 * b, temperature).0
      && Budget(n2, o2, temperature).1 == b + Budget(n2 - a, o2 - 2 * a - 3 * b, temperature).1
  {
    if 60 <= temperature <= 120 && n2 > 0 && o2 >= 5 {
      assert (o2 - 5) / 5 == o2 / 5 - 1;
    }
  }

  lemma NothingLeft(n2: nat, o2: nat, temperature: int)
    requires !CanReact3(n2, o2, temperature) && !CanReact4(o2, temperature)
    ensures Budget(n2, o2, temperature) == (0, 0)
  {
  }

  /** The number, or 0 if it is negative. */
  function Positive(n: int): nat { if n < 0 then 0 else n }

  /** Krypton's planning loop computes the closed form; negative numbers of molecules count as none. */
  method PlanReactions(n2: int, o2: int, temperature: int) returns (no2: nat, o3: nat)
    ensures (no2, o3) == Budget(Positive(n2), Positive(o2), temperature)
    ensures IsPlan(if n2 < 0 then 0 else n2, if o2 < 0 then 0 else o2, temperature, no2, o3)
  {
    hide Budget;
    var estN2, estO2 := n2, o2;
    no2, o3 := 0, 0;
    ghost var left := Budget(Positive(n2), Positive(o2), temperature);
    while CanReact3(estN2, estO2, temperature) || CanReact4(estO2, temperature)
      invariant left == Budget(Positive(estN2), Positive(estO2), temperature)
      invariant Budget(Positive(n2), Positive(o2), temperature) == (no2 + left.0, o3 + left.1)
      decreases estO2
    {
      ghost var n, o := Positive(estN2), Positive(estO2);
      ghost var pass := Pass(n, o, temperature);
      ghost var nextN2, nextO2 := n - pass.0, o - 2 * pass.0 - 3 * pass.1;
      BudgetOfOnePass(n, o, temperature);
      left := Budget(nextN2, nextO2, temperature);
      if CanReact3(estN2, estO2, temperature) {
        estN2 := estN2 - 1;
        estO2 := estO2 - 2;
        no2 := no2 + 1;
      }
      if CanReact4(estO2, temperature) {
        estO2 := estO2 - 3;
        o3 := o3 + 1;
      }
      assert Positive(estN2) == nextN2 && Positive(estO2) == nextO2;
    }
    NothingLeft(Positive(estN2), Positive(estO2), temperature);
    PlanIsBudget(Positive(n2), Positive(o2), temperature, no2, o3);
  }
}
