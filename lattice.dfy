/**
 * Geometry of the recombining lattice: the level of the node reached after
 * `numUs` up-moves in `step` steps, with up factor `u` and down factor 1/u.
 */
module Lattice {

  /** x raised to a natural power. */
  function Power(x: real, n: nat): (r: real)
    ensures x > 0.0 ==> r > 0.0
  {
    if n == 0 then 1.0 else x * Power(x, n - 1)
  }

  /** x raised to an integer power; a negative power is the reciprocal of the positive one. */
  function IntPower(x: real, e: int): (r: real)
    requires x > 0.0
    ensures r > 0.0
  {
    if e >= 0 then Power(x, e) else 1.0 / Power(x, -e)
  }

  /** One more factor of x. */
  lemma IntPowerSucc(x: real, e: int)
    requires x > 0.0
    ensures IntPower(x, e + 1) == IntPower(x, e) * x
  {
    if e < 0 {
      var q := Power(x, -e - 1);
      assert Power(x, -e) == x * q;
      calc {
        IntPower(x, e) * x;
        (1.0 / (x * q)) * x;
        1.0 / q;
        IntPower(x, e + 1);
      }
    }
  }

  /**
   * Level at node (numUs, step): the start level moved up numUs times and
   * down step - numUs times, i.e. start * u^(numUs - numDs).
   */
  function LevelAt(startLevel: real, u: real, numUs: int, step: int): (level: real)
    requires u > 0.0
    ensures startLevel > 0.0 ==> level > 0.0
    ensures 2 * numUs == step ==> level == startLevel
  {
    var numDs := step - numUs;
    startLevel * IntPower(u, numUs - numDs)
  }

  /** The up child (numUs + 1, step + 1) lies a factor u above its parent. */
  lemma UpMove(startLevel: real, u: real, numUs: int, step: int)
    requires u > 0.0
    ensures LevelAt(startLevel, u, numUs + 1, step + 1) == LevelAt(startLevel, u, numUs, step) * u
  {
    LevelAtExponent(startLevel, u, numUs + 1, step + 1);
    LevelAtExponent(startLevel, u, numUs, step);
    IntPowerSucc(u, 2 * numUs - step);
    ScaleAssociates(startLevel, IntPower(u, 2 * numUs - step), u);
  }

  /** Scaling a product by one more factor. */
  lemma ScaleAssociates(startLevel: real, power: real, u: real)
    ensures startLevel * (power * u) == (startLevel * power) * u
  {
  }

  /** The down child (numUs, step + 1) lies a factor d = 1/u below its parent. */
  lemma DownMove(startLevel: real, u: real, numUs: int, step: int)
    requires u > 0.0
    ensures LevelAt(startLevel, u, numUs, step + 1) == LevelAt(startLevel, u, numUs, step) * (1.0 / u)
  {
    var e := 2 * numUs - step - 1;
    LevelAtExponent(startLevel, u, numUs, step + 1);
    LevelAtExponent(startLevel, u, numUs, step);
    IntPowerSucc(u, e);
    UndoScale(startLevel, IntPower(u, e), IntPower(u, e + 1), u);
  }

  /** The level is the start level times u to the net number of up-moves. */
  lemma LevelAtExponent(startLevel: real, u: real, numUs: int, step: int)
    requires u > 0.0
    ensures LevelAt(startLevel, u, numUs, step) == startLevel * IntPower(u, 2 * numUs - step)
  {
  }

  /** Dividing by the factor that was multiplied in gives the original product back. */
  lemma UndoScale(startLevel: real, below: real, here: real, u: real)
    requires u > 0.0 && here == below * u
    ensures startLevel * below == (startLevel * here) * (1.0 / u)
  {
    assert u * (1.0 / u) == 1.0;
    assert (startLevel * here) * (1.0 / u) == startLevel * below * (u * (1.0 / u));
  }

  /**
   * The lattice recombines: up-then-down and down-then-up both reach the node
   * (numUs + 1, step + 2), whose level is the level two steps earlier.
   */
  lemma Recombination(startLevel: real, u: real, numUs: int, step: int)
    requires u > 0.0
    ensures LevelAt(startLevel, u, numUs + 1, step + 2) == LevelAt(startLevel, u, numUs, step)
    ensures LevelAt(startLevel, u, numUs, step) * u * (1.0 / u)
         == LevelAt(startLevel, u, numUs + 1, step + 2)
    ensures LevelAt(startLevel, u, numUs, step) * (1.0 / u) * u
         == LevelAt(startLevel, u, numUs + 1, step + 2)
  {
    UpMove(startLevel, u, numUs, step);
    DownMove(startLevel, u, numUs + 1, step + 1);
    DownMove(startLevel, u, numUs, step);
    UpMove(startLevel, u, numUs, step + 1);
  }

  /** A node's level depends on its position only through 2 * numUs - step. */
  lemma LevelDependsOnNetMoves(startLevel: real, u: real, n1: int, s1: int, n2: int, s2: int)
    requires u > 0.0
    requires 2 * n1 - s1 == 2 * n2 - s2
    ensures LevelAt(startLevel, u, n1, s1) == LevelAt(startLevel, u, n2, s2)
  {
    LevelAtExponent(startLevel, u, n1, s1);
    LevelAtExponent(startLevel, u, n2, s2);
  }
}
