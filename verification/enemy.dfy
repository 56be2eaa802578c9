/** Enemies (src/Enemy.cpp). An enemy's health and flags change in place,
    so it is a class. The random draws of attack and getAction are
    parameters. */
module Enemies {

  /** C++ integer division by a positive divisor: the quotient is truncated
      toward zero, unlike Dafny's `/` on a negative dividend. */
  function CppDiv(a: int, b: int): (q: int)
    requires b > 0
    ensures a >= 0 ==> 0 <= q && q * b <= a < q * b + b
    ensures a < 0 ==> q <= 0 && q * b - b < a <= q * b
  {
    if a >= 0 then
      DivBounds(a, b);
      a / b
    else
      DivBounds(-a, b);
      -((-a) / b)
  }

  /** Dafny's quotient of a natural number by a positive divisor is the
      largest multiple that fits. */
  lemma DivBounds(n: nat, b: int)
    requires b > 0
    ensures 0 <= n / b && (n / b) * b <= n < (n / b) * b + b
  {
    var q, r := n / b, n % b;
    assert n == q * b + r && 0 <= r < b;
    if q < 0 {
      MulMonotone(q, -1, b);
      assert false;
    }
  }

  /** Multiplying by a non-negative factor keeps the order. */
  lemma {:induction false} MulMonotone(x: int, y: int, b: int)
    requires x <= y && b >= 0
    ensures x * b <= y * b
    decreases y - x
  {
    if x < y {
      MulMonotone(x + 1, y, b);
      assert (x + 1) * b == x * b + b;
    }
  }

  class Enemy {
    const name: string
    const description: string
    var health: int
    const maxHealth: int
    const attackPower: int
    const defense: int
    var experienceReward: int
    var isHostile: bool

    /** A new hostile enemy at full health, worth twice that health. */
    constructor (name: string, description: string, health: int, attackPower: int, defense: int)
      ensures this.name == name && this.description == description
      ensures this.health == health && maxHealth == health
      ensures this.attackPower == attackPower && this.defense == defense
      ensures experienceReward == 2 * health && isHostile
    {
      this.name := name;
      this.description := description;
      this.health := health;
      maxHealth := health;
      this.attackPower := attackPower;
      this.defense := defense;
      experienceReward := health * 2;
      isHostile := true;
    }

    method SetHealth(h: int)
      modifies this`health
      ensures health == h
    {
      health := h;
    }

    method SetIsHostile(hostile: bool)
      modifies this`isHostile
      ensures isHostile == hostile
    {
      isHostile := hostile;
    }

    method SetExperienceReward(exp: int)
      modifies this`experienceReward
      ensures experienceReward == exp
    {
      experienceReward := exp;
    }

    /** The damage of one blow: attack power shifted by a variance drawn
        from -2..2, and never less than one point. */
    function Attack(variance: int): (damage: int)
      requires -2 <= variance <= 2
      ensures damage >= 1
      ensures attackPower + variance >= 1 ==> damage == attackPower + variance
      ensures attackPower + variance < 1 ==> damage == 1
      ensures attackPower >= 3 ==> attackPower - 2 <= damage <= attackPower + 2
    {
      var damage := attackPower + variance;
      if damage < 1 then 1 else damage
    }

    /** Armor absorbs up to `defense` points of a blow, and health never
        drops below zero. */
    method TakeDamage(damage: int)
      modifies this`health
      ensures var dealt := if damage - defense < 0 then 0 else damage - defense;
        health == if old(health) - dealt < 0 then 0 else old(health) - dealt
      ensures old(health) >= 0 ==> 0 <= health <= old(health)
    {
      var actualDamage := damage - defense;
      if actualDamage < 0 {
        actualDamage := 0;
      }
      health := health - actualDamage;
      if health < 0 {
        health := 0;
      }
    }

    /** Alive while health is positive: negative health, which setHealth
        and the constructor may leave, is dead; as long as health is not
        negative, death is health exactly zero. */
    predicate IsAlive(): (b: bool)
      reads this
      ensures !b ==> health <= 0
      ensures health >= 0 ==> (b <==> health != 0)
      ensures health < 0 ==> !b
    {
      health > 0
    }

    /** The enemy's next move. It may flee only below a quarter of its
        maximum health (with C++ division), when the flee draw succeeds;
        otherwise it defends when the defend draw succeeds, else attacks. */
    function GetAction(fleeDraw: bool, defendDraw: bool): (action: string)
      reads this
      ensures action == "flee" || action == "defend" || action == "attack"
      ensures action == "flee" <==> health < CppDiv(maxHealth, 4) && fleeDraw
      ensures action == "defend" <==> !(health < CppDiv(maxHealth, 4) && fleeDraw) && defendDraw
      ensures 4 * health >= maxHealth >= 0 ==> action != "flee"
    {
      if health < CppDiv(maxHealth, 4) && fleeDraw then "flee"
      else if defendDraw then "defend"
      else "attack"
    }
  }
}
