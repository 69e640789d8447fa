/** Stat and damage engine of the battle simulator: stats derived at a fixed
    level, the type chart, the same-type bonus and the damage formula.
    Everything here is a pure function of its arguments; the random roll of
    the damage formula is an explicit parameter. */
module Engine {

  /** The level every combatant fights at. */
  const Level: int := 50
  /** Number of moves a combatant knows. */
  const MaxMoves: int := 4

  /** The four elemental types. */
  datatype Type = Fire | Water | Grass | Normal

  datatype Move = Move(name: string, moveType: Type, power: int)

  /** A combatant: its base stats, the stats derived from them, its moves and
      the two fields that change during a battle, `hp` and `alive`. */
  datatype Combatant = Combatant(
    name: string,
    kind: Type,
    baseHp: int, baseAtk: int, baseDef: int, baseSpc: int, baseSpe: int,
    hp: int,
    maxHp: int, atk: int, def: int, spc: int, spe: int,
    moves: seq<Move>,
    alive: bool)

  /** What holds of every combatant in a battle: health within bounds, the
      alive flag set exactly when health is positive, positive defending
      stats (so the damage formula never divides by zero) and four moves. */
  predicate Sound(c: Combatant) {
    0 <= c.hp <= c.maxHp && c.alive == (c.hp > 0) &&
    c.def > 0 && c.spc > 0 && |c.moves| == MaxMoves
  }

  // ---------------------------------------------------------------------
  // Integer division as C does it

  /** C's integer `/` for a positive divisor: the quotient truncated toward
      zero, so the remainder takes the sign of the dividend. */
  function Quot(a: int, b: int): (q: int)
    requires b > 0
    ensures a >= 0 ==> 0 <= a - q * b < b
    ensures a < 0 ==> -b < a - q * b <= 0
  {
    if a >= 0 then a / b else -((-a) / b)
  }

  /** The remainder conditions determine the truncated quotient. */
  lemma QuotUnique(a: int, b: int, q: int)
    requires b > 0
    requires a >= 0 ==> 0 <= a - q * b < b
    requires a < 0 ==> -b < a - q * b <= 0
    ensures Quot(a, b) == q
  {
    var p := Quot(a, b);
    if p < q {
      calc {
        q * b;
        == (p + (q - p)) * b;
        == p * b + (q - p) * b;
      }
      MulAtLeast(q - p, b);
    } else if p > q {
      calc {
        p * b;
        == (q + (p - q)) * b;
        == q * b + (p - q) * b;
      }
      MulAtLeast(p - q, b);
    }
  }

  lemma MulAtLeast(k: int, b: int)
    requires k >= 1 && b > 0
    ensures k * b >= b
  {
    calc {
      k * b;
      == (k - 1) * b + b;
      >= b;
    }
  }

  /** Truncated division is monotone in the dividend. */
  lemma {:induction false} QuotMonotone(a1: int, a2: int, b: int)
    requires b > 0 && a1 <= a2
    ensures Quot(a1, b) <= Quot(a2, b)
  {
    var q1, q2 := Quot(a1, b), Quot(a2, b);
    if a1 < 0 <= a2 {
      QuotNonpositive(a1, b);
      QuotNonnegative(a2, b);
    } else if q1 > q2 {
      // the two remainders differ by less than b, the two multiples by b or more
      var r1, r2 := a1 - q1 * b, a2 - q2 * b;
      assert r2 - r1 < b;
      calc {
        q1 * b;
        == (q2 + (q1 - q2)) * b;
        == q2 * b + (q1 - q2) * b;
      }
      MulAtLeast(q1 - q2, b);
    }
  }

  lemma QuotNonpositive(a: int, b: int)
    requires b > 0 && a < 0
    ensures Quot(a, b) <= 0
  {
    var q := Quot(a, b);
    if q >= 1 {
      MulAtLeast(q, b);
    }
  }

  lemma QuotNonnegative(a: int, b: int)
    requires b > 0 && a >= 0
    ensures Quot(a, b) >= 0
  {
    var q := Quot(a, b);
    if q < 0 {
      MulAtMostMinus(q, b);
    }
  }

  lemma MulAtMostMinus(k: int, b: int)
    requires k <= -1 && b > 0
    ensures k * b <= -b
  {
    calc {
      k * b;
      == (k + 1) * b - b;
      <= -b;
    }
  }

  /** A common positive factor of dividend and divisor cancels. */
  lemma QuotCancel(a: int, b: int, k: int)
    requires b > 0 && k > 0
    ensures b * k > 0
    ensures Quot(a * k, b * k) == Quot(a, b)
  {
    var q := Quot(a, b);
    MulPositive(b, k);
    var rem := a - q * b;
    ScaleRemainder(a, b, q, k);
    if a >= 0 {
      MulBelow(rem, b, k);
      MulNonneg(a, k);
    } else {
      MulBelow(-rem, b, k);
      MulNeg(a, k);
      NegMul(rem, k);
    }
    QuotUnique(a * k, b * k, q);
  }

  lemma ScaleRemainder(a: int, b: int, q: int, k: int)
    ensures a * k - q * (b * k) == (a - q * b) * k
  {
    calc {
      a * k - q * (b * k);
      == a * k - (q * b) * k;
      == (a - q * b) * k;
    }
  }

  lemma NegMul(x: int, k: int)
    ensures (-x) * k == -(x * k)
  {
  }

  lemma MulPositive(x: int, y: int)
    requires x > 0 && y > 0
    ensures x * y > 0
  {
  }

  lemma MulNonneg(x: int, y: int)
    requires x >= 0 && y >= 0
    ensures x * y >= 0
  {
  }

  lemma MulNeg(x: int, y: int)
    requires x < 0 && y > 0
    ensures x * y < 0
  {
  }

  /** 0 <= x < b scales to 0 <= x*k < b*k. */
  lemma MulBelow(x: int, b: int, k: int)
    requires 0 <= x < b && k > 0
    ensures 0 <= x * k < b * k
  {
    assert b * k - x * k == (b - x) * k;
    MulPositive(b - x, k);
  }

  // ---------------------------------------------------------------------
  // Stats (origem.c calc_stat, calc_hp)

  /** A combat stat at `Level`: `((base * 2) * Level) / 100 + 5`. At level 50
      the division is exact, so the stat is the base value plus five. */
  function CalcStat(base: int): (r: int)
    ensures r == base + 5
  {
    QuotUnique(base * 2 * Level, 100, base);
    Quot(base * 2 * Level, 100) + 5
  }

  /** Maximum health at `Level`: `((base * 2) * Level) / 100 + Level + 10`,
      which is the base value plus sixty. */
  function CalcHp(base: int): (r: int)
    ensures r == base + 60
  {
    QuotUnique(base * 2 * Level, 100, base);
    Quot(base * 2 * Level, 100) + Level + 10
  }

  /** Both derivations are monotone and positive on non-negative bases. */
  lemma StatsMonotone(b1: int, b2: int)
    requires 0 <= b1 <= b2
    ensures 0 < CalcStat(b1) <= CalcStat(b2)
    ensures 0 < CalcHp(b1) <= CalcHp(b2)
  {
  }

  /** A freshly initialised combatant (origem.c init_pokemon): derived stats,
      full health, alive. The moves are given alongside, as the roster table
      fills them in right after initialisation. */
  function InitPokemon(name: string, kind: Type, bhp: int, batk: int, bdef: int,
                       bspc: int, bspe: int, moves: seq<Move>): (p: Combatant)
    ensures p.name == name && p.kind == kind && p.moves == moves
    ensures p.baseHp == bhp && p.baseAtk == batk && p.baseDef == bdef
    ensures p.baseSpc == bspc && p.baseSpe == bspe
    ensures p.maxHp == bhp + 60 && p.hp == p.maxHp
    ensures p.atk == batk + 5 && p.def == bdef + 5
    ensures p.spc == bspc + 5 && p.spe == bspe + 5
    ensures p.alive
    ensures bhp >= 0 && bdef >= 0 && bspc >= 0 && |moves| == MaxMoves ==>
              Sound(p) && p.hp > 0
  {
    var maxHp := CalcHp(bhp);
    Combatant(name, kind, bhp, batk, bdef, bspc, bspe,
              maxHp, maxHp, CalcStat(batk), CalcStat(bdef), CalcStat(bspc), CalcStat(bspe),
              moves, true)
  }

  // ---------------------------------------------------------------------
  // Multipliers (origem.c type_effectiveness, stab)

  /** An exact multiplier num/den. */
  datatype Ratio = Ratio(num: nat, den: nat)

  const Twice: Ratio := Ratio(2, 1)
  const HalfOf: Ratio := Ratio(1, 2)
  const Neutral: Ratio := Ratio(1, 1)
  const OneAndHalf: Ratio := Ratio(3, 2)

  /** The cycle of advantages: fire burns grass, water douses fire and grass
      drinks water. */
  predicate Beats(attack: Type, target: Type) {
    (attack, target) in {(Fire, Grass), (Water, Fire), (Grass, Water)}
  }

  /** The type chart: twice as effective along the cycle, half as effective
      against it, neutral otherwise. */
  function TypeEffectiveness(moveType: Type, targetType: Type): (m: Ratio)
    ensures m == Twice <==> Beats(moveType, targetType)
    ensures m == HalfOf <==> Beats(targetType, moveType)
    ensures m == Neutral <==> !Beats(moveType, targetType) && !Beats(targetType, moveType)
    ensures moveType == targetType || moveType == Normal || targetType == Normal ==> m == Neutral
  {
    if moveType == Fire && targetType == Grass then Twice
    else if moveType == Fire && targetType == Water then HalfOf
    else if moveType == Water && targetType == Fire then Twice
    else if moveType == Water && targetType == Grass then HalfOf
    else if moveType == Grass && targetType == Water then Twice
    else if moveType == Grass && targetType == Fire then HalfOf
    else Neutral
  }

  /** Every advantage has exactly its reverse as the disadvantage. */
  lemma EffectivenessInverse(a: Type, b: Type)
    ensures TypeEffectiveness(a, b) == Twice <==> TypeEffectiveness(b, a) == HalfOf
  {
  }

  /** Same-type attack bonus: one and a half when the move's type is the
      user's type. */
  function Stab(moveType: Type, userType: Type): (m: Ratio)
    ensures m == OneAndHalf <==> moveType == userType
    ensures m == Neutral <==> moveType != userType
  {
    if moveType == userType then OneAndHalf else Neutral
  }

  // ---------------------------------------------------------------------
  // Damage (origem.c calculate_damage)

  /** The single physical move, recognised by its name alone: every other
      move is special, whatever its type or power. */
  predicate IsPhysical(move: Move) {
    move.name == "Tackle"
  }

  /** The attacking stat A: attack for the physical move, special otherwise. */
  function AttackStat(attacker: Combatant, move: Move): (a: int)
    ensures move.name == "Tackle" ==> a == attacker.atk
    ensures move.name != "Tackle" ==> a == attacker.spc
    ensures Sound(attacker) && attacker.atk > 0 ==> a > 0
  {
    if IsPhysical(move) then attacker.atk else attacker.spc
  }

  /** The defending stat D: defense for the physical move, special otherwise. */
  function DefenseStat(defender: Combatant, move: Move): (d: int)
    ensures move.name == "Tackle" ==> d == defender.def
    ensures move.name != "Tackle" ==> d == defender.spc
    ensures Sound(defender) ==> d > 0
  {
    if IsPhysical(move) then defender.def else defender.spc
  }

  /** `(2 * Level) / 5 + 2`, which is 22 at level 50. */
  function LevelTerm(): (t: int)
    ensures t == 22
  {
    Quot(2 * Level, 5) + 2
  }

  /** The unmodified damage `((LevelTerm * power * A) / D) / 50 + 2`. */
  function BaseDamage(power: int, a: int, d: int): (b: int)
    requires d > 0
    ensures power >= 0 && a >= 0 ==> b >= 2
  {
    var t := Quot(LevelTerm() * power * a, d);
    assert power >= 0 && a >= 0 ==> t >= 0 by {
      if power >= 0 && a >= 0 {
        MulNonneg(LevelTerm(), power);
        MulNonneg(LevelTerm() * power, a);
        QuotMonotone(0, LevelTerm() * power * a, d);
      }
    }
    assert power >= 0 && a >= 0 ==> Quot(t, 50) >= 0 by {
      if power >= 0 && a >= 0 {
        QuotMonotone(0, t, 50);
      }
    }
    Quot(t, 50) + 2
  }

  /** The modifier `stab * effectiveness * r / 255` applied to `base` as an
      exact fraction, truncated, and raised to at least one. */
  function ApplyModifier(base: int, stab: Ratio, eff: Ratio, r: int): (dmg: int)
    requires stab.den > 0 && eff.den > 0
    ensures dmg >= 1
  {
    MulPositive(stab.den, eff.den);
    var d := Quot(base * stab.num * eff.num * r, stab.den * eff.den * 255);
    if d < 1 then 1 else d
  }

  /** Damage dealt by `attacker` using `move` on `defender` with random roll
      `r` (drawn from 217..255). Never less than one. */
  function CalculateDamage(attacker: Combatant, defender: Combatant, move: Move, r: int): (dmg: int)
    requires 217 <= r <= 255
    requires DefenseStat(defender, move) > 0
    ensures dmg >= 1
  {
    var base := BaseDamage(move.power, AttackStat(attacker, move), DefenseStat(defender, move));
    ApplyModifier(base, Stab(move.moveType, attacker.kind), TypeEffectiveness(move.moveType, defender.kind), r)
  }

  /** The unmodified damage of a move, as `CalculateDamage` computes it. */
  function MoveBase(attacker: Combatant, defender: Combatant, move: Move): int
    requires DefenseStat(defender, move) > 0
  {
    BaseDamage(move.power, AttackStat(attacker, move), DefenseStat(defender, move))
  }

  /** With the top roll the random factor is one: the damage is the base
      damage times the two multipliers, truncated, at least one. */
  lemma DamageAtTopRoll(attacker: Combatant, defender: Combatant, move: Move)
    requires DefenseStat(defender, move) > 0
    ensures var base := MoveBase(attacker, defender, move);
            var s := Stab(move.moveType, attacker.kind);
            var e := TypeEffectiveness(move.moveType, defender.kind);
            CalculateDamage(attacker, defender, move, 255)
              == Max1(Quot(base * s.num * e.num, s.den * e.den))
  {
    var base := MoveBase(attacker, defender, move);
    var s := Stab(move.moveType, attacker.kind);
    var e := TypeEffectiveness(move.moveType, defender.kind);
    MulPositive(s.den, e.den);
    QuotCancel(base * s.num * e.num, s.den * e.den, 255);
  }

  function Max1(x: int): int {
    if x < 1 then 1 else x
  }

  /** A higher roll never deals less damage. */
  lemma DamageMonotoneInRoll(attacker: Combatant, defender: Combatant, move: Move, r1: int, r2: int)
    requires 217 <= r1 <= r2 <= 255
    requires DefenseStat(defender, move) > 0
    ensures CalculateDamage(attacker, defender, move, r1) <= CalculateDamage(attacker, defender, move, r2)
  {
    var base := MoveBase(attacker, defender, move);
    var s := Stab(move.moveType, attacker.kind);
    var e := TypeEffectiveness(move.moveType, defender.kind);
    var n := base * s.num * e.num;
    MulPositive(s.den, e.den);
    MulPositive(s.den * e.den, 255);
    if n >= 0 {
      assert n * r1 <= n * r2 by { MulMonotone(n, r1, r2); }
      QuotMonotone(n * r1, n * r2, s.den * e.den * 255);
    } else {
      assert n * r1 < 0 by { MulNeg(n, r1); }
      assert n * r2 < 0 by { MulNeg(n, r2); }
      QuotMonotone(n * r1, 0, s.den * e.den * 255);
      QuotMonotone(n * r2, 0, s.den * e.den * 255);
    }
  }

  lemma MulMonotone(n: int, x: int, y: int)
    requires n >= 0 && x <= y
    ensures n * x <= n * y
  {
    assert n * y - n * x == n * (y - x);
    MulNonneg(n, 1);
    if y > x {
      MulNonneg(n, y - x);
    }
  }

  /** The multipliers together never exceed three: damage is at most three
      times the base damage (or one). */
  lemma DamageAtMostThreeTimesBase(attacker: Combatant, defender: Combatant, move: Move, r: int)
    requires 217 <= r <= 255
    requires DefenseStat(defender, move) > 0
    ensures CalculateDamage(attacker, defender, move, r) <= Max1(3 * MoveBase(attacker, defender, move))
  {
    var base := MoveBase(attacker, defender, move);
    var s := Stab(move.moveType, attacker.kind);
    var e := TypeEffectiveness(move.moveType, defender.kind);
    var den := s.den * e.den * 255;
    MulPositive(s.den, e.den);
    MulPositive(s.den * e.den, 255);
    assert s.num * e.num <= 3 * (s.den * e.den);
    var a := base * s.num * e.num * r;
    if base >= 0 {
      ProductBound(base, s.num * e.num, s.den * e.den, r);
      assert a <= 3 * base * den by {
        Reassociate(base, s.num, e.num, r);
        Reassociate3(base, s.den * e.den);
      }
      QuotMonotone(a, 3 * base * den, den);
      QuotUnique(3 * base * den, den, 3 * base);
    } else {
      NonposProduct(base, s.num * e.num, r);
      Reassociate(base, s.num, e.num, r);
      QuotMonotone(a, 0, den);
    }
  }

  lemma Reassociate(x: int, y: int, z: int, w: int)
    ensures x * y * z * w == x * (y * z) * w
  {
  }

  lemma Reassociate3(x: int, d: int)
    ensures x * (3 * d) * 255 == 3 * x * (d * 255)
  {
  }

  /** x*m*r <= x*(3*d)*255 when 0 <= m <= 3*d and 0 <= r <= 255. */
  lemma ProductBound(x: int, m: int, d: int, r: int)
    requires x >= 0 && 0 <= m <= 3 * d && 0 <= r <= 255
    ensures x * m * r <= x * (3 * d) * 255
  {
    MulMonotone(x, m, 3 * d);
    MulNonneg(x, 1);
    MulNonneg(x, m);
    MulMonotone(x * m, r, 255);
    MulMonotone(255, x * m, x * (3 * d));
  }

  lemma NonposProduct(x: int, m: int, r: int)
    requires x < 0 && m >= 0 && r >= 0
    ensures x * m * r <= 0
  {
    MulNonneg(-x, m);
    MulNonneg(-x * m, r);
    assert x * m * r == -((-x) * m * r);
  }

  /** The physical move's damage depends only on the attacker's attack and type
      and the defender's defense and type. */
  lemma PhysicalUsesAttackAndDefense(a1: Combatant, a2: Combatant, d1: Combatant, d2: Combatant,
                                     move: Move, r: int)
    requires 217 <= r <= 255 && IsPhysical(move)
    requires a1.atk == a2.atk && a1.kind == a2.kind
    requires d1.def == d2.def && d1.kind == d2.kind && d1.def > 0
    ensures CalculateDamage(a1, d1, move, r) == CalculateDamage(a2, d2, move, r)
  {
  }

  /** Every other move's damage depends only on the two special stats and the
      two types. */
  lemma SpecialUsesSpecialStats(a1: Combatant, a2: Combatant, d1: Combatant, d2: Combatant,
                                move: Move, r: int)
    requires 217 <= r <= 255 && !IsPhysical(move)
    requires a1.spc == a2.spc && a1.kind == a2.kind
    requires d1.spc == d2.spc && d1.kind == d2.kind && d1.spc > 0
    ensures CalculateDamage(a1, d1, move, r) == CalculateDamage(a2, d2, move, r)
  {
  }

  // ---------------------------------------------------------------------
  // Concrete entries of the roster table

  const Flamethrower: Move := Move("Flamethrower", Fire, 95)
  const Tackle: Move := Move("Tackle", Normal, 35)

  const Charizard: Combatant :=
    InitPokemon("Charizard", Fire, 78, 84, 78, 85, 100,
                [Flamethrower, Move("Fire Punch", Fire, 75), Tackle, Move("Heat Wave", Fire, 95)])
  const Blastoise: Combatant :=
    InitPokemon("Blastoise", Water, 79, 83, 100, 78, 85,
                [Move("Hydro Pump", Water, 120), Move("Surf", Water, 90), Tackle, Move("Bite", Normal, 60)])
  const Venusaur: Combatant :=
    InitPokemon("Venusaur", Grass, 80, 82, 83, 100, 80,
                [Move("Solar Beam", Grass, 120), Move("Razor Leaf", Grass, 55), Tackle, Move("Sludge", Normal, 65)])

  /** Charizard's Flamethrower on Venusaur with the top roll: base damage
      (22*95*90/105)/50 + 2 = 37, times 3/2 for the same type and 2 for fire
      against grass, is 111. */
  lemma FlamethrowerOnVenusaur()
    ensures CalculateDamage(Charizard, Venusaur, Flamethrower, 255) == 111
  {
    assert !IsPhysical(Flamethrower) by { assert |Flamethrower.name| != |"Tackle"|; }
    assert MoveBase(Charizard, Venusaur, Flamethrower) == 37;
  }

  /** Charizard's Flamethrower on another Charizard: same type, neutral chart,
      top roll: base 43, times 3/2, truncated to 64. */
  lemma FlamethrowerOnCharizard()
    ensures CalculateDamage(Charizard, Charizard, Flamethrower, 255) == 64
  {
    assert !IsPhysical(Flamethrower) by { assert |Flamethrower.name| != |"Tackle"|; }
    assert MoveBase(Charizard, Charizard, Flamethrower) == 43;
  }

  /** Charizard's Tackle on Blastoise uses attack 89 against defense 105:
      base 15; the lowest roll scales it to 15*217/255, truncated to 12. */
  lemma TackleOnBlastoise()
    ensures CalculateDamage(Charizard, Blastoise, Tackle, 255) == 15
    ensures CalculateDamage(Charizard, Blastoise, Tackle, 217) == 12
  {
    assert IsPhysical(Tackle);
    assert MoveBase(Charizard, Blastoise, Tackle) == 15;
  }
}
