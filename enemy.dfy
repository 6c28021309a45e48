/**
 * The enemy AI of src/game/enemy.py: an `Enemy` that idles until a player
 * comes within its vision range, then chases and attacks, and stays dead
 * once its health has dropped to 0 or below.
 *
 * Distances are compared squared, on integers: `sqrt(dx² + dy²) <= r` is
 * `dx² + dy² <= r²` for the non-negative ranges used here.
 */
module EnemyAi {
  import opened Wrappers
  import opened Characters

  const BaseHealth: int := 50
  const BaseSpeed: int := 3
  const BaseDamage: int := 10
  const AttackRange: int := 50
  const VisionRange: int := 200
  /** Where an enemy built with no coordinates stands. */
  const DefaultX: int := 0
  const DefaultY: int := 0

  /** The states the AI uses (`"IDLE"`, `"CHASE"`, `"DEATH"`). */
  datatype AiState = Idle | Chase | Death

  function DistanceSquared(p: Pos, q: Pos): (d: int)
    ensures d >= 0
    ensures d == 0 <==> p == q
  {
    (q.x - p.x) * (q.x - p.x) + (q.y - p.y) * (q.y - p.y)
  }

  /**
   * `_calculate_distance(q) <= range`. A position is within any range of
   * itself, and within range means within range on each axis.
   */
  predicate WithinRange(p: Pos, q: Pos, range: int): (b: bool)
    ensures p == q ==> b
    ensures b ==> Abs(q.x - p.x) <= Abs(range) && Abs(q.y - p.y) <= Abs(range)
  {
    SquareBound(q.x - p.x, q.y - p.y, range);
    DistanceSquared(p, q) <= range * range
  }

  /** A square that fits under `r * r` together with another square has a root no larger than `|r|`. */
  lemma SquareBound(a: int, b: int, r: int)
    ensures a * a + b * b <= r * r ==> Abs(a) <= Abs(r) && Abs(b) <= Abs(r)
  {
    SquareMonotone(Abs(r), Abs(a));
    SquareMonotone(Abs(r), Abs(b));
    assert Abs(a) * Abs(a) == a * a && Abs(b) * Abs(b) == b * b && Abs(r) * Abs(r) == r * r;
  }

  lemma SquareMonotone(x: nat, y: nat)
    ensures x < y ==> x * x < y * y
  {
    if x < y {
      assert x * x <= x * y < y * y;
    }
  }

  /** Range checks do not depend on who looks at whom. */
  lemma WithinRangeSymmetric(p: Pos, q: Pos, range: int)
    ensures WithinRange(p, q, range) <==> WithinRange(q, p, range)
  {
    assert DistanceSquared(p, q) == DistanceSquared(q, p);
  }

  /** Whatever is close enough to attack can be seen. */
  lemma AttackRangeIsSeen(p: Pos, q: Pos)
    ensures WithinRange(p, q, AttackRange) ==> WithinRange(p, q, VisionRange)
  {
  }

  /** On each axis: a step towards the target coordinate, none when it is already equal. */
  function StepToward(a: int, target: int, speed: int): (b: int)
    ensures target > a ==> b == a + speed
    ensures target < a ==> b == a - speed
    ensures target == a ==> b == a
  {
    if target > a then a + speed else if target < a then a - speed else a
  }

  /**
   * `chase_target`: one step on each axis towards the target. An enemy on
   * the target stays put; otherwise a moving enemy always moves, by at most
   * its speed on each axis, and an axis already lined up is kept.
   */
  function Chased(p: Pos, speed: int, target: Pos): (q: Pos)
    ensures p == target ==> q == p
    ensures speed != 0 && p != target ==> q != p
    ensures Abs(q.x - p.x) <= Abs(speed) && Abs(q.y - p.y) <= Abs(speed)
    ensures target.x == p.x ==> q.x == p.x
    ensures target.y == p.y ==> q.y == p.y
  {
    Pos(StepToward(p.x, target.x, speed), StepToward(p.y, target.y, speed))
  }

  /** The facing after a chase step: only a horizontal step turns the enemy. */
  function ChaseFacing(facing: string, p: Pos, target: Pos): (r: string)
    ensures target.x > p.x ==> r == "right"
    ensures target.x < p.x ==> r == "left"
    ensures target.x == p.x ==> r == facing
  {
    if target.x > p.x then "right" else if target.x < p.x then "left" else facing
  }

  /** A step of at most the remaining distance closes exactly one step of the gap on that axis. */
  lemma StepCloses(a: int, target: int, speed: int)
    requires 0 < speed
    requires speed <= target - a || speed <= a - target
    ensures Abs(target - StepToward(a, target, speed)) == Abs(target - a) - speed
  {
  }

  /** A step longer than the remaining gap jumps past the target. */
  lemma StepCanOvershoot()
    ensures StepToward(0, 1, BaseSpeed) == 3 && Abs(1 - StepToward(0, 1, BaseSpeed)) > Abs(1 - 0)
  {
  }

  function Abs(n: int): (r: nat)
    ensures r == n || r == -n
  {
    if n < 0 then -n else n
  }

  class Enemy {
    var health: int
    var speed: int
    var pos: Pos
    var damage: int
    var direction: string
    var state: AiState

    /** `Enemy()` with every default: at (0, 0), with 50 health and speed 3, facing right, idle. */
    constructor Default()
      ensures health == BaseHealth && speed == BaseSpeed && pos == Pos(DefaultX, DefaultY)
      ensures damage == BaseDamage && direction == "right" && state == Idle
    {
      health := BaseHealth;
      speed := BaseSpeed;
      pos := Pos(DefaultX, DefaultY);
      damage := BaseDamage;
      direction := "right";
      state := Idle;
    }

    /** `Enemy(x, y, health, speed)`: facing right, idle, dealing 10 damage. */
    constructor(x: int, y: int, health: int, speed: int)
      ensures this.health == health && this.speed == speed && pos == Pos(x, y)
      ensures damage == BaseDamage && direction == "right" && state == Idle
    {
      this.health := health;
      this.speed := speed;
      pos := Pos(x, y);
      damage := BaseDamage;
      direction := "right";
      state := Idle;
    }

    method Move(d: string)
      modifies this
      ensures pos == Moved(old(pos), speed, d) && direction == Facing(old(direction), d)
      ensures health == old(health) && speed == old(speed) && damage == old(damage) && state == old(state)
    {
      if d == "up" {
        pos := Pos(pos.x, pos.y - speed);
      } else if d == "down" {
        pos := Pos(pos.x, pos.y + speed);
      } else if d == "left" {
        pos := Pos(pos.x - speed, pos.y);
        direction := "left";
      } else if d == "right" {
        pos := Pos(pos.x + speed, pos.y);
        direction := "right";
      }
    }

    /** `take_damage`: no floor on health; reaching 0 or below means death. */
    method TakeDamage(amount: int)
      modifies this
      ensures health == old(health) - amount
      ensures state == (if health <= 0 then Death else old(state))
      ensures pos == old(pos) && speed == old(speed) && damage == old(damage) && direction == old(direction)
    {
      health := health - amount;
      if health <= 0 {
        Die();
      }
    }

    method Die()
      modifies this
      ensures state == Death
      ensures health == old(health) && pos == old(pos) && speed == old(speed) && damage == old(damage) && direction == old(direction)
    {
      state := Death;
    }

    /** `detect_player`: the player is within the vision range. */
    function Detects(player: Pos): (r: bool)
      reads this
      ensures r <==> DistanceSquared(pos, player) <= VisionRange * VisionRange
    {
      WithinRange(pos, player, VisionRange)
    }

    /** `attack`: the target takes this enemy's damage exactly when it is within the attack range. */
    method Attack(target: Player)
      modifies Obj(target)
      ensures Health(target) == (if WithinRange(pos, old(Position(target)), AttackRange)
                                 then AfterDamage(old(Health(target)), damage) else old(Health(target)))
      ensures Position(target) == old(Position(target)) && LookOf(target) == old(LookOf(target))
      ensures old(PlayerValid(target)) ==> PlayerValid(target)
    {
      if WithinRange(pos, Position(target), AttackRange) {
        PlayerTakeDamage(target, damage);
      }
    }

    /** `chase_target`: one step right or left, then one step down or up, towards the target. */
    method ChaseTarget(target: Pos)
      modifies this
      ensures pos == Chased(old(pos), speed, target)
      ensures direction == ChaseFacing(old(direction), old(pos), target)
      ensures health == old(health) && speed == old(speed) && damage == old(damage) && state == old(state)
    {
      var start := pos;
      if target.x > start.x {
        Move("right");
      } else if target.x < start.x {
        Move("left");
      }
      if target.y > start.y {
        Move("down");
      } else if target.y < start.y {
        Move("up");
      }
    }

    /** `get_status`: health, position and state. */
    function Status(): (int, Pos, AiState)
      reads this
    {
      (health, pos, state)
    }

    /**
     * `update`: a dead enemy does nothing. Otherwise, with a player, it
     * chases and attacks when it sees the player and idles when it does not;
     * with no player it keeps its state.
     */
    method Update(player: Option<Player>)
      modifies this, if player.Some? then Obj(player.value) else {}
      ensures old(state) == Death ==> state == Death && pos == old(pos) && health == old(health)
      ensures old(state) == Death ==> direction == old(direction)
      ensures old(state) == Death && player.Some? ==> Health(player.value) == old(Health(player.value))
      ensures old(state) != Death && player.None? ==> state == old(state) && pos == old(pos) && direction == old(direction)
      ensures old(state) != Death && player.Some? ==>
        var seen := WithinRange(old(pos), old(Position(player.value)), VisionRange);
        && state == (if seen then Chase else Idle)
        && pos == (if seen then Chased(old(pos), speed, old(Position(player.value))) else old(pos))
        && direction == (if seen then ChaseFacing(old(direction), old(pos), old(Position(player.value))) else old(direction))
        && Health(player.value) == (if seen && WithinRange(pos, old(Position(player.value)), AttackRange)
                                    then AfterDamage(old(Health(player.value)), damage)
                                    else old(Health(player.value)))
      ensures health == old(health) && speed == old(speed) && damage == old(damage)
      ensures player.Some? ==> Position(player.value) == old(Position(player.value)) && LookOf(player.value) == old(LookOf(player.value))
      ensures player.Some? ==> (old(PlayerValid(player.value)) ==> PlayerValid(player.value))
    {
      if state == Death {
        return;
      }
      if player.Some? {
        var p := player.value;
        if Detects(Position(p)) {
          state := Chase;
          ChaseTarget(Position(p));
          Attack(p);
        } else {
          state := Idle;
        }
      }
    }
  }
}
