/**
 * The playable characters of src/game/characters.py, `Furnace` and `Water`:
 * health clamped to [0, 100], integer movement on a grid of pixels, and the
 * frame counters that drive their sprite animations. Sprite sheets are not
 * loaded; an animation is known by its frame count, taken from the module
 * constants.
 */
module Characters {
  const FurnaceIdleFrames: nat := 12
  const FurnaceWalkFrames: nat := 4
  /** Milliseconds between two frames of an animation. */
  const FurnaceIdlePeriod: int := 100
  const FurnaceWalkPeriod: int := 200

  const WaterIdleFrames: nat := 12
  const WaterMoveFrames: nat := 5
  const WaterSkill1Frames: nat := 10
  const WaterSkill2Frames: nat := 11
  const WaterSkill3Frames: nat := 19
  const WaterIdlePeriod: int := 100
  const WaterMovePeriod: int := 200
  const WaterSkill1Period: int := 100
  const WaterSkill2Period: int := 100
  const WaterSkill3Period: int := 100

  const MaxHealth: int := 100
  const StartHealth: int := 100
  const StartSpeed: int := 2
  const StartX: int := 400
  const StartY: int := 400

  /** A screen position; `y` grows downwards. */
  datatype Pos = Pos(x: int, y: int)

  /**
   * `move(direction)`: "up" and "down" shift `y` by `speed`, "left" and
   * "right" shift `x`; any other string leaves the position alone.
   */
  function Moved(p: Pos, speed: int, direction: string): (q: Pos)
    ensures direction == "up" ==> q == Pos(p.x, p.y - speed)
    ensures direction == "down" ==> q == Pos(p.x, p.y + speed)
    ensures direction == "left" ==> q == Pos(p.x - speed, p.y)
    ensures direction == "right" ==> q == Pos(p.x + speed, p.y)
    ensures direction !in {"up", "down", "left", "right"} ==> q == p
    ensures direction in {"up", "down"} ==> q.x == p.x
    ensures direction in {"left", "right"} ==> q.y == p.y
  {
    if direction == "up" then Pos(p.x, p.y - speed)
    else if direction == "down" then Pos(p.x, p.y + speed)
    else if direction == "left" then Pos(p.x - speed, p.y)
    else if direction == "right" then Pos(p.x + speed, p.y)
    else p
  }

  /** The facing after `move(direction)`: only "left" and "right" change it. */
  function Facing(facing: string, direction: string): (r: string)
    ensures direction in {"left", "right"} ==> r == direction
    ensures direction !in {"left", "right"} ==> r == facing
  {
    if direction == "left" || direction == "right" then direction else facing
  }

  /** Opposite moves cancel: a step and its reverse bring a character back. */
  lemma MovesCancel(p: Pos, speed: int)
    ensures Moved(Moved(p, speed, "up"), speed, "down") == p
    ensures Moved(Moved(p, speed, "left"), speed, "right") == p
  {
  }

  /** `take_damage`: subtract, then raise a negative result to 0. */
  function AfterDamage(health: int, amount: int): (r: int)
    ensures r >= 0
    ensures health - amount >= 0 ==> r == health - amount
    ensures health - amount < 0 ==> r == 0
  {
    if health - amount < 0 then 0 else health - amount
  }

  /** `heal`: add, then lower a result above 100 to 100. */
  function AfterHeal(health: int, amount: int): (r: int)
    ensures r <= MaxHealth
    ensures health + amount <= MaxHealth ==> r == health + amount
    ensures health + amount > MaxHealth ==> r == MaxHealth
  {
    if health + amount > MaxHealth then MaxHealth else health + amount
  }

  datatype HealthEvent = Damage(amount: int) | Healing(amount: int)

  /**
   * Health after a run of `take_damage` and `heal` calls. Whatever came
   * before, a run that ends with damage leaves no negative health, and one
   * that ends with healing leaves no more than 100.
   */
  function HealthAfter(health: int, events: seq<HealthEvent>): (r: int)
    ensures events != [] && events[|events| - 1].Damage? ==> r >= 0
    ensures events != [] && events[|events| - 1].Healing? ==> r <= MaxHealth
    decreases |events|
  {
    if events == [] then health
    else
      var h := match events[0]
        case Damage(a) => AfterDamage(health, a)
        case Healing(a) => AfterHeal(health, a);
      HealthAfter(h, events[1..])
  }

  /** With amounts that are not negative, health stays within [0, 100] whatever happens to it. */
  lemma {:induction false} HealthStaysInRange(health: int, events: seq<HealthEvent>)
    requires 0 <= health <= MaxHealth
    requires forall k :: 0 <= k < |events| ==> events[k].amount >= 0
    ensures 0 <= HealthAfter(health, events) <= MaxHealth
    decreases |events|
  {
    if events != [] {
      assert events[0].amount >= 0;
      var h := match events[0]
        case Damage(a) => AfterDamage(health, a)
        case Healing(a) => AfterHeal(health, a);
      HealthStaysInRange(h, events[1..]);
    }
  }

  /** A negative amount is not guarded against: healing by one can push health below 0. */
  lemma NegativeHealingLeavesRange()
    ensures AfterHeal(0, -1) == -1
  {
  }

  /**
   * The next frame of a cyclic animation, as the characters write it: back
   * to 0 from the last frame, one further otherwise.
   */
  function Advance(frame: int, count: nat): (r: int)
    requires count > 0
    ensures 0 <= frame < count ==> r == (frame + 1) % count
    ensures 0 <= frame < count ==> 0 <= r < count
  {
    if frame >= count - 1 then 0 else frame + 1
  }

  /** `k` frame advances in a row; a valid frame stays valid. */
  function AdvanceTimes(frame: int, count: nat, k: nat): (r: int)
    requires count > 0
    ensures 0 <= frame < count ==> 0 <= r < count
  {
    if k == 0 then frame else Advance(AdvanceTimes(frame, count, k - 1), count)
  }

  /**
   * Up to a full cycle of advances moves a frame that many places round the
   * animation; a full cycle of `count` advances brings it back where it was.
   */
  lemma {:induction false} AdvanceTimesCycles(frame: int, count: nat, k: nat)
    requires count > 0 && 0 <= frame < count && k <= count
    ensures AdvanceTimes(frame, count, k) == if frame + k < count then frame + k else frame + k - count
    ensures k == count ==> AdvanceTimes(frame, count, k) == frame
  {
    if k > 0 {
      AdvanceTimesCycles(frame, count, k - 1);
    }
  }

  /**
   * One animation tick: the elapsed time is added to the timer; once it
   * reaches the period the timer starts again from 0 and the frame advances.
   * The result is the pair (timer, frame).
   */
  function Tick(timer: int, frame: int, elapsed: int, period: int, count: nat): (r: (int, int))
    requires count > 0
    ensures timer + elapsed >= period ==> r == (0, Advance(frame, count))
    ensures timer + elapsed < period ==> r == (timer + elapsed, frame)
    ensures 0 <= frame < count ==> 0 <= r.1 < count
  {
    if timer + elapsed >= period then (0, Advance(frame, count)) else (timer + elapsed, frame)
  }

  /** The state of one skill animation of `Water`: running or not, its timer and its frame. */
  datatype Skill = Skill(running: bool, timer: int, frame: int)

  /**
   * One tick of a skill animation that is running: on each period the frame
   * advances, and on reaching the frame count it goes back to 0 and the
   * skill stops. A skill that is not running is left alone.
   */
  function SkillTick(s: Skill, elapsed: int, period: int, count: nat): (r: Skill)
    ensures !s.running ==> r == s
    ensures s.running && s.timer + elapsed < period ==> r == s.(timer := s.timer + elapsed)
    ensures s.running && s.timer + elapsed >= period && s.frame + 1 < count ==> r == Skill(true, 0, s.frame + 1)
    ensures s.running && s.timer + elapsed >= period && s.frame + 1 >= count ==> r == Skill(false, 0, 0)
    ensures 0 <= s.frame < count ==> 0 <= r.frame < count
  {
    if !s.running then s
    else if s.timer + elapsed < period then s.(timer := s.timer + elapsed)
    else if s.frame + 1 >= count then Skill(false, 0, 0)
    else Skill(true, 0, s.frame + 1)
  }

  /** `k` ticks of a skill animation, each with the same elapsed time. */
  function SkillTicks(s: Skill, elapsed: int, period: int, count: nat, k: nat): (r: Skill)
    ensures !s.running ==> r == s
    ensures 0 <= s.frame < count ==> 0 <= r.frame < count
    ensures r.running ==> s.running
  {
    if k == 0 then s else SkillTick(SkillTicks(s, elapsed, period, count, k - 1), elapsed, period, count)
  }

  /**
   * When every tick reaches the period, a running skill shows each of its
   * remaining frames in turn and stops exactly when it runs out of frames.
   */
  lemma {:induction false} SkillRunsOutOfFrames(s: Skill, elapsed: int, period: int, count: nat, k: nat)
    requires s.running && 0 <= s.frame < count
    requires s.timer >= 0 && elapsed >= period
    requires k <= count - s.frame
    ensures 0 < k < count - s.frame ==> SkillTicks(s, elapsed, period, count, k) == Skill(true, 0, s.frame + k)
    ensures k == count - s.frame ==> SkillTicks(s, elapsed, period, count, k) == Skill(false, 0, 0)
  {
    if k > 1 {
      SkillRunsOutOfFrames(s, elapsed, period, count, k - 1);
    }
  }

  /**
   * What damage and healing leave alone on a character: its speed, its
   * facing and every counter of its animations.
   */
  datatype Look =
    | FurnaceLook(speed: int, direction: string, isMoving: bool,
                  frameIdle: int, frameWalk: int, timerIdle: int, timerWalk: int)
    | WaterLook(speed: int, direction: string, isMoving: bool,
                frameIdle: int, frameMove: int, timerIdle: int, timerMove: int,
                skill1: Skill, skill2: Skill, skill3: Skill, effectFrame1: int)

  class Furnace {
    var health: int
    var speed: int
    var pos: Pos
    var direction: string
    var isMoving: bool
    var frameIdle: int
    var frameWalk: int
    var timerIdle: int
    var timerWalk: int

    /** Both frame indices are valid positions in their animations. */
    ghost predicate Valid()
      reads this
    {
      0 <= frameIdle < FurnaceIdleFrames && 0 <= frameWalk < FurnaceWalkFrames
    }

    function CurrentLook(): Look
      reads this
    {
      FurnaceLook(speed, direction, isMoving, frameIdle, frameWalk, timerIdle, timerWalk)
    }

    /** `Furnace()`: full health, speed 2, at (400, 400), facing right, both animations at frame 0. */
    constructor()
      ensures health == StartHealth && speed == StartSpeed && pos == Pos(StartX, StartY)
      ensures direction == "right" && !isMoving
      ensures frameIdle == 0 && frameWalk == 0 && timerIdle == 0 && timerWalk == 0
      ensures Valid()
    {
      health := StartHealth;
      speed := StartSpeed;
      pos := Pos(StartX, StartY);
      direction := "right";
      isMoving := false;
      frameIdle := 0;
      frameWalk := 0;
      timerIdle := 0;
      timerWalk := 0;
    }

    method Move(d: string)
      modifies this
      ensures pos == Moved(old(pos), speed, d) && direction == Facing(old(direction), d)
      ensures health == old(health) && speed == old(speed) && isMoving == old(isMoving)
      ensures frameIdle == old(frameIdle) && frameWalk == old(frameWalk)
      ensures timerIdle == old(timerIdle) && timerWalk == old(timerWalk)
      ensures old(Valid()) ==> Valid()
    {
      if d == "up" {
        pos := Pos(pos.x, pos.y - speed);
      } else if d == "down" {
        pos := Pos(pos.x, pos.y + speed);
      } else if d == "left" {
        pos := Pos(pos.x - speed, pos.y);
        direction := "left";
      } else if d == "right" {
        pos := Pos(pos.x + speed, pos.y);
        direction := "right";
      }
    }

    method TakeDamage(amount: int)
      modifies this
      ensures health == AfterDamage(old(health), amount)
      ensures pos == old(pos) && CurrentLook() == old(CurrentLook())
      ensures old(Valid()) ==> Valid()
    {
      health := health - amount;
      if health < 0 {
        health := 0;
      }
    }

    method Heal(amount: int)
      modifies this
      ensures health == AfterHeal(old(health), amount)
      ensures pos == old(pos) && CurrentLook() == old(CurrentLook())
      ensures old(Valid()) ==> Valid()
    {
      health := health + amount;
      if health > MaxHealth {
        health := MaxHealth;
      }
    }

    /**
     * `update_animation`: the walk animation ticks while moving, the idle
     * animation otherwise; the other one is left where it stopped.
     */
    /** `get_status`: the health and the position. */
    function Status(): (int, Pos)
      reads this
    {
      (health, pos)
    }

    method UpdateAnimation(elapsed: int, moving: bool)
      requires Valid()
      modifies this
      ensures Valid()
      ensures isMoving == moving
      ensures moving ==> ((timerWalk, frameWalk) == Tick(old(timerWalk), old(frameWalk), elapsed, FurnaceWalkPeriod, FurnaceWalkFrames)
                      && timerIdle == old(timerIdle) && frameIdle == old(frameIdle))
      ensures !moving ==> ((timerIdle, frameIdle) == Tick(old(timerIdle), old(frameIdle), elapsed, FurnaceIdlePeriod, FurnaceIdleFrames)
                       && timerWalk == old(timerWalk) && frameWalk == old(frameWalk))
      ensures health == old(health) && pos == old(pos) && speed == old(speed) && direction == old(direction)
    {
      isMoving := moving;
      if moving {
        timerWalk, frameWalk := RunCycle(timerWalk, frameWalk, elapsed, FurnaceWalkPeriod, FurnaceWalkFrames);
      } else {
        timerIdle, frameIdle := RunCycle(timerIdle, frameIdle, elapsed, FurnaceIdlePeriod, FurnaceIdleFrames);
      }
    }
  }

  class Water {
    var health: int
    var speed: int
    var pos: Pos
    var direction: string
    var isMoving: bool
    var frameIdle: int
    var frameMove: int
    var timerIdle: int
    var timerMove: int
    var skill1: Skill
    var skill2: Skill
    var skill3: Skill
    /** `frame_effect_character_skill1`, set back to 0 when the first skill ends. */
    var effectFrame1: int

    ghost predicate Valid()
      reads this
    {
      && 0 <= frameIdle < WaterIdleFrames && 0 <= frameMove < WaterMoveFrames
      && 0 <= skill1.frame < WaterSkill1Frames
      && 0 <= skill2.frame < WaterSkill2Frames
      && 0 <= skill3.frame < WaterSkill3Frames
    }

    function CurrentLook(): Look
      reads this
    {
      WaterLook(speed, direction, isMoving, frameIdle, frameMove, timerIdle, timerMove, skill1, skill2, skill3, effectFrame1)
    }

    /** The stats and counters `Water()` sets up: full health, speed 2, at (400, 400), nothing running. */
    constructor()
      ensures health == StartHealth && speed == StartSpeed && pos == Pos(StartX, StartY)
      ensures direction == "right" && !isMoving
      ensures frameIdle == 0 && frameMove == 0 && timerIdle == 0 && timerMove == 0
      ensures skill1 == Skill(false, 0, 0) && skill2 == Skill(false, 0, 0) && skill3 == Skill(false, 0, 0)
      ensures Valid()
    {
      health := StartHealth;
      speed := StartSpeed;
      pos := Pos(StartX, StartY);
      direction := "right";
      isMoving := false;
      frameIdle := 0;
      frameMove := 0;
      timerIdle := 0;
      timerMove := 0;
      skill1 := Skill(false, 0, 0);
      skill2 := Skill(false, 0, 0);
      skill3 := Skill(false, 0, 0);
      effectFrame1 := 0;
    }

    method Move(d: string)
      modifies this
      ensures pos == Moved(old(pos), speed, d) && direction == Facing(old(direction), d)
      ensures health == old(health) && speed == old(speed) && isMoving == old(isMoving)
      ensures frameIdle == old(frameIdle) && frameMove == old(frameMove)
      ensures timerIdle == old(timerIdle) && timerMove == old(timerMove)
      ensures skill1 == old(skill1) && skill2 == old(skill2) && skill3 == old(skill3) && effectFrame1 == old(effectFrame1)
      ensures old(Valid()) ==> Valid()
    {
      if d == "up" {
        pos := Pos(pos.x, pos.y - speed);
      } else if d == "down" {
        pos := Pos(pos.x, pos.y + speed);
      } else if d == "left" {
        pos := Pos(pos.x - speed, pos.y);
        direction := "left";
      } else if d == "right" {
        pos := Pos(pos.x + speed, pos.y);
        direction := "right";
      }
    }

    /**
     * `take_damage`: as for `Furnace`, and `death` is called (`died`) only when
     * the subtraction went strictly below 0; landing on exactly 0 does not.
     */
    method TakeDamage(amount: int) returns (died: bool)
      modifies this
      ensures health == AfterDamage(old(health), amount)
      ensures died <==> old(health) - amount < 0
      ensures pos == old(pos) && CurrentLook() == old(CurrentLook())
      ensures old(Valid()) ==> Valid()
    {
      died := false;
      health := health - amount;
      if health < 0 {
        health := 0;
        died := true;
      }
    }

    method Heal(amount: int)
      modifies this
      ensures health == AfterHeal(old(health), amount)
      ensures pos == old(pos) && CurrentLook() == old(CurrentLook())
      ensures old(Valid()) ==> Valid()
    {
      health := health + amount;
      if health > MaxHealth {
        health := MaxHealth;
      }
    }

    /**
     * `update_animation`: each skill flag is taken from the caller, each
     * running skill ticks (and may stop), then the move or idle animation
     * ticks as for `Furnace`.
     */
    /** `get_status`: the health and the position. */
    function Status(): (int, Pos)
      reads this
    {
      (health, pos)
    }

    method UpdateAnimation(elapsed: int, moving: bool, attacking1: bool, attacking2: bool, attacking3: bool)
      requires Valid()
      modifies this
      ensures Valid()
      ensures isMoving == moving
      ensures skill1 == SkillTick(old(skill1).(running := attacking1), elapsed, WaterSkill1Period, WaterSkill1Frames)
      ensures skill2 == SkillTick(old(skill2).(running := attacking2), elapsed, WaterSkill2Period, WaterSkill2Frames)
      ensures skill3 == SkillTick(old(skill3).(running := attacking3), elapsed, WaterSkill3Period, WaterSkill3Frames)
      ensures effectFrame1 == (if attacking1 && !skill1.running then 0 else old(effectFrame1))
      ensures moving ==> ((timerMove, frameMove) == Tick(old(timerMove), old(frameMove), elapsed, WaterMovePeriod, WaterMoveFrames)
                      && timerIdle == old(timerIdle) && frameIdle == old(frameIdle))
      ensures !moving ==> ((timerIdle, frameIdle) == Tick(old(timerIdle), old(frameIdle), elapsed, WaterIdlePeriod, WaterIdleFrames)
                       && timerMove == old(timerMove) && frameMove == old(frameMove))
      ensures health == old(health) && pos == old(pos) && speed == old(speed) && direction == old(direction)
    {
      isMoving := moving;
      UpdateSkills(elapsed, attacking1, attacking2, attacking3);
      UpdateMotion(elapsed, moving);
    }

    /** The three skill blocks of `update_animation`. */
    method UpdateSkills(elapsed: int, attacking1: bool, attacking2: bool, attacking3: bool)
      requires Valid()
      modifies this
      ensures Valid()
      ensures skill1 == SkillTick(old(skill1).(running := attacking1), elapsed, WaterSkill1Period, WaterSkill1Frames)
      ensures skill2 == SkillTick(old(skill2).(running := attacking2), elapsed, WaterSkill2Period, WaterSkill2Frames)
      ensures skill3 == SkillTick(old(skill3).(running := attacking3), elapsed, WaterSkill3Period, WaterSkill3Frames)
      ensures effectFrame1 == (if attacking1 && !skill1.running then 0 else old(effectFrame1))
      ensures timerMove == old(timerMove) && frameMove == old(frameMove) && timerIdle == old(timerIdle) && frameIdle == old(frameIdle)
      ensures health == old(health) && pos == old(pos) && speed == old(speed) && direction == old(direction) && isMoving == old(isMoving)
    {
      var s1, ended1 := RunSkill(skill1.(running := attacking1), elapsed, WaterSkill1Period, WaterSkill1Frames);
      if ended1 {
        effectFrame1 := 0;
      }
      var s2, _ := RunSkill(skill2.(running := attacking2), elapsed, WaterSkill2Period, WaterSkill2Frames);
      var s3, _ := RunSkill(skill3.(running := attacking3), elapsed, WaterSkill3Period, WaterSkill3Frames);
      skill1, skill2, skill3 := s1, s2, s3;
    }

    /** The move or idle block of `update_animation`. */
    method UpdateMotion(elapsed: int, moving: bool)
      requires Valid()
      modifies this
      ensures Valid()
      ensures moving ==> ((timerMove, frameMove) == Tick(old(timerMove), old(frameMove), elapsed, WaterMovePeriod, WaterMoveFrames)
                      && timerIdle == old(timerIdle) && frameIdle == old(frameIdle))
      ensures !moving ==> ((timerIdle, frameIdle) == Tick(old(timerIdle), old(frameIdle), elapsed, WaterIdlePeriod, WaterIdleFrames)
                       && timerMove == old(timerMove) && frameMove == old(frameMove))
      ensures skill1 == old(skill1) && skill2 == old(skill2) && skill3 == old(skill3) && effectFrame1 == old(effectFrame1)
      ensures health == old(health) && pos == old(pos) && speed == old(speed) && direction == old(direction) && isMoving == old(isMoving)
    {
      if moving {
        timerMove, frameMove := RunCycle(timerMove, frameMove, elapsed, WaterMovePeriod, WaterMoveFrames);
      } else {
        timerIdle, frameIdle := RunCycle(timerIdle, frameIdle, elapsed, WaterIdlePeriod, WaterIdleFrames);
      }
    }
  }

  /**
   * The idle, walk or move block of `update_animation`: add the elapsed
   * time; on reaching the period, restart the timer and step the frame,
   * back to 0 after the last one.
   */
  method RunCycle(timer: int, frame: int, elapsed: int, period: int, count: nat) returns (t: int, f: int)
    requires count > 0
    ensures (t, f) == Tick(timer, frame, elapsed, period, count)
  {
    t, f := timer + elapsed, frame;
    if t >= period {
      t := 0;
      if f >= count - 1 {
        f := 0;
      } else {
        f := f + 1;
      }
    }
  }

  /**
   * One skill block of `Water.update_animation`, on the skill's own
   * counters; `ended` says the skill ran out of frames on this tick.
   */
  method RunSkill(s: Skill, elapsed: int, period: int, count: nat) returns (r: Skill, ended: bool)
    ensures r == SkillTick(s, elapsed, period, count)
    ensures ended <==> s.running && !r.running
  {
    r := s;
    ended := false;
    if r.running {
      r := r.(timer := r.timer + elapsed);
      if r.timer >= period {
        r := r.(timer := 0, frame := r.frame + 1);
        if r.frame >= count {
          r := r.(frame := 0, running := false);
          ended := true;
        }
      }
    }
  }

  /** A player is whichever character was picked; the game calls the same methods on both. */
  datatype Player = FurnacePlayer(furnace: Furnace) | WaterPlayer(water: Water)

  function Obj(p: Player): (r: set<object>)
    ensures |r| == 1
  {
    match p
    case FurnacePlayer(f) => {f}
    case WaterPlayer(w) => {w}
  }

  function Health(p: Player): int
    reads Obj(p)
  {
    match p
    case FurnacePlayer(f) => f.health
    case WaterPlayer(w) => w.health
  }

  function Position(p: Player): Pos
    reads Obj(p)
  {
    match p
    case FurnacePlayer(f) => f.pos
    case WaterPlayer(w) => w.pos
  }

  /** Speed, facing and animation counters of the character picked. */
  function LookOf(p: Player): (l: Look)
    reads Obj(p)
    ensures p.FurnacePlayer? <==> l.FurnaceLook?
  {
    match p
    case FurnacePlayer(f) => f.CurrentLook()
    case WaterPlayer(w) => w.CurrentLook()
  }

  /** The character's animation frames are within their animations. */
  ghost predicate PlayerValid(p: Player)
    reads Obj(p)
  {
    match p
    case FurnacePlayer(f) => f.Valid()
    case WaterPlayer(w) => w.Valid()
  }

  /** `player.take_damage(amount)` on either character. */
  method PlayerTakeDamage(p: Player, amount: int)
    modifies Obj(p)
    ensures Health(p) == AfterDamage(old(Health(p)), amount)
    ensures Position(p) == old(Position(p)) && LookOf(p) == old(LookOf(p))
    ensures old(PlayerValid(p)) ==> PlayerValid(p)
  {
    match p
    case FurnacePlayer(f) => f.TakeDamage(amount);
    case WaterPlayer(w) => var _ := w.TakeDamage(amount);
  }

  /** `player.heal(amount)` on either character. */
  method PlayerHeal(p: Player, amount: int)
    modifies Obj(p)
    ensures Health(p) == AfterHeal(old(Health(p)), amount)
    ensures Position(p) == old(Position(p)) && LookOf(p) == old(LookOf(p))
    ensures old(PlayerValid(p)) ==> PlayerValid(p)
  {
    match p
    case FurnacePlayer(f) => f.Heal(amount);
    case WaterPlayer(w) => w.Heal(amount);
  }
}
