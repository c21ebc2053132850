/** One frame of a round: the held ("active") fruit that the player moves
    and drops, the previewed ("next") fruit, and the game-over test over the
    dropped fruit. Every function reads the state at the start of the frame
    and returns the state after it; the physics engine is an input. */
module Game {
  import opened Wrappers
  import opened Util
  import opened Keys

  /** The fruit the player holds above the container. It is not simulated. */
  datatype Held = Held(tier: nat, x: real)

  /** A dropped fruit with the position and velocity the physics engine reports. */
  datatype Body = Body(tier: nat, x: real, y: real, vx: real, vy: real, spin: real)

  /** The fruit of a round: at most one held fruit, at most one preview
      tier, and the dropped fruit in spawn order. */
  datatype Round = Round(active: Option<Held>, next: Option<nat>, bodies: seq<Body>)

  const EmptyRound: Round := Round(None, None, [])

  /** Height at which the held fruit hangs and a dropped fruit appears. */
  const DropY: real := ContainerH / 2.0

  /** Angular velocity given to a dropped fruit. */
  const DropSpin: real := 0.4

  /** A resting fruit above this height ends the round. */
  const MaxHeight: real := 0.25 * ContainerH - ContainerT

  /** A fruit further than this from the centre line ends the round. */
  const MaxX: real := 0.5 * ContainerW + ContainerT

  /** Exclusive upper bound of the tier drawn for a first held fruit or a
      first preview (`gen_range(0..4)`). */
  const SpawnRange: nat := 4

  /** Exclusive upper bound of the tier drawn after a drop without preview
      and for a rerolled preview (`gen_range(0..5)`). */
  const RefillRange: nat := 5

  /** One random sample per call site of the random generator; each is
      only used on the branch that draws it. */
  datatype Rolls = Rolls(spawn: nat, refill: nat, preview: nat, reroll: nat) {
    predicate InRange() {
      spawn < SpawnRange && refill < RefillRange && preview < SpawnRange && reroll < RefillRange
    }
  }

  /** A tier some random draw of the round can produce. */
  predicate Drawable(t: nat) {
    t < RefillRange
  }

  /** Every fruit of the round has a drawable tier. */
  predicate Wf(r: Round) {
    && (r.active.Some? ==> Drawable(r.active.value.tier))
    && (r.next.Some? ==> Drawable(r.next.value))
    && (forall k :: 0 <= k < |r.bodies| ==> Drawable(r.bodies[k].tier))
  }

  /** Left and right keys add up; holding both cancels out. */
  function MoveDirection(i: Input): (d: int)
    ensures -1 <= d <= 1
    ensures d == -1 <==> LeftHeld(i) && !RightHeld(i)
    ensures d == 1 <==> RightHeld(i) && !LeftHeld(i)
    ensures d == 0 <==> (LeftHeld(i) <==> RightHeld(i))
  {
    (if LeftHeld(i) then -1 else 0) + (if RightHeld(i) then 1 else 0)
  }

  /** The held fruit's centre stays clear of the two no-move bands. */
  predicate ClearOfBands(x: real) {
    -(ContainerW / 2.0 - ContainerP) <= x <= ContainerW / 2.0 - ContainerP
  }

  /** A fruit of diameter `size` centred at `x` lies between the inner faces
      of the two walls. */
  predicate InsideWalls(x: real, size: real) {
    -(ContainerW - ContainerT) / 2.0 <= x - size / 2.0 && x + size / 2.0 <= (ContainerW - ContainerT) / 2.0
  }

  /** How far from the centre line a held fruit of tier `t` may travel. */
  function Limit(t: nat): (l: real)
    requires ValidTier(t)
    ensures 0.0 < l
    ensures ClearOfBands(l) && InsideWalls(l, Size(t))
  {
    var limit1 := ContainerW / 2.0 - ContainerP;
    var limit2 := (ContainerW - ContainerT - Size(t)) / 2.0;
    if limit1 < limit2 then limit1 else limit2
  }

  /** The travel interval is exactly the set of positions that keep the
      fruit clear of the bands and inside the walls. */
  lemma LimitIsWidestSafeReach(t: nat, x: real)
    requires ValidTier(t)
    ensures -Limit(t) <= x <= Limit(t) <==> ClearOfBands(x) && InsideWalls(x, Size(t))
  {
  }

  /** Larger fruit travel less far. */
  lemma LimitShrinks(i: nat, j: nat)
    requires i < j && ValidTier(j)
    ensures Limit(j) <= Limit(i)
  {
    SizesIncrease(i, j);
  }

  /** The target position hard-clamped to [-limit, limit]. */
  function Pin(target: real, limit: real): (x: real)
    requires 0.0 < limit
    ensures -limit <= x <= limit
  {
    if target > -limit && target < limit then target
    else if target >= limit then limit
    else -limit
  }

  /** Pinning picks the point of the interval nearest the target. */
  lemma PinIsNearest(target: real, limit: real, y: real)
    requires 0.0 < limit && -limit <= y <= limit
    ensures var x := Pin(target, limit);
            (if x <= target then target - x else x - target) <= (if y <= target then target - y else y - target)
  {
  }

  /** One movement step of the held fruit in direction `dir`. */
  function MoveHeld(a: Held, dir: int): (b: Held)
    requires ValidTier(a.tier)
    requires -1 <= dir <= 1
    ensures b.tier == a.tier
    ensures -Limit(a.tier) <= b.x <= Limit(a.tier)
    ensures var target := a.x + MoveSpeed * dir as real;
            && (-Limit(a.tier) < target < Limit(a.tier) ==> b.x == target)
            && (target >= Limit(a.tier) ==> b.x == Limit(a.tier))
            && (target <= -Limit(a.tier) ==> b.x == -Limit(a.tier))
  {
    Held(a.tier, Pin(a.x + MoveSpeed * dir as real, Limit(a.tier)))
  }

  /** `n` movement steps in the same direction. */
  function Slide(a: Held, dir: int, n: nat): (b: Held)
    requires ValidTier(a.tier)
    requires -1 <= dir <= 1
    ensures b.tier == a.tier
    decreases n
  {
    if n == 0 then a else Slide(MoveHeld(a, dir), dir, n - 1)
  }

  /** Holding right long enough pins the fruit exactly at the right limit,
      never beyond it. */
  lemma {:induction false} SlideRightPinsAtLimit(a: Held, n: nat)
    requires ValidTier(a.tier)
    requires 0 < n && a.x + MoveSpeed * n as real >= Limit(a.tier)
    ensures Slide(a, 1, n).x == Limit(a.tier)
    decreases n
  {
    var b := MoveHeld(a, 1);
    if n > 1 {
      assert b.x == Limit(a.tier) || b.x >= a.x + MoveSpeed;
      SlideRightPinsAtLimit(b, n - 1);
    }
  }

  /** Holding left long enough pins the fruit exactly at the left limit. */
  lemma {:induction false} SlideLeftPinsAtLimit(a: Held, n: nat)
    requires ValidTier(a.tier)
    requires 0 < n && a.x - MoveSpeed * n as real <= -Limit(a.tier)
    ensures Slide(a, -1, n).x == -Limit(a.tier)
    decreases n
  {
    var b := MoveHeld(a, -1);
    if n > 1 {
      assert b.x == -Limit(a.tier) || b.x <= a.x - MoveSpeed;
      SlideLeftPinsAtLimit(b, n - 1);
    }
  }

  /** The fruit that a drop leaves behind: same tier and x, at drop height,
      at rest. */
  function Dropped(a: Held): Body {
    Body(a.tier, a.x, DropY, 0.0, 0.0, DropSpin)
  }

  /** The held-fruit system: spawn a held fruit when there is none, drop it
      on Space or Return, move it otherwise. */
  function HandleActiveFruit(r: Round, i: Input, rolls: Rolls): (s: Round)
    requires Wf(r) && rolls.InRange()
    ensures Wf(s)
    ensures s.next == r.next
    ensures s.active.Some?
    // no held fruit: one appears at the centre, with the preview tier or a tier in 0..3
    ensures r.active.None? ==>
              && s.bodies == r.bodies
              && s.active.value.x == 0.0
              && s.active.value.tier == (if r.next.Some? then r.next.value else rolls.spawn)
              && s.active.value.tier < (if r.next.Some? then RefillRange else SpawnRange)
    // drop: exactly one body is added, the held fruit where it hung, at rest
    ensures r.active.Some? && DropPressed(i) ==>
              && s.bodies == r.bodies + [Body(r.active.value.tier, r.active.value.x, DropY, 0.0, 0.0, DropSpin)]
              && s.active.value.x == r.active.value.x
              && s.active.value.tier == (if r.next.Some? then r.next.value else rolls.refill)
    // no drop: no body is added and the held fruit keeps its tier and stays in reach
    ensures r.active.Some? && !DropPressed(i) ==>
              && s.bodies == r.bodies
              && s.active.value == MoveHeld(r.active.value, MoveDirection(i))
              && -Limit(s.active.value.tier) <= s.active.value.x <= Limit(s.active.value.tier)
  {
    match r.active
    case None =>
      r.(active := Some(Held(r.next.GetOr(rolls.spawn), 0.0)))
    case Some(a) =>
      if DropPressed(i) then
        r.(active := Some(Held(r.next.GetOr(rolls.refill), a.x)), bodies := r.bodies + [Dropped(a)])
      else
        r.(active := Some(MoveHeld(a, MoveDirection(i))))
  }

  /** The preview system: create the preview when there is none, replace
      it on Space or S, keep it otherwise. */
  function HandleNextFruit(r: Round, i: Input, rolls: Rolls): (s: Round)
    requires rolls.InRange()
    ensures s.active == r.active && s.bodies == r.bodies
    ensures s.next.Some?
    ensures r.next.None? ==> s.next.value == rolls.preview && s.next.value < SpawnRange
    ensures r.next.Some? && RerollPressed(i) ==> s.next.value == rolls.reroll && s.next.value < RefillRange
    ensures r.next.Some? && !RerollPressed(i) ==> s.next == r.next
  {
    match r.next
    case None => r.(next := Some(rolls.preview))
    case Some(_) => if RerollPressed(i) then r.(next := Some(rolls.reroll)) else r
  }

  /** Both fruit systems of one frame. They run unordered, and their spawns
      and despawns take effect only after both ran, so each reads the
      start-of-frame round. */
  function RoundTick(r: Round, i: Input, rolls: Rolls): (s: Round)
    requires Wf(r) && rolls.InRange()
    ensures Wf(s)
    ensures s.active.Some? && s.next.Some?
  {
    var a := HandleActiveFruit(r, i, rolls);
    var n := HandleNextFruit(r, i, rolls);
    Round(a.active, n.next, a.bodies)
  }

  /** Reading the start-of-frame round is the same as running the held-fruit
      system first and the preview system second: a drop takes the preview
      before it is replaced. */
  lemma TickTakesPreviewBeforeReplacingIt(r: Round, i: Input, rolls: Rolls)
    requires Wf(r) && rolls.InRange()
    ensures RoundTick(r, i, rolls) == HandleNextFruit(HandleActiveFruit(r, i, rolls), i, rolls)
  {
  }

  /** A Space drop promotes the preview to the hand and draws a new preview. */
  lemma SpaceDropPromotesPreview(r: Round, i: Input, rolls: Rolls)
    requires Wf(r) && rolls.InRange()
    requires r.active.Some? && r.next.Some? && Space in i.justPressed
    ensures RoundTick(r, i, rolls).active.value.tier == r.next.value
    ensures RoundTick(r, i, rolls).next == Some(rolls.reroll)
  {
  }

  /** A Return drop promotes the preview to the hand but does not replace
      it: the fruit just taken into the hand is still shown as the next one. */
  lemma ReturnDropKeepsPreview(r: Round, i: Input, rolls: Rolls)
    requires Wf(r) && rolls.InRange()
    requires r.active.Some? && r.next.Some?
    requires Return in i.justPressed && Space !in i.justPressed && S !in i.justPressed
    ensures RoundTick(r, i, rolls).active.value.tier == r.next.value
    ensures RoundTick(r, i, rolls).next == r.next
  {
  }

  /** The first frame of a round creates both the held fruit and the
      preview, each with a tier in 0..3. */
  lemma FirstTickSpawnsHeldAndPreview(i: Input, rolls: Rolls)
    requires rolls.InRange()
    ensures var s := RoundTick(EmptyRound, i, rolls);
            && s.active == Some(Held(rolls.spawn, 0.0))
            && s.next == Some(rolls.preview)
            && s.bodies == []
  {
  }

  /** A drop can leave the new held fruit beyond its own reach, when it is
      larger than the dropped one; the next frame without a drop pins it
      back. */
  lemma DropMayOvershootNewLimit()
    ensures var r := Round(Some(Held(0, 162.0)), Some(4), []);
            var i := Input({}, {Return}, false);
            var s := RoundTick(r, i, Rolls(0, 0, 0, 0));
            && s.active.value.x > Limit(s.active.value.tier)
            && RoundTick(s, Input({}, {}, false), Rolls(0, 0, 0, 0)).active.value.x == Limit(4)
  {
  }

  /** The tiers of the dropped fruit, as a multiset. */
  function BodyTiers(bodies: seq<Body>): multiset<nat> {
    if |bodies| == 0 then multiset{} else multiset{bodies[0].tier} + BodyTiers(bodies[1..])
  }

  lemma {:induction false} BodyTiersAppend(bodies: seq<Body>, b: Body)
    ensures BodyTiers(bodies + [b]) == BodyTiers(bodies) + multiset{b.tier}
    decreases |bodies|
  {
    if |bodies| > 0 {
      assert (bodies + [b])[1..] == bodies[1..] + [b];
      BodyTiersAppend(bodies[1..], b);
    }
  }

  /** The tiers of all fruit in play: the dropped ones and the held one. */
  function InPlay(r: Round): multiset<nat> {
    BodyTiers(r.bodies) + (if r.active.Some? then multiset{r.active.value.tier} else multiset{})
  }

  /** A drop moves the held fruit into the container, so the only fruit that
      enters play is the newly held one; a frame without a drop changes no
      tier in play. */
  lemma DropMovesHeldFruitIntoPlay(r: Round, i: Input, rolls: Rolls)
    requires Wf(r) && rolls.InRange() && r.active.Some?
    ensures var s := HandleActiveFruit(r, i, rolls);
            if DropPressed(i) then InPlay(s) == InPlay(r) + multiset{s.active.value.tier}
            else InPlay(s) == InPlay(r)
  {
    if DropPressed(i) {
      BodyTiersAppend(r.bodies, Dropped(r.active.value));
    }
  }

  /** A dropped fruit that has left the container sideways. */
  predicate OutsideWalls(b: Body) {
    b.x > MaxX || b.x < -MaxX
  }

  /** Speed below the minimum; `|v| < MinSpeed` squared on both sides. */
  predicate SlowerThanMin(b: Body) {
    b.vx * b.vx + b.vy * b.vy < MinSpeed * MinSpeed
  }

  /** A nearly resting fruit above the height line. */
  predicate SettledAboveLine(b: Body) {
    SlowerThanMin(b) && b.y > MaxHeight
  }

  predicate Breaches(b: Body) {
    OutsideWalls(b) || SettledAboveLine(b)
  }

  /** The scan over the dropped fruit, front to back. */
  function AnyBreach(bodies: seq<Body>): (found: bool)
    ensures found <==> exists k :: 0 <= k < |bodies| && Breaches(bodies[k])
  {
    if |bodies| == 0 then false
    else if Breaches(bodies[0]) then true
    else
      var rest := AnyBreach(bodies[1..]);
      assert forall k :: 1 <= k < |bodies| ==> bodies[k] == bodies[1..][k - 1];
      rest
  }

  /** The game-over test of one frame. Only dropped fruit are examined: the
      held fruit and the preview are not bodies. */
  function EndGame(i: Input, bodies: seq<Body>): (over: bool)
    ensures over <==>
              || QuitHeld(i)
              || (exists k :: 0 <= k < |bodies| && OutsideWalls(bodies[k]))
              || (exists k :: 0 <= k < |bodies| && SettledAboveLine(bodies[k]))
  {
    QuitHeld(i) || AnyBreach(bodies)
  }

  /** The verdict does not depend on the order the fruit are visited in. */
  lemma EndGameIgnoresOrder(i: Input, bodies: seq<Body>, others: seq<Body>)
    requires multiset(bodies) == multiset(others)
    ensures EndGame(i, bodies) == EndGame(i, others)
  {
    if k :| 0 <= k < |bodies| && Breaches(bodies[k]) {
      assert bodies[k] in multiset(others);
    }
    if k :| 0 <= k < |others| && Breaches(others[k]) {
      assert others[k] in multiset(bodies);
    }
  }

  /** More fruit never turns a lost round into a running one. */
  lemma EndGameMonotone(i: Input, bodies: seq<Body>, more: seq<Body>)
    ensures EndGame(i, bodies) ==> EndGame(i, bodies + more) && EndGame(i, more + bodies)
  {
    if k :| 0 <= k < |bodies| && Breaches(bodies[k]) {
      assert (bodies + more)[k] == bodies[k];
      assert (more + bodies)[|more| + k] == bodies[k];
    }
  }

  /** Fruit inside the walls and below the height line, or still moving,
      keep the round going unless the player quits. */
  lemma SafeBodiesKeepRoundGoing(i: Input, bodies: seq<Body>)
    requires !QuitHeld(i)
    requires forall k :: 0 <= k < |bodies| ==> -MaxX <= bodies[k].x <= MaxX && (bodies[k].y <= MaxHeight || !SlowerThanMin(bodies[k]))
    ensures !EndGame(i, bodies)
  {
  }

  /** Entering a round zeroes the current score and keeps the best score;
      with no score entity there is nothing to reset. */
  function SetupGame(score: Option<Score>): (s: Option<Score>)
    ensures s.Some? <==> score.Some?
    ensures s.Some? ==> s.value.current == 0 && s.value.best == score.value.best
  {
    match score
    case Some(sc) => Some(sc.(current := 0))
    case None => None
  }

  /** Resetting twice is the same as resetting once. */
  lemma SetupGameIdempotent(score: Option<Score>)
    ensures SetupGame(SetupGame(score)) == SetupGame(score)
  {
  }
}
