/** The auto-scrolling media strip of a story section. Each animation
    frame moves the strip left by `speed * dt` and wraps it by the loop
    distance `L` (one copy of the cards) so that it never snaps back to 0;
    a paused strip stays put. */
module Marquee {

  /** Seconds for one full loop. */
  function Duration(isMobile: bool): real {
    if isMobile then 22.0 else 20.0
  }

  /** Pixels per second: one loop distance per loop duration. */
  function Speed(loopDistance: nat, isMobile: bool): real {
    loopDistance as real / Duration(isMobile)
  }

  /** The position range the wrap is meant to keep: `(-L, 0]`. */
  predicate InLoop(x: real, loopDistance: nat) {
    -(loopDistance as real) < x <= 0.0
  }

  /** One frame of the marquee effect as written: subtract `speed * dt`,
      then add `L` once if the result reached `-L`, or subtract `L` once if
      it became positive. With `L = 0` the effect never starts. */
  function Tick(x: real, paused: bool, loopDistance: nat, isMobile: bool, dt: real): (r: real)
    ensures paused || loopDistance == 0 ==> r == x
    ensures !paused && loopDistance > 0 ==>
      var next := x - Speed(loopDistance, isMobile) * dt;
      r == next || r == next + loopDistance as real || r == next - loopDistance as real
    ensures !paused && InLoop(x - Speed(loopDistance, isMobile) * dt, loopDistance)
            ==> r == x - Speed(loopDistance, isMobile) * dt
    ensures (!paused && loopDistance > 0 && InLoop(x, loopDistance)
             && -Duration(isMobile) <= dt <= Duration(isMobile)) ==> InLoop(r, loopDistance)
    ensures !paused && loopDistance > 0 && x - Speed(loopDistance, isMobile) * dt <= -(loopDistance as real)
            ==> r == x - Speed(loopDistance, isMobile) * dt + loopDistance as real
    ensures !paused && loopDistance > 0 && x - Speed(loopDistance, isMobile) * dt > 0.0
            ==> r == x - Speed(loopDistance, isMobile) * dt - loopDistance as real
  {
    if loopDistance == 0 || paused then x
    else
      var L := loopDistance as real;
      var next := x - Speed(loopDistance, isMobile) * dt;
      assert -Duration(isMobile) <= dt <= Duration(isMobile) ==> -L <= Speed(loopDistance, isMobile) * dt <= L by {
        if -Duration(isMobile) <= dt <= Duration(isMobile) {
          SpeedStepBound(loopDistance, isMobile, dt);
        }
      }
      var next1 := if next <= -L then next + L else next;
      if next1 > 0.0 then next1 - L else next1
  }

  /** Within one loop duration a frame travels at most one loop distance. */
  lemma SpeedStepBound(loopDistance: nat, isMobile: bool, dt: real)
    requires -Duration(isMobile) <= dt <= Duration(isMobile)
    ensures -(loopDistance as real) <= Speed(loopDistance, isMobile) * dt <= loopDistance as real
  {
    var L, d := loopDistance as real, Duration(isMobile);
    var s := L / d;
    assert s * d == L;
    MulBounds(d - dt, s);
    MulBounds(d + dt, s);
    assert s * (d - dt) == L - s * dt;
    assert s * (d + dt) == L + s * dt;
  }

  /** A frame following a 40 s gap (a tab hidden that long) on desktop,
      starting from 0 with L = 1000: the single wrap leaves the strip at -L,
      outside `(-L, 0]`; two loop distances were travelled but one undone. */
  lemma TickLeavesLoopAfterLongFrame()
    ensures Tick(0.0, false, 1000, false, 40.0) == -1000.0
    ensures !InLoop(Tick(0.0, false, 1000, false, 40.0), 1000)
  {
    assert Speed(1000, false) == 50.0;
  }

  /** The wrap as intended: bring `next` into `(-L, 0]` by adding the
      whole number of loop distances it needs, however long the frame. */
  function WrapIntoLoop(next: real, loopDistance: nat): (r: real)
    requires loopDistance > 0
    ensures InLoop(r, loopDistance)
    ensures InLoop(next, loopDistance) ==> r == next
  {
    var k := Laps(next, loopDistance);
    FloorWrap(next, loopDistance as real, k);
    LoopsIsProduct(k, loopDistance);
    next + Loops(k, loopDistance)
  }

  /** `k` loop distances, added up one at a time (negative `k` subtracts). */
  function Loops(k: int, loopDistance: nat): real
    decreases if k < 0 then -k else k
  {
    if k == 0 then 0.0
    else if k > 0 then Loops(k - 1, loopDistance) + loopDistance as real
    else Loops(k + 1, loopDistance) - loopDistance as real
  }

  /** Adding loop distances one at a time is multiplying. */
  lemma {:induction false} LoopsIsProduct(k: int, loopDistance: nat)
    ensures Loops(k, loopDistance) == (k as real) * (loopDistance as real)
    decreases if k < 0 then -k else k
  {
    if k > 0 {
      LoopsIsProduct(k - 1, loopDistance);
    } else if k < 0 {
      LoopsIsProduct(k + 1, loopDistance);
    }
  }

  /** Loop counts add up. */
  lemma {:induction false} LoopsAdd(a: int, b: int, loopDistance: nat)
    ensures Loops(a + b, loopDistance) == Loops(a, loopDistance) + Loops(b, loopDistance)
    decreases if b < 0 then -b else b
  {
    if b > 0 {
      LoopsAdd(a, b - 1, loopDistance);
      LoopsStep(a + b - 1, loopDistance);
    } else if b < 0 {
      LoopsAdd(a, b + 1, loopDistance);
      LoopsStep(a + b, loopDistance);
    }
  }

  /** One more loop distance, for any `k`. */
  lemma LoopsStep(k: int, loopDistance: nat)
    ensures Loops(k + 1, loopDistance) == Loops(k, loopDistance) + loopDistance as real
  {
  }

  /** A non-zero number of loops is at least one loop distance away from 0. */
  lemma {:induction false} LoopsAway(m: int, loopDistance: nat)
    ensures m >= 1 ==> Loops(m, loopDistance) >= loopDistance as real
    ensures m <= -1 ==> Loops(m, loopDistance) <= -(loopDistance as real)
    decreases if m < 0 then -m else m
  {
    if m > 1 {
      LoopsAway(m - 1, loopDistance);
    } else if m < -1 {
      LoopsAway(m + 1, loopDistance);
    }
  }

  /** Adding `floor(-next / L)` loop distances lands in `(-L, 0]`, and
      adds none when `next` is already there. */
  lemma FloorWrap(next: real, L: real, k: int)
    requires L > 0.0 && k == (-next / L).Floor
    ensures -L < next + (k as real) * L <= 0.0
    ensures -L < next <= 0.0 ==> k == 0
  {
    var q := -next / L;
    var f := q - k as real;
    assert 0.0 <= f < 1.0;
    assert q * L == -next;
    MulBounds(f, L);
    assert f * L == q * L - (k as real) * L;
    ShiftBounds(next, L, f * L, q * L, (k as real) * L);
    if -L < next <= 0.0 {
      assert 0.0 <= q * L < L;
      if q >= 1.0 {
        MulBounds(q - 1.0, L);
      }
      assert q < 1.0;
    }
  }

  /** The linear step of `FloorWrap`, over plain names so that the solver
      sees no products. */
  lemma ShiftBounds(next: real, L: real, fL: real, qL: real, kL: real)
    requires qL == -next && fL == qL - kL && 0.0 <= fL < L
    ensures -L < next + kL <= 0.0
  {
  }

  /** For `L >= 0`, `0 <= f` gives `0 <= f * L`, and `f < 1` gives `f * L < L` when `L > 0`. */
  lemma MulBounds(f: real, L: real)
    requires L >= 0.0 && f >= 0.0
    ensures f * L >= 0.0
    ensures f < 1.0 && L > 0.0 ==> f * L < L
  {
    assert f < 1.0 && L > 0.0 ==> (1.0 - f) * L > 0.0;
  }

  /** The number of loop distances `WrapIntoLoop` adds. */
  function Laps(next: real, loopDistance: nat): int
    requires loopDistance > 0
  {
    (-next / loopDistance as real).Floor
  }

  /** One frame with the corrected wrap. */
  function WrappedTick(x: real, paused: bool, loopDistance: nat, isMobile: bool, dt: real): (r: real)
    ensures paused || loopDistance == 0 ==> r == x
    ensures !paused && loopDistance > 0 ==> InLoop(r, loopDistance)
  {
    if loopDistance == 0 || paused then x
    else WrapIntoLoop(x - Speed(loopDistance, isMobile) * dt, loopDistance)
  }

  /** Within the range and for frames no longer than one loop duration, the
      written wrap and the corrected wrap agree. */
  lemma TickAgreesWithWrappedTick(x: real, paused: bool, loopDistance: nat, isMobile: bool, dt: real)
    requires InLoop(x, loopDistance)
    requires -Duration(isMobile) <= dt <= Duration(isMobile)
    ensures Tick(x, paused, loopDistance, isMobile, dt) == WrappedTick(x, paused, loopDistance, isMobile, dt)
  {
    if !paused && loopDistance > 0 {
      var next := x - Speed(loopDistance, isMobile) * dt;
      var r := Tick(x, paused, loopDistance, isMobile, dt);
      var w := WrappedTick(x, paused, loopDistance, isMobile, dt);
      assert w == WrapIntoLoop(next, loopDistance);
      WrapUnique(next, r, w, loopDistance);
    }
  }

  /** Two points of `(-L, 0]` that differ from `next` by whole loop distances
      among -1, 0, 1 and `Laps` coincide. */
  lemma WrapUnique(next: real, r: real, w: real, loopDistance: nat)
    requires loopDistance > 0
    requires InLoop(r, loopDistance) && InLoop(w, loopDistance)
    requires r == next || r == next + loopDistance as real || r == next - loopDistance as real
    requires w == WrapIntoLoop(next, loopDistance)
    ensures r == w
  {
    var k := Laps(next, loopDistance);
    var j := if r == next then 0 else if r == next + loopDistance as real then 1 else -1;
    assert r == next + Loops(j, loopDistance);
    LoopsAdd(k - j, j, loopDistance);
    LoopsAway(k - j, loopDistance);
  }

  /** One animation frame: whether the strip is paused (hover or drag),
      and the seconds since the previous frame. */
  datatype Frame = Frame(paused: bool, dt: real)

  /** The strip's position after a run of frames, with the corrected wrap. */
  function Run(x: real, frames: seq<Frame>, loopDistance: nat, isMobile: bool): real
    decreases |frames|
  {
    if frames == [] then x
    else Run(WrappedTick(x, frames[0].paused, loopDistance, isMobile, frames[0].dt), frames[1..], loopDistance, isMobile)
  }

  /** The distance one frame moves the strip before the wrap. */
  function FrameTravel(f: Frame, loopDistance: nat, isMobile: bool): real {
    if f.paused then 0.0 else Speed(loopDistance, isMobile) * f.dt
  }

  /** The loop distances one frame's corrected wrap adds. */
  function FrameLaps(x: real, f: Frame, loopDistance: nat, isMobile: bool): int
    requires loopDistance > 0
  {
    if f.paused then 0 else Laps(x - FrameTravel(f, loopDistance, isMobile), loopDistance)
  }

  /** The distance the unpaused frames move the strip. */
  function Travel(frames: seq<Frame>, loopDistance: nat, isMobile: bool): real {
    if frames == [] then 0.0
    else FrameTravel(frames[0], loopDistance, isMobile) + Travel(frames[1..], loopDistance, isMobile)
  }

  /** The total number of loop distances added by the wraps of a run. */
  function RunLaps(x: real, frames: seq<Frame>, loopDistance: nat, isMobile: bool): int
    requires loopDistance > 0
    decreases |frames|
  {
    if frames == [] then 0
    else
      var f := frames[0];
      FrameLaps(x, f, loopDistance, isMobile)
      + RunLaps(WrappedTick(x, f.paused, loopDistance, isMobile, f.dt), frames[1..], loopDistance, isMobile)
  }

  /** The strip never leaves `(-L, 0]`, whatever the frames. */
  lemma {:induction false} RunStaysInLoop(x: real, frames: seq<Frame>, loopDistance: nat, isMobile: bool)
    requires loopDistance > 0 && InLoop(x, loopDistance)
    ensures InLoop(Run(x, frames, loopDistance, isMobile), loopDistance)
    decreases |frames|
  {
    if frames != [] {
      var x' := WrappedTick(x, frames[0].paused, loopDistance, isMobile, frames[0].dt);
      RunStaysInLoop(x', frames[1..], loopDistance, isMobile);
    }
  }

  /** The wraps only ever add whole loop distances: the position is the
      start minus the distance travelled, plus a whole number of loops. */
  lemma {:induction false} RunIsTravelModuloLoop(x: real, frames: seq<Frame>, loopDistance: nat, isMobile: bool)
    requires loopDistance > 0
    ensures Run(x, frames, loopDistance, isMobile)
         == x - Travel(frames, loopDistance, isMobile) + Loops(RunLaps(x, frames, loopDistance, isMobile), loopDistance)
    decreases |frames|
  {
    if frames != [] {
      var f := frames[0];
      var x' := WrappedTick(x, f.paused, loopDistance, isMobile, f.dt);
      RunIsTravelModuloLoop(x', frames[1..], loopDistance, isMobile);
      if f.paused {
        PausedFrameShift(x, f, loopDistance, isMobile);
      } else {
        MovingFrameShift(x, f, loopDistance, isMobile);
      }
      LoopsAdd(FrameLaps(x, f, loopDistance, isMobile), RunLaps(x', frames[1..], loopDistance, isMobile), loopDistance);
    }
  }

  /** A frame with the corrected wrap moves the strip by the frame's travel
      and then adds the frame's laps. */
  ghost predicate FrameShifts(x: real, f: Frame, loopDistance: nat, isMobile: bool)
    requires loopDistance > 0
  {
    WrappedTick(x, f.paused, loopDistance, isMobile, f.dt)
    == x - FrameTravel(f, loopDistance, isMobile) + Loops(FrameLaps(x, f, loopDistance, isMobile), loopDistance)
  }

  /** A paused frame leaves the strip where it is and adds no laps. */
  lemma PausedFrameShift(x: real, f: Frame, loopDistance: nat, isMobile: bool)
    requires loopDistance > 0 && f.paused
    ensures FrameShifts(x, f, loopDistance, isMobile)
  {
    assert FrameLaps(x, f, loopDistance, isMobile) == 0;
  }

  /** An unpaused frame travels `speed * dt` and adds `Laps` loops. */
  lemma MovingFrameShift(x: real, f: Frame, loopDistance: nat, isMobile: bool)
    requires loopDistance > 0 && !f.paused
    ensures FrameShifts(x, f, loopDistance, isMobile)
  {
    var next := x - Speed(loopDistance, isMobile) * f.dt;
    UnpausedShift(x, loopDistance, isMobile, f.dt);
    assert x - FrameTravel(f, loopDistance, isMobile) == next;
    assert FrameLaps(x, f, loopDistance, isMobile) == Laps(next, loopDistance);
  }

  /** An unpaused frame with the corrected wrap moves the strip by
      `speed * dt` and then adds `Laps` loop distances. */
  lemma UnpausedShift(x: real, loopDistance: nat, isMobile: bool, dt: real)
    requires loopDistance > 0
    ensures var next := x - Speed(loopDistance, isMobile) * dt;
            WrappedTick(x, false, loopDistance, isMobile, dt) == next + Loops(Laps(next, loopDistance), loopDistance)
  {
  }

  /** The written tick, run frame after frame. */
  function RunAsWritten(x: real, frames: seq<Frame>, loopDistance: nat, isMobile: bool): real
    decreases |frames|
  {
    if frames == [] then x
    else RunAsWritten(Tick(x, frames[0].paused, loopDistance, isMobile, frames[0].dt), frames[1..], loopDistance, isMobile)
  }

  /** Every frame lasts at most one loop duration. */
  ghost predicate ShortFrames(frames: seq<Frame>, isMobile: bool) {
    forall i :: 0 <= i < |frames| ==> -Duration(isMobile) <= frames[i].dt <= Duration(isMobile)
  }

  /** As long as no frame is longer than one loop duration, the written
      marquee behaves exactly as the corrected one. */
  lemma {:induction false} RunAsWrittenAgrees(x: real, frames: seq<Frame>, loopDistance: nat, isMobile: bool)
    requires InLoop(x, loopDistance)
    requires ShortFrames(frames, isMobile)
    ensures RunAsWritten(x, frames, loopDistance, isMobile) == Run(x, frames, loopDistance, isMobile)
    decreases |frames|
  {
    if frames != [] {
      var f := frames[0];
      TickAgreesWithWrappedTick(x, f.paused, loopDistance, isMobile, f.dt);
      var x' := Tick(x, f.paused, loopDistance, isMobile, f.dt);
      assert InLoop(x', loopDistance);
      ShortFramesTail(frames, isMobile);
      RunAsWrittenAgrees(x', frames[1..], loopDistance, isMobile);
    }
  }

  /** A drag can leave the strip far outside `(-L, 0]`: its constraints
      are ±999999 px. Dragged to 3000 on desktop with L = 1000 (speed
      50 px/s), the next 20 ms frame moves it to 2999 and wraps once, to
      1999, still outside. */
  lemma TickAfterDragStaysOutside()
    ensures Tick(3000.0, false, 1000, false, 0.02) == 1999.0
    ensures !InLoop(Tick(3000.0, false, 1000, false, 0.02), 1000)
  {
    assert Speed(1000, false) == 50.0;
  }

  /** One frame no longer than a loop duration moves the strip back by at
      most two loop distances. */
  lemma TickMovesLittle(x: real, paused: bool, loopDistance: nat, isMobile: bool, dt: real)
    requires -Duration(isMobile) <= dt <= Duration(isMobile)
    ensures Tick(x, paused, loopDistance, isMobile, dt) >= x - 2.0 * loopDistance as real
  {
    SpeedStepBound(loopDistance, isMobile, dt);
  }

  /** With the written wrap, a strip dragged to `x` gains at most two loop
      distances per frame back toward the range: `n` frames leave it at
      least `x - 2nL`. */
  lemma {:induction false} DraggedRunCreeps(x: real, frames: seq<Frame>, loopDistance: nat, isMobile: bool)
    requires ShortFrames(frames, isMobile)
    ensures RunAsWritten(x, frames, loopDistance, isMobile) >= x - 2.0 * (|frames| * loopDistance) as real
    decreases |frames|
  {
    if frames != [] {
      var f := frames[0];
      TickMovesLittle(x, f.paused, loopDistance, isMobile, f.dt);
      var x' := Tick(x, f.paused, loopDistance, isMobile, f.dt);
      ShortFramesTail(frames, isMobile);
      DraggedRunCreeps(x', frames[1..], loopDistance, isMobile);
      CreepStep(x, x', RunAsWritten(x', frames[1..], loopDistance, isMobile), |frames|, loopDistance);
    }
  }

  lemma ShortFramesTail(frames: seq<Frame>, isMobile: bool)
    requires frames != [] && ShortFrames(frames, isMobile)
    ensures ShortFrames(frames[1..], isMobile)
  {
    forall i | 0 <= i < |frames[1..]| ensures -Duration(isMobile) <= frames[1..][i].dt <= Duration(isMobile) {
      assert frames[1..][i] == frames[i + 1];
    }
  }

  /** Adding one frame's two loop distances to the bound of the rest. */
  lemma CreepStep(x: real, x': real, r: real, n: nat, loopDistance: nat)
    requires n > 0
    requires x' >= x - 2.0 * loopDistance as real
    requires r >= x' - 2.0 * ((n - 1) * loopDistance) as real
    ensures r >= x - 2.0 * (n * loopDistance) as real
  {
    assert n * loopDistance == (n - 1) * loopDistance + loopDistance;
  }

  /** So a strip dragged right past `2nL` is still off the range after `n`
      ordinary frames, while the corrected wrap brings it back with the
      first moving frame (`WrappedTick`). */
  lemma DraggedStripNeedsFrames(x: real, frames: seq<Frame>, loopDistance: nat, isMobile: bool)
    requires ShortFrames(frames, isMobile)
    requires x > 2.0 * (|frames| * loopDistance) as real
    ensures !InLoop(RunAsWritten(x, frames, loopDistance, isMobile), loopDistance)
  {
    DraggedRunCreeps(x, frames, loopDistance, isMobile);
  }
}
