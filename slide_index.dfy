/**
 * The frame-index rules of the four viewers.  Frames are keyed 1..n in the
 * map-based viewers and 0..len-1 in tmp/index.ts; `n` is always the key count
 * the viewer reads at the time of the step.
 */
module SlideIndex {

  // ---------------------------------------------------------------------------
  // site/core/static/scripts/src/v360.ts: steps of two

  /** `nextTexture`: add 2, back to 1 once past `n`. */
  function NextIndex(i: int, n: int): (j: int)
    ensures n >= 1 && i >= -1 ==> 1 <= j <= n
    ensures j == i + 2 || j == 1
    ensures i % 2 == 1 ==> j % 2 == 1
    ensures n < 1 && i >= -1 ==> j == 1
  {
    if i + 2 > n then 1 else i + 2
  }

  /** `prevTexture`: subtract 2, to `n` once below 1. */
  function PrevIndex(i: int, n: int): (j: int)
    ensures n >= 1 && i <= n + 2 ==> 1 <= j <= n
    ensures j == i - 2 || j == n
  {
    if i - 2 < 1 then n else i - 2
  }

  /** `k` auto-advances from index `i`. */
  function NextIter(i: int, n: int, k: nat): int
  {
    if k == 0 then i else NextIndex(NextIter(i, n, k - 1), n)
  }

  /** From frame 1 the viewer walks the odd frames 1, 3, 5, ... */
  lemma {:induction false} AdvanceWalksOddFrames(n: int, k: nat)
    requires 1 + 2 * k <= n
    ensures NextIter(1, n, k) == 1 + 2 * k
  {
    if k > 0 {
      AdvanceWalksOddFrames(n, k - 1);
    }
  }

  /** ... and is back at frame 1 after `(n + 1) / 2` steps. */
  lemma AdvanceCycle(n: int)
    requires n >= 1
    ensures NextIter(1, n, (n + 1) / 2) == 1
  {
    var k := (n + 1) / 2;
    AdvanceWalksOddFrames(n, k - 1);
  }

  /** Auto-advance never shows an even frame once the index is odd. */
  lemma {:induction false} AdvanceSkipsEvenFrames(i: int, n: int, k: nat)
    requires i % 2 == 1
    ensures NextIter(i, n, k) % 2 == 1
  {
    if k > 0 {
      AdvanceSkipsEvenFrames(i, n, k - 1);
    }
  }

  // ---------------------------------------------------------------------------
  // tmp/v360THREE.ts and tmp/v360.ts: steps of one, wrapping at n

  /** `moveSlideRight` and the step of `updateTexture`: add 1, back to 1 at `n` or beyond. */
  function StepUp(i: int, n: int): (j: int)
    ensures n >= 2 && i >= 0 ==> 1 <= j <= n - 1
    ensures j == i + 1 || j == 1
  {
    if i + 1 >= n then 1 else i + 1
  }

  /** `moveSlideLeft`: subtract 1, to `n - 1` below 1. */
  function StepDown(i: int, n: int): (j: int)
    ensures n >= 2 && i <= n ==> 1 <= j <= n - 1
    ensures j == i - 1 || j == n - 1
  {
    if i - 1 < 1 then n - 1 else i - 1
  }

  /** Right undoes left and left undoes right on `[1, n - 1]`. */
  lemma StepsInverse(i: int, n: int)
    requires n >= 2 && 1 <= i <= n - 1
    ensures StepUp(StepDown(i, n), n) == i
    ensures StepDown(StepUp(i, n), n) == i
  {
  }

  function StepIter(i: int, n: int, k: nat): int
  {
    if k == 0 then i else StepUp(StepIter(i, n, k - 1), n)
  }

  /** From frame 1 the viewer walks 1, 2, ..., n - 1 ... */
  lemma {:induction false} StepWalk(n: int, k: nat)
    requires k < n - 1
    ensures StepIter(1, n, k) == 1 + k
  {
    if k > 0 {
      StepWalk(n, k - 1);
    }
  }

  /** ... and wraps to 1 after `n - 1` steps, so frame `n` is never shown. */
  lemma StepCycle(n: int)
    requires n >= 2
    ensures StepIter(1, n, n - 1) == 1
  {
    StepWalk(n, n - 2);
  }

  /** From any index in `[1, n - 1]`, no number of steps reaches frame `n`. */
  lemma {:induction false} LastFrameNeverReached(i: int, n: int, k: nat)
    requires n >= 2 && 1 <= i <= n - 1
    ensures 1 <= StepIter(i, n, k) <= n - 1
  {
    if k > 0 {
      LastFrameNeverReached(i, n, k - 1);
    }
  }

  // ---------------------------------------------------------------------------
  // tmp/index.ts: modular stepping over 0..len-1 with JavaScript numbers

  /** A JavaScript number as far as the index arithmetic needs it. */
  datatype JsNum = Num(value: int) | NaN

  function JsAdd(a: JsNum, d: int): (r: JsNum)
    ensures r.NaN? <==> a.NaN?
    ensures r.Num? ==> r.value - a.value == d
  {
    if a.NaN? then NaN else Num(a.value + d)
  }

  /** JavaScript's `a % m`: truncating remainder, NaN for a zero divisor or a NaN operand. */
  function JsRem(a: JsNum, m: int): (r: JsNum)
    ensures (a.NaN? || m == 0) <==> r.NaN?
    ensures a.Num? && a.value >= 0 && m > 0 ==> r == Num(a.value % m)
  {
    if a.NaN? || m == 0 then NaN
    else if a.value >= 0 then Num(a.value % (if m < 0 then -m else m))
    else Num(-((-a.value) % (if m < 0 then -m else m)))
  }

  /** `changeImage`: `(currentIndex + 1) % len`. */
  function AutoStep(i: JsNum, len: nat): (r: JsNum)
    ensures i.Num? && i.value >= 0 && len > 0 ==> r.Num? && 0 <= r.value < len
    ensures len == 0 ==> r.NaN?
  {
    JsRem(JsAdd(i, 1), len)
  }

  /** `onMouseMove`: `(currentIndex + direction + len) % len`. */
  function DragStep(i: JsNum, direction: int, len: nat): (r: JsNum)
    requires direction == 1 || direction == -1
    ensures i.Num? && i.value >= 0 && len > 0 ==> r.Num? && 0 <= r.value < len
    ensures len == 0 || i.NaN? ==> r.NaN?
  {
    JsRem(JsAdd(i, direction + len), len)
  }

  /** A drag step from a frame moves to the neighbouring frame on the ring. */
  lemma DragStepWraps(i: int, direction: int, len: nat)
    requires direction == 1 || direction == -1
    requires 0 <= i < len
    ensures DragStep(Num(i), direction, len) == Num(Wrapped(i + direction, len))
  {
    var v := i + direction;
    if v == -1 {
      ModUnique(v + len, len, 0, len - 1);
    } else if v == len {
      ModUnique(v + len, len, 2, 0);
    } else {
      ModUnique(v + len, len, 1, v);
    }
  }

  /** One step around a ring of `len` frames: -1 is the last frame and `len` the first. */
  function Wrapped(v: int, len: int): (w: int)
    ensures 0 <= v < len ==> w == v
    ensures len >= 1 && -1 <= v <= len ==> 0 <= w < len
  {
    if v < 0 then len - 1 else if v >= len then 0 else v
  }

  lemma {:induction false} MulAtLeast(x: nat, m: nat)
    requires x >= 1
    ensures x * m >= m
    decreases x
  {
    if x > 1 {
      MulAtLeast(x - 1, m);
      assert x * m == (x - 1) * m + m;
    }
  }

  /** Euclidean remainders are unique. */
  lemma ModUnique(a: int, m: int, q: int, r: int)
    requires m > 0 && 0 <= r < m && a == q * m + r
    ensures a % m == r
  {
    var q' := a / m;
    var r' := a % m;
    assert a == q' * m + r';
    assert q * m - q' * m == r' - r;
    if q > q' {
      assert (q - q') * m == q * m - q' * m;
      MulAtLeast(q - q', m);
    } else if q < q' {
      assert (q' - q) * m == q' * m - q * m;
      MulAtLeast(q' - q, m);
    }
  }

  function AutoIter(i: JsNum, len: nat, k: nat): JsNum
  {
    if k == 0 then i else AutoStep(AutoIter(i, len, k - 1), len)
  }

  /** The remainder of `k` follows from that of `k - 1`. */
  lemma ModSuccessor(k: int, len: int)
    requires len > 0
    ensures ((k - 1) % len + 1) % len == k % len
  {
    var q := (k - 1) / len;
    var p := (k - 1) % len;
    assert k - 1 == q * len + p;
    if p + 1 < len {
      ModUnique(k, len, q, p + 1);
      ModUnique(p + 1, len, 0, p + 1);
    } else {
      assert k == (q + 1) * len + 0;
      ModUnique(k, len, q + 1, 0);
      ModUnique(p + 1, len, 1, 0);
    }
  }

  /** Unlike the three.js variants, auto-rotation from frame 0 visits every frame: after `k` steps it is at `k mod len`. */
  lemma {:induction false} AutoRotationVisitsAll(len: nat, k: nat)
    requires len > 0
    ensures AutoIter(Num(0), len, k) == Num(k % len)
  {
    if k > 0 {
      AutoRotationVisitsAll(len, k - 1);
      ModSuccessor(k, len);
    } else {
      ModUnique(0, len, 0, 0);
    }
  }

  /** NaN is absorbing: once the index is NaN no step repairs it. */
  lemma {:induction false} NaNIsAbsorbing(len: nat, k: nat)
    ensures AutoIter(NaN, len, k) == NaN
  {
    if k > 0 {
      NaNIsAbsorbing(len, k - 1);
    }
  }
}
