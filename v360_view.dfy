/**
 * `View360` of site/core/static/scripts/src/v360.ts: the canvas viewer.
 *
 * The viewer keeps its own reference `textures` to a frame map.  It starts as
 * a fresh empty object and becomes the loader's own map (the same object, not
 * a copy) the first time `updateTexture` runs, so the key count the index
 * steps wrap on is 0 until then and the loader's live count afterwards.
 * Each DOM event or animation frame is one method call; pointer positions and
 * timestamps are reals.
 */
module CanvasView {
  import opened Common
  import opened Loader
  import opened SlideIndex

  /** `speedOptions.speed`, in milliseconds. */
  const Speed: real := 50.0

  /** The smallest horizontal move, in pixels, that turns the spin. */
  const MoveThreshold: real := 0.5

  function Abs(x: real): real { if x < 0.0 then -x else x }

  class View360 {
    const loader: Loader360
    var textures: TextureMap
    var currentIndex: int
    var isPaused: bool
    var isDragging: bool
    var startX: real
    var currentX: real
    var lastFrameTime: real
    /** The frame last drawn on the canvas (the first slide, drawn separately, is left out). */
    var shown: Option<Frame>

    /** The view's map is its own empty object or the loader's map itself. */
    ghost predicate Valid()
      reads this, textures
    {
      textures == loader.textureMap || textures.slots == map[]
    }

    /** The constructor creates the loader (which sends request 0), then runs `animate()` once. */
    constructor ()
      ensures Valid() && fresh(loader) && fresh(loader.textureMap) && fresh(textures)
      ensures loader.policy == FirstWriteWins && loader.pending == Some(0)
      ensures textures != loader.textureMap && textures.slots == map[]
      ensures currentIndex == 1 && !isPaused && !isDragging
      ensures startX == 0.0 && currentX == 0.0 && lastFrameTime == 0.0 && shown == None
    {
      loader := new Loader360(FirstWriteWins);
      textures := new TextureMap();
      currentIndex := 1;
      isPaused := false;
      isDragging := false;
      startX := 0.0;
      currentX := 0.0;
      lastFrameTime := 0.0;
      shown := None;
      new;
      Animate(0.0);
    }

    /** `updateTexture`: take the loader's map and draw the current slot if it holds an image. */
    method UpdateTexture()
      requires Valid()
      modifies this`textures, this`shown
      ensures Valid()
      ensures textures == loader.textureMap
      ensures shown == Displayed(old(shown), loader.textureMap.slots, currentIndex)
    {
      textures := loader.textureMap;
      if currentIndex in textures.slots && textures.slots[currentIndex].Some? {
        shown := textures.slots[currentIndex];
      }
    }

    /** `nextTexture`: the step wraps on the key count of the map held before the refresh. */
    method NextTexture()
      requires Valid()
      modifies this`textures, this`shown, this`currentIndex
      ensures Valid()
      ensures currentIndex == NextIndex(old(currentIndex), |old(textures.slots)|)
      ensures textures == loader.textureMap
      ensures shown == Displayed(old(shown), loader.textureMap.slots, currentIndex)
    {
      currentIndex := currentIndex + 2;
      if currentIndex > |textures.slots| {
        currentIndex := 1;
      }
      UpdateTexture();
    }

    /** `prevTexture`. */
    method PrevTexture()
      requires Valid()
      modifies this`textures, this`shown, this`currentIndex
      ensures Valid()
      ensures currentIndex == PrevIndex(old(currentIndex), |old(textures.slots)|)
      ensures textures == loader.textureMap
      ensures shown == Displayed(old(shown), loader.textureMap.slots, currentIndex)
    {
      currentIndex := currentIndex - 2;
      if currentIndex < 1 {
        currentIndex := |textures.slots|;
      }
      UpdateTexture();
    }

    /**
     * `animate(currentTime)`: nothing while paused; otherwise advance when at
     * least `Speed` ms have passed and no drag is going on.
     */
    method Animate(currentTime: real)
      requires Valid()
      modifies this`textures, this`shown, this`currentIndex, this`lastFrameTime
      ensures Valid()
      ensures var advance := !old(isPaused) && currentTime - old(lastFrameTime) >= Speed && !isDragging;
        && (advance ==>
              && currentIndex == NextIndex(old(currentIndex), |old(textures.slots)|)
              && textures == loader.textureMap
              && shown == Displayed(old(shown), loader.textureMap.slots, currentIndex)
              && lastFrameTime == currentTime)
        && (!advance ==>
              textures == old(textures) && shown == old(shown)
              && currentIndex == old(currentIndex) && lastFrameTime == old(lastFrameTime))
    {
      if isPaused {
        return;
      }
      var timeSinceLastFrame := currentTime - lastFrameTime;
      if timeSinceLastFrame >= Speed && !isDragging {
        NextTexture();
        lastFrameTime := currentTime;
      }
    }

    /**
     * `handleMouseMove` and `handleTouchMove`, which have the same body: ignored
     * unless dragging; a move of more than half a pixel to the right steps back,
     * any other such move steps forward, and the move's end becomes the new start.
     */
    method HandleMove(x: real)
      requires Valid()
      modifies this`textures, this`shown, this`currentIndex, this`currentX, this`startX
      ensures Valid()
      ensures !old(isDragging) ==>
        textures == old(textures) && shown == old(shown) && currentIndex == old(currentIndex)
        && currentX == old(currentX) && startX == old(startX)
      ensures old(isDragging) ==> currentX == x
      ensures old(isDragging) && Abs(x - old(startX)) > MoveThreshold ==>
        && startX == x
        && textures == loader.textureMap
        && currentIndex == (if x - old(startX) > 0.0 then PrevIndex(old(currentIndex), |old(textures.slots)|)
                            else NextIndex(old(currentIndex), |old(textures.slots)|))
        && shown == Displayed(old(shown), loader.textureMap.slots, currentIndex)
      ensures old(isDragging) && Abs(x - old(startX)) <= MoveThreshold ==>
        textures == old(textures) && shown == old(shown) && currentIndex == old(currentIndex)
        && startX == old(startX)
    {
      if !isDragging {
        return;
      }
      currentX := x;
      var deltaX := currentX - startX;
      if Abs(deltaX) > MoveThreshold {
        if deltaX > 0.0 {
          PrevTexture();
        } else {
          NextTexture();
        }
        startX := currentX;
      }
    }

    /** `handleMouseDown`. */
    method HandleMouseDown(clientX: real)
      requires Valid()
      modifies this`isDragging, this`startX, this`currentX
      ensures Valid()
      ensures isDragging && startX == clientX && currentX == clientX
    {
      isDragging := true;
      startX := clientX;
      currentX := clientX;
    }

    /** `handleMouseUp`: drag over, positions zeroed; pause untouched. */
    method HandleMouseUp()
      requires Valid()
      modifies this`isDragging, this`startX, this`currentX
      ensures Valid()
      ensures !isDragging && startX == 0.0 && currentX == 0.0
    {
      isDragging := false;
      startX := 0.0;
      currentX := 0.0;
    }

    /** `handleMouseLeave`: the same reset as a mouse release. */
    method HandleMouseLeave()
      requires Valid()
      modifies this`isDragging, this`startX, this`currentX
      ensures Valid()
      ensures !isDragging && startX == 0.0 && currentX == 0.0
    {
      isDragging := false;
      startX := 0.0;
      currentX := 0.0;
    }

    /** `handleTouchStart`: a touch both drags and pauses. */
    method HandleTouchStart(clientX: real)
      requires Valid()
      modifies this`isDragging, this`isPaused, this`startX, this`currentX
      ensures Valid()
      ensures isDragging && isPaused && startX == clientX && currentX == clientX
    {
      isDragging := true;
      isPaused := true;
      startX := clientX;
      currentX := clientX;
    }

    /** `handleTouchEnd`: clears both flags, zeroes positions and calls `animate()` (time 0). */
    method HandleTouchEnd()
      requires Valid()
      modifies this`isDragging, this`isPaused, this`startX, this`currentX
      modifies this`textures, this`shown, this`currentIndex, this`lastFrameTime
      ensures Valid()
      ensures !isDragging && !isPaused && startX == 0.0 && currentX == 0.0
      ensures 0.0 - old(lastFrameTime) >= Speed ==>
        && currentIndex == NextIndex(old(currentIndex), |old(textures.slots)|)
        && textures == loader.textureMap
        && shown == Displayed(old(shown), loader.textureMap.slots, currentIndex)
        && lastFrameTime == 0.0
      ensures 0.0 - old(lastFrameTime) < Speed ==>
        textures == old(textures) && shown == old(shown)
        && currentIndex == old(currentIndex) && lastFrameTime == old(lastFrameTime)
    {
      isDragging := false;
      isPaused := false;
      startX := 0.0;
      currentX := 0.0;
      Animate(0.0);
    }

    /** `handlePause` (click): toggles the pause and calls `animate()` when resuming. */
    method HandlePause()
      requires Valid()
      modifies this`isPaused, this`textures, this`shown, this`currentIndex, this`lastFrameTime
      ensures Valid()
      ensures isPaused == !old(isPaused)
      ensures var advance := old(isPaused) && 0.0 - old(lastFrameTime) >= Speed && !isDragging;
        && (advance ==>
              && currentIndex == NextIndex(old(currentIndex), |old(textures.slots)|)
              && textures == loader.textureMap
              && shown == Displayed(old(shown), loader.textureMap.slots, currentIndex)
              && lastFrameTime == 0.0)
        && (!advance ==>
              textures == old(textures) && shown == old(shown)
              && currentIndex == old(currentIndex) && lastFrameTime == old(lastFrameTime))
    {
      isPaused := !isPaused;
      if !isPaused {
        Animate(0.0);
      }
    }
  }
}
