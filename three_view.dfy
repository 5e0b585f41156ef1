/**
 * `View360` of tmp/v360THREE.ts and of tmp/v360.ts: the three.js viewers.
 *
 * The two files share their index rules and handlers and differ in the
 * animation speed (40 ms and 50 ms), in the loader's write policy (first and
 * last write wins) and in the constructor: tmp/v360.ts creates its loader
 * before looking for the container and returns early, with no scene, plane,
 * animation or listeners, when the container is missing.  One class with two
 * constructors models both.
 *
 * As in the canvas viewer, `textures` is the view's own empty map until the
 * first `updateTexture` makes it the loader's map; the slide moves read it
 * without refreshing it.  The mouse and touch handlers of each kind have the
 * same bodies and are modelled once (`PointerDown`, `PointerUp`, `PointerMove`).
 */
module ThreeView {
  import opened Common
  import opened Loader
  import opened SlideIndex

  /** `movementThreshold`, in pixels. */
  const MovementThreshold: real := 1.0

  class View360 {
    const loader: Loader360
    /** `speedOptions.speed` in tmp/v360THREE.ts, `speed` in tmp/v360.ts. */
    const speed: real
    /** Scene, plane, animation loop and listeners exist (false after the early return). */
    const started: bool
    var textures: TextureMap
    var currentIndex: int
    var isPaused: bool
    var isDragging: bool
    var startX: real
    var currentX: real
    var lastFrameTime: real
    /** The texture on the plane (the first-slide texture, loaded separately, is left out). */
    var shown: Option<Frame>

    ghost predicate Valid()
      reads this, textures
    {
      textures == loader.textureMap || textures.slots == map[]
    }

    /** tmp/v360THREE.ts: scene and plane first, then the loader, `animate()` and the listeners. */
    constructor WithThree()
      ensures Valid() && fresh(loader) && fresh(textures) && started
      ensures loader.policy == FirstWriteWins && loader.pending == Some(0)
      ensures speed == 40.0 && currentIndex == 1 && !isPaused && !isDragging
      ensures textures.slots == map[] && shown == None && lastFrameTime == 0.0
    {
      loader := new Loader360(FirstWriteWins);
      speed := 40.0;
      started := true;
      textures := new TextureMap();
      currentIndex := 1;
      isPaused := false;
      isDragging := false;
      startX := 0.0;
      currentX := 0.0;
      lastFrameTime := 0.0;
      shown := None;
      new;
      Animate(0.0);
    }

    /**
     * tmp/v360.ts: the loader is created (and starts fetching) before the
     * container check, so it exists even when the view gives up.
     */
    constructor WithContainer(containerFound: bool)
      ensures Valid() && fresh(loader) && fresh(textures)
      ensures loader.policy == LastWriteWins && loader.pending == Some(0)
      ensures started == containerFound
      ensures speed == 50.0 && currentIndex == 1 && !isPaused && !isDragging
      ensures textures.slots == map[] && shown == None && lastFrameTime == 0.0
    {
      loader := new Loader360(LastWriteWins);
      speed := 50.0;
      started := containerFound;
      textures := new TextureMap();
      currentIndex := 1;
      isPaused := false;
      isDragging := false;
      startX := 0.0;
      currentX := 0.0;
      lastFrameTime := 0.0;
      shown := None;
      new;
      if !containerFound {
        return;
      }
      Animate(0.0);
    }

    /**
     * `updateTexture`: take the loader's map; with no plane or an empty map do
     * nothing more, else show the current slot if it is filled and step up.
     */
    method UpdateTexture()
      requires Valid()
      modifies this`textures, this`shown, this`currentIndex
      ensures Valid()
      ensures textures == loader.textureMap
      ensures !started || loader.textureMap.slots == map[] ==>
        shown == old(shown) && currentIndex == old(currentIndex)
      ensures started && loader.textureMap.slots != map[] ==>
        && shown == Displayed(old(shown), loader.textureMap.slots, old(currentIndex))
        && currentIndex == StepUp(old(currentIndex), |loader.textureMap.slots|)
    {
      textures := loader.textureMap;
      if !started || |textures.slots| == 0 {
        return;
      }
      if currentIndex in textures.slots && textures.slots[currentIndex].Some? {
        shown := textures.slots[currentIndex];
      }
      currentIndex := currentIndex + 1;
      if currentIndex >= |textures.slots| {
        currentIndex := 1;
      }
    }

    /**
     * `animate(currentTime)`: nothing until the loader's map exists (the retry
     * by timer is left out) or while paused; otherwise `updateTexture` once at
     * least `speed` ms have passed since the last frame.
     */
    method Animate(currentTime: real)
      requires Valid()
      modifies this`textures, this`shown, this`currentIndex, this`lastFrameTime
      ensures Valid()
      ensures var advance := loader.textureMap.slots != map[] && !isPaused
                             && currentTime - old(lastFrameTime) >= speed;
        && (advance ==>
              && textures == loader.textureMap && lastFrameTime == currentTime
              && (started ==>
                    && shown == Displayed(old(shown), loader.textureMap.slots, old(currentIndex))
                    && currentIndex == StepUp(old(currentIndex), |loader.textureMap.slots|))
              && (!started ==> shown == old(shown) && currentIndex == old(currentIndex)))
        && (!advance ==>
              textures == old(textures) && shown == old(shown)
              && currentIndex == old(currentIndex) && lastFrameTime == old(lastFrameTime))
    {
      if loader.IsMapCreated() {
        if isPaused {
          return;
        }
        var timeSinceLastFrame := currentTime - lastFrameTime;
        if timeSinceLastFrame >= speed {
          UpdateTexture();
          lastFrameTime := currentTime;
        }
      }
    }

    /** `moveSlideLeft`: step down on the map the view holds, then show that slot if filled. */
    method MoveSlideLeft()
      requires Valid()
      modifies this`currentIndex, this`shown
      ensures Valid()
      ensures currentIndex == StepDown(old(currentIndex), |textures.slots|)
      ensures shown == Displayed(old(shown), textures.slots, currentIndex)
    {
      currentIndex := currentIndex - 1;
      if currentIndex < 1 {
        currentIndex := |textures.slots| - 1;
      }
      if currentIndex in textures.slots && textures.slots[currentIndex].Some? {
        shown := textures.slots[currentIndex];
      }
    }

    /** `moveSlideRight`. */
    method MoveSlideRight()
      requires Valid()
      modifies this`currentIndex, this`shown
      ensures Valid()
      ensures currentIndex == StepUp(old(currentIndex), |textures.slots|)
      ensures shown == Displayed(old(shown), textures.slots, currentIndex)
    {
      currentIndex := currentIndex + 1;
      if currentIndex >= |textures.slots| {
        currentIndex := 1;
      }
      if currentIndex in textures.slots && textures.slots[currentIndex].Some? {
        shown := textures.slots[currentIndex];
      }
    }

    /**
     * `handleSlideChange`: a move of more than one pixel to the right steps
     * left, more than one to the left steps right; either resets `startX`.
     */
    method HandleSlideChange()
      requires Valid()
      modifies this`currentIndex, this`shown, this`startX
      ensures Valid()
      ensures var deltaX := currentX - old(startX);
        && (deltaX > MovementThreshold ==>
              && currentIndex == StepDown(old(currentIndex), |textures.slots|)
              && shown == Displayed(old(shown), textures.slots, currentIndex)
              && startX == currentX)
        && (deltaX < -MovementThreshold ==>
              && currentIndex == StepUp(old(currentIndex), |textures.slots|)
              && shown == Displayed(old(shown), textures.slots, currentIndex)
              && startX == currentX)
        && (-MovementThreshold <= deltaX <= MovementThreshold ==>
              currentIndex == old(currentIndex) && shown == old(shown) && startX == old(startX))
    {
      var deltaX := currentX - startX;
      if deltaX > MovementThreshold {
        MoveSlideLeft();
        startX := currentX;
      } else if deltaX < -MovementThreshold {
        MoveSlideRight();
        startX := currentX;
      }
    }

    /** `onMouseDown` and `onTouchStart`: start a drag at `clientX`. */
    method PointerDown(clientX: real)
      requires started
      requires Valid()
      modifies this`isDragging, this`startX
      ensures Valid()
      ensures isDragging && startX == clientX
    {
      isDragging := true;
      startX := clientX;
    }

    /** `onMouseUp` and `onTouchEnd`: end the drag; nothing else changes. */
    method PointerUp()
      requires started
      requires Valid()
      modifies this`isDragging
      ensures Valid()
      ensures !isDragging
    {
      isDragging := false;
    }

    /** `onMouseMove` and `onTouchMove`: ignored unless dragging. */
    method PointerMove(clientX: real)
      requires started
      requires Valid()
      modifies this`currentX, this`currentIndex, this`shown, this`startX
      ensures Valid()
      ensures !old(isDragging) ==>
        currentX == old(currentX) && currentIndex == old(currentIndex) && startX == old(startX)
        && shown == old(shown)
      ensures old(isDragging) ==> currentX == clientX
      ensures old(isDragging) && clientX - old(startX) > MovementThreshold ==>
        && currentIndex == StepDown(old(currentIndex), |textures.slots|)
        && shown == Displayed(old(shown), textures.slots, currentIndex)
        && startX == clientX
      ensures old(isDragging) && clientX - old(startX) < -MovementThreshold ==>
        && currentIndex == StepUp(old(currentIndex), |textures.slots|)
        && shown == Displayed(old(shown), textures.slots, currentIndex)
        && startX == clientX
      ensures old(isDragging) && -MovementThreshold <= clientX - old(startX) <= MovementThreshold ==>
        currentIndex == old(currentIndex) && shown == old(shown) && startX == old(startX)
    {
      if !isDragging {
        return;
      }
      currentX := clientX;
      HandleSlideChange();
    }

    /** The click listener toggles the pause. */
    method Click()
      requires started
      requires Valid()
      modifies this`isPaused
      ensures Valid()
      ensures isPaused == !old(isPaused)
    {
      isPaused := !isPaused;
    }
  }
}
