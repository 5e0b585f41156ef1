/**
 * `V360Viewer` of tmp/index.ts: the viewer that keeps its textures in a list
 * and steps its 0-based index modulo the list's length.
 *
 * `currentIndex` is a JavaScript number: a step taken while the list is still
 * empty divides by zero and makes it NaN, which `SlideIndex.JsNum` models.
 * Each awaited reply of the loading chain is one call of `LoadNextChunk`;
 * each timer tick of `changeImage` and each DOM event is one method call.
 */
module IndexViewer {
  import opened Common
  import opened Loader
  import opened SlideIndex

  /** The `chunk` field of the reply to `/v360/get/<certificate>/`. */
  datatype ChunkReply =
    | Undefined
      // `ajax` resolved to undefined, so reading `response.chunk` throws
    | Json(chunk: Option<seq<string>>)
      // `chunk` is `None` when the field is missing or null

  /** How one step of the `loadNextChunk` chain ends. */
  datatype LoadOutcome =
    | Crashed   // the promise rejected: no further request
    | Finished  // an empty chunk: loading is over
    | Stalled   // a texture never loads, so `Promise.all` never settles and nothing follows
    | Requested(next: int)

  /** `preloadImages`: one texture per base64 string, in input order (`Promise.all` keeps it). */
  function Textures(chunk: seq<string>): (ts: seq<Frame>)
    ensures |ts| == |chunk|
    ensures forall i :: 0 <= i < |chunk| ==> ts[i] == Frame(chunk[i])
  {
    if chunk == [] then [] else Textures(chunk[..|chunk| - 1]) + [Frame(chunk[|chunk| - 1])]
  }

  /**
   * Every string of the chunk loads as a texture.  `loader.load` is given no
   * error callback, so a string that fails to load leaves its promise pending.
   */
  predicate AllLoad(chunk: seq<string>, loads: string -> bool)
  {
    forall i :: 0 <= i < |chunk| ==> loads(chunk[i])
  }

  /** The textures of a run of chunks, each appended after the last. */
  function AllTextures(chunks: seq<seq<string>>): seq<Frame>
  {
    if chunks == [] then [] else AllTextures(chunks[..|chunks| - 1]) + Textures(chunks[|chunks| - 1])
  }

  /** The list holds every chunk's base64 strings, chunk after chunk. */
  lemma {:induction false} AllTexturesLength(chunks: seq<seq<string>>)
    ensures |AllTextures(chunks)| == Sum(chunks)
  {
    if chunks != [] {
      AllTexturesLength(chunks[..|chunks| - 1]);
    }
  }

  function Sum(chunks: seq<seq<string>>): nat
  {
    if chunks == [] then 0 else Sum(chunks[..|chunks| - 1]) + |chunks[|chunks| - 1]|
  }

  /** A texture of chunk `c` sits after all the textures of the chunks before it. */
  lemma {:induction false} AllTexturesPosition(chunks: seq<seq<string>>, c: nat, i: nat)
    requires c < |chunks| && i < |chunks[c]|
    ensures Sum(chunks[..c]) + i < |AllTextures(chunks)|
    ensures AllTextures(chunks)[Sum(chunks[..c]) + i] == Frame(chunks[c][i])
    decreases |chunks|
  {
    var init := chunks[..|chunks| - 1];
    AllTexturesLength(init);
    if c == |chunks| - 1 {
      assert chunks[..c] == init;
    } else {
      AllTexturesPosition(init, c, i);
      assert init[..c] == chunks[..c];
    }
  }

  class V360Viewer {
    /** The container was found: scene, listeners, loading and the timer exist. */
    const started: bool
    var allTextures: seq<Frame>
    var currentIndex: JsNum
    var isDragging: bool
    var autoRotate: bool
    var isPaused: bool
    var isPlaneCreated: bool
    var previousX: real
    var previousY: real
    /** The chunk index of the request in flight, `None` when the chain has ended. */
    var pending: Option<int>
    /** The texture on the plane's material. */
    var shown: Option<Frame>
    var rendererWidth: real
    var rendererHeight: real
    var cameraLeft: real
    var cameraRight: real

    /**
     * The plane exists only once textures do, and the index is NaN, 0, or a
     * position in the list.
     */
    predicate Valid()
      reads this
    {
      && (isPlaneCreated ==> |allTextures| > 0)
      && (currentIndex.Num? ==>
            0 <= currentIndex.value && (currentIndex.value < |allTextures| || currentIndex.value == 0))
    }

    /**
     * The constructor: without a container it returns at once; otherwise it
     * sends request 0 and starts the timer, whose first tick does nothing
     * because no plane exists yet.  The initial renderer and camera sizes are
     * left at zero.
     */
    constructor (containerFound: bool)
      ensures Valid() && started == containerFound
      ensures allTextures == [] && currentIndex == Num(0) && shown == None
      ensures !isDragging && autoRotate && !isPaused && !isPlaneCreated
      ensures pending == (if containerFound then Some(0) else None)
    {
      started := containerFound;
      allTextures := [];
      currentIndex := Num(0);
      isDragging := false;
      autoRotate := true;
      isPaused := false;
      isPlaneCreated := false;
      previousX := 0.0;
      previousY := 0.0;
      pending := None;
      shown := None;
      rendererWidth := 0.0;
      rendererHeight := 0.0;
      cameraLeft := 0.0;
      cameraRight := 0.0;
      new;
      if !containerFound {
        return;
      }
      pending := Some(0);
      ChangeImage();
    }

    /**
     * `loadNextChunk(chunkIndex)` after its awaited `getChunk`: stop on an
     * empty array, crash on a missing chunk (its `.map` throws), stall for
     * ever when some string does not load (`loads` says which strings the
     * texture loader accepts), otherwise append the chunk's textures, create
     * the plane after chunk 0 and request the next chunk.  A stalled chain
     * never requests again, so `pending` becomes `None`.
     */
    method LoadNextChunk(reply: ChunkReply, loads: string -> bool) returns (outcome: LoadOutcome)
      requires Valid() && pending.Some?
      modifies this`allTextures, this`isPlaneCreated, this`pending, this`shown
      ensures Valid()
      ensures reply.Undefined? || (reply.Json? && reply.chunk.None?) ==> outcome == Crashed
      ensures reply.Json? && reply.chunk == Some([]) ==> outcome == Finished
      ensures reply.Json? && reply.chunk.Some? && reply.chunk.value != [] && !AllLoad(reply.chunk.value, loads) ==>
        outcome == Stalled
      ensures !outcome.Requested? ==>
        allTextures == old(allTextures) && isPlaneCreated == old(isPlaneCreated) && shown == old(shown)
      ensures reply.Json? && reply.chunk.Some? && reply.chunk.value != [] && AllLoad(reply.chunk.value, loads) ==>
        && outcome == Requested(old(pending).value + 1)
        && allTextures == old(allTextures) + Textures(reply.chunk.value)
        && isPlaneCreated == (old(isPlaneCreated) || old(pending).value == 0)
        && shown == (if old(pending).value == 0 then Some(allTextures[0]) else old(shown))
      ensures pending == (if outcome.Requested? then Some(outcome.next) else None)
    {
      var chunkIndex := pending.value;
      if reply.Undefined? || reply.chunk.None? {
        pending := None;
        return Crashed;
      }
      var chunk := reply.chunk.value;
      if |chunk| == 0 {
        pending := None;
        return Finished;
      }
      if !AllLoad(chunk, loads) {
        pending := None;
        return Stalled;
      }
      var textures := Textures(chunk);
      allTextures := allTextures + textures;
      if chunkIndex == 0 {
        shown := Some(allTextures[0]);
        isPlaneCreated := true;
      }
      pending := Some(chunkIndex + 1);
      outcome := Requested(chunkIndex + 1);
    }

    /** `updateTexture`: show the current texture when the plane exists and the index names one. */
    method UpdateTexture()
      modifies this`shown
      ensures var ok := isPlaneCreated && currentIndex.Num?
                        && 0 <= currentIndex.value < |allTextures|;
        shown == (if ok then Some(allTextures[currentIndex.value]) else old(shown))
    {
      if isPlaneCreated && currentIndex.Num? && 0 <= currentIndex.value < |allTextures| {
        shown := Some(allTextures[currentIndex.value]);
      }
    }

    /** A timer tick of `changeImage`: step forward modulo the list's length when rotating. */
    method ChangeImage()
      requires Valid()
      modifies this`currentIndex, this`shown
      ensures Valid()
      ensures autoRotate && !isPaused && isPlaneCreated ==>
        && currentIndex == AutoStep(old(currentIndex), |allTextures|)
        && (currentIndex.Num? ==> shown == Some(allTextures[currentIndex.value]))
        && (currentIndex.NaN? ==> shown == old(shown))
      ensures !(autoRotate && !isPaused && isPlaneCreated) ==>
        currentIndex == old(currentIndex) && shown == old(shown)
    {
      if autoRotate && !isPaused && isPlaneCreated {
        currentIndex := AutoStep(currentIndex, |allTextures|);
        UpdateTexture();
      }
    }

    /** `onMouseDown`: a drag stops auto-rotation. */
    method OnMouseDown()
      requires started
      modifies this`isDragging, this`autoRotate
      ensures isDragging && !autoRotate
    {
      isDragging := true;
      autoRotate := false;
    }

    /**
     * `onMouseMove`: ignored unless dragging; a move to the right steps back,
     * any other move steps forward, wrapping around the list; the offset is
     * then recorded.
     */
    method OnMouseMove(offsetX: real, offsetY: real)
      requires started && Valid()
      modifies this`currentIndex, this`shown, this`previousX, this`previousY
      ensures Valid()
      ensures !old(isDragging) ==>
        currentIndex == old(currentIndex) && shown == old(shown)
        && previousX == old(previousX) && previousY == old(previousY)
      ensures old(isDragging) ==>
        && currentIndex == DragStep(old(currentIndex), if offsetX - old(previousX) > 0.0 then -1 else 1, |allTextures|)
        && previousX == offsetX && previousY == offsetY
        && shown == (if isPlaneCreated && currentIndex.Num? && 0 <= currentIndex.value < |allTextures|
                     then Some(allTextures[currentIndex.value]) else old(shown))
      ensures old(isDragging) && allTextures == [] ==> currentIndex == NaN
    {
      if !isDragging {
        return;
      }
      var directionX := if offsetX - previousX > 0.0 then -1 else 1;
      currentIndex := DragStep(currentIndex, directionX, |allTextures|);
      UpdateTexture();
      previousX := offsetX;
      previousY := offsetY;
    }

    /** `onMouseUp`, also bound to `mouseleave`: the drag ends and auto-rotation resumes. */
    method OnMouseUp()
      requires started
      modifies this`isDragging, this`autoRotate
      ensures !isDragging && autoRotate
    {
      isDragging := false;
      autoRotate := true;
    }

    /** `onClick`. */
    method OnClick()
      requires started
      modifies this`isPaused
      ensures isPaused == !old(isPaused)
    {
      isPaused := !isPaused;
    }

    /** `onResize`: a zero-sized container leaves the renderer and the camera as they were. */
    method OnResize(newWidth: real, newHeight: real)
      requires started
      modifies this`rendererWidth, this`rendererHeight, this`cameraLeft, this`cameraRight
      ensures newWidth == 0.0 || newHeight == 0.0 ==>
        rendererWidth == old(rendererWidth) && rendererHeight == old(rendererHeight)
        && cameraLeft == old(cameraLeft) && cameraRight == old(cameraRight)
      ensures newWidth != 0.0 && newHeight != 0.0 ==>
        rendererWidth == newWidth && rendererHeight == newHeight
        && cameraRight == newWidth / newHeight && cameraLeft == -cameraRight
    {
      if newWidth == 0.0 || newHeight == 0.0 {
        return;
      }
      var newAspectRatio := newWidth / newHeight;
      rendererWidth := newWidth;
      rendererHeight := newHeight;
      cameraLeft := -newAspectRatio;
      cameraRight := newAspectRatio;
    }
  }
}
