# immer360 core in Dafny

immer360 stores 360° diamond videos as numbered still frames. A scraper
(`Parser360`) collects the frames from vendor pages and saves them. The server
hands them to the browser in interleaved chunks (`chunk_maker`). With `n`
frames and stride `s = n // 18`, chunk `i` holds frame `k·s + i` for every
multiple `k·s` below `n`, as long as that frame exists. Chunk 0 therefore has
at least 18 frames, there are `ceil(n / 18)` chunks, and the chunks overlap
when 18 does not divide `n`. Several TypeScript viewers load those chunks into
a frame map and spin through them.

This project models the pieces of that pipeline that carry logic, and proves
what each of them promises:

- `ChunkProcess` (chunk_process.dfy): the chunk maker. It covers key points,
  expansion by the chunk index, item-index extraction and the reply shape.
- `Loader` (loader.dfy): `Loader360`, the progressive chunk loader. One class
  serves all three loader variants. A write policy constant separates first
  write wins (src/v360.ts, tmp/v360THREE.ts) from last write wins
  (tmp/v360.ts).
- `SlideIndex` (slide_index.dfy): the frame-index rules of the viewers:
  - step by 2, wrapping to 1 or N;
  - step by 1, wrapping at N (frame N is never shown);
  - 0-based modular stepping with JavaScript `NaN`.
- `CanvasView` (v360_view.dfy): the production `View360` as an event-driven
  state machine.
- `ThreeView` (three_view.dfy): the `View360` of tmp/v360THREE.ts and
  tmp/v360.ts. There is one constructor per file.
- `IndexViewer` (index_viewer.dfy): `V360Viewer` of tmp/index.ts.
- `Cookies` (cookies.dfy): the `;`-split, trim and `name=` lookup shared by
  `getToken` and `getCookie`. It is related to well-formed cookie strings of
  section 4.2.1 of RFC 6265.
- `Ajax` (ajax.dfy): `getToken` and the `currentController` bookkeeping of
  `ajax`.
- `Handle` (handle.dfy): `ParserHandle`. This is the parse form's button, link
  and alert state across the three ways a submit can end.
- `Parser` (parser.dfy): the scraper helpers:
  - URL-to-pattern lookup;
  - the dispatch table and the error paths of `_parse_images`;
  - `data_index` structuring and sorting;
  - the jaykar filename rule with first response wins;
  - polling;
  - frame file naming.
- `CsvLinks` (parse_csv.dfy): the CSV row fold.
- `Common` (common.dfy): options, results, decimal digits and substring
  search, shared by the modules.

The source does several things its authors probably did not mean. The model
keeps the code as written and states each quirk as a lemma:

- in the step-by-1 viewers the last frame is never reached
  (`SlideIndex.LastFrameNeverReached`);
- the step-by-2 viewer's auto-advance from an odd frame never shows an even
  frame (`SlideIndex.AdvanceSkipsEvenFrames`); a backward drag from frame 1
  wraps to frame N, which is even whenever N is;
- a drag before any texture arrives makes the index `NaN` for good
  (`SlideIndex.NaNIsAbsorbing`, `IndexViewer.V360Viewer.OnMouseMove`);
- tmp/index.ts reads each chunk item as a base64 string, while
  chunk_process.py sends `{index, base64}` objects; a string the texture
  loader rejects stalls the loading chain for good
  (`IndexViewer.V360Viewer.LoadNextChunk`);
- `chunk_maker` fails on fewer than 18 images (`ChunkProcess.KeyPoints`);
- the `diacam` pattern type has no parser (`Parser.DiacamHasNoParser`);
- `007.jpg` and `7.jpg` collide in the jaykar collection
  (`Parser.LeadingZeroCollides`);
- a duplicated pattern row can never be selected (`Parser.EarlierRowShadows`);
- the jaykar strategy returns raw response bodies, which `decode_and_save_images`
  splits as `data:` URL strings: a jaykar stone is never saved, and
  `_parse_images` raises an `UnboundLocalError` (`Parser.BuffersNeverSave`;
  see "## Findings").

## Model

| member | source | states |
|---|---|---|
| Common.NatToString | site/v360/parser.py:44 | the decimal text of a number is non-empty and all digits |
| Common.NatToStringValue | site/v360/parser.py:249 | reading back the decimal text of `n` with `int()` gives `n` |
| Common.Contains | site/v360/parser.py:267 | `pattern in url` holds iff the pattern occurs at some position of the URL |
| Common.LastIndexOf | site/v360/chunk_process.py:35 | the last position of a character: that character is there, and not after it |
| Common.LastIndexOfAfterMark | site/v360/chunk_process.py:35 | the last mark in `s + mark + t`, where `t` has no mark, is the one before `t` |
| ChunkProcess.TotalChunks | site/v360/chunk_process.py:9 | `total_chunks` is the ceiling of n/18: enough chunks of 18 to hold n, and one fewer would not |
| ChunkProcess.Range | site/v360/chunk_process.py:12 | Python `range(start, stop, step)`: the i-th element is start + i*step, every element is below stop, and none is missing |
| ChunkProcess.KeyPoints | site/v360/chunk_process.py:12 | the key point list fails (zero-step `range` raises) exactly when there are fewer than 18 images |
| ChunkProcess.KeyPointsShape | site/v360/chunk_process.py:11-12 | key points are 0, s, 2s, … below n with s = n // 18, strictly increasing, and every multiple of s below n is one |
| ChunkProcess.RangeShape | site/v360/chunk_process.py:12 | `range(0, n, s)` lists 0, s, 2s, … below n, strictly increasing, and misses no multiple of s below n |
| ChunkProcess.RangeIncreasing | site/v360/chunk_process.py:12 | a positive-step `range` is strictly increasing |
| ChunkProcess.RangeComplete | site/v360/chunk_process.py:12 | a positive-step `range` misses no step below the stop |
| ChunkProcess.Expansion | site/v360/chunk_process.py:15-19 | at most one position per key point, each below `total_images` |
| ChunkProcess.PyIndex | site/v360/chunk_process.py:22-26 | `images[j]` exists iff −len ≤ j < len (otherwise `IndexError`), and is then one of the images |
| ChunkProcess.Selected | site/v360/chunk_process.py:22-26 | at most one image per point, each one of the images |
| ChunkProcess.ExpansionMembers | site/v360/chunk_process.py:15-19 | p is an expansion point iff p is below `total_images` and p − index is a key point |
| ChunkProcess.ExpansionIncreasing | site/v360/chunk_process.py:15-19 | expansion keeps key-point order, so a chunk never repeats a position |
| ChunkProcess.ExpansionEmptyPastEnd | site/v360/chunk_process.py:15-19 | with index ≥ `total_images` no expansion point survives |
| ChunkProcess.SelectedInRange | site/v360/chunk_process.py:22-26 | in-range expansion points select the images at those positions, in order |
| ChunkProcess.EncodedAllExist | site/v360/chunk_process.py:31-37 | when every path exists, the chunk has one item per path, in order, with the path's index and contents |
| ChunkProcess.EncodedSound | site/v360/chunk_process.py:31-39 | every item comes from an existing selected path; missing paths are skipped |
| ChunkProcess.SplitExtRoot | site/v360/chunk_process.py:35 | `splitext(...)[0]` is a prefix of the name |
| ChunkProcess.AfterLastUnderscore | site/v360/chunk_process.py:35 | `split('_')[-1]` is a suffix of the path |
| ChunkProcess.ItemIndexOfFrameName | site/v360/chunk_process.py:35 | the item index of `…image_12.jpeg` is the digit text `12` |
| ChunkProcess.ItemIndex | site/v360/chunk_process.py:35 | the item index holds no `_` unless the path has none, in which case it is a prefix of the path |
| ChunkProcess.Encoded | site/v360/chunk_process.py:31-39 | at most one item per path, and exactly one per path when every file exists |
| ChunkProcess.ExpandKeyPoints | site/v360/chunk_process.py:15-19 | the expansion loop computes the expansion points |
| ChunkProcess.SelectImages | site/v360/chunk_process.py:22-26 | the selection loop takes the frame at each point and skips an `IndexError` |
| ChunkProcess.EncodeImages | site/v360/chunk_process.py:31-39 | the encoding loop adds one item per existing file and skips missing ones |
| ChunkProcess.ChunkMaker | site/v360/chunk_process.py:5-47 | fails iff fewer than 18 images; otherwise echoes `chunk_index`, reports `total_images`, `total_chunks` and the expansion list, and encodes the selected existing frames in order |
| Loader.FetchChunk | site/core/static/scripts/src/v360.ts:32-40 | an `undefined` reply gives no chunk; a reply whose `chunk` is not an array becomes the empty reply with zero counters; otherwise the reply is passed through (tmp/v360THREE.ts:36-48 and tmp/v360.ts:34-46 normalise alike) |
| Loader.NonArrayReplyStops | site/core/static/scripts/src/v360.ts:36-38 | a reply whose `chunk` is not an array ends the loading |
| Loader.IsLast | site/core/static/scripts/src/v360.ts:45 | an empty chunk always ends the loading; a chunk that does not end it has an index below `total_chunks` |
| Loader.SlotKeys | site/core/static/scripts/src/v360.ts:60 | the slot keys are exactly 1..`totalImages` |
| Loader.NullSlots | site/core/static/scripts/src/v360.ts:59-62 | the first map has exactly keys 1..`totalImages`, all null |
| Loader.NullSlotsCount | tmp/v360.ts:64-68 | the first map has `totalImages` slots |
| Loader.SlotKeysCount | site/core/static/scripts/src/v360.ts:60-62 | there are exactly `totalImages` slot keys |
| Loader.Write | site/core/static/scripts/src/v360.ts:68-71 | one `onload` adds the item's index as a key, leaves it holding an image, and changes no other slot |
| Loader.WriteAll | site/core/static/scripts/src/v360.ts:65-73 | decoding a chunk never removes a key |
| Loader.WriteAllKeys | site/core/static/scripts/src/v360.ts:65-73 | decoding a chunk adds only the items' indices to the map's keys |
| Loader.WriteAllUntouched | site/core/static/scripts/src/v360.ts:65-73 | a slot no item names keeps its value |
| Loader.FirstWriteKeepsFilled | site/core/static/scripts/src/v360.ts:69 | under first write wins, a filled slot is never overwritten |
| Loader.FirstWriteWinsAll | tmp/v360THREE.ts:80 | under first write wins, an empty slot ends up with the first item that names it |
| Loader.LastWriteWinsAll | tmp/v360.ts:70-76 | under last write wins, a slot ends up with the last item that names it |
| Loader.TextureMap.constructor | site/core/static/scripts/src/v360.ts:21 | a texture map starts empty |
| Loader.Loader360.constructor | site/core/static/scripts/src/v360.ts:20-30 | a new loader has an empty map, no `totalImages`, is not finished, and requests chunk 0 |
| Loader.Loader360.IsMapCreated | site/core/static/scripts/src/v360.ts:88-90 | the map counts as created iff it has a key |
| Loader.Loader360.OnReply | site/core/static/scripts/src/v360.ts:42-56 | on a last or undefined reply it finishes (when not undefined) and changes nothing else; otherwise it sets `totalImages` once, builds the null slots on an empty map, queues the chunk for decoding and requests `chunk_index + 1` (the loops at tmp/v360THREE.ts:50-64 and tmp/v360.ts:48-60 are the same) |
| Loader.Loader360.UpdateTextureMap | site/core/static/scripts/src/v360.ts:58-74 | the first call on an empty map creates the null slots 1..`totalImages`; the chunk's items are queued for decoding (tmp/v360THREE.ts:66-86 and tmp/v360.ts:63-78 create the slots alike) |
| Loader.Loader360.ImageLoaded | site/core/static/scripts/src/v360.ts:68-71 | a decoded image is written by the loader's policy; under first write wins a filled slot is left alone, under last write wins (tmp/v360.ts:70-76) the texture always replaces its slot; the slot exists afterwards |
| SlideIndex.NextIndex | site/core/static/scripts/src/v360.ts:274-281 | `nextTexture` adds 2 or resets to 1; for N ≥ 1 the result is in [1, N]; odd stays odd |
| SlideIndex.PrevIndex | site/core/static/scripts/src/v360.ts:283-290 | `prevTexture` subtracts 2 or resets to N; for N ≥ 1 the result is in [1, N] |
| SlideIndex.AdvanceWalksOddFrames | site/core/static/scripts/src/v360.ts:274-281 | from frame 1, k advances reach frame 1 + 2k while that is at most N |
| SlideIndex.AdvanceCycle | site/core/static/scripts/src/v360.ts:274-281 | after ⌈N/2⌉ advances the rotation is back at frame 1 |
| SlideIndex.AdvanceSkipsEvenFrames | site/core/static/scripts/src/v360.ts:274-281 | from an odd frame, auto-advance never shows an even frame |
| SlideIndex.StepUp | tmp/v360THREE.ts:340-350 | `moveSlideRight` adds 1 or wraps to 1; for N ≥ 2 the result is in [1, N−1] |
| SlideIndex.StepDown | tmp/v360THREE.ts:328-338 | `moveSlideLeft` subtracts 1 or wraps to N−1; for N ≥ 2 the result is in [1, N−1] |
| SlideIndex.StepsInverse | tmp/v360THREE.ts:328-350 | on [1, N−1], right undoes left and left undoes right |
| SlideIndex.StepWalk | tmp/v360.ts:174-187 | from frame 1, k steps reach frame 1 + k while that is below N |
| SlideIndex.StepCycle | tmp/v360.ts:174-187 | after N−1 steps the rotation is back at frame 1 |
| SlideIndex.LastFrameNeverReached | tmp/v360THREE.ts:242-255 | from any frame in [1, N−1], no number of steps reaches frame N |
| SlideIndex.JsRem | tmp/index.ts:82 | JavaScript `%`: NaN iff an operand is NaN or the modulus is 0, and the remainder for non-negative operands |
| SlideIndex.JsAdd | tmp/index.ts:82 | JavaScript `+` on the index: NaN stays NaN and a number moves by exactly d |
| SlideIndex.AutoStep | tmp/index.ts:79-84 | `(currentIndex + 1) % len` stays in [0, len), and is NaN with no textures |
| SlideIndex.DragStep | tmp/index.ts:160-162 | `(i + d + len) % len` stays in [0, len), and is NaN with no textures or a NaN index |
| SlideIndex.DragStepWraps | tmp/index.ts:160-162 | a drag step is the neighbouring frame with wrap-around at both ends |
| SlideIndex.Wrapped | tmp/index.ts:160-162 | an index inside the ring is kept, and one step past either end lands inside it |
| SlideIndex.ModUnique | tmp/index.ts:82 | the remainder is the unique r in [0, m) with a = q·m + r |
| SlideIndex.ModSuccessor | tmp/index.ts:82 | one more modular step from (k−1) mod len is k mod len |
| SlideIndex.AutoRotationVisitsAll | tmp/index.ts:79-84 | from frame 0, k auto-rotations give frame k mod len, so every frame is visited |
| SlideIndex.NaNIsAbsorbing | tmp/index.ts:160-162 | once the index is NaN, auto-rotation never recovers |
| Loader.Displayed | site/core/static/scripts/src/v360.ts:172-180 | the displayed frame changes only to a non-null slot at the current index (the same rule sets the plane's material in tmp/v360THREE.ts:246-249) |
| CanvasView.View360.constructor | site/core/static/scripts/src/v360.ts:130-139 | starts at frame 1, not paused or dragging, with positions and frame time zeroed, its own empty map and a loader requesting chunk 0 |
| CanvasView.View360.UpdateTexture | site/core/static/scripts/src/v360.ts:172-180 | takes the loader's map and draws the current slot when it holds a texture |
| CanvasView.View360.NextTexture | site/core/static/scripts/src/v360.ts:274-281 | steps with `NextIndex` over the key count of the map held before the refresh, then refreshes |
| CanvasView.View360.PrevTexture | site/core/static/scripts/src/v360.ts:283-290 | steps with `PrevIndex` over the key count of the map held before the refresh, then refreshes |
| CanvasView.View360.Animate | site/core/static/scripts/src/v360.ts:160-170 | advances and records the frame time only when not paused, not dragging and at least 50 ms have passed; otherwise nothing changes |
| CanvasView.View360.HandleMove | site/core/static/scripts/src/v360.ts:222-272 | ignored unless dragging; a move of more than 0.5 to the right goes to the previous frame, any other move of more than 0.5 to the next one, and draws that frame's slot when it holds a texture, with the move's end as the new start; a smaller move only records the position (`handleTouchMove` at v360.ts:222-237 and `handleMouseMove` at v360.ts:258-272 have the same body) |
| CanvasView.View360.HandleMouseDown | site/core/static/scripts/src/v360.ts:246-250 | starts dragging at the pointer position |
| CanvasView.View360.HandleMouseUp | site/core/static/scripts/src/v360.ts:252-256 | stops dragging and zeroes both positions |
| CanvasView.View360.HandleMouseLeave | site/core/static/scripts/src/v360.ts:197-202 | stops dragging and zeroes both positions |
| CanvasView.View360.HandleTouchStart | site/core/static/scripts/src/v360.ts:205-212 | starts dragging and pauses at the touch position |
| CanvasView.View360.HandleTouchEnd | site/core/static/scripts/src/v360.ts:214-220 | stops dragging, unpauses and zeroes both positions, then runs one animation frame at time 0: it advances, refreshes the map and draws the next frame when at least 50 ms lie between the last frame time and 0, and leaves map, frame, index and frame time alone otherwise |
| CanvasView.View360.HandlePause | site/core/static/scripts/src/v360.ts:239-244 | toggles pause; pausing changes nothing else; resuming runs one animation frame at time 0, which advances, refreshes the map and draws the next frame exactly when not dragging and at least 50 ms lie between the last frame time and 0 |
| ThreeView.View360.WithThree | tmp/v360THREE.ts:152-161 | the three.js viewer starts at frame 1 with speed 40, a first-write-wins loader and a started scene |
| ThreeView.View360.WithContainer | tmp/v360.ts:110-123 | the loader (last write wins) is created first; without a container the viewer returns unstarted; speed 50 |
| ThreeView.View360.UpdateTexture | tmp/v360THREE.ts:242-257 | nothing without a plane or with an empty map; otherwise shows a non-null current texture and steps up, wrapping at N (tmp/v360.ts:174-189 is the same) |
| ThreeView.View360.Animate | tmp/v360THREE.ts:222-240 | advances only when the map exists, not paused and `speed` ms have passed; it then records the frame time and, in a started view, shows the current slot when it holds a texture and steps up (tmp/v360.ts:154-172 is the same with speed 50) |
| ThreeView.View360.MoveSlideLeft | tmp/v360THREE.ts:328-338 | steps down with wrap to N−1 and shows the new slot if it holds a texture |
| ThreeView.View360.MoveSlideRight | tmp/v360THREE.ts:340-350 | steps up with wrap to 1 and shows the new slot if it holds a texture |
| ThreeView.View360.HandleSlideChange | tmp/v360THREE.ts:316-326 | Δx > 1 moves left, Δx < −1 moves right, each showing the new slot when it holds a texture and resetting `startX`; otherwise nothing changes (tmp/v360.ts:248-258 is the same) |
| ThreeView.View360.PointerDown | tmp/v360THREE.ts:284-287 | starts dragging at the pointer position |
| ThreeView.View360.PointerUp | tmp/v360THREE.ts:289-291 | stops dragging |
| ThreeView.View360.PointerMove | tmp/v360THREE.ts:293-297 | ignored unless dragging; otherwise records the position and applies the slide rule: a move of more than 1 steps and shows the new slot and makes the position the new start, a smaller one changes nothing else |
| ThreeView.View360.Click | tmp/v360THREE.ts:264-268 | toggles pause |
| IndexViewer.Textures | tmp/index.ts:122-132 | one texture per base64 string, in input order |
| IndexViewer.AllTexturesLength | tmp/index.ts:99-100 | the texture list is as long as all chunks together |
| IndexViewer.AllTexturesPosition | tmp/index.ts:99-100 | the i-th frame of chunk c sits after all frames of the earlier chunks |
| IndexViewer.V360Viewer.constructor | tmp/index.ts:20-34 | index 0, auto-rotating, not paused or dragging; loading starts only when the container exists |
| IndexViewer.V360Viewer.LoadNextChunk | tmp/index.ts:95-132 | an empty array ends loading; an undefined chunk crashes the chain; a string the texture loader rejects stalls it for good; in those cases textures, plane and shown texture stay; otherwise the textures are appended, chunk 0 creates the plane showing the first texture, and the next chunk is requested |
| IndexViewer.V360Viewer.UpdateTexture | tmp/index.ts:51-63 | shows the current texture only when the plane exists and the index names one |
| IndexViewer.V360Viewer.ChangeImage | tmp/index.ts:79-86 | steps `(i + 1) % len` and shows that texture only when auto-rotating, not paused and with a plane; a NaN index leaves the shown texture alone; otherwise nothing changes |
| IndexViewer.V360Viewer.OnMouseDown | tmp/index.ts:146-149 | starts dragging and stops auto-rotation |
| IndexViewer.V360Viewer.OnMouseMove | tmp/index.ts:151-170 | ignored unless dragging; a positive x delta steps −1, otherwise +1, modulo the texture count, shows that texture when the plane exists and the index names one, then records the offset; with no textures the index becomes NaN |
| IndexViewer.V360Viewer.OnMouseUp | tmp/index.ts:172-175 | stops dragging and resumes auto-rotation |
| IndexViewer.V360Viewer.OnClick | tmp/index.ts:177-179 | toggles pause |
| IndexViewer.V360Viewer.OnResize | tmp/index.ts:181-195 | a zero width or height leaves renderer and camera unchanged; otherwise they take the new size and aspect |
| Cookies.Split | site/core/static/scripts/src/ajax.ts:4 | `split(';')` gives at least one piece, and no piece holds `;` |
| Cookies.JoinSplit | site/core/static/scripts/src/ajax.ts:4 | joining the pieces with `;` gives the cookie string back |
| Cookies.SplitJoin | site/core/static/scripts/src/ajax.ts:4 | splitting `;`-free pieces joined with `;` gives the pieces back |
| Cookies.SplitPrefix | site/core/static/scripts/src/ajax.ts:4 | a `;`-free prefix merges into the first piece |
| Cookies.Join | site/core/static/scripts/src/ajax.ts:4 | pieces joined with `;` start with the first piece and hold a `;` when there are several |
| Cookies.TrimStart | site/core/static/scripts/src/ajax.ts:5 | leading JavaScript white space is removed and nothing else |
| Cookies.TrimEnd | site/core/static/scripts/src/ajax.ts:5 | trailing JavaScript white space is removed and nothing else |
| Cookies.Trim | site/core/static/scripts/src/ajax.ts:5 | `trim()` never lengthens the text |
| Cookies.TrimLeadingSpace | site/core/static/scripts/src/ajax.ts:5 | the space after `;` in `a=1; b=2` does not matter |
| Cookies.TrimUnchanged | site/core/static/scripts/src/ajax.ts:5 | a piece without surrounding white space is left as it is |
| Cookies.Prefix | site/core/static/scripts/src/ajax.ts:6 | `substring(0, k)` is the first min(k, length) characters |
| Cookies.Matches | site/core/static/scripts/src/ajax.ts:6 | a matching piece is longer than the name and has `=` right after it |
| Cookies.MatchesIsPrefix | site/core/static/scripts/src/ajax.ts:6 | a piece matches iff it starts with `name=` |
| Cookies.MatchesOnlyItsName | site/core/static/scripts/src/ajax.ts:6 | `n=v` matches `name` iff n is name, so `csrftokenX=…` does not match `csrftoken` |
| Cookies.IndexOfEq | site/core/static/scripts/src/ajax.ts:6 | the first `=` position is within the text |
| Cookies.IndexOfEqAfter | site/core/static/scripts/src/ajax.ts:6 | in `n=rest` with no `=` in n, the first `=` follows n |
| Cookies.FirstMatch | site/core/static/scripts/src/ajax.ts:4-9 | the position of the first trimmed piece that matches, and no earlier piece matches |
| Cookies.Lookup | site/core/static/scripts/src/ajax.ts:4-9 | the lookup finds nothing exactly when no trimmed piece matches |
| Cookies.CookieLookup | site/core/static/scripts/src/ajax.ts:2-9 | nothing is found in a cookie string exactly when none of its `;`-pieces matches once trimmed |
| Cookies.LookupIsFirstMatch | site/core/static/scripts/src/ajax.ts:4-9 | the lookup returns the rest of the first matching piece, and nothing when none matches |
| Cookies.LookupStep | site/core/static/scripts/src/ajax.ts:4-9 | one loop step: the lookup from piece i is piece i's value when it matches, and the lookup from i + 1 otherwise |
| Cookies.EmptyCookieHoldsNothing | site/core/static/scripts/src/ajax.ts:2-3 | an empty cookie string holds no cookie |
| Cookies.TextHasNoSemicolon | site/core/static/scripts/src/ajax.ts:4 | a well-formed `name=value` pair holds no `;` |
| Cookies.PairPiece | site/core/static/scripts/src/ajax.ts:5-7 | a well-formed pair trims to itself, matches exactly its own name, and its rest is its value |
| Cookies.SplitHeader | site/core/static/scripts/src/ajax.ts:4 | splitting a `; `-separated header gives one piece per pair |
| Cookies.LookupPieces | site/core/static/scripts/src/ajax.ts:4-9 | on those pieces the lookup finds the first pair of the name |
| Cookies.LookupCons | site/core/static/scripts/src/ajax.ts:4-9 | the lookup on a piece followed by more pieces takes the piece if it matches, else looks further |
| Cookies.CookieLookupOfHeader | site/core/static/scripts/src/ajax.ts:1-14 | on a well-formed cookie header the lookup returns the value of the first pair with the name |
| Ajax.GetToken | site/core/static/scripts/src/ajax.ts:1-14 | returns `''` for an empty string or no match, the decoded rest of the first matching piece otherwise, and throws when decoding fails |
| Ajax.TokenOf | site/core/static/scripts/src/ajax.ts:1-14 | a missing cookie gives `''`, and the only failure is a found value that does not decode |
| Ajax.TokenOfHeader | site/core/static/scripts/src/ajax.ts:1-14 | on a well-formed header the token is the decoded value of the first pair of the name, and `''` without one |
| Ajax.Controller.constructor | site/core/static/scripts/src/ajax.ts:18 | a new controller is not aborted |
| Ajax.AjaxState.constructor | site/core/static/scripts/src/ajax.ts:16 | no controller before the first call |
| Ajax.AjaxState.SwitchController | site/core/static/scripts/src/ajax.ts:18-23 | a fresh controller becomes current; the previous one is aborted when `abort` is set and left alone otherwise |
| Ajax.AjaxState.Call | site/core/static/scripts/src/ajax.ts:16-48 | switches the controller, sends the token as header and resolves to the JSON body, or to `undefined` on any failure |
| Ajax.Send | site/core/static/scripts/src/ajax.ts:25-48 | the header is the token; a `getToken`, fetch or JSON failure is caught and resolves to `undefined` |
| Handle.CookieOfAgreesWithToken | site/core/static/scripts/src/handle.ts:99-112 | `getCookie` and `getToken` agree except that a missing cookie is `null` against `''` |
| Handle.CookieOf | site/core/static/scripts/src/handle.ts:99-112 | `null` exactly when the cookie is missing, and the only failure is a found value that does not decode |
| Handle.CsrfHeader | site/core/static/scripts/src/handle.ts:69 | a stored token is sent as itself |
| Handle.ParserHandle.constructor | site/core/static/scripts/src/handle.ts:8-20 | `_pathList` maps `parse` to `${api}/v360/parse/handle/` and `get` to `${api}/v360/get/` |
| Handle.ParserHandle.LoadingView | site/core/static/scripts/src/handle.ts:23-31 | loading disables the button and labels it `Parsing...`; otherwise it is enabled and labelled `Parse` |
| Handle.ParserHandle.LinkView | site/core/static/scripts/src/handle.ts:33-42 | a disabled link has href `#`; an enabled one has the given href |
| Handle.ParserHandle.AlertView | site/core/static/scripts/src/handle.ts:44-55 | one alert is added with the message and kind |
| Handle.ParserHandle.Submit | site/core/static/scripts/src/handle.ts:57-96 | the request goes to the parse path with the token header and `model: 'white'`; only a `success` status enables the link, on `get + certificate`; error replies and thrown errors add a danger alert; the button always ends enabled |
| Handle.ParserHandle.GetCookie | site/core/static/scripts/src/handle.ts:99-112 | `null` for an empty string or no match, the decoded rest of the first matching piece otherwise, and throws when decoding fails |
| Handle.CookieOfHeader | site/core/static/scripts/src/handle.ts:99-112 | on a well-formed header `getCookie` is `null` iff no pair has the name |
| Parser.FirstPattern | site/v360/parser.py:263-269 | the first table row whose pattern is in the URL, with no earlier row matching |
| Parser.PatternOf | site/v360/parser.py:263-269 | no type iff no pattern is in the URL; otherwise the type of a row whose pattern is in the URL |
| Parser.DefinePattern | site/v360/parser.py:263-269 | returns the type of the first row whose pattern is in the URL, and None iff no pattern is |
| Parser.EarlierRowShadows | site/v360/admin_actions.py:46 | a later row with the same pattern as an earlier one is never selected, so `videos.gem360.in` resolves to `v360` whenever the `v360` row comes first in the table's query order (the table declares no ordering) |
| Parser.ParseFunction | site/v360/parser.py:94-98 | the dispatch table holds exactly `v360`, `gem360` and `jaykar`, each with its own parser |
| Parser.DiacamHasNoParser | site/v360/models.py:48-53 | `diacam` is an allowed pattern type without a parser; every other type has one |
| Parser.ParseImages | site/v360/parser.py:121-145 | no browser gives none; no pattern deletes the stone and raises `Pattern not found`; a type without a parser raises; a parser's exception leaves unchanged (with or without the stone deleted); no images deletes the stone and raises `Images not found`; otherwise it ends as `decode_and_save_images` ends, so a jaykar capture of response bodies always raises the `UnboundLocalError` |
| Parser.Lower | site/v360/parser.py:44 | lowercasing maps each character and keeps the length |
| Parser.FormatName | site/v360/parser.py:43 | the format is never empty: PIL's format when it has one, `JPEG` otherwise |
| Parser.FrameName | site/v360/parser.py:44 | a frame name starts with `image_` and has more after it than the dot |
| Parser.FirstUnsplittable | site/v360/parser.py:39-41 | the first frame whose `split(',')[1]` raises (bytes, or a string without a comma), every earlier one splitting; -1 when all split |
| Parser.SaveOutcomeOf | site/v360/parser.py:31-52 | the frames are all saved iff every one splits, the i-th as `image_{i+1}.{format}` in lower case (JPEG when PIL gives no format); a failure on the first frame surfaces as the `UnboundLocalError` of the `finally` block |
| Parser.DecodeAndSave | site/v360/parser.py:39-50 | the loop ends exactly as `SaveOutcomeOf` says: an early return on the first frame that does not split, the frame names otherwise |
| Parser.BuffersNeverSave | site/v360/parser.py:39-50 | a non-empty list of response bodies is never saved: it raises the `UnboundLocalError` |
| Parser.SaveOutcomeIntended | site/v360/parser.py:31-52 | the intended saver saves every body and every string with a comma, under pairwise distinct names, and otherwise raises `IndexError` |
| Parser.FrameListDistinct | site/v360/parser.py:44 | the names of a list of frames are pairwise distinct |
| Parser.NatToStringInjective | site/v360/parser.py:44 | different frame numbers have different decimal texts |
| Parser.FrameNameNumber | site/v360/parser.py:44 | the digits after `image_` in a frame name are i + 1 |
| Parser.FrameNamesDistinct | site/v360/parser.py:39-46 | two frames never get the same file name |
| Parser.LowerAvoids | site/v360/parser.py:44 | lowercasing adds no non-letter character, so no `_`, `.` or `/` appears in a format |
| Parser.SavedFrameIndex | site/v360/chunk_process.py:35 | the chunk maker reads back from a saved frame path the index i + 1 the saver wrote |
| Parser.LeastExists | site/v360/parser.py:198 | a non-empty key set has a least key |
| Parser.Least | site/v360/parser.py:198 | the least key is a member no greater than any other |
| Parser.SortedKeys | site/v360/parser.py:198 | `sorted(keys)` holds exactly the keys, strictly increasing |
| Parser.SortedCons | site/v360/parser.py:198 | the least key followed by the sorted other keys is the sorted key list |
| Parser.ValuesByKey | site/v360/parser.py:198-199 | the values follow the ascending keys |
| Parser.Elements | site/v360/parser.py:190-191 | `for item in json` works on lists, dicts and strings only, and apart from a list never yields a dict |
| Parser.KeyOf | site/v360/parser.py:192-194 | a key exists only for a dict with `data_index` and `image`, and is the integer `data_index` or a boolean's 0/1 |
| Parser.Absorb | site/v360/parser.py:192-196 | an item succeeds iff it is not a dict or has a key; a dict is then stored under its key and anything else skipped |
| Parser.AbsorbAll | site/v360/parser.py:191-196 | a successful reply keeps every earlier key, every dict item in it had a key, and an earlier key that no item names keeps its image |
| Parser.StructureAll | site/v360/parser.py:189-196 | structuring succeeds only when every captured reply is iterable |
| Parser.StructureReply | site/v360/parser.py:191-196 | the inner loop over one reply's items matches the specification of the fold |
| Parser.StructureChunks | site/v360/parser.py:189-199 | fails as the fold fails; otherwise returns the images ordered by ascending `data_index` |
| Parser.AbsorbFailureSticks | site/v360/parser.py:195-196 | once an item raises, the reply's structuring fails with that error |
| Parser.StructureFailureSticks | site/v360/parser.py:189-196 | once a reply raises, the whole structuring fails with that error |
| Parser.AbsorbedDictsAreComplete | site/v360/parser.py:192-196 | on success every dict item had both `data_index` and `image` |
| Parser.AbsorbedKeys | site/v360/parser.py:189-196 | on success the keys are exactly the `data_index` values of the dict items |
| Parser.LastItemWins | site/v360/parser.py:194 | a later item with the same `data_index` overwrites an earlier one |
| Parser.AbsorbAllAppend | site/v360/parser.py:191-196 | the inner loop over two item lists in a row is the loop over the first, then over the second from its result |
| Parser.StructureAllFlat | site/v360/parser.py:189-196 | when every reply is iterable, structuring all replies is one inner loop over all their items from an empty dictionary, errors included |
| Parser.StructuredKeys | site/v360/parser.py:189-196 | on success the keys of `structured_data` are exactly the `data_index` values of the dicts of all replies |
| Parser.LastReplyWins | site/v360/parser.py:189-196 | across replies, the last dict with a given `data_index` supplies its image |
| Parser.LastSegment | site/v360/parser.py:246 | `split('/')[-1]` is a suffix of the URL with no `/` |
| Parser.LeadingDigits | site/v360/parser.py:247 | `^(\d+)` takes the whole leading digit run |
| Parser.ImageContentType | site/v360/parser.py:244 | decides whether the `content-type` header contains `image/jpeg`, `image/webp` or `image/jpg` as a substring; its ensures adds that such a header is at least as long as `image/jpg` |
| Parser.FrameNumber | site/v360/parser.py:247-249 | a frame number is found only for a name starting with a digit whose rest (before a final newline) holds no newline |
| Parser.DigitRunStopsAt | site/v360/parser.py:247 | `\d+` stops at the first non-digit |
| Parser.DigitRunCovers | site/v360/parser.py:247 | `\d+` takes at least every digit prefix |
| Parser.DigitRunOfPattern | site/v360/parser.py:247 | in a matched name, group 1 covers the leading digits, stops before the dot, and what follows is newline-free and ends in `.jpeg`, `.webp` or `.jpg` |
| Parser.LeadingDigitsUnique | site/v360/parser.py:247 | a digit prefix followed by a non-digit (or the end) is the whole leading digit run |
| Parser.ChompedPattern | site/v360/parser.py:247 | `$` before a final newline: the matched text leaves that newline out |
| Parser.FrameNumberOfPattern | site/v360/parser.py:247-249 | whenever `^(\d+).*\.(jpeg\|webp\|jpg)$` matches, a frame number is found, and it is the value of the whole leading digit run |
| Parser.FrameNumberHasPattern | site/v360/parser.py:247-249 | a name given a frame number is digits, a newline-free middle, a dot and `jpeg`, `webp` or `jpg`, and possibly one final newline |
| Parser.FrameNumberMatches | site/v360/parser.py:247-249 | a frame number is found iff the pattern matches, and it is the number of the greedy group 1 |
| Parser.JaykarKey | site/v360/parser.py:243-249 | only a response with an image content type gets a key |
| Parser.Store | site/v360/parser.py:250-253 | storing a capture adds its index only when new, with its body; a capture without an index, or a known index, changes nothing |
| Parser.Logged | site/v360/parser.py:241-255 | a response with a key adds it only when new, keeping the first buffer; other responses change nothing; known keys are never changed |
| Parser.JaykarCollector.constructor | site/v360/parser.py:206 | the collection starts empty |
| Parser.JaykarCollector.LogResponse | site/v360/parser.py:241-255 | logging one response is `Logged` |
| Parser.JaykarCollector.Images | site/v360/parser.py:223-224 | one image per stored index, the i-th being the body stored under the i-th smallest index (`SortedKeys` is strictly increasing and holds exactly the indices) |
| Parser.FirstResponseKept | site/v360/parser.py:250-253 | over the captures of the responses in arrival order, the first one seen for an index is the one kept |
| Parser.KnownKeysKept | site/v360/parser.py:250-253 | later responses never change a collected image |
| Parser.LeadingDigitsOf | site/v360/parser.py:247 | the digit run of digits followed by a non-digit is those digits |
| Parser.ImageTailOfExtension | site/v360/parser.py:247 | `.jpeg`, `.webp` and `.jpg` satisfy the tail of the filename pattern |
| Parser.FrameNumberOfName | site/v360/parser.py:247-249 | `{n}.{ext}` with an image extension yields frame number n |
| Parser.LastSegmentOf | site/v360/parser.py:246 | the last segment of `prefix/name` is name |
| Parser.FrameFileHasNoSlash | site/v360/parser.py:246 | a frame file name holds no `/` |
| Parser.JaykarKeyOfUrl | site/v360/parser.py:243-249 | an image response at `…/{n}.{ext}` is keyed n |
| Parser.DigitsValueLeadingZero | site/v360/parser.py:249 | `int()` ignores a leading zero |
| Parser.ChompedAfterZero | site/v360/parser.py:247 | dropping a final newline leaves a leading `0` in place |
| Parser.LeadingZeroCollides | site/v360/parser.py:247-253 | `07.jpg` and `7.jpg` get the same key, so the second is dropped |
| Parser.Poll | site/v360/parser.py:213-221 | polling stops at 1000 seconds or as soon as 256 images are in; it stops no earlier |
| CsvLinks.EntryOf | tmp/parse_csv.py:10-16 | the value is column 0; `msg` is column 2 exactly when the row has three columns |
| CsvLinks.Fold | tmp/parse_csv.py:9-16 | every key is column 1 of some row of two or more columns whose entry it holds |
| CsvLinks.ParseCsv | tmp/parse_csv.py:3-17 | a file with no row raises; otherwise the header is skipped and the remaining rows are folded |
| CsvLinks.FoldKeys | tmp/parse_csv.py:9-13 | the keys are exactly column 1 of the rows with at least two columns |
| CsvLinks.LastRowWins | tmp/parse_csv.py:13-16 | a later row with the same key replaces the earlier entry |

## Findings

| source | as written | input that shows it | evidently intended | confidence | as-written member | corrected member |
|---|---|---|---|---|---|---|
| site/v360/parser.py:41 | `img_data.split(',')[1]` on the `bytes` bodies that `_parse_from_image` returns raises `TypeError`, and `image.close()` in `finally` then raises `UnboundLocalError` because `image` was never bound | pattern type `jaykar` with one captured image response | each response body is decoded and saved as a frame, without the `data:` header split | not executed; high | Parser.BuffersNeverSave | Parser.SaveOutcomeIntended |

## Left out

- DOM and rendering: the progress bar, `updatePercentLoaded`, the three.js
  scene, camera, plane and materials, canvas drawing, and the first-slide
  image. A displayed frame is a field holding the frame drawn last.
- Timers and scheduling: `requestAnimationFrame`, `setTimeout` retries, the
  five-second alert removal and the `0.04 * 1000` delay of tmp/index.ts. Each
  handler is one method call, and the current time is a parameter.
- Floating point: mouse positions and times are `real`. Rounding, aspect
  ratios and canvas sizes are not modelled beyond `OnResize`'s guard.
- Network: `fetch`, `response.json()` and `AbortController` signals. A reply is
  a parameter that says how the request ended.
- Texture decoding in tmp/index.ts: whether three.js loads a base64 string
  is the parameter `loads`. A string it rejects leaves `Promise.all` pending
  for ever, since `loader.load` gets no error callback; the model ends the
  chain there with the `Stalled` outcome.
- `decodeURIComponent` is an uninterpreted parameter. `None` stands for the
  `URIError` it throws.
- Chunk item indices are integers in the loader. The server sends them as
  decimal strings, and JavaScript turns numeric keys into the same property
  names.
- Loader.Loader360.OnReply: the recursive `preFetchChunks` call is a queued
  request index (`pending`), not a call. An `undefined` reply stops the loop
  without marking it finished, like the thrown `TypeError`.
- Ajax.AjaxState.Call does not restate that a previous controller is left
  alone when `abort` is false. `SwitchController` states it.
- Handle.ParserHandle.constructor takes the token that `getCookie` reads. A
  `URIError` thrown there, which stops the constructor, is not modelled.
- Handle.ParserHandle.constructor takes the API root as a string. A missing
  `#api` element (`undefined`) or `value` attribute (`null`) would put the
  text `undefined` or `null` into both paths; that is not modelled.
- File I/O and base64 in chunk_process.py: existence and contents are the
  parameters `fileExists` and `encode`.
- Django ORM calls (`_define_stone`, `_delete_stone`, `bulk_create`, the log
  cap): the deletion is the `stoneDeleted` flag of the outcome. The
  `LinkPatterns` table is a sequence in query order.
- PIL decoding and saving: the format PIL reports is the parameter
  `formatOf`. Base64 and image decoding are taken to succeed, so their
  exceptions are not modelled; nor are the files written before a later
  frame raises, which stay on disk without `StoneImages` rows.
- Browser plumbing in parser.py: `browser_launch` retries,
  `close_existing_browsers`, pyppeteer pages, `waitForSelector` and
  `browser.close`. What a strategy scrapes is the parameter `scrape`, so
  `_parse_from_var`'s `frames_data[0]` is not modelled.
- Parser.Poll: each one-second sleep is one tick of `sizeAt`. Real time and
  the concurrency of the response callbacks are not modelled.
- Parser.Logged: the membership check and the store are one step. In the
  source an `await response.buffer()` between them lets two responses with
  the same index both pass the check, and then the later one wins.
- Parser.StructureChunks: JSON numbers are integers and booleans. A float, a
  string or a `null` `data_index` gives `UnmodelledKey`; Python would store
  it and then sort or raise. Iterating a JSON object yields its keys, which
  are strings, so such an object is modelled as yielding no dict item.
- `\d` and `int()` are modelled on ASCII digits, and `str.lower()` on ASCII
  letters.
- CsvLinks.ParseCsv: `csv.reader` quoting and the file read are not
  modelled. The rows arrive already split into fields.
- The compiled JavaScript under dist/ and tmp/v360THREE.js repeats the
  TypeScript modelled here.
- site/v360/views.py, tasks.py, video.py, admin.py, settings, urls,
  middleware, migrations and tmp/scraper/scraper.py are framework glue or
  browser I/O, and are not part of this model.
