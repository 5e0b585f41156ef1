/**
 * Server-side chunking of a stone's stored frames (`chunk_maker`).
 *
 * A request for chunk `index` gets an interleaved sample of the frame paths:
 * positions `k * s + index` with `s = n / 18`.  Reading a file and encoding it
 * in base64 are abstracted as two oracles, `fileExists` and `encode`.
 */
module ChunkProcess {
  import opened Common

  const ChunkSize: nat := 18

  /** One entry of the reply's `chunk` list. */
  datatype ChunkItem = ChunkItem(index: string, base64: string)

  /** The reply dictionary. */
  datatype Chunk = Chunk(
    chunk: seq<ChunkItem>,
    chunkIndex: int,
    totalImages: nat,
    totalChunks: nat,
    keyPoints: seq<int>)

  /** `range(0, n, 0)` raises ValueError: fewer than 18 frames make the call fail. */
  datatype ChunkError = RangeStepZero

  /** `math.ceil(n / 18)`. */
  function TotalChunks(n: nat): (c: nat)
    ensures c * ChunkSize >= n
    ensures c > 0 ==> (c - 1) * ChunkSize < n
  {
    (n + ChunkSize - 1) / ChunkSize
  }

  /** Python's `list(range(start, stop, step))` for a positive step. */
  function Range(start: int, stop: int, step: nat): (r: seq<int>)
    requires step > 0
    ensures forall i :: 0 <= i < |r| ==> r[i] == start + i * step && r[i] < stop
    ensures start + |r| * step >= stop
    decreases stop - start
  {
    if start >= stop then []
    else
      var rest := Range(start + step, stop, step);
      RangeCons(start, stop, step, rest);
      [start] + rest
  }

  /** One step of `Range`: prepending `start` to the range from `start + step`. */
  lemma RangeCons(start: int, stop: int, step: nat, rest: seq<int>)
    requires step > 0 && start < stop
    requires forall i :: 0 <= i < |rest| ==> rest[i] == start + step + i * step && rest[i] < stop
    requires start + step + |rest| * step >= stop
    ensures forall i :: 0 <= i < |rest| + 1 ==> ([start] + rest)[i] == start + i * step && ([start] + rest)[i] < stop
    ensures start + (|rest| + 1) * step >= stop
  {
    forall i | 0 <= i < |rest| + 1
      ensures ([start] + rest)[i] == start + i * step && ([start] + rest)[i] < stop
    {
      if i > 0 {
        assert ([start] + rest)[i] == rest[i - 1];
        assert (i - 1) * step + step == i * step;
      }
    }
    assert (|rest| + 1) * step == |rest| * step + step;
  }

  /** The key points `0, s, 2s, ...` below `n`, with `s = n // 18`. */
  function KeyPoints(n: nat): (r: Result<seq<int>, ChunkError>)
    ensures r.Failure? <==> n < ChunkSize
  {
    var step := n / ChunkSize;
    if step == 0 then Failure(RangeStepZero) else Success(Range(0, n, step))
  }

  /** The expansion points: each key point shifted by `index`, kept when below `n`. */
  function Expansion(keyPoints: seq<int>, index: int, n: int): (e: seq<int>)
    ensures |e| <= |keyPoints|
    ensures forall i :: 0 <= i < |e| ==> e[i] < n
  {
    if keyPoints == [] then []
    else
      var last := keyPoints[|keyPoints| - 1] + index;
      Expansion(keyPoints[..|keyPoints| - 1], index, n) + (if last < n then [last] else [])
  }

  /** Python's `images[j]`: negative positions count from the end; `None` is IndexError. */
  function PyIndex(images: seq<string>, j: int): (x: Option<string>)
    ensures x.Some? <==> -|images| <= j < |images|
    ensures x.Some? ==> x.value in images
  {
    if 0 <= j < |images| then Some(images[j])
    else if -|images| <= j < 0 then Some(images[|images| + j])
    else None
  }

  /** The frame paths at the expansion points; an IndexError skips the point. */
  function Selected(images: seq<string>, points: seq<int>): (s: seq<string>)
    ensures |s| <= |points|
    ensures forall i :: 0 <= i < |s| ==> s[i] in images
  {
    if points == [] then []
    else
      var p := PyIndex(images, points[|points| - 1]);
      Selected(images, points[..|points| - 1]) + (if p.Some? then [p.value] else [])
  }

  /**
   * `os.path.splitext(p)[0]` on POSIX: the extension starts at the last `.` after
   * the last `/`, provided some character other than `.` precedes it in that name.
   */
  function SplitExtRoot(p: string): (root: string)
    ensures StartsWith(p, root)
  {
    var sep := LastIndexOf(p, '/');
    var dot := LastIndexOf(p, '.');
    if dot > sep && exists j :: sep + 1 <= j < dot && p[j] != '.' then p[..dot] else p
  }

  /** The text after the last `_` (`p.split('_')[-1]`), the whole path when there is none. */
  function AfterLastUnderscore(p: string): (t: string)
    ensures EndsWith(p, t)
  {
    p[LastIndexOf(p, '_') + 1..]
  }

  /** The `index` field of a chunk item: last `_`-separated part, extension stripped. */
  function ItemIndex(path: string): (ix: string)
    ensures '_' !in ix || ('_' !in path && StartsWith(path, ix))
  {
    SplitExtRoot(AfterLastUnderscore(path))
  }

  /** The items of the reply: one per existing path, in order; missing files are skipped. */
  function Encoded(paths: seq<string>, fileExists: string -> bool, encode: string -> string): (items: seq<ChunkItem>)
    ensures |items| <= |paths|
    ensures (forall i :: 0 <= i < |paths| ==> fileExists(paths[i])) ==> |items| == |paths|
  {
    if paths == [] then []
    else
      var p := paths[|paths| - 1];
      Encoded(paths[..|paths| - 1], fileExists, encode)
        + (if fileExists(p) then [ChunkItem(ItemIndex(p), encode(p))] else [])
  }

  /**
   * `chunk_maker(images, index)`.  `fileExists(p)` stands for `os.path.exists(p)` and
   * `encode(p)` for the base64 text of the file's bytes.
   */
  method ChunkMaker(images: seq<string>, index: int, fileExists: string -> bool, encode: string -> string)
    returns (r: Result<Chunk, ChunkError>)
    ensures r.Failure? <==> |images| < ChunkSize
    ensures r.Success? ==>
      && r.value.totalImages == |images|
      && r.value.totalChunks == TotalChunks(|images|)
      && r.value.chunkIndex == index
      && r.value.keyPoints == Expansion(KeyPoints(|images|).value, index, |images|)
      && r.value.chunk == Encoded(Selected(images, r.value.keyPoints), fileExists, encode)
  {
    var totalImages := |images|;
    var totalChunks := TotalChunks(totalImages);
    var keyPointsOr := KeyPoints(totalImages);
    if keyPointsOr.Failure? {
      return Failure(keyPointsOr.error);
    }
    var keyPoints := keyPointsOr.value;

    var expansion := ExpandKeyPoints(keyPoints, index, totalImages);
    var imagesResult := SelectImages(images, expansion);
    var encodedChunks := EncodeImages(imagesResult, fileExists, encode);
    return Success(Chunk(encodedChunks, index, totalImages, totalChunks, expansion));
  }

  /** The first loop of `chunk_maker`: shift each key point by `index`, keep those below `n`. */
  method ExpandKeyPoints(keyPoints: seq<int>, index: int, n: int) returns (expansion: seq<int>)
    ensures expansion == Expansion(keyPoints, index, n)
  {
    expansion := [];
    var i := 0;
    while i < |keyPoints|
      invariant 0 <= i <= |keyPoints|
      invariant expansion == Expansion(keyPoints[..i], index, n)
    {
      var newIndex := keyPoints[i] + index;
      if newIndex < n {
        expansion := expansion + [newIndex];
      }
      assert keyPoints[..i + 1][..i] == keyPoints[..i];
      i := i + 1;
    }
    assert keyPoints[..i] == keyPoints;
  }

  /** The second loop: the frame at each expansion point, skipping an IndexError. */
  method SelectImages(images: seq<string>, expansion: seq<int>) returns (imagesResult: seq<string>)
    ensures imagesResult == Selected(images, expansion)
  {
    imagesResult := [];
    var i := 0;
    while i < |expansion|
      invariant 0 <= i <= |expansion|
      invariant imagesResult == Selected(images, expansion[..i])
    {
      var p := PyIndex(images, expansion[i]);
      if p.Some? {
        imagesResult := imagesResult + [p.value];
      }
      assert expansion[..i + 1][..i] == expansion[..i];
      i := i + 1;
    }
    assert expansion[..i] == expansion;
  }

  /** The third loop: one item per existing file, a warning for a missing one. */
  method EncodeImages(imagesResult: seq<string>, fileExists: string -> bool, encode: string -> string)
      returns (encodedChunks: seq<ChunkItem>)
    ensures encodedChunks == Encoded(imagesResult, fileExists, encode)
  {
    encodedChunks := [];
    var i := 0;
    while i < |imagesResult|
      invariant 0 <= i <= |imagesResult|
      invariant encodedChunks == Encoded(imagesResult[..i], fileExists, encode)
    {
      var image := imagesResult[i];
      if fileExists(image) {
        encodedChunks := encodedChunks + [ChunkItem(ItemIndex(image), encode(image))];
      }
      assert imagesResult[..i + 1][..i] == imagesResult[..i];
      i := i + 1;
    }
    assert imagesResult[..i] == imagesResult;
  }

  // ---------------------------------------------------------------------------
  // Properties of the specification functions

  lemma MulMonotone(a: int, b: int, s: nat)
    requires a >= b
    ensures a * s >= b * s
  {
    assert a * s - b * s == (a - b) * s;
  }

  /** Key points are the multiples of `s` below `n`, strictly increasing, so no position repeats. */
  lemma KeyPointsShape(n: nat)
    requires n >= ChunkSize
    ensures var kp := KeyPoints(n).value; var s := n / ChunkSize;
      && s >= 1
      && |kp| > 0 && kp[0] == 0
      && (forall i :: 0 <= i < |kp| ==> kp[i] == i * s && kp[i] < n)
      && (forall i, j :: 0 <= i < j < |kp| ==> kp[i] < kp[j])
      && (forall m :: 0 <= m && m * s < n ==> m < |kp|)
  {
    var s := n / ChunkSize;
    assert s >= 1;
    assert KeyPoints(n) == Success(Range(0, n, s));
    RangeShape(n, s);
  }

  /** `range(0, n, s)` lists the multiples of `s` below `n` in increasing order, all of them. */
  lemma RangeShape(n: nat, s: nat)
    requires s >= 1 && n >= 1
    ensures var kp := Range(0, n, s);
      && |kp| > 0 && kp[0] == 0
      && (forall i :: 0 <= i < |kp| ==> kp[i] == i * s && kp[i] < n)
      && (forall i, j :: 0 <= i < j < |kp| ==> kp[i] < kp[j])
      && (forall m :: 0 <= m && m * s < n ==> m < |kp|)
  {
    var kp := Range(0, n, s);
    RangeIncreasing(0, n, s);
    RangeComplete(0, n, s);
    assert |kp| > 0 && kp[0] == 0;
    forall i | 0 <= i < |kp| ensures kp[i] == i * s && kp[i] < n {
      assert kp[i] == 0 + i * s;
    }
    forall m | 0 <= m && m * s < n ensures m < |kp| {
      assert 0 + m * s < n;
    }
  }

  lemma RangeIncreasing(start: int, stop: int, step: nat)
    requires step > 0
    ensures var r := Range(start, stop, step); forall i, j :: 0 <= i < j < |r| ==> r[i] < r[j]
  {
    var r := Range(start, stop, step);
    forall i, j | 0 <= i < j < |r| ensures r[i] < r[j] {
      MulMonotone(j, i + 1, step);
    }
  }

  lemma RangeComplete(start: int, stop: int, step: nat)
    requires step > 0
    ensures forall m :: 0 <= m && start + m * step < stop ==> m < |Range(start, stop, step)|
  {
    var r := Range(start, stop, step);
    forall m | 0 <= m && start + m * step < stop ensures m < |r| {
      if m >= |r| {
        MulMonotone(m, |r|, step);
      }
    }
  }

  /** The expansion is a subsequence of the shifted key points, each below `n`. */
  lemma {:induction false} ExpansionMembers(keyPoints: seq<int>, index: int, n: int, p: int)
    ensures p in Expansion(keyPoints, index, n) <==> p < n && p - index in keyPoints
    decreases |keyPoints|
  {
    if keyPoints != [] {
      var front := keyPoints[..|keyPoints| - 1];
      ExpansionMembers(front, index, n, p);
      assert keyPoints == front + [keyPoints[|keyPoints| - 1]];
    }
  }

  /** Expansion keeps strict increase: one chunk never lists a position twice. */
  lemma {:induction false} ExpansionIncreasing(keyPoints: seq<int>, index: int, n: int)
    requires forall i, j :: 0 <= i < j < |keyPoints| ==> keyPoints[i] < keyPoints[j]
    ensures var e := Expansion(keyPoints, index, n);
      forall i, j :: 0 <= i < j < |e| ==> e[i] < e[j]
    decreases |keyPoints|
  {
    if keyPoints != [] {
      var front := keyPoints[..|keyPoints| - 1];
      var last := keyPoints[|keyPoints| - 1];
      ExpansionIncreasing(front, index, n);
      var e0 := Expansion(front, index, n);
      forall i | 0 <= i < |e0| ensures e0[i] < last + index {
        ExpansionMembers(front, index, n, e0[i]);
      }
      var e := Expansion(keyPoints, index, n);
      assert e == e0 + (if last + index < n then [last + index] else []);
      forall i, j | 0 <= i < j < |e| ensures e[i] < e[j] {
        if j < |e0| {
          assert e[i] == e0[i] && e[j] == e0[j];
        } else {
          assert e[i] == e0[i];
        }
      }
    }
  }

  /** When `index >= n` nothing survives and the chunk is empty. */
  lemma {:induction false} ExpansionEmptyPastEnd(keyPoints: seq<int>, index: int, n: int)
    requires forall i :: 0 <= i < |keyPoints| ==> keyPoints[i] >= 0
    requires index >= n
    ensures Expansion(keyPoints, index, n) == []
    decreases |keyPoints|
  {
    if keyPoints != [] {
      ExpansionEmptyPastEnd(keyPoints[..|keyPoints| - 1], index, n);
    }
  }

  /** For a non-negative `index`, every expansion point is a real position, so nothing is skipped. */
  lemma {:induction false} SelectedInRange(images: seq<string>, points: seq<int>)
    requires forall i :: 0 <= i < |points| ==> 0 <= points[i] < |images|
    ensures Selected(images, points) == seq(|points|, i requires 0 <= i < |points| => images[points[i]])
    decreases |points|
  {
    if points != [] {
      var front, last := points[..|points| - 1], points[|points| - 1];
      assert forall i :: 0 <= i < |front| ==> front[i] == points[i];
      SelectedInRange(images, front);
      assert PyIndex(images, last) == Some(images[last]);
      assert Selected(images, points) == Selected(images, front) + [images[last]];
    }
  }

  /** Items follow the path order; a path is dropped exactly when it does not exist. */
  lemma {:induction false} EncodedAllExist(paths: seq<string>, fileExists: string -> bool, encode: string -> string)
    requires forall i :: 0 <= i < |paths| ==> fileExists(paths[i])
    ensures var e := Encoded(paths, fileExists, encode);
      |e| == |paths| && forall i :: 0 <= i < |paths| ==> e[i] == ChunkItem(ItemIndex(paths[i]), encode(paths[i]))
    decreases |paths|
  {
    if paths != [] {
      var front := paths[..|paths| - 1];
      var p := paths[|paths| - 1];
      EncodedAllExist(front, fileExists, encode);
      assert fileExists(p);
      assert Encoded(paths, fileExists, encode)
          == Encoded(front, fileExists, encode) + [ChunkItem(ItemIndex(p), encode(p))];
    }
  }

  /** Every item comes from an existing path of the input. */
  lemma {:induction false} EncodedSound(paths: seq<string>, fileExists: string -> bool, encode: string -> string)
    ensures var e := Encoded(paths, fileExists, encode);
      |e| <= |paths| &&
      forall it :: it in e ==> exists p :: p in paths && fileExists(p) && it == ChunkItem(ItemIndex(p), encode(p))
    decreases |paths|
  {
    if paths != [] {
      var front := paths[..|paths| - 1];
      EncodedSound(front, fileExists, encode);
      assert forall p :: p in front ==> p in paths;
    }
  }

  /** A stored frame `<dir>/image_<k>.<ext>` is reported with index `<k>`. */
  lemma ItemIndexOfFrameName(dir: string, k: string, ext: string)
    requires |k| > 0 && AllDigits(k)
    requires '_' !in ext && '.' !in ext && '/' !in ext
    ensures ItemIndex(dir + "image_" + k + "." + ext) == k
  {
    var path := dir + "image_" + k + "." + ext;
    assert '_' !in k + "." + ext by {
      assert forall i :: 0 <= i < |k| ==> IsDigit(k[i]);
    }
    assert path == (dir + "image") + ['_'] + (k + "." + ext);
    LastIndexOfAfterMark(dir + "image", '_', k + "." + ext);
    var tail := AfterLastUnderscore(path);
    assert tail == k + "." + ext;
    assert tail == k + ['.'] + ext;
    LastIndexOfAfterMark(k, '.', ext);
    assert '/' !in tail by {
      assert forall i :: 0 <= i < |k| ==> IsDigit(k[i]);
    }
    assert LastIndexOf(tail, '/') == -1;
    assert tail[0] == k[0] && k[0] != '.';
  }
}
