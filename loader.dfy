/**
 * The client's progressive frame loader, `Loader360`.
 *
 * Three copies of it exist: site/core/static/scripts/src/v360.ts and
 * tmp/v360THREE.ts keep the first image decoded for a slot, tmp/v360.ts keeps
 * the last one.  They agree on everything else modelled here (the reply
 * normalisation, the stop rule, `totalImages` set once, the null slots), so one
 * class with a write policy models all three.
 *
 * Each awaited reply of the pagination chain is one call of `OnReply`; each
 * `onload` callback of a decoded image is one call of `ImageLoaded`, in
 * whatever order the browser finishes decoding.
 */
module Loader {
  import opened Common

  /** A decoded image or texture; only the base64 text it was made from matters here. */
  datatype Frame = Frame(base64: string)

  /** One `{index, base64}` entry of a reply's `chunk` array. */
  datatype ChunkItem = ChunkItem(index: int, base64: string)

  /** The value `ajax` resolves to for `/v360/get/<certificate>/`. */
  datatype Reply =
    | Undefined
      // `ajax` caught a network or JSON failure and resolved to undefined
    | Json(chunk: Option<seq<ChunkItem>>, chunkIndex: int, totalImages: int, totalChunks: int)
      // `chunk` is `None` when the reply's `chunk` field is not an array

  /** The reply as `fetchChunk` hands it on. */
  datatype Chunk = Chunk(items: seq<ChunkItem>, chunkIndex: int, totalImages: int, totalChunks: int)

  datatype WritePolicy = FirstWriteWins | LastWriteWins

  /**
   * `fetchChunk`: a reply whose `chunk` is not an array becomes the empty
   * terminal chunk; an undefined reply makes `response.chunk` throw, so the
   * promise rejects (`None`).
   */
  function FetchChunk(reply: Reply): (c: Option<Chunk>)
    ensures c.None? <==> reply.Undefined?
    ensures reply.Json? && reply.chunk.None? ==> c == Some(Chunk([], 0, 0, 0))
    ensures reply.Json? && reply.chunk.Some? ==>
      c == Some(Chunk(reply.chunk.value, reply.chunkIndex, reply.totalImages, reply.totalChunks))
  {
    match reply
    case Undefined => None
    case Json(chunk, ci, ti, tc) =>
      if chunk.None? then Some(Chunk([], 0, 0, 0)) else Some(Chunk(chunk.value, ci, ti, tc))
  }

  /** The stop rule of `preFetchChunks`. */
  predicate IsLast(c: Chunk)
    ensures c.items == [] ==> IsLast(c)
    ensures !IsLast(c) ==> c.chunkIndex < c.totalChunks
  {
    |c.items| == 0 || c.chunkIndex >= c.totalChunks
  }

  /** A reply that is not an array is always the last one. */
  lemma NonArrayReplyStops(ci: int, ti: int, tc: int)
    ensures var c := FetchChunk(Json(None, ci, ti, tc)); c.Some? && IsLast(c.value)
  {
  }

  /** The keys 1..n. */
  function SlotKeys(n: int): (keys: set<int>)
    ensures forall k :: k in keys <==> 1 <= k <= n
    decreases n
  {
    if n < 1 then {} else SlotKeys(n - 1) + {n}
  }

  /** The slots the first `updateTextureMap` creates: keys 1..n, all null. */
  function NullSlots(n: int): (m: map<int, Option<Frame>>)
    ensures m.Keys == SlotKeys(n)
    ensures forall k :: k in m ==> m[k] == None
  {
    map k | k in SlotKeys(n) :: None
  }

  /** The key count `Object.keys(textureMap).length` after the null slots: exactly `n`. */
  lemma {:induction false} NullSlotsCount(n: nat)
    ensures |NullSlots(n)| == n
    decreases n
  {
    SlotKeysCount(n);
    assert |NullSlots(n)| == |NullSlots(n).Keys|;
  }

  lemma {:induction false} SlotKeysCount(n: nat)
    ensures |SlotKeys(n)| == n
    decreases n
  {
    if n > 0 {
      var below := SlotKeys(n - 1);
      SlotKeysCount(n - 1);
      assert SlotKeys(n) == below + {n};
      assert n !in below;
      assert |below + {n}| == |below| + 1;
    } else {
      assert SlotKeys(n) == {};
    }
  }

  /**
   * What a view shows after displaying slot `i` (`drawImage` on the canvas,
   * the plane's material in the three.js view): that slot's image when it
   * has one, else what was shown before.
   */
  function Displayed(shown: Option<Frame>, slots: map<int, Option<Frame>>, i: int): (d: Option<Frame>)
    ensures d != shown ==> i in slots && d == slots[i] && d.Some?
  {
    if i in slots && slots[i].Some? then slots[i] else shown
  }

  /** The `onload` callback of one decoded image. */
  function Write(policy: WritePolicy, slots: map<int, Option<Frame>>, item: ChunkItem): (m: map<int, Option<Frame>>)
    ensures m.Keys == slots.Keys + {item.index} && m[item.index].Some?
    ensures forall k :: k in slots && k != item.index ==> m[k] == slots[k]
  {
    if policy == LastWriteWins || item.index !in slots || slots[item.index].None? then
      slots[item.index := Some(Frame(item.base64))]
    else
      slots
  }

  /** The map after the `onload` callbacks of `items` ran in that order. */
  function WriteAll(policy: WritePolicy, slots: map<int, Option<Frame>>, items: seq<ChunkItem>): (m: map<int, Option<Frame>>)
    ensures slots.Keys <= m.Keys
    decreases |items|
  {
    if items == [] then slots else WriteAll(policy, Write(policy, slots, items[0]), items[1..])
  }

  /** Decoding only adds keys: the slot indices of the items that were not keys yet. */
  lemma {:induction false} WriteAllKeys(policy: WritePolicy, slots: map<int, Option<Frame>>, items: seq<ChunkItem>)
    ensures WriteAll(policy, slots, items).Keys == slots.Keys + set it | it in items :: it.index
    decreases |items|
  {
    if items != [] {
      WriteAllKeys(policy, Write(policy, slots, items[0]), items[1..]);
      assert (set it | it in items :: it.index)
          == {items[0].index} + set it | it in items[1..] :: it.index by {
        assert items == [items[0]] + items[1..];
      }
    }
  }

  /** A slot that nothing decoded for keeps its value. */
  lemma {:induction false} WriteAllUntouched(policy: WritePolicy, slots: map<int, Option<Frame>>, items: seq<ChunkItem>, k: int)
    requires k in slots
    requires forall i :: 0 <= i < |items| ==> items[i].index != k
    ensures k in WriteAll(policy, slots, items) && WriteAll(policy, slots, items)[k] == slots[k]
    decreases |items|
  {
    if items != [] {
      WriteAllUntouched(policy, Write(policy, slots, items[0]), items[1..], k);
    }
  }

  /** Under first-write-wins a filled slot never changes again. */
  lemma {:induction false} FirstWriteKeepsFilled(slots: map<int, Option<Frame>>, items: seq<ChunkItem>, k: int)
    requires k in slots && slots[k].Some?
    ensures k in WriteAll(FirstWriteWins, slots, items)
    ensures WriteAll(FirstWriteWins, slots, items)[k] == slots[k]
    decreases |items|
  {
    if items != [] {
      FirstWriteKeepsFilled(Write(FirstWriteWins, slots, items[0]), items[1..], k);
    }
  }

  /** Under first-write-wins an empty slot ends up with the first image decoded for it. */
  lemma {:induction false} FirstWriteWinsAll(slots: map<int, Option<Frame>>, items: seq<ChunkItem>, i: nat)
    requires i < |items|
    requires forall j :: 0 <= j < i ==> items[j].index != items[i].index
    requires items[i].index !in slots || slots[items[i].index].None?
    ensures items[i].index in WriteAll(FirstWriteWins, slots, items)
    ensures WriteAll(FirstWriteWins, slots, items)[items[i].index] == Some(Frame(items[i].base64))
    decreases i
  {
    var next := Write(FirstWriteWins, slots, items[0]);
    if i == 0 {
      FirstWriteKeepsFilled(next, items[1..], items[0].index);
    } else {
      FirstWriteWinsAll(next, items[1..], i - 1);
    }
  }

  /** Under last-write-wins a slot ends up with the last image decoded for it. */
  lemma {:induction false} LastWriteWinsAll(slots: map<int, Option<Frame>>, items: seq<ChunkItem>, i: nat)
    requires i < |items|
    requires forall j :: i < j < |items| ==> items[j].index != items[i].index
    ensures items[i].index in WriteAll(LastWriteWins, slots, items)
    ensures WriteAll(LastWriteWins, slots, items)[items[i].index] == Some(Frame(items[i].base64))
    decreases i
  {
    var next := Write(LastWriteWins, slots, items[0]);
    if i == 0 {
      WriteAllUntouched(LastWriteWins, next, items[1..], items[0].index);
    } else {
      LastWriteWinsAll(next, items[1..], i - 1);
    }
  }

  /** `textureMap`, an object that the loader and a viewer may share. */
  class TextureMap {
    var slots: map<int, Option<Frame>>

    constructor ()
      ensures slots == map[]
    {
      slots := map[];
    }
  }

  class Loader360 {
    const policy: WritePolicy
    const textureMap: TextureMap
    var isFetchingFinished: bool
    /** `null` until the first accepted reply. */
    var totalImages: Option<int>
    /** The chunk index of the request in flight; `None` once the chain has ended. */
    var pending: Option<int>
    /** The items handed to the image decoder so far, in order. */
    var decoding: seq<ChunkItem>

    /** The constructor starts the chain with `preFetchChunks(0)`. */
    constructor (policy: WritePolicy)
      ensures this.policy == policy && fresh(textureMap)
      ensures textureMap.slots == map[]
      ensures !isFetchingFinished && totalImages == None && pending == Some(0) && decoding == []
    {
      this.policy := policy;
      textureMap := new TextureMap();
      isFetchingFinished := false;
      totalImages := None;
      pending := Some(0);
      decoding := [];
    }

    /** `isMapCreated`. */
    function IsMapCreated(): (b: bool)
      reads this, textureMap
      ensures b <==> textureMap.slots != map[]
    {
      |textureMap.slots| > 0
    }

    /**
     * `preFetchChunks` after its awaited `fetchChunk`: stop on an empty or last
     * chunk, otherwise record `totalImages` once, fill the map and request
     * `chunk_index + 1`.  A rejected fetch ends the chain without setting the flag.
     */
    method OnReply(reply: Reply)
      modifies this, textureMap
      ensures var c := FetchChunk(reply);
        && pending == (if c.None? || IsLast(c.value) then None else Some(c.value.chunkIndex + 1))
        && isFetchingFinished == (old(isFetchingFinished) || (c.Some? && IsLast(c.value)))
        && (c.None? || IsLast(c.value) ==>
              totalImages == old(totalImages) && textureMap.slots == old(textureMap.slots)
              && decoding == old(decoding))
        && (c.Some? && !IsLast(c.value) ==>
              && totalImages == (if old(totalImages).None? then Some(c.value.totalImages) else old(totalImages))
              && textureMap.slots == (if old(textureMap.slots) == map[] then NullSlots(totalImages.value)
                                      else old(textureMap.slots))
              && decoding == old(decoding) + c.value.items)
    {
      var c := FetchChunk(reply);
      if c.None? {
        pending := None;
        return;
      }
      var response := c.value;
      if IsLast(response) {
        isFetchingFinished := true;
        pending := None;
        return;
      }
      if totalImages.None? {
        totalImages := Some(response.totalImages);
      }
      UpdateTextureMap(response.items);
      pending := Some(response.chunkIndex + 1);
    }

    /** `updateTextureMap`: on an empty map create null slots 1..totalImages, then start decoding. */
    method UpdateTextureMap(items: seq<ChunkItem>)
      requires totalImages.Some?
      modifies this`decoding, textureMap
      ensures textureMap.slots == (if old(textureMap.slots) == map[] then NullSlots(totalImages.value)
                                   else old(textureMap.slots))
      ensures decoding == old(decoding) + items
    {
      if |textureMap.slots| == 0 {
        var n := totalImages.value;
        var i := 1;
        while i <= n
          invariant 1 <= i <= if n < 1 then 1 else n + 1
          invariant textureMap.slots == NullSlots(i - 1)
          invariant decoding == old(decoding)
        {
          textureMap.slots := textureMap.slots[i := None];
          i := i + 1;
        }
      }
      decoding := decoding + items;
    }

    /** The `onload` callback of one image handed to the decoder. */
    method ImageLoaded(item: ChunkItem)
      requires item in decoding
      modifies textureMap
      ensures textureMap.slots == Write(policy, old(textureMap.slots), item)
      ensures (policy == FirstWriteWins && item.index in old(textureMap.slots)
               && old(textureMap.slots)[item.index].Some?) ==> textureMap.slots == old(textureMap.slots)
      ensures item.index in textureMap.slots
    {
      if policy == LastWriteWins || item.index !in textureMap.slots || textureMap.slots[item.index].None? {
        textureMap.slots := textureMap.slots[item.index := Some(Frame(item.base64))];
      }
    }
  }
}
