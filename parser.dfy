/**
 * The scraper helpers of `Parser360` in site/v360/parser.py.
 *
 * The browser, its pages and the ORM are outside the model: the pattern
 * table is a sequence of rows in the order the query returns them, what a
 * parse function scraped is a parameter, and the responses the page listens
 * to arrive as method calls.  What remains is the logic that decides which
 * parser runs, which captured frames are kept, in which order, and under
 * which file names they are saved.
 */
module Parser {
  import opened Common
  import ChunkProcess

  // ---------------------------------------------------------------------
  // `_define_pattern`
  // ---------------------------------------------------------------------

  /** A row of the `LinkPatterns` table. */
  datatype LinkPattern = LinkPattern(vendor: string, pattern: string, patternType: string)

  /** Position of the first row whose pattern occurs in `url`, -1 when none does. */
  function FirstPattern(table: seq<LinkPattern>, url: string): (k: int)
    ensures -1 <= k < |table|
    ensures k >= 0 ==> Contains(url, table[k].pattern)
    ensures forall j :: 0 <= j < |table| && (k < 0 || j < k) ==> !Contains(url, table[j].pattern)
  {
    if table == [] then -1
    else if Contains(url, table[0].pattern) then 0
    else
      var k := FirstPattern(table[1..], url);
      if k < 0 then -1 else k + 1
  }

  /** The `pattern_type` `_define_pattern` returns, `None` for Python's `None`. */
  function PatternOf(table: seq<LinkPattern>, url: string): (t: Option<string>)
    ensures t.None? <==> forall i :: 0 <= i < |table| ==> !Contains(url, table[i].pattern)
    ensures t.Some? ==> exists i :: 0 <= i < |table| && Contains(url, table[i].pattern) && t.value == table[i].patternType
  {
    var k := FirstPattern(table, url);
    if k < 0 then None else Some(table[k].patternType)
  }

  /** `_define_pattern(url)`: the type of the first row, in table order, whose pattern is a substring of `url`. */
  method DefinePattern(table: seq<LinkPattern>, url: string) returns (patternType: Option<string>)
    ensures patternType.None? <==> forall j :: 0 <= j < |table| ==> !Contains(url, table[j].pattern)
    ensures patternType == PatternOf(table, url)
  {
    var i := 0;
    while i < |table|
      invariant 0 <= i <= |table|
      invariant forall j :: 0 <= j < i ==> !Contains(url, table[j].pattern)
    {
      var pattern := table[i].pattern;
      if Contains(url, pattern) {
        return Some(table[i].patternType);
      }
      i := i + 1;
    }
    return None;
  }

  /**
   * A row is never chosen when an earlier row has the same pattern: when the
   * query returns the `v360` row for `videos.gem360.in` before the `gem360`
   * one, that host resolves to `v360`.
   */
  lemma EarlierRowShadows(table: seq<LinkPattern>, url: string, i: nat, j: nat)
    requires i < j < |table| && table[i].pattern == table[j].pattern
    ensures FirstPattern(table, url) != j
  {
  }

  // ---------------------------------------------------------------------
  // `_parse_functions` and `_parse_images`
  // ---------------------------------------------------------------------

  /** The three scraping strategies: `_parse_from_var`, `_parse_from_chunks`, `_parse_from_image`. */
  datatype Strategy = FromVar | FromChunks | FromImage

  /** The `pattern_type` choices of the `LinkPatterns` model (site/v360/models.py). */
  const PatternTypes: seq<string> := ["v360", "gem360", "jaykar", "diacam"]

  /** `self._parse_functions.get(pattern_type)`: `None` for a type the table lacks. */
  function ParseFunction(patternType: string): (f: Option<Strategy>)
    ensures f.Some? <==> patternType in {"v360", "gem360", "jaykar"}
    ensures f == Some(FromVar) <==> patternType == "v360"
    ensures f == Some(FromChunks) <==> patternType == "gem360"
    ensures f == Some(FromImage) <==> patternType == "jaykar"
  {
    var table := map["v360" := FromVar, "gem360" := FromChunks, "jaykar" := FromImage];
    if patternType in table then Some(table[patternType]) else None
  }

  /** `diacam` is a declared pattern type that no parse function serves. */
  lemma DiacamHasNoParser()
    ensures "diacam" in PatternTypes && ParseFunction("diacam").None?
    ensures forall t :: t in PatternTypes && t != "diacam" ==> ParseFunction(t).Some?
  {
  }

  /** One element of the list a parse function returns. */
  datatype Datum =
    | Text(text: string)   // a `data:` URL string (`_parse_from_var`, `_parse_from_chunks`)
    | Buffer(bytes: Bytes) // a raw response body (`_parse_from_image`)

  /** What a parse function returned, or the exception it raised. */
  datatype Scraped =
    | Frames(data: seq<Datum>)
    | ScrapeRaised(message: string, stoneDeleted: bool)
      // e.g. `Canvas not found` (stone deleted first) or a structuring error (stone kept)

  /** How `_parse_images` ends. */
  datatype ParseOutcome =
    | BrowserClosed
      // `browser_launch` gave up: logged, and `None` is returned
    | Raised(message: string, stoneDeleted: bool)
      // an exception leaves `_parse_images`; `stoneDeleted` when the stone was removed first
    | Saved(files: seq<string>)
      // `decode_and_save_images` saved the frames under these names

  const PatternNotFound: string := "Pattern not found"
  const ImagesNotFound: string := "Images not found"
  /** The `TypeError` of calling the `None` that `.get` returned. */
  const NotCallable: string := "'NoneType' object is not callable"
  /** The `IndexError` of `split(',')[1]` on a string without a comma. */
  const IndexOutOfRange: string := "list index out of range"
  /** The `TypeError` of `bytes.split` with a `str` separator. */
  const BytesSplit: string := "a bytes-like object is required, not 'str'"
  /**
   * The `UnboundLocalError` of `image.close()` in the `finally` block when the
   * first frame fails before `image` is bound (Python 3.11 wording); it
   * replaces the exception that was being raised.
   */
  const ImageUnbound: string := "cannot access local variable 'image' where it is not associated with a value"

  // ---------------------------------------------------------------------
  // `decode_and_save_images`
  // ---------------------------------------------------------------------

  /** `img_data.split(',')[1]` raises on this element: bytes, or a string without a comma. */
  predicate Unsplittable(d: Datum)
  {
    d.Buffer? || ',' !in d.text
  }

  /** The position of the first element whose split raises, or -1. */
  function FirstUnsplittable(data: seq<Datum>): (k: int)
    ensures -1 <= k < |data|
    ensures k >= 0 ==> Unsplittable(data[k])
    ensures forall j :: 0 <= j < |data| && (k < 0 || j < k) ==> !Unsplittable(data[j])
    decreases |data|
  {
    if data == [] then -1
    else if Unsplittable(data[0]) then 0
    else
      var k := FirstUnsplittable(data[1..]);
      assert forall j :: 1 <= j < |data| ==> data[j] == data[1..][j - 1];
      if k < 0 then -1 else k + 1
  }

  /** The first element whose split raises is the one after a run of splittable ones. */
  lemma FirstUnsplittableAt(data: seq<Datum>, i: nat)
    requires i < |data| && Unsplittable(data[i])
    requires forall j :: 0 <= j < i ==> !Unsplittable(data[j])
    ensures FirstUnsplittable(data) == i
  {
  }

  /** How `decode_and_save_images` ends: an exception, or the names of the saved files. */
  datatype SaveOutcome = SaveRaised(message: string) | SavedAs(files: seq<string>)

  /**
   * `decode_and_save_images` as written.  The frames up to the first element
   * whose split raises are saved; that element's exception leaves the
   * function, except on the first frame, where `image.close()` in `finally`
   * raises `UnboundLocalError` instead.  `formatOf(d)` is the format PIL
   * reports for the frame `d` (decoding and opening are taken to succeed).
   */
  function SaveOutcomeOf(data: seq<Datum>, formatOf: Datum -> Option<string>): (r: SaveOutcome)
    ensures r.SavedAs? <==> forall i :: 0 <= i < |data| ==> !Unsplittable(data[i])
    ensures r.SavedAs? ==>
      |r.files| == |data| && forall i :: 0 <= i < |data| ==> r.files[i] == FrameName(i, formatOf(data[i]))
    ensures r.SaveRaised? && Unsplittable(data[0]) ==> r.message == ImageUnbound
  {
    var k := FirstUnsplittable(data);
    if k < 0 then SavedAs(seq(|data|, i requires 0 <= i < |data| => FrameName(i, formatOf(data[i]))))
    else if k == 0 then SaveRaised(ImageUnbound)
    else SaveRaised(if data[k].Buffer? then BytesSplit else IndexOutOfRange)
  }

  /**
   * The captured response bodies of `_parse_from_image` are bytes, which the
   * string split of `decode_and_save_images` rejects on the first frame: a
   * non-empty jaykar capture is never saved.
   */
  lemma BuffersNeverSave(data: seq<Datum>, formatOf: Datum -> Option<string>)
    requires data != [] && forall i :: 0 <= i < |data| ==> data[i].Buffer?
    ensures SaveOutcomeOf(data, formatOf) == SaveRaised(ImageUnbound)
  {
    assert Unsplittable(data[0]);
  }

  /**
   * What `decode_and_save_images` evidently means to do: save every frame,
   * splitting off the `data:` header of a string and taking a response body
   * as it is; a string without a comma still raises `IndexError`.
   */
  function SaveOutcomeIntended(data: seq<Datum>, formatOf: Datum -> Option<string>): (r: SaveOutcome)
    ensures r.SavedAs? <==> forall i :: 0 <= i < |data| ==> data[i].Buffer? || ',' in data[i].text
    ensures r.SavedAs? ==>
      && |r.files| == |data|
      && (forall i :: 0 <= i < |data| ==> r.files[i] == FrameName(i, formatOf(data[i])))
      && (forall i, j :: 0 <= i < j < |data| ==> r.files[i] != r.files[j])
    ensures r.SaveRaised? ==> r.message == IndexOutOfRange
  {
    if forall i | 0 <= i < |data| :: data[i].Buffer? || ',' in data[i].text then
      var files := seq(|data|, i requires 0 <= i < |data| => FrameName(i, formatOf(data[i])));
      FrameListDistinct(data, formatOf, files);
      SavedAs(files)
    else SaveRaised(IndexOutOfRange)
  }

  lemma FrameListDistinct(data: seq<Datum>, formatOf: Datum -> Option<string>, files: seq<string>)
    requires |files| == |data| && forall i :: 0 <= i < |data| ==> files[i] == FrameName(i, formatOf(data[i]))
    ensures forall i, j :: 0 <= i < j < |data| ==> files[i] != files[j]
  {
    forall i, j | 0 <= i < j < |data|
      ensures files[i] != files[j]
    {
      FrameNamesDistinct(i, j, formatOf(data[i]), formatOf(data[j]));
    }
  }

  /** The loop of `decode_and_save_images`: name each frame by its position until a split raises. */
  method DecodeAndSave(data: seq<Datum>, formatOf: Datum -> Option<string>) returns (r: SaveOutcome)
    ensures r == SaveOutcomeOf(data, formatOf)
  {
    var names: seq<string> := [];
    var i := 0;
    while i < |data|
      invariant 0 <= i <= |data| && |names| == i
      invariant forall j :: 0 <= j < i ==> !Unsplittable(data[j]) && names[j] == FrameName(j, formatOf(data[j]))
    {
      var d := data[i];
      if d.Buffer? || ',' !in d.text {
        FirstUnsplittableAt(data, i);
        if i == 0 {
          return SaveRaised(ImageUnbound);
        }
        return SaveRaised(if d.Buffer? then BytesSplit else IndexOutOfRange);
      }
      var format := FormatName(formatOf(d));
      var name := "image_" + NatToString(i + 1) + "." + Lower(format);
      assert name == FrameName(i, formatOf(d));
      names := names + [name];
      i := i + 1;
    }
    assert names == seq(|data|, i requires 0 <= i < |data| => FrameName(i, formatOf(data[i])));
    return SavedAs(names);
  }

  /** The outcome of `_parse_images` once `decode_and_save_images` has run. */
  function Settled(s: SaveOutcome): ParseOutcome
  {
    match s
    case SaveRaised(m) => Raised(m, false)
    case SavedAs(files) => Saved(files)
  }

  /**
   * `_parse_images`.  `browserUp` is whether `browser_launch` returned a
   * browser and `scrape(s)` is what parse function `s` returned or raised.
   * An empty pattern type is falsy and counts as no pattern.
   */
  method ParseImages(browserUp: bool, table: seq<LinkPattern>, url: string,
                     scrape: Strategy -> Scraped, formatOf: Datum -> Option<string>)
      returns (o: ParseOutcome)
    ensures o == BrowserClosed <==> !browserUp
    ensures var pt := PatternOf(table, url);
      browserUp && (pt.None? || pt.value == "") ==> o == Raised(PatternNotFound, true)
    ensures var pt := PatternOf(table, url);
      browserUp && pt.Some? && pt.value != "" && ParseFunction(pt.value).None? ==>
        o == Raised(NotCallable, false)
    ensures var pt := PatternOf(table, url);
      browserUp && pt.Some? && pt.value != "" && ParseFunction(pt.value).Some? ==>
        var s := scrape(ParseFunction(pt.value).value);
        && (s.ScrapeRaised? ==> o == Raised(s.message, s.stoneDeleted))
        && (s == Frames([]) ==> o == Raised(ImagesNotFound, true))
        && (s.Frames? && s.data != [] ==> o == Settled(SaveOutcomeOf(s.data, formatOf)))
    ensures var s := scrape(FromImage);
      browserUp && PatternOf(table, url) == Some("jaykar") && s.Frames? && s.data != []
      && (forall i :: 0 <= i < |s.data| ==> s.data[i].Buffer?) ==>
        o == Raised(ImageUnbound, false)
  {
    if !browserUp {
      return BrowserClosed;
    }
    var patternType := DefinePattern(table, url);
    if patternType.None? || patternType.value == "" {
      return Raised(PatternNotFound, true);
    }
    var parseFunction := ParseFunction(patternType.value);
    if parseFunction.None? {
      return Raised(NotCallable, false);
    }
    var scraped := scrape(parseFunction.value);
    if scraped.ScrapeRaised? {
      return Raised(scraped.message, scraped.stoneDeleted);
    }
    var images := scraped.data;
    if images == [] {
      return Raised(ImagesNotFound, true);
    }
    if patternType.value == "jaykar" && forall i | 0 <= i < |images| :: images[i].Buffer? {
      BuffersNeverSave(images, formatOf);
    }
    var saved := DecodeAndSave(images, formatOf);
    return Settled(saved);
  }

  // ---------------------------------------------------------------------
  // Frame file names of `decode_and_save_images`
  // ---------------------------------------------------------------------

  /** ASCII `str.lower` of one character. */
  function LowerChar(c: char): char
  {
    if 'A' <= c <= 'Z' then (c as int - 'A' as int + 'a' as int) as char else c
  }

  function Lower(s: string): (r: string)
    ensures |r| == |s| && forall i :: 0 <= i < |s| ==> r[i] == LowerChar(s[i])
  {
    if s == [] then [] else Lower(s[..|s| - 1]) + [LowerChar(s[|s| - 1])]
  }

  /** `format if format else "JPEG"`: PIL's format, JPEG when it reports none (or an empty one). */
  function FormatName(format: Option<string>): (f: string)
    ensures f != ""
    ensures format.Some? && format.value != "" ==> f == format.value
  {
    if format.Some? && format.value != "" then format.value else "JPEG"
  }

  /** `image_{i+1}.{format.lower()}`: the 0-based `i`-th frame gets the 1-based number `i + 1`. */
  function FrameName(i: nat, format: Option<string>): (name: string)
    ensures StartsWith(name, "image_") && |name| > |"image_"| + 1
  {
    "image_" + NatToString(i + 1) + "." + Lower(FormatName(format))
  }

  lemma {:induction false} NatToStringInjective(a: nat, b: nat)
    requires NatToString(a) == NatToString(b)
    ensures a == b
  {
    NatToStringValue(a);
    NatToStringValue(b);
  }

  /** The digits after `image_` in a frame name are the frame's number. */
  lemma FrameNameNumber(i: nat, f: Option<string>)
    ensures |FrameName(i, f)| >= 6 && LeadingDigits(FrameName(i, f)[6..]) == NatToString(i + 1)
  {
    var d, e := NatToString(i + 1), "." + Lower(FormatName(f));
    var a := FrameName(i, f);
    assert a == "image_" + (d + e);
    assert a[6..] == d + e;
    LeadingDigitsOf(d, e);
  }

  /** Two frames of one save never share a file name, whatever formats PIL reports. */
  lemma FrameNamesDistinct(i: nat, j: nat, f: Option<string>, g: Option<string>)
    requires i != j
    ensures FrameName(i, f) != FrameName(j, g)
  {
    var a, b := FrameName(i, f), FrameName(j, g);
    if a == b {
      FrameNameNumber(i, f);
      FrameNameNumber(j, g);
      NatToStringInjective(i + 1, j + 1);
    }
  }

  /** Lower-casing brings in no character other than a lower-case letter. */
  lemma LowerAvoids(s: string, c: char)
    requires !('A' <= c <= 'Z') && !('a' <= c <= 'z') && c !in s
    ensures c !in Lower(s)
  {
    forall k | 0 <= k < |s|
      ensures Lower(s)[k] != c
    {
      assert s[k] in s;
    }
  }

  /**
   * The chunk server reads the number back: a frame saved as
   * `<dir>/image_<i+1>.<ext>` is served with index text `i + 1`.
   */
  lemma SavedFrameIndex(dir: string, i: nat, f: Option<string>)
    requires var fmt := FormatName(f); '_' !in fmt && '.' !in fmt && '/' !in fmt
    ensures ChunkProcess.ItemIndex(dir + "/" + FrameName(i, f)) == NatToString(i + 1)
    ensures DigitsValue(ChunkProcess.ItemIndex(dir + "/" + FrameName(i, f))) == i + 1
  {
    var fmt := FormatName(f);
    var ext := Lower(fmt);
    LowerAvoids(fmt, '_');
    LowerAvoids(fmt, '.');
    LowerAvoids(fmt, '/');
    var k := NatToString(i + 1);
    FramePath(dir, i, f);
    ChunkProcess.ItemIndexOfFrameName(dir + "/", k, ext);
    NatToStringValue(i + 1);
  }

  lemma FramePath(dir: string, i: nat, f: Option<string>)
    ensures dir + "/" + FrameName(i, f) == dir + "/" + "image_" + NatToString(i + 1) + "." + Lower(FormatName(f))
  {
    var k, ext := NatToString(i + 1), Lower(FormatName(f));
    assert FrameName(i, f) == "image_" + k + "." + ext;
  }

  // ---------------------------------------------------------------------
  // `_parse_from_chunks`: structuring the captured JSON replies
  // ---------------------------------------------------------------------

  /** A decoded JSON value (numbers are integers). */
  datatype Json =
    | JNull
    | JBool(b: bool)
    | JInt(i: int)
    | JStr(s: string)
    | JArr(items: seq<Json>)
    | JObj(fields: map<string, Json>)

  /** Why structuring stops. */
  datatype StructureError =
    | NotIterable
      // `for item in json` on a number, boolean or null: a `TypeError`
    | StructuringError
      // a missing `data_index` or `image`, or an unhashable `data_index`
    | UnmodelledKey
      // a string or null `data_index`, which the model does not order

  /**
   * What `for item in json` visits, `None` when the value is not iterable.
   * Iterating an object yields its keys and a string its characters: never
   * dicts, so the object's keys are not listed.
   */
  function Elements(json: Json): (e: Option<seq<Json>>)
    ensures e.Some? <==> json.JArr? || json.JObj? || json.JStr?
    ensures json.JStr? ==> |e.value| == |json.s|
    ensures e.Some? && !json.JArr? ==> forall i :: 0 <= i < |e.value| ==> !e.value[i].JObj?
  {
    match json
    case JArr(items) => Some(items)
    case JObj(_) => Some([])
    case JStr(s) => Some(seq(|s|, i requires 0 <= i < |s| => JStr([s[i]])))
    case _ => None
  }

  /**
   * The dictionary key `item['data_index']` denotes: an integer, or a boolean,
   * which Python hashes and compares as 0 or 1.
   */
  function KeyOf(item: Json): (k: Option<int>)
    ensures k.Some? ==> item.JObj? && "data_index" in item.fields && "image" in item.fields
    ensures k.Some? ==> item.fields["data_index"] == JInt(k.value) || item.fields["data_index"].JBool?
  {
    if item.JObj? && "data_index" in item.fields && "image" in item.fields then
      match item.fields["data_index"]
      case JInt(k) => Some(k)
      case JBool(b) => Some(if b then 1 else 0)
      case _ => None
    else None
  }

  /** One item of the inner loop: dicts are stored under their `data_index`, the rest skipped. */
  function Absorb(m: map<int, Json>, item: Json): (r: Result<map<int, Json>, StructureError>)
    ensures r.Success? <==> !item.JObj? || KeyOf(item).Some?
    ensures r.Success? && item.JObj? ==> r.value == m[KeyOf(item).value := item.fields["image"]]
    ensures r.Success? && !item.JObj? ==> r.value == m
  {
    if !item.JObj? then Success(m)
    else if "data_index" !in item.fields || "image" !in item.fields then Failure(StructuringError)
    else match item.fields["data_index"]
      case JInt(k) => Success(m[k := item.fields["image"]])
      case JBool(b) => Success(m[(if b then 1 else 0) := item.fields["image"]])
      case JArr(_) => Failure(StructuringError)
      case JObj(_) => Failure(StructuringError)
      case _ => Failure(UnmodelledKey)
  }

  /** The inner loop over the items of one reply, from the dictionary `m`. */
  function AbsorbAll(m: map<int, Json>, items: seq<Json>): (r: Result<map<int, Json>, StructureError>)
    ensures r.Success? ==> m.Keys <= r.value.Keys
    ensures r.Success? ==> forall i :: 0 <= i < |items| ==> !items[i].JObj? || KeyOf(items[i]).Some?
    ensures r.Success? ==> forall k :: k in m && (forall i :: 0 <= i < |items| ==> KeyOf(items[i]) != Some(k)) ==>
      r.value[k] == m[k]
  {
    if items == [] then Success(m)
    else match AbsorbAll(m, items[..|items| - 1])
      case Failure(e) => Failure(e)
      case Success(m') => Absorb(m', items[|items| - 1])
  }

  /** `structured_data` after the outer loop over the captured replies. */
  function StructureAll(collection: seq<Json>): (r: Result<map<int, Json>, StructureError>)
    ensures r.Success? ==> forall i :: 0 <= i < |collection| ==> Elements(collection[i]).Some?
  {
    if collection == [] then Success(map[])
    else match StructureAll(collection[..|collection| - 1])
      case Failure(e) => Failure(e)
      case Success(m) =>
        match Elements(collection[|collection| - 1])
        case None => Failure(NotIterable)
        case Some(items) => AbsorbAll(m, items)
  }

  lemma NonEmptyHasMember(s: set<int>)
    requires s != {}
    ensures exists x :: x in s
  {
    if forall x :: x !in s {
      assert false;
    }
  }

  lemma {:induction false} LeastExists(s: set<int>)
    requires s != {}
    ensures exists x :: x in s && forall y :: y in s ==> x <= y
    decreases |s|
  {
    NonEmptyHasMember(s);
    var x :| x in s;
    var rest := s - {x};
    if rest == {} {
      forall y | y in s ensures x <= y {
        assert y == x || y in rest;
      }
    } else {
      assert |rest| == |s| - 1;
      LeastExists(rest);
      var w :| w in rest && forall y :: y in rest ==> w <= y;
      var m := if x < w then x else w;
      forall y | y in s ensures m <= y {
        assert y == x || y in rest;
      }
      assert m in s;
    }
  }

  /** The least element of a finite non-empty set. */
  function Least(s: set<int>): (x: int)
    requires s != {}
    ensures x in s && forall y :: y in s ==> x <= y
  {
    LeastExists(s);
    var x :| x in s && forall y :: y in s ==> x <= y;
    x
  }

  /** `sorted(keys)`: the keys in strictly ascending order. */
  function SortedKeys(s: set<int>): (r: seq<int>)
    ensures |r| == |s|
    ensures forall x :: x in s <==> x in r
    ensures forall i, j :: 0 <= i < j < |r| ==> r[i] < r[j]
    decreases |s|
  {
    if s == {} then []
    else
      var x := Least(s);
      assert |s - {x}| == |s| - 1;
      var rest := SortedKeys(s - {x});
      SortedCons(s, x, rest);
      [x] + rest
  }

  /** Putting the least key in front of the sorted other keys sorts them all. */
  lemma SortedCons(s: set<int>, x: int, rest: seq<int>)
    requires x in s && forall y :: y in s ==> x <= y
    requires |rest| == |s - {x}| && forall y :: y in s - {x} <==> y in rest
    requires forall i, j :: 0 <= i < j < |rest| ==> rest[i] < rest[j]
    ensures |[x] + rest| == |s|
    ensures forall y :: y in s <==> y in [x] + rest
    ensures forall i, j :: 0 <= i < j < |[x] + rest| ==> ([x] + rest)[i] < ([x] + rest)[j]
  {
    var r := [x] + rest;
    assert |s - {x}| == |s| - 1;
    forall y ensures y in s <==> y in r {
      assert y in r <==> y == x || y in rest;
    }
    forall i, j | 0 <= i < j < |r| ensures r[i] < r[j] {
      assert r[j] == rest[j - 1];
      assert rest[j - 1] in s - {x};
      if i > 0 {
        assert r[i] == rest[i - 1];
      }
    }
  }

  /** `[d[key] for key in sorted(d.keys())]`. */
  function ValuesByKey<V>(m: map<int, V>): (vs: seq<V>)
    ensures var keys := SortedKeys(m.Keys);
      |vs| == |keys| == |m| && forall i :: 0 <= i < |vs| ==> keys[i] in m && vs[i] == m[keys[i]]
  {
    var keys := SortedKeys(m.Keys);
    assert |keys| == |m.Keys| == |m|;
    ValuesAt(m, keys)
  }

  /** `[d[key] for key in keys]`. */
  function ValuesAt<V>(m: map<int, V>, keys: seq<int>): (vs: seq<V>)
    requires forall i :: 0 <= i < |keys| ==> keys[i] in m
    ensures |vs| == |keys| && forall i :: 0 <= i < |vs| ==> vs[i] == m[keys[i]]
  {
    seq(|keys|, i requires 0 <= i < |keys| => m[keys[i]])
  }

  /** The inner loop of `_parse_from_chunks` over the items of one reply. */
  method StructureReply(structuredData: map<int, Json>, items: seq<Json>)
      returns (r: Result<map<int, Json>, StructureError>)
    ensures r == AbsorbAll(structuredData, items)
  {
    var structured := structuredData;
    var j := 0;
    while j < |items|
      invariant 0 <= j <= |items|
      invariant AbsorbAll(structuredData, items[..j]) == Success(structured)
    {
      var item := items[j];
      assert items[..j + 1][..j] == items[..j];
      if item.JObj? {
        if "data_index" !in item.fields || "image" !in item.fields {
          AbsorbFailureSticks(structuredData, items, j + 1);
          return Failure(StructuringError);
        }
        match item.fields["data_index"] {
          case JInt(k) =>
            structured := structured[k := item.fields["image"]];
          case JBool(b) =>
            structured := structured[(if b then 1 else 0) := item.fields["image"]];
          case JArr(_) =>
            AbsorbFailureSticks(structuredData, items, j + 1);
            return Failure(StructuringError);
          case JObj(_) =>
            AbsorbFailureSticks(structuredData, items, j + 1);
            return Failure(StructuringError);
          case _ =>
            AbsorbFailureSticks(structuredData, items, j + 1);
            return Failure(UnmodelledKey);
        }
      }
      j := j + 1;
    }
    assert items[..j] == items;
    return Success(structured);
  }

  /**
   * The structuring step of `_parse_from_chunks`: walk every captured reply
   * and its items, keep each dict's `image` under its `data_index`, then
   * list the images by ascending index.
   */
  method StructureChunks(collection: seq<Json>) returns (r: Result<seq<Json>, StructureError>)
    ensures r.Failure? <==> StructureAll(collection).Failure?
    ensures r.Failure? ==> r.error == StructureAll(collection).error
    ensures r.Success? ==> r.value == ValuesByKey(StructureAll(collection).value)
  {
    var structured: map<int, Json> := map[];
    var n := 0;
    while n < |collection|
      invariant 0 <= n <= |collection|
      invariant StructureAll(collection[..n]) == Success(structured)
    {
      var json := collection[n];
      assert collection[..n + 1][..n] == collection[..n];
      var elements := Elements(json);
      if elements.None? {
        StructureFailureSticks(collection, n + 1);
        return Failure(NotIterable);
      }
      var reply := StructureReply(structured, elements.value);
      if reply.Failure? {
        StructureFailureSticks(collection, n + 1);
        return Failure(reply.error);
      }
      structured := reply.value;
      n := n + 1;
    }
    assert collection[..n] == collection;
    return Success(ValuesByKey(structured));
  }

  /** Once an item fails, the rest of the inner loop keeps the failure. */
  lemma {:induction false} AbsorbFailureSticks(m: map<int, Json>, items: seq<Json>, j: nat)
    requires j <= |items| && AbsorbAll(m, items[..j]).Failure?
    ensures AbsorbAll(m, items).Failure? && AbsorbAll(m, items).error == AbsorbAll(m, items[..j]).error
    decreases |items| - j
  {
    if j < |items| {
      assert items[..j + 1][..j] == items[..j];
      AbsorbFailureSticks(m, items, j + 1);
    } else {
      assert items[..j] == items;
    }
  }

  /** Once a reply fails, the rest of the outer loop keeps the failure. */
  lemma {:induction false} StructureFailureSticks(collection: seq<Json>, n: nat)
    requires n <= |collection| && StructureAll(collection[..n]).Failure?
    ensures StructureAll(collection).Failure?
    ensures StructureAll(collection).error == StructureAll(collection[..n]).error
    decreases |collection| - n
  {
    if n < |collection| {
      assert collection[..n + 1][..n] == collection[..n];
      StructureFailureSticks(collection, n + 1);
    } else {
      assert collection[..n] == collection;
    }
  }

  /** Every dict the inner loop met carried both `data_index` and `image`. */
  lemma {:induction false} AbsorbedDictsAreComplete(m: map<int, Json>, items: seq<Json>)
    requires AbsorbAll(m, items).Success?
    ensures forall i :: 0 <= i < |items| && items[i].JObj? ==>
      "data_index" in items[i].fields && "image" in items[i].fields
  {
    if items != [] {
      var init := items[..|items| - 1];
      AbsorbedDictsAreComplete(m, init);
      forall i | 0 <= i < |items| && items[i].JObj?
        ensures "data_index" in items[i].fields && "image" in items[i].fields
      {
        if i < |items| - 1 {
          assert items[i] == init[i];
        }
      }
    }
  }

  /** Only dicts contribute keys: the keys are the old ones and the dicts' `data_index` values. */
  lemma {:induction false} AbsorbedKeys(m: map<int, Json>, items: seq<Json>)
    requires AbsorbAll(m, items).Success?
    ensures forall k :: k in AbsorbAll(m, items).value <==>
      k in m || exists i :: 0 <= i < |items| && KeyOf(items[i]) == Some(k)
  {
    if items != [] {
      var init := items[..|items| - 1];
      var last := items[|items| - 1];
      AbsorbedKeys(m, init);
      forall k
        ensures k in AbsorbAll(m, items).value <==>
          k in m || exists i :: 0 <= i < |items| && KeyOf(items[i]) == Some(k)
      {
        if exists i :: 0 <= i < |items| && KeyOf(items[i]) == Some(k) {
          var i :| 0 <= i < |items| && KeyOf(items[i]) == Some(k);
          if i < |items| - 1 {
            assert KeyOf(init[i]) == Some(k);
          }
        }
        if exists i :: 0 <= i < |init| && KeyOf(init[i]) == Some(k) {
          var i :| 0 <= i < |init| && KeyOf(init[i]) == Some(k);
          assert KeyOf(items[i]) == Some(k);
        }
      }
    }
  }

  /** A later dict with the same `data_index` overwrites an earlier one: the last one's image is kept. */
  lemma {:induction false} LastItemWins(m: map<int, Json>, items: seq<Json>, i: nat)
    requires i < |items| && KeyOf(items[i]).Some?
    requires forall j :: i < j < |items| ==> KeyOf(items[j]) != KeyOf(items[i])
    requires AbsorbAll(m, items).Success?
    ensures KeyOf(items[i]).value in AbsorbAll(m, items).value
    ensures AbsorbAll(m, items).value[KeyOf(items[i]).value] == items[i].fields["image"]
  {
    var init := items[..|items| - 1];
    var last := items[|items| - 1];
    var k := KeyOf(items[i]).value;
    if i < |items| - 1 {
      assert init[i] == items[i];
      LastItemWins(m, init, i);
      assert KeyOf(last) != Some(k);
    }
  }

  /** The items of every reply, one reply after another. */
  function Flattened(collection: seq<Json>): seq<Json>
    requires forall i :: 0 <= i < |collection| ==> Elements(collection[i]).Some?
  {
    if collection == [] then []
    else Flattened(collection[..|collection| - 1]) + Elements(collection[|collection| - 1]).value
  }

  /** The inner loop over `a + b` is the loop over `a` followed by the loop over `b`. */
  lemma {:induction false} AbsorbAllAppend(m: map<int, Json>, a: seq<Json>, b: seq<Json>)
    ensures AbsorbAll(m, a + b) ==
      match AbsorbAll(m, a)
      case Failure(e) => Failure(e)
      case Success(m') => AbsorbAll(m', b)
    decreases |b|
  {
    if b == [] {
      assert a + b == a;
    } else {
      var init := b[..|b| - 1];
      AbsorbAllAppend(m, a, init);
      assert (a + b)[..|a + b| - 1] == a + init;
      assert (a + b)[|a + b| - 1] == b[|b| - 1];
    }
  }

  /**
   * When every reply is iterable, the outer loop over the replies is one
   * inner loop over all their items, from an empty dictionary.
   */
  lemma {:induction false} StructureAllFlat(collection: seq<Json>)
    requires forall i :: 0 <= i < |collection| ==> Elements(collection[i]).Some?
    ensures StructureAll(collection) == AbsorbAll(map[], Flattened(collection))
    decreases |collection|
  {
    if collection != [] {
      var init := collection[..|collection| - 1];
      StructureAllFlat(init);
      AbsorbAllAppend(map[], Flattened(init), Elements(collection[|collection| - 1]).value);
    }
  }

  /** The keys of `structured_data` are the `data_index` keys of the dicts of all replies. */
  lemma StructuredKeys(collection: seq<Json>)
    requires StructureAll(collection).Success?
    ensures var items := Flattened(collection);
      forall k :: k in StructureAll(collection).value <==>
        exists i :: 0 <= i < |items| && KeyOf(items[i]) == Some(k)
  {
    StructureAllFlat(collection);
    AbsorbedKeys(map[], Flattened(collection));
  }

  /** Across replies too, the last dict with a given `data_index` supplies its image. */
  lemma LastReplyWins(collection: seq<Json>, i: nat)
    requires StructureAll(collection).Success?
    requires var items := Flattened(collection);
      && i < |items| && KeyOf(items[i]).Some?
      && forall j :: i < j < |items| ==> KeyOf(items[j]) != KeyOf(items[i])
    ensures var items := Flattened(collection);
      && KeyOf(items[i]).value in StructureAll(collection).value
      && StructureAll(collection).value[KeyOf(items[i]).value] == items[i].fields["image"]
  {
    StructureAllFlat(collection);
    LastItemWins(map[], Flattened(collection), i);
  }

  // ---------------------------------------------------------------------
  // `_log_response_jaykar` and `_parse_from_image`
  // ---------------------------------------------------------------------

  type Bytes = seq<bv8>

  /** One intercepted response: its `content-type` header (`''` when absent), URL and body. */
  datatype Response = Response(contentType: string, url: string, buffer: Bytes)

  /** The content type names one of the three image formats. */
  predicate ImageContentType(contentType: string)
    ensures ImageContentType(contentType) ==> |contentType| >= |"image/jpg"|
  {
    Contains(contentType, "image/jpeg") || Contains(contentType, "image/webp") || Contains(contentType, "image/jpg")
  }

  /** `url.split('/')[-1]`: the text after the last `/`. */
  function LastSegment(url: string): (f: string)
    ensures EndsWith(url, f) && '/' !in f
  {
    var k := LastIndexOf(url, '/');
    var f := url[k + 1..];
    assert forall j :: 0 <= j < |f| ==> f[j] != '/' by {
      forall j | 0 <= j < |f|
        ensures f[j] != '/'
      {
        assert f[j] == url[k + 1 + j];
      }
    }
    f
  }

  /** The maximal run of ASCII digits at the front of `s`. */
  function LeadingDigits(s: string): (d: string)
    ensures StartsWith(s, d) && AllDigits(d)
    ensures |d| < |s| ==> !IsDigit(s[|d|])
  {
    if s == [] || !IsDigit(s[0]) then []
    else [s[0]] + LeadingDigits(s[1..])
  }

  /**
   * `re.match(r'^(\d+).*\.(jpeg|webp|jpg)$', filename)` and `int` of group 1.
   * `$` also matches before one final newline and `.` matches anything but a
   * newline; since `.*` can swallow digits, the pattern matches exactly when
   * the maximal digit run is followed by a newline-free rest that ends in one
   * of the extensions, and group 1 is that maximal run.
   */
  function FrameNumber(filename: string): (k: Option<nat>)
    ensures k.Some? ==> 0 < |filename| && IsDigit(filename[0])
    ensures k.Some? ==> '\n' !in Chomped(filename)[|LeadingDigits(Chomped(filename))|..]
  {
    var body := Chomped(filename);
    var digits := LeadingDigits(body);
    if digits != [] && ImageTail(body[|digits|..]) then Some(DigitsValue(digits)) else None
  }

  /** The text `$` is matched against: one final newline is left out. */
  function Chomped(s: string): string
  {
    if s != [] && s[|s| - 1] == '\n' then s[..|s| - 1] else s
  }

  /** `.*\.(jpeg|webp|jpg)` matches the whole of `rest`. */
  predicate ImageTail(rest: string)
  {
    '\n' !in rest && (EndsWith(rest, ".jpeg") || EndsWith(rest, ".webp") || EndsWith(rest, ".jpg"))
  }

  /** The extensions the pattern's group 2 accepts. */
  predicate Extension(e: string)
  {
    e == "jpeg" || e == "webp" || e == "jpg"
  }

  /**
   * One way `^(\d+).*\.(jpeg|webp|jpg)$` can match `f`: group 1 is `d`,
   * `.*` takes `x`, group 2 is `e`, and `$` sits at the end or before a
   * final newline.
   */
  predicate FramePattern(f: string, d: string, x: string, e: string)
  {
    && d != [] && AllDigits(d) && '\n' !in x && Extension(e)
    && (f == d + x + "." + e || f == d + x + "." + e + "\n")
  }

  /** The leading digit run stops at the first non-digit. */
  lemma {:induction false} DigitRunStopsAt(s: string, k: nat)
    requires k < |s| && !IsDigit(s[k])
    ensures |LeadingDigits(s)| <= k
    decreases k
  {
    if IsDigit(s[0]) {
      DigitRunStopsAt(s[1..], k - 1);
    }
  }

  /** The leading digit run covers every digit prefix. */
  lemma {:induction false} DigitRunCovers(s: string, d: string)
    requires StartsWith(s, d) && AllDigits(d)
    ensures |LeadingDigits(s)| >= |d|
    decreases |d|
  {
    if d != [] {
      assert s[0] == d[0];
      DigitRunCovers(s[1..], d[1..]);
    }
  }

  /** A digit prefix that cannot be extended is the one `LeadingDigits` takes. */
  lemma LeadingDigitsUnique(s: string, d: string)
    requires StartsWith(s, d) && AllDigits(d)
    requires |d| < |s| ==> !IsDigit(s[|d|])
    ensures LeadingDigits(s) == d
  {
    var run := LeadingDigits(s);
    DigitRunCovers(s, d);
    if |d| < |s| {
      DigitRunStopsAt(s, |d|);
    }
    assert run == s[..|run|] == s[..|d|] == d;
  }

  /** `$` before a final newline: the text the pattern is matched against. */
  lemma ChompedPattern(f: string, d: string, x: string, e: string)
    requires FramePattern(f, d, x, e)
    ensures Chomped(f) == d + x + "." + e
  {
    var body := d + x + "." + e;
    assert body[|body| - 1] == e[|e| - 1] != '\n';
    if f == body + "\n" {
      assert f[..|f| - 1] == body;
    }
  }

  /** What follows position `k` of `d + x + tail`, for `k` within `x`'s span, is newline-free and ends in `tail`. */
  lemma TailAfterRun(body: string, d: string, x: string, tail: string, k: nat)
    requires body == d + x + tail && '\n' !in x && '\n' !in tail
    requires |d| <= k <= |d| + |x|
    ensures '\n' !in body[k..] && EndsWith(body[k..], tail)
  {
    var rest := body[k..];
    forall i | 0 <= i < |rest|
      ensures rest[i] != '\n'
    {
      var j := k + i;
      assert rest[i] == body[j];
      if j < |d| + |x| {
        assert body[j] == x[j - |d|];
      } else {
        assert body[j] == tail[j - |d| - |x|];
      }
    }
    assert rest[|rest| - |tail|..] == tail;
  }

  /** `\.(jpeg|webp|jpg)$` at the end of a newline-free rest. */
  lemma ImageTailOf(rest: string, e: string)
    requires Extension(e) && '\n' !in rest && EndsWith(rest, "." + e)
    ensures ImageTail(rest)
  {
    if e == "jpeg" {
      assert "." + e == ".jpeg";
    } else if e == "webp" {
      assert "." + e == ".webp";
    } else {
      assert "." + e == ".jpg";
    }
  }

  /**
   * In the text `d + x + "." + e` the pattern is matched against, the digit
   * run covers `d`, stops before the dot, and leaves a rest that `ImageTail` accepts.
   */
  lemma DigitRunOfPattern(body: string, d: string, x: string, e: string)
    requires body == d + x + "." + e
    requires d != [] && AllDigits(d) && '\n' !in x && Extension(e)
    ensures var run := LeadingDigits(body);
      run != [] && |run| < |body| && ImageTail(body[|run|..])
  {
    var tail := "." + e;
    assert body == d + x + tail;
    DotExtension(e);
    RunBeforeTail(body, d, x, tail);
    var run := LeadingDigits(body);
    TailAfterRun(body, d, x, tail, |run|);
    ImageTailOf(body[|run|..], e);
  }

  /** `\.(jpeg|webp|jpg)` starts with the dot and holds no newline. */
  lemma DotExtension(e: string)
    requires Extension(e)
    ensures var tail := "." + e; tail != [] && tail[0] == '.' && '\n' !in tail
  {
  }

  /** In `d + x + tail`, with `tail` starting with a non-digit, the digit run ends inside `x`'s span. */
  lemma RunBeforeTail(body: string, d: string, x: string, tail: string)
    requires body == d + x + tail && AllDigits(d)
    requires tail != [] && !IsDigit(tail[0])
    ensures |d| <= |LeadingDigits(body)| <= |d| + |x|
  {
    var dot := |d| + |x|;
    assert body[dot] == tail[0];
    DigitRunStopsAt(body, dot);
    assert body[..|d|] == d;
    DigitRunCovers(body, d);
  }

  /** A newline after the matched text does not change the digit run. */
  lemma LeadingDigitsOfChomped(f: string)
    requires |LeadingDigits(Chomped(f))| < |Chomped(f)|
    ensures LeadingDigits(f) == LeadingDigits(Chomped(f))
  {
    var body := Chomped(f);
    var run := LeadingDigits(body);
    assert f[..|body|] == body;
    assert f[..|run|] == body[..|run|];
    assert f[|run|] == body[|run|];
    LeadingDigitsUnique(f, run);
  }

  /** Whenever the pattern matches, `FrameNumber` finds the number of the whole leading digit run. */
  lemma FrameNumberOfPattern(f: string, d: string, x: string, e: string)
    requires FramePattern(f, d, x, e)
    ensures FrameNumber(f) == Some(DigitsValue(LeadingDigits(f)))
  {
    ChompedPattern(f, d, x, e);
    DigitRunOfPattern(Chomped(f), d, x, e);
    LeadingDigitsOfChomped(f);
  }

  /** `$` sits at the end of the name or before its one final newline. */
  lemma ChompedCases(f: string)
    ensures f == Chomped(f) || f == Chomped(f) + "\n"
  {
    if f != [] && f[|f| - 1] == '\n' {
      assert f == f[..|f| - 1] + "\n";
    }
  }

  /** Group 2 of a rest that `ImageTail` accepts. */
  lemma ExtensionOfTail(rest: string) returns (e: string)
    requires ImageTail(rest)
    ensures Extension(e) && EndsWith(rest, "." + e)
  {
    if EndsWith(rest, ".jpeg") {
      e := "jpeg";
      assert "." + e == ".jpeg";
    } else if EndsWith(rest, ".webp") {
      e := "webp";
      assert "." + e == ".webp";
    } else {
      e := "jpg";
      assert "." + e == ".jpg";
    }
  }

  /** What `.*` takes: the newline-free rest before the tail. */
  lemma SplitTail(rest: string, tail: string) returns (x: string)
    requires '\n' !in rest && EndsWith(rest, tail)
    ensures rest == x + tail && '\n' !in x
  {
    x := rest[..|rest| - |tail|];
    NewlineFreePrefix(rest, x);
    assert rest == x + rest[|rest| - |tail|..];
  }

  /** A name `FrameNumber` accepts is matched by the pattern. */
  lemma FrameNumberHasPattern(f: string) returns (d: string, x: string, e: string)
    requires FrameNumber(f).Some?
    ensures FramePattern(f, d, x, e)
  {
    var body := Chomped(f);
    d := LeadingDigits(body);
    var rest := body[|d|..];
    assert d != [] && ImageTail(rest);
    e := ExtensionOfTail(rest);
    x := SplitTail(rest, "." + e);
    assert body == d + rest;
    ChompedCases(f);
    PatternOfParts(f, body, d, rest, x, e);
  }

  lemma NewlineFreePrefix(s: string, p: string)
    requires '\n' !in s && StartsWith(s, p)
    ensures '\n' !in p
  {
    forall i | 0 <= i < |p|
      ensures p[i] != '\n'
    {
      assert p[i] == s[i];
    }
  }

  lemma PatternOfParts(f: string, body: string, d: string, rest: string, x: string, e: string)
    requires body == d + rest && rest == x + ("." + e) && (f == body || f == body + "\n")
    requires d != [] && AllDigits(d) && '\n' !in x && Extension(e)
    ensures FramePattern(f, d, x, e)
  {
    assert d + x + "." + e == d + (x + ("." + e));
  }


  /**
   * `re.match(r'^(\d+).*\.(jpeg|webp|jpg)$', filename)`: `FrameNumber` finds
   * a number exactly when the pattern matches, and the number is that of the
   * name's whole leading digit run (group 1 is greedy).
   */
  lemma FrameNumberMatches(f: string)
    ensures FrameNumber(f).Some? <==> exists d, x, e :: FramePattern(f, d, x, e)
    ensures FrameNumber(f).Some? ==> FrameNumber(f).value == DigitsValue(LeadingDigits(f))
  {
    if FrameNumber(f).Some? {
      var d, x, e := FrameNumberHasPattern(f);
      FrameNumberOfPattern(f, d, x, e);
    } else if exists d, x, e :: FramePattern(f, d, x, e) {
      var d, x, e :| FramePattern(f, d, x, e);
      FrameNumberOfPattern(f, d, x, e);
    }
  }

  /** The index a response is filed under, `None` when the callback ignores it. */
  function JaykarKey(r: Response): (k: Option<nat>)
    ensures k.Some? ==> ImageContentType(r.contentType)
  {
    if ImageContentType(r.contentType) then FrameNumber(LastSegment(r.url)) else None
  }

  /** What the callback keeps of one response: the index it is filed under, and its body. */
  datatype Capture = Capture(key: Option<nat>, buffer: Bytes)

  function CaptureOf(r: Response): Capture
  {
    Capture(JaykarKey(r), r.buffer)
  }

  /** The collection after one capture: a new index is stored, a known one left alone. */
  function Store(collection: map<int, Bytes>, c: Capture): (m: map<int, Bytes>)
    ensures forall k :: k in collection ==> k in m && m[k] == collection[k]
    ensures c.key.None? ==> m == collection
    ensures c.key.Some? ==> m.Keys == collection.Keys + {c.key.value}
    ensures c.key.Some? && c.key.value !in collection ==> m[c.key.value] == c.buffer
  {
    if c.key.None? || c.key.value in collection then collection
    else collection[c.key.value := c.buffer]
  }

  /** The collection after one response. */
  function Logged(collection: map<int, Bytes>, r: Response): (c: map<int, Bytes>)
    ensures forall k :: k in collection ==> k in c && c[k] == collection[k]
    ensures JaykarKey(r).None? ==> c == collection
    ensures JaykarKey(r).Some? ==> c.Keys == collection.Keys + {JaykarKey(r).value}
    ensures JaykarKey(r).Some? && JaykarKey(r).value !in collection ==> c[JaykarKey(r).value] == r.buffer
  {
    Store(collection, CaptureOf(r))
  }

  /** The collection after the captures of a run of responses, in arrival order. */
  function StoredAll(collection: map<int, Bytes>, cs: seq<Capture>): map<int, Bytes>
    decreases |cs|
  {
    if cs == [] then collection else StoredAll(Store(collection, cs[0]), cs[1..])
  }

  /** `jaykar_collection` of `_parse_from_image`, filled by `_log_response_jaykar`. */
  class JaykarCollector {
    var collection: map<int, Bytes>

    constructor ()
      ensures collection == map[]
    {
      collection := map[];
    }

    /** `_log_response_jaykar(response)`. */
    method LogResponse(r: Response)
      modifies this
      ensures collection == Logged(old(collection), r)
    {
      if ImageContentType(r.contentType) {
        var filename := LastSegment(r.url);
        var imageIndex := FrameNumber(filename);
        if imageIndex.Some? {
          if imageIndex.value !in collection {
            collection := collection[imageIndex.value := r.buffer];
          } else {
            return;
          }
        }
      }
    }

    /** The end of `_parse_from_image`: the stored bodies in ascending index order. */
    method Images() returns (images: seq<Bytes>)
      ensures var keys := SortedKeys(collection.Keys);
        && |images| == |collection|
        && forall i :: 0 <= i < |images| ==> keys[i] in collection && images[i] == collection[keys[i]]
    {
      images := ValuesByKey(collection);
    }
  }

  /** The first response filed under an index is the one kept; later ones change nothing. */
  lemma {:induction false} FirstResponseKept(collection: map<int, Bytes>, cs: seq<Capture>, i: nat)
    requires i < |cs| && cs[i].key.Some?
    requires cs[i].key.value !in collection
    requires forall j :: 0 <= j < i ==> cs[j].key != cs[i].key
    ensures cs[i].key.value in StoredAll(collection, cs)
    ensures StoredAll(collection, cs)[cs[i].key.value] == cs[i].buffer
    decreases i
  {
    var next := Store(collection, cs[0]);
    if i == 0 {
      KnownKeysKept(next, cs[1..]);
    } else {
      assert cs[1..][i - 1] == cs[i];
      FirstResponseKept(next, cs[1..], i - 1);
    }
  }

  /** A stored body is never replaced. */
  lemma {:induction false} KnownKeysKept(collection: map<int, Bytes>, cs: seq<Capture>)
    ensures forall k :: k in collection ==> k in StoredAll(collection, cs) && StoredAll(collection, cs)[k] == collection[k]
    decreases |cs|
  {
    if cs != [] {
      KnownKeysKept(Store(collection, cs[0]), cs[1..]);
    }
  }

  lemma {:induction false} LeadingDigitsOf(d: string, t: string)
    requires AllDigits(d) && (t == [] || !IsDigit(t[0]))
    ensures LeadingDigits(d + t) == d
    decreases |d|
  {
    if d != [] {
      assert (d + t)[1..] == d[1..] + t;
      LeadingDigitsOf(d[1..], t);
    } else {
      assert d + t == t;
    }
  }

  lemma ImageTailOfExtension(ext: string)
    requires ext == "jpeg" || ext == "webp" || ext == "jpg"
    ensures ImageTail("." + ext) && '/' !in "." + ext
  {
    var e := "." + ext;
    assert forall i :: 0 <= i < |e| ==> e[i] != '\n' && e[i] != '/';
    if ext == "jpeg" {
      assert e[|e| - 5..] == ".jpeg";
    } else if ext == "webp" {
      assert e[|e| - 5..] == ".webp";
    } else {
      assert e[|e| - 4..] == ".jpg";
    }
  }

  /** A file named `<n>.<ext>` with one of the three extensions is filed under `n`. */
  lemma FrameNumberOfName(n: nat, ext: string)
    requires ext == "jpeg" || ext == "webp" || ext == "jpg"
    ensures FrameNumber(NatToString(n) + "." + ext) == Some(n)
  {
    var d, e := NatToString(n), "." + ext;
    var f := d + e;
    assert f == NatToString(n) + "." + ext;
    assert f[|f| - 1] == e[|e| - 1] != '\n';
    assert Chomped(f) == f;
    LeadingDigitsOf(d, e);
    assert f[|d|..] == e;
    ImageTailOfExtension(ext);
    NatToStringValue(n);
  }

  /** The file name is what follows the last `/`. */
  lemma LastSegmentOf(prefix: string, name: string)
    requires '/' !in name
    ensures LastSegment(prefix + "/" + name) == name
  {
    var url := prefix + "/" + name;
    assert url == prefix + ['/'] + name;
    LastIndexOfAfterMark(prefix, '/', name);
    assert url[|prefix| + 1..] == name;
  }

  lemma FrameFileHasNoSlash(n: nat, ext: string)
    requires ext == "jpeg" || ext == "webp" || ext == "jpg"
    ensures '/' !in NatToString(n) + "." + ext
  {
    var d, e := NatToString(n), "." + ext;
    var name := d + e;
    ImageTailOfExtension(ext);
    forall i | 0 <= i < |name|
      ensures name[i] != '/'
    {
      if i < |d| {
        assert name[i] == d[i] && IsDigit(d[i]);
      } else {
        assert name[i] == e[i - |d|];
      }
    }
    assert name == NatToString(n) + "." + ext;
  }

  /** The URL `<prefix>/<n>.<ext>` of an image response is filed under `n`. */
  lemma JaykarKeyOfUrl(contentType: string, prefix: string, n: nat, ext: string, body: Bytes)
    requires ImageContentType(contentType)
    requires ext == "jpeg" || ext == "webp" || ext == "jpg"
    ensures JaykarKey(Response(contentType, prefix + "/" + (NatToString(n) + "." + ext), body)) == Some(n)
  {
    FrameFileHasNoSlash(n, ext);
    LastSegmentOf(prefix, NatToString(n) + "." + ext);
    FrameNumberOfName(n, ext);
  }

  lemma {:induction false} DigitsValueLeadingZero(d: string)
    requires AllDigits(d)
    ensures DigitsValue("0" + d) == DigitsValue(d)
    decreases |d|
  {
    if d != [] {
      var z := "0" + d;
      assert z[..|z| - 1] == "0" + d[..|d| - 1];
      DigitsValueLeadingZero(d[..|d| - 1]);
    }
  }

  /**
   * Leading zeros are dropped by `int`: `007.jpg` and `7.jpg` are filed
   * under the same index, so only the first of them is kept.
   */
  lemma LeadingZeroCollides(f: string)
    requires f != [] && IsDigit(f[0])
    ensures FrameNumber("0" + f) == FrameNumber(f)
  {
    var body := Chomped(f);
    ChompedAfterZero(f);
    var d := LeadingDigits(body);
    var gbody := "0" + body;
    assert LeadingDigits(gbody) == "0" + d by {
      assert gbody[1..] == body;
    }
    assert gbody[|d| + 1..] == body[|d|..];
    DigitsValueLeadingZero(d);
  }

  /** A leading `0` is left alone when the final newline is dropped. */
  lemma ChompedAfterZero(f: string)
    requires f != [] && IsDigit(f[0])
    ensures Chomped("0" + f) == "0" + Chomped(f)
    ensures Chomped(f) != [] && Chomped(f)[0] == f[0]
  {
    var g := "0" + f;
    assert g[|g| - 1] == f[|f| - 1];
    if f[|f| - 1] == '\n' {
      assert g[..|g| - 1] == "0" + f[..|f| - 1];
    }
  }

  /**
   * The waiting loop of `_parse_from_image`: `sizeAt(t)` is the size of the
   * collection when it is checked after `t` one-second sleeps.  The loop
   * stops as soon as 256 images are in, and after 1000 sleeps otherwise.
   */
  method Poll(sizeAt: nat -> nat) returns (elapsed: nat)
    ensures elapsed <= 1000
    ensures elapsed < 1000 ==> sizeAt(elapsed) >= 256
    ensures forall t :: 0 <= t < elapsed ==> sizeAt(t) < 256
  {
    var totalTimeout := 1000;
    elapsed := 0;
    while elapsed < totalTimeout
      invariant elapsed <= totalTimeout
      invariant forall t :: 0 <= t < elapsed ==> sizeAt(t) < 256
    {
      if sizeAt(elapsed) >= 256 {
        break;
      }
      elapsed := elapsed + 1;
    }
  }
}
