/**
 * The cookie-string reading shared by `getToken` (ajax.ts) and
 * `ParserHandle.getCookie` (handle.ts): split `document.cookie` on `;`, trim
 * each piece, and take the rest of the first piece that begins with `name=`.
 * This reads the `cookie-string` of section 4.2.1 of RFC 6265
 * (`cookie-pair *( ";" SP cookie-pair )`); `CookieLookupOfHeader` proves that
 * on such a string it finds the first pair of that name.
 */
module Cookies {
  import opened Common

  /** The exception `decodeURIComponent` throws on a malformed escape. */
  datatype UriError = UriError

  // ---------------------------------------------------------------------------
  // String.prototype.split(';')

  /** `s.split(';')`: the pieces between semicolons, at least one. */
  function Split(s: string): (ps: seq<string>)
    ensures |ps| >= 1
    ensures forall i :: 0 <= i < |ps| ==> ';' !in ps[i]
    decreases |s|
  {
    if s == [] then [""]
    else if s[0] == ';' then [""] + Split(s[1..])
    else
      var rest := Split(s[1..]);
      [[s[0]] + rest[0]] + rest[1..]
  }

  /** The inverse of `Split`: the pieces with a `;` between neighbours. */
  function Join(ps: seq<string>): (s: string)
    requires |ps| >= 1
    ensures StartsWith(s, ps[0])
    ensures |ps| > 1 ==> ';' in s
    decreases |ps|
  {
    if |ps| == 1 then ps[0] else ps[0] + ";" + Join(ps[1..])
  }

  /** Nothing is lost by splitting: joining the pieces gives back the string. */
  lemma {:induction false} JoinSplit(s: string)
    ensures Join(Split(s)) == s
    decreases |s|
  {
    if s != [] {
      JoinSplit(s[1..]);
      var rest := Split(s[1..]);
      if s[0] == ';' {
        assert Split(s) == [""] + rest;
        assert Split(s)[1..] == rest;
        assert s == [s[0]] + s[1..];
      } else {
        var ps := Split(s);
        assert ps == [[s[0]] + rest[0]] + rest[1..];
        if |rest| == 1 {
          assert ps[0] == [s[0]] + s[1..];
        } else {
          assert ps[1..] == rest[1..];
          assert Join(rest) == rest[0] + ";" + Join(rest[1..]);
          assert s == [s[0]] + s[1..];
        }
      }
    }
  }

  /** A first piece without `;` is glued to the first piece of what follows it. */
  lemma {:induction false} SplitPrefix(p: string, t: string)
    requires ';' !in p
    ensures Split(p + t) == [p + Split(t)[0]] + Split(t)[1..]
    decreases |p|
  {
    var ps := Split(t);
    if p != [] {
      SplitPrefix(p[1..], t);
      assert p[0] != ';' by {
        assert p[0] in p;
      }
      assert (p + t)[1..] == p[1..] + t;
      var rest := Split(p[1..] + t);
      assert rest[0] == p[1..] + ps[0] && rest[1..] == ps[1..];
      assert [p[0]] + (p[1..] + ps[0]) == p + ps[0];
    } else {
      assert p + t == t && p + ps[0] == ps[0];
      assert ps == [ps[0]] + ps[1..];
    }
  }

  /** Splitting pieces that hold no `;` after joining them gives back the pieces. */
  lemma {:induction false} SplitJoin(ps: seq<string>)
    requires |ps| >= 1
    requires forall i :: 0 <= i < |ps| ==> ';' !in ps[i]
    ensures Split(Join(ps)) == ps
    decreases |ps|
  {
    if |ps| == 1 {
      SplitPrefix(ps[0], "");
      assert ps[0] + "" == ps[0];
    } else {
      var t := Join(ps[1..]);
      SplitJoin(ps[1..]);
      var u := ";" + t;
      assert u[0] == ';' && u[1..] == t;
      assert Split(u) == [""] + ps[1..];
      SplitPrefix(ps[0], u);
      assert Join(ps) == ps[0] + u;
      assert ps[0] + "" == ps[0];
      assert ([""] + ps[1..])[1..] == ps[1..];
      assert ps == [ps[0]] + ps[1..];
    }
  }

  // ---------------------------------------------------------------------------
  // String.prototype.trim()

  /** ECMAScript's WhiteSpace and LineTerminator code points, which `trim` removes. */
  predicate IsJsSpace(c: char) {
    || c == '\t' || c == '\n' || c == '\U{B}' || c == '\U{C}' || c == '\r' || c == ' '
    || c == '\U{A0}' || c == '\U{1680}' || ('\U{2000}' <= c <= '\U{200A}')
    || c == '\U{2028}' || c == '\U{2029}' || c == '\U{202F}' || c == '\U{205F}'
    || c == '\U{3000}' || c == '\U{FEFF}'
  }

  function TrimStart(s: string): (r: string)
    ensures |r| <= |s| && r == s[|s| - |r|..]
    ensures forall i :: 0 <= i < |s| - |r| ==> IsJsSpace(s[i])
    ensures r != [] ==> !IsJsSpace(r[0])
    decreases |s|
  {
    if s != [] && IsJsSpace(s[0]) then TrimStart(s[1..]) else s
  }

  function TrimEnd(s: string): (r: string)
    ensures |r| <= |s| && r == s[..|r|]
    ensures forall i :: |r| <= i < |s| ==> IsJsSpace(s[i])
    ensures r != [] ==> !IsJsSpace(r[|r| - 1])
    decreases |s|
  {
    if s != [] && IsJsSpace(s[|s| - 1]) then TrimEnd(s[..|s| - 1]) else s
  }

  /** `s.trim()`. */
  function Trim(s: string): (t: string)
    ensures |t| <= |s|
    ensures t != [] ==> !IsJsSpace(t[0]) && !IsJsSpace(t[|t| - 1])
  {
    TrimEnd(TrimStart(s))
  }

  /** The space after `;` in a cookie string is trimmed away. */
  lemma TrimLeadingSpace(x: string)
    ensures Trim(" " + x) == Trim(x)
  {
    assert (" " + x)[1..] == x;
  }

  /** A string that neither starts nor ends with white space is its own trim. */
  lemma TrimUnchanged(s: string)
    requires s != [] && !IsJsSpace(s[0]) && !IsJsSpace(s[|s| - 1])
    ensures Trim(s) == s
  {
  }

  // ---------------------------------------------------------------------------
  // The match test and the lookup

  /** `s.substring(0, k)` for `k >= 0`: the end index is clamped to the length. */
  function Prefix(s: string, k: nat): (r: string)
    ensures |r| == if k <= |s| then k else |s|
    ensures r == s[..|r|]
  {
    if k <= |s| then s[..k] else s
  }

  /** `cookie.substring(0, name.length + 1) === (name + '=')`. */
  predicate Matches(cookie: string, name: string)
    ensures Matches(cookie, name) ==> |name| < |cookie| && cookie[|name|] == '='
  {
    Prefix(cookie, |name| + 1) == name + "="
  }

  /** The test is exactly "the piece starts with `name=`". */
  lemma MatchesIsPrefix(cookie: string, name: string)
    ensures Matches(cookie, name) <==> StartsWith(cookie, name + "=")
  {
  }

  /**
   * With `=` in neither name, the piece `n=v` matches `name` only when `n` is
   * `name`: `csrftokenX=1` does not match `csrftoken`, nor `csrf=1`.
   */
  lemma MatchesOnlyItsName(n: string, v: string, name: string)
    requires '=' !in n && '=' !in name
    ensures Matches(n + "=" + v, name) <==> n == name
  {
    var piece := n + "=" + v;
    if Matches(piece, name) {
      var rest := piece[|name| + 1..];
      assert piece == piece[..|name| + 1] + rest;
      IndexOfEqAfter(name, rest);
      IndexOfEqAfter(n, v);
      assert piece[..|name|] == n;
    }
    if n == name {
      assert piece[..|name| + 1] == name + "=";
    }
  }

  /** The position of the first `=` in `s`, or `|s|` when there is none. */
  function IndexOfEq(s: string): (k: nat)
    ensures k <= |s|
    decreases |s|
  {
    if s == [] || s[0] == '=' then 0 else 1 + IndexOfEq(s[1..])
  }

  /** In `n=rest` with no `=` in `n`, the first `=` is the one after `n`. */
  lemma {:induction false} IndexOfEqAfter(n: string, rest: string)
    requires '=' !in n
    ensures IndexOfEq(n + "=" + rest) == |n|
    decreases |n|
  {
    var s := n + "=" + rest;
    if n == [] {
      assert s[0] == '=';
    } else {
      assert s[0] == n[0] && s[1..] == n[1..] + "=" + rest;
      IndexOfEqAfter(n[1..], rest);
    }
  }

  /** The position of the first piece whose trim matches, or -1. */
  function FirstMatch(pieces: seq<string>, name: string): (k: int)
    ensures -1 <= k < |pieces|
    ensures k >= 0 ==> Matches(Trim(pieces[k]), name)
    ensures forall j :: 0 <= j < |pieces| && (k < 0 || j < k) ==> !Matches(Trim(pieces[j]), name)
    decreases |pieces|
  {
    if pieces == [] then -1
    else if Matches(Trim(pieces[0]), name) then 0
    else
      var k := FirstMatch(pieces[1..], name);
      assert forall j :: 1 <= j < |pieces| ==> pieces[j] == pieces[1..][j - 1];
      if k < 0 then -1 else k + 1
  }

  /**
   * The still-encoded value the lookup finds: the rest of the first matching
   * piece after `name=`, or `None` when no piece matches.
   */
  function Lookup(pieces: seq<string>, name: string): (v: Option<string>)
    ensures v.None? <==> FirstMatch(pieces, name) < 0
    decreases |pieces|
  {
    if pieces == [] then None
    else if Matches(Trim(pieces[0]), name) then Some(Trim(pieces[0])[|name| + 1..])
    else Lookup(pieces[1..], name)
  }

  /** The lookup answers from the first matching piece, and only when there is one. */
  lemma {:induction false} LookupIsFirstMatch(pieces: seq<string>, name: string)
    ensures var k := FirstMatch(pieces, name);
      Lookup(pieces, name) == if k < 0 then None else Some(Trim(pieces[k])[|name| + 1..])
    decreases |pieces|
  {
    if pieces != [] && !Matches(Trim(pieces[0]), name) {
      LookupIsFirstMatch(pieces[1..], name);
    }
  }

  /** One step of a left-to-right walk over the pieces. */
  lemma LookupStep(pieces: seq<string>, i: nat, name: string)
    requires i < |pieces|
    ensures Matches(Trim(pieces[i]), name) ==> |Trim(pieces[i])| >= |name| + 1
    ensures Lookup(pieces[i..], name)
         == if Matches(Trim(pieces[i]), name) then Some(Trim(pieces[i])[|name| + 1..])
            else Lookup(pieces[i + 1..], name)
  {
    assert pieces[i..][0] == pieces[i] && pieces[i..][1..] == pieces[i + 1..];
  }

  /** The lookup on a whole cookie string. */
  function CookieLookup(cookie: string, name: string): (v: Option<string>)
    ensures v.None? <==> forall p :: p in Split(cookie) ==> !Matches(Trim(p), name)
  {
    LookupIsFirstMatch(Split(cookie), name);
    Lookup(Split(cookie), name)
  }

  /** An empty cookie string holds nothing, so the guard on it changes no result. */
  lemma EmptyCookieHoldsNothing(name: string)
    ensures CookieLookup("", name) == None
  {
    assert Split("") == [""] && Trim("") == "";
    assert !Matches("", name);
    LookupCons("", [], name);
    assert [""] + [] == [""];
  }

  // ---------------------------------------------------------------------------
  // RFC 6265 cookie strings

  datatype CookiePair = CookiePair(name: string, value: string)

  /** A `cookie-name` as far as the lookup cares: no `;`, `=` or white space, not empty. */
  predicate ValidName(n: string) {
    n != [] && forall i :: 0 <= i < |n| ==> n[i] != ';' && n[i] != '=' && !IsJsSpace(n[i])
  }

  /** A `cookie-value` as far as the lookup cares: no `;` or white space. */
  predicate ValidValue(v: string) {
    forall i :: 0 <= i < |v| ==> v[i] != ';' && !IsJsSpace(v[i])
  }

  predicate ValidPair(p: CookiePair) {
    ValidName(p.name) && ValidValue(p.value)
  }

  predicate ValidPairs(pairs: seq<CookiePair>) {
    forall i :: 0 <= i < |pairs| ==> ValidPair(pairs[i])
  }

  /** The `cookie-pair` text `name=value`. */
  function Text(p: CookiePair): string {
    p.name + "=" + p.value
  }

  /** The `cookie-string` of the pairs: `n1=v1; n2=v2; ...`. */
  function Header(pairs: seq<CookiePair>): string
    requires |pairs| >= 1
    decreases |pairs|
  {
    if |pairs| == 1 then Text(pairs[0]) else Text(pairs[0]) + "; " + Header(pairs[1..])
  }

  /** The value of the first pair called `name`. */
  function PairLookup(pairs: seq<CookiePair>, name: string): Option<string>
    decreases |pairs|
  {
    if pairs == [] then None
    else if pairs[0].name == name then Some(pairs[0].value)
    else PairLookup(pairs[1..], name)
  }

  /** The pieces `split(';')` makes of a header: each pair's text, all but the first after a space. */
  function Pieces(pairs: seq<CookiePair>, lead: string): seq<string>
    decreases |pairs|
  {
    if pairs == [] then [] else [lead + Text(pairs[0])] + Pieces(pairs[1..], " ")
  }

  /** A valid pair's text holds no `;`. */
  lemma TextHasNoSemicolon(p: CookiePair)
    requires ValidPair(p)
    ensures ';' !in Text(p)
  {
    var s := Text(p);
    forall i | 0 <= i < |s|
      ensures s[i] != ';'
    {
      if i < |p.name| {
        assert s[i] == p.name[i];
      } else if i > |p.name| {
        assert s[i] == p.value[i - |p.name| - 1];
      }
    }
  }

  /** A valid pair's text is its own trim and matches only its own name. */
  lemma PairPiece(p: CookiePair, name: string)
    requires ValidPair(p) && ValidName(name)
    ensures Trim(Text(p)) == Text(p)
    ensures Matches(Text(p), name) <==> p.name == name
    ensures Text(p)[|p.name| + 1..] == p.value
  {
    var s := Text(p);
    assert s[0] == p.name[0];
    if p.value == [] {
      assert s[|s| - 1] == '=';
    } else {
      assert s[|s| - 1] == p.value[|p.value| - 1];
    }
    TrimUnchanged(s);
    MatchesOnlyItsName(p.name, p.value, name);
  }

  /** Splitting a header (after `lead`) gives its pieces. */
  lemma {:induction false} SplitHeader(pairs: seq<CookiePair>, lead: string)
    requires |pairs| >= 1 && ';' !in lead
    requires forall i :: 0 <= i < |pairs| ==> ';' !in Text(pairs[i])
    ensures Split(lead + Header(pairs)) == Pieces(pairs, lead)
    decreases |pairs|
  {
    var s := lead + Text(pairs[0]);
    assert ';' !in s by {
      assert ';' !in Text(pairs[0]);
    }
    if |pairs| == 1 {
      SplitPrefix(s, "");
      assert lead + Header(pairs) == s + "";
      assert Pieces(pairs[1..], " ") == [];
    } else {
      var t := Header(pairs[1..]);
      SplitHeader(pairs[1..], " ");
      var u := ";" + (" " + t);
      assert lead + Header(pairs) == s + u;
      assert u[0] == ';' && u[1..] == " " + t;
      assert Split(u) == [""] + Pieces(pairs[1..], " ");
      SplitPrefix(s, u);
      assert s + "" == s;
    }
  }

  /** Looking a name up in the pieces of valid pairs finds its first pair. */
  lemma {:induction false} LookupPieces(pairs: seq<CookiePair>, lead: string, name: string)
    requires ValidPairs(pairs) && ValidName(name)
    requires lead == "" || lead == " "
    ensures Lookup(Pieces(pairs, lead), name) == PairLookup(pairs, name)
    decreases |pairs|
  {
    if pairs != [] {
      var p := pairs[0];
      PairPiece(p, name);
      if lead == " " {
        TrimLeadingSpace(Text(p));
      } else {
        assert lead + Text(p) == Text(p);
      }
      assert Pieces(pairs, lead) == [lead + Text(p)] + Pieces(pairs[1..], " ");
      assert Trim(lead + Text(p)) == Text(p);
      LookupCons(lead + Text(p), Pieces(pairs[1..], " "), name);
      if p.name != name {
        assert ValidPairs(pairs[1..]);
        LookupPieces(pairs[1..], " ", name);
      }
    }
  }

  /** The lookup takes the first piece when it matches and looks further otherwise. */
  lemma LookupCons(first: string, tail: seq<string>, name: string)
    ensures Lookup([first] + tail, name)
         == if Matches(Trim(first), name) then Some(Trim(first)[|name| + 1..]) else Lookup(tail, name)
  {
    assert ([first] + tail)[1..] == tail;
  }

  /**
   * On a well-formed cookie string the lookup returns the value of the first
   * pair with the requested name, and nothing when no pair has it.
   */
  lemma CookieLookupOfHeader(pairs: seq<CookiePair>, name: string)
    requires |pairs| >= 1 && ValidPairs(pairs) && ValidName(name)
    ensures CookieLookup(Header(pairs), name) == PairLookup(pairs, name)
  {
    forall i | 0 <= i < |pairs|
      ensures ';' !in Text(pairs[i])
    {
      TextHasNoSemicolon(pairs[i]);
    }
    SplitHeader(pairs, "");
    assert "" + Header(pairs) == Header(pairs);
    LookupPieces(pairs, "", name);
  }
}
