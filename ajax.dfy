/**
 * site/core/static/scripts/src/ajax.ts: `getToken` and the `ajax` wrapper.
 *
 * `decodeURIComponent` is a parameter: `None` stands for the `URIError` it
 * throws on a malformed escape.  The module-level `currentController` is a
 * field of `AjaxState`; `fetch` and `response.json()` are one parameter that
 * says whether they succeeded and with what body.
 */
module Ajax {
  import opened Common
  import opened Cookies

  /** The cookie `ajax` sends back as its `X-CSRFToken` header. */
  const CsrfCookie: string := "csrftoken"

  /** What `getToken(name)` returns, or the error it throws. */
  function TokenOf(cookie: string, name: string, decode: string -> Option<string>): (t: Result<string, UriError>)
    ensures CookieLookup(cookie, name).None? ==> t == Success("")
    ensures t.Failure? ==> CookieLookup(cookie, name).Some? && decode(CookieLookup(cookie, name).value).None?
  {
    match CookieLookup(cookie, name)
    case None => Success("")
    case Some(raw) => if decode(raw).None? then Failure(UriError) else Success(decode(raw).value)
  }

  /**
   * `getToken`: on a non-empty cookie string, walk the `;`-separated pieces,
   * trim each, and decode the rest of the first one that starts with `name=`;
   * `''` when the string is empty or nothing matches.
   */
  method GetToken(cookie: string, name: string, decode: string -> Option<string>) returns (r: Result<string, UriError>)
    ensures r == TokenOf(cookie, name, decode)
  {
    var cookieValue := "";
    if cookie == "" {
      EmptyCookieHoldsNothing(name);
      return Success(cookieValue);
    }
    var cookies := Split(cookie);
    var i := 0;
    while i < |cookies|
      invariant 0 <= i <= |cookies|
      invariant Lookup(cookies, name) == Lookup(cookies[i..], name)
    {
      var piece := Trim(cookies[i]);
      LookupStep(cookies, i, name);
      if Matches(piece, name) {
        var decoded := decode(piece[|name| + 1..]);
        if decoded.None? {
          return Failure(UriError);
        }
        cookieValue := decoded.value;
        return Success(cookieValue);
      }
      i := i + 1;
    }
    assert cookies[i..] == [];
    return Success(cookieValue);
  }

  /** On a well-formed cookie string the token is the value of the first `name` pair, decoded. */
  lemma TokenOfHeader(pairs: seq<CookiePair>, name: string, decode: string -> Option<string>)
    requires |pairs| >= 1 && ValidPairs(pairs) && ValidName(name)
    ensures PairLookup(pairs, name).None? ==> TokenOf(Header(pairs), name, decode) == Success("")
    ensures PairLookup(pairs, name).Some? && decode(PairLookup(pairs, name).value).Some? ==>
      TokenOf(Header(pairs), name, decode) == Success(decode(PairLookup(pairs, name).value).value)
  {
    CookieLookupOfHeader(pairs, name);
  }

  /** An `AbortController`. */
  class Controller {
    var aborted: bool

    constructor ()
      ensures !aborted
    {
      aborted := false;
    }
  }

  /** How `fetch` and `response.json()` end for one call. */
  datatype Exchange<T> =
    | NetworkFailure        // `fetch` rejects (including an abort)
    | Received(body: Option<T>)
      // `None` when `response.json()` rejects

  /** The module state of ajax.ts. */
  class AjaxState {
    var currentController: Controller?

    constructor ()
      ensures currentController == null
    {
      currentController := null;
    }

    /**
     * The start of `ajax(url, data, abort)`: a fresh controller becomes
     * current; the previous one is aborted only when `abort` is set.
     */
    method SwitchController(abort: bool)
      modifies this, currentController
      ensures fresh(currentController) && !currentController.aborted
      ensures old(currentController) != null && abort ==> old(currentController).aborted
      ensures old(currentController) != null && !abort ==>
        old(currentController).aborted == old(currentController.aborted)
    {
      var controller := new Controller();
      if currentController != null && abort {
        currentController.aborted := true;
      }
      currentController := controller;
    }

    /** `ajax(url, data, abort)`: switch the controller, then send inside the `try`. */
    method Call<T>(abort: bool, cookie: string, decode: string -> Option<string>, exchange: Exchange<T>)
        returns (token: Option<string>, r: Option<T>)
      modifies this, currentController
      ensures fresh(currentController) && !currentController.aborted
      ensures old(currentController) != null && abort ==> old(currentController).aborted
      ensures var t := TokenOf(cookie, CsrfCookie, decode);
        token == (if t.Failure? then None else Some(t.value))
      ensures r == (if token.None? || exchange.NetworkFailure? then None else exchange.body)
    {
      SwitchController(abort);
      token, r := Send(cookie, decode, exchange);
    }
  }

  /**
   * The `try` block of `ajax`: compute the CSRF header, then fetch and decode
   * the JSON body.  Any exception, a `URIError` from `getToken` included,
   * resolves the call to `undefined` (`None`).  `token` is the header sent,
   * `None` when no request went out.
   */
  method Send<T>(cookie: string, decode: string -> Option<string>, exchange: Exchange<T>)
      returns (token: Option<string>, r: Option<T>)
    ensures var t := TokenOf(cookie, CsrfCookie, decode);
      token == (if t.Failure? then None else Some(t.value))
    ensures r == (if token.None? || exchange.NetworkFailure? then None else exchange.body)
  {
    var header := GetToken(cookie, CsrfCookie, decode);
    if header.Failure? {
      return None, None;
    }
    token := Some(header.value);
    if exchange.NetworkFailure? {
      return token, None;
    }
    r := exchange.body;
  }
}
