/**
 * `ParserHandle` of site/core/static/scripts/src/handle.ts: the parse form.
 *
 * The submit button and the result link are values the handler replaces;
 * the alerts it inserts are kept as a log (their removal after five seconds
 * is a timer and is left out).  The awaited `fetch` and `response.json()` are
 * one parameter saying how the request ended.
 */
module Handle {
  import opened Common
  import opened Cookies
  import Ajax

  datatype Button = Button(disabled: bool, caption: string)

  /** The result link: `disabled` is the presence of the `disabled` class. */
  datatype Link = Link(disabled: bool, href: string)

  datatype Alert = Alert(message: string, kind: string)

  /** The JSON body of the parse request. */
  datatype Request = Request(url: string, csrfHeader: string, certificate: string, pageUrl: string, model: string)

  /** How the awaited request ends. */
  datatype Reply =
    | Threw                                   // `fetch` or `response.json()` rejected
    | Replied(status: string, message: string)

  /** What `getCookie(name)` returns (`None` for `null`), or the error it throws. */
  function CookieOf(cookie: string, name: string, decode: string -> Option<string>): (r: Result<Option<string>, UriError>)
    ensures r == Success(None) <==> CookieLookup(cookie, name).None?
    ensures r.Failure? ==> CookieLookup(cookie, name).Some? && decode(CookieLookup(cookie, name).value).None?
  {
    match CookieLookup(cookie, name)
    case None => Success(None)
    case Some(raw) => if decode(raw).None? then Failure(UriError) else Success(Some(decode(raw).value))
  }

  /** `getCookie` and `getToken` differ only in the value for a missing cookie: `null` against `''`. */
  lemma CookieOfAgreesWithToken(cookie: string, name: string, decode: string -> Option<string>)
    ensures CookieOf(cookie, name, decode).Failure? <==> Ajax.TokenOf(cookie, name, decode).Failure?
    ensures CookieOf(cookie, name, decode) == Success(None) ==> Ajax.TokenOf(cookie, name, decode) == Success("")
    ensures forall v :: CookieOf(cookie, name, decode) == Success(Some(v)) ==>
      Ajax.TokenOf(cookie, name, decode) == Success(v)
  {
    var found := CookieLookup(cookie, name);
    assert CookieOf(cookie, name, decode) == match found
      case None => Success(None)
      case Some(raw) => if decode(raw).None? then Failure(UriError) else Success(Some(decode(raw).value));
    assert Ajax.TokenOf(cookie, name, decode) == match found
      case None => Success("")
      case Some(raw) => if decode(raw).None? then Failure(UriError) else Success(decode(raw).value);
  }

  /** The header value `fetch` sends for the stored token: `null` is sent as the text `null`. */
  function CsrfHeader(csrf: Option<string>): (h: string)
    ensures csrf.Some? ==> h == csrf.value
  {
    if csrf.None? then "null" else csrf.value
  }

  class ParserHandle {
    /** The `value` of the `#api` element. */
    const api: string
    /** `getCookie('csrftoken')` as read by the constructor. */
    const csrf: Option<string>
    const pathList: map<string, string>
    var button: Button
    var link: Link
    var alerts: seq<Alert>

    /** `_pathList` names the two endpoints under the API root. */
    predicate Valid()
      reads this
    {
      pathList == map["parse" := api + "/v360/parse/handle/", "get" := api + "/v360/get/"]
    }

    /**
     * The constructor with the token `getCookie` read; a `URIError` thrown by
     * `getCookie` aborts it, so no form handler is installed.
     */
    constructor (api: string, csrf: Option<string>, button: Button, link: Link)
      ensures Valid() && this.api == api && this.csrf == csrf
      ensures this.button == button && this.link == link && alerts == []
    {
      this.api := api;
      this.csrf := csrf;
      pathList := map["parse" := api + "/v360/parse/handle/", "get" := api + "/v360/get/"];
      this.button := button;
      this.link := link;
      alerts := [];
    }

    /** `loadingView`. */
    method LoadingView(loading: bool)
      modifies this`button
      ensures loading ==> button == Button(true, "Parsing...")
      ensures !loading ==> button == Button(false, "Parse")
    {
      if loading {
        button := Button(true, "Parsing...");
      } else {
        button := Button(false, "Parse");
      }
    }

    /** `linkView`. */
    method LinkView(disabled: bool, target: string)
      modifies this`link
      ensures disabled ==> link == Link(true, "#")
      ensures !disabled ==> link == Link(false, target)
    {
      if disabled {
        link := Link(true, "#");
      } else {
        link := Link(false, target);
      }
    }

    /** `alertView`: insert one alert. */
    method AlertView(message: string, kind: string)
      modifies this`alerts
      ensures alerts == old(alerts) + [Alert(message, kind)]
    {
      alerts := alerts + [Alert(message, kind)];
    }

    /**
     * The submit listener of `formHandler`: show the busy state and disable
     * the link, send the request, then report the reply.  Only a `success`
     * status enables the link, on the `get` path of the certificate; whatever
     * happens, the `finally` block leaves the button enabled.
     */
    method Submit(certificate: string, pageUrl: string, reply: Reply) returns (request: Request)
      requires Valid()
      modifies this`button, this`link, this`alerts
      ensures request == Request(api + "/v360/parse/handle/", CsrfHeader(csrf), certificate, pageUrl, "white")
      ensures button == Button(false, "Parse")
      ensures !link.disabled <==> reply.Replied? && reply.status == "success"
      ensures link == (if reply.Replied? && reply.status == "success" then Link(false, api + "/v360/get/" + certificate)
                       else Link(true, "#"))
      ensures reply.Threw? ==> alerts == old(alerts) + [Alert("Parse error", "danger")]
      ensures reply.Replied? && reply.status == "success" ==> alerts == old(alerts) + [Alert("Parse success", "success")]
      ensures reply.Replied? && reply.status != "success" ==> alerts == old(alerts) + [Alert(reply.message, "danger")]
    {
      LoadingView(true);
      LinkView(true, "");
      request := Request(pathList["parse"], CsrfHeader(csrf), certificate, pageUrl, "white");
      match reply {
        case Threw =>
          LoadingView(false);
          AlertView("Parse error", "danger");
        case Replied(status, message) =>
          if status == "success" {
            AlertView("Parse success", "success");
            LinkView(false, pathList["get"] + certificate);
          } else {
            LoadingView(false);
            AlertView(message, "danger");
          }
      }
      LoadingView(false);
    }

    /**
     * `getCookie`: on a non-empty cookie string, walk the `;`-separated
     * pieces, trim each, and decode the rest of the first one that starts
     * with `name=`; `null` when the string is empty or nothing matches.
     */
    method GetCookie(cookie: string, name: string, decode: string -> Option<string>)
        returns (r: Result<Option<string>, UriError>)
      ensures r == CookieOf(cookie, name, decode)
    {
      var cookieValue: Option<string> := None;
      if cookie == "" {
        EmptyCookieHoldsNothing(name);
        return Success(cookieValue);
      }
      var cookies := Split(cookie);
      var i := 0;
      while i < |cookies|
        invariant 0 <= i <= |cookies|
        invariant Lookup(cookies, name) == Lookup(cookies[i..], name)
      {
        var piece := Trim(cookies[i]);
        LookupStep(cookies, i, name);
        if Matches(piece, name) {
          var decoded := decode(piece[|name| + 1..]);
          if decoded.None? {
            return Failure(UriError);
          }
          cookieValue := Some(decoded.value);
          return Success(cookieValue);
        }
        i := i + 1;
      }
      assert cookies[i..] == [];
      return Success(cookieValue);
    }
  }

  /** On a well-formed cookie string `getCookie` finds the first pair of the name, and `null` without one. */
  lemma CookieOfHeader(pairs: seq<CookiePair>, name: string, decode: string -> Option<string>)
    requires |pairs| >= 1 && ValidPairs(pairs) && ValidName(name)
    ensures PairLookup(pairs, name).None? <==> CookieOf(Header(pairs), name, decode) == Success(None)
  {
    CookieLookupOfHeader(pairs, name);
  }
}
