/** `CookieToHeaderJWTMiddleware`: before the rest of the stack sees a request,
    a non-empty `access_token` cookie becomes an `Authorization` header in the
    `Bearer <token>` credential form of section 2.1 of RFC 6750, unless the
    request already carries that header. */
module CookieMiddleware {

  const AuthorizationKey: string := "HTTP_AUTHORIZATION"
  const AccessCookie: string := "access_token"

  /** The request's WSGI environ (`META`) with the header added when the
      rewrite applies. */
  function Rewritten(meta: map<string, string>, cookies: map<string, string>): map<string, string>
  {
    if AuthorizationKey !in meta && AccessCookie in cookies && cookies[AccessCookie] != "" then
      meta[AuthorizationKey := "Bearer " + cookies[AccessCookie]]
    else
      meta
  }

  /** An existing `Authorization` header is never modified, whatever the cookies. */
  lemma ExistingHeaderKept(meta: map<string, string>, cookies: map<string, string>)
    requires AuthorizationKey in meta
    ensures Rewritten(meta, cookies) == meta
  {
  }

  /** Without the header, a non-empty cookie yields exactly `Bearer <token>`. */
  lemma HeaderFromCookie(meta: map<string, string>, cookies: map<string, string>)
    requires AuthorizationKey !in meta && AccessCookie in cookies && cookies[AccessCookie] != ""
    ensures AuthorizationKey in Rewritten(meta, cookies)
    ensures Rewritten(meta, cookies)[AuthorizationKey] == "Bearer " + cookies[AccessCookie]
  {
  }

  /** Without the header, a missing or empty cookie leaves `META` as it was. */
  lemma NoCookieNoChange(meta: map<string, string>, cookies: map<string, string>)
    requires AuthorizationKey !in meta
    requires AccessCookie !in cookies || cookies[AccessCookie] == ""
    ensures Rewritten(meta, cookies) == meta
  {
  }

  /** No key other than `HTTP_AUTHORIZATION` appears, disappears or changes. */
  lemma OnlyAuthorizationChanges(meta: map<string, string>, cookies: map<string, string>, k: string)
    requires k != AuthorizationKey
    ensures k in Rewritten(meta, cookies) <==> k in meta
    ensures k in meta ==> Rewritten(meta, cookies)[k] == meta[k]
  {
  }

  /** Rewriting a rewritten request changes nothing more. */
  lemma RewriteIdempotent(meta: map<string, string>, cookies: map<string, string>)
    ensures Rewritten(Rewritten(meta, cookies), cookies) == Rewritten(meta, cookies)
  {
  }

  /** The part of a Django request the middleware touches. */
  class HttpRequest {
    var meta: map<string, string>
    var cookies: map<string, string>

    constructor (meta: map<string, string>, cookies: map<string, string>)
      ensures this.meta == meta && this.cookies == cookies
    {
      this.meta := meta;
      this.cookies := cookies;
    }
  }

  /** The middleware; `handled` records the requests passed on to
      `get_response`, the rest of the stack, which is not part of this model. */
  class CookieToHeaderJWTMiddleware {
    var handled: seq<HttpRequest>

    constructor ()
      ensures handled == []
    {
      handled := [];
    }

    /** `__call__`: rewrite `request.META` in place, then hand the same request
        to `get_response` exactly once. */
    method Call(request: HttpRequest)
      modifies this, request
      ensures request.meta == Rewritten(old(request.meta), old(request.cookies))
      ensures request.cookies == old(request.cookies)
      ensures handled == old(handled) + [request]
    {
      if AuthorizationKey !in request.meta {
        if AccessCookie in request.cookies {
          var token := request.cookies[AccessCookie];
          if token != "" {
            request.meta := request.meta[AuthorizationKey := "Bearer " + token];
          }
        }
      }
      handled := handled + [request];
    }
  }
}
