/**
 * The identity provider's callback route. A link carrying a `token` of type `recovery` is a
 * password reset: the token is verified and the user goes to set a new password, or back to the
 * login page with a recovery error. Otherwise a `code` is exchanged for a session and the user
 * goes to `next` or the dashboard. Anything else lands on the login page with an auth error.
 *
 * The two provider calls' outcomes are inputs. The redirect is the text handed to
 * `new URL(…, origin)`.
 */
module AuthCallback {
  import opened Wrappers
  import Filters

  /** A call the route makes to the identity provider. */
  datatype AuthCall = VerifyRecovery(tokenHash: string) | ExchangeCode(code: string)

  /** The calls the route made and where it redirects. */
  datatype CallbackResult = CallbackResult(calls: seq<AuthCall>, redirect: string)

  /** A query value that is present and not empty, which is what `if (value)` accepts. */
  predicate Truthy(v: Option<string>) {
    v.Some? && v.value != ""
  }

  /** The route handler over the query's parameters, in order, and the outcomes of the two calls. */
  function HandleCallback(params: seq<(string, string)>, verifyOk: bool, exchangeOk: bool): (r: CallbackResult)
    ensures |r.calls| <= 1
    ensures r.redirect in {"/update-password", "/login?error=recovery", "/dashboard", "/login?error=auth"}
            || Filters.Lookup(params, "next") == Some(r.redirect)
  {
    var code := Filters.Lookup(params, "code");
    var next := Filters.Lookup(params, "next");
    var token := Filters.Lookup(params, "token");
    var kind := Filters.Lookup(params, "type");
    if Truthy(token) && kind == Some("recovery") then
      CallbackResult([VerifyRecovery(token.value)], if verifyOk then "/update-password" else "/login?error=recovery")
    else if Truthy(code) then
      CallbackResult([ExchangeCode(code.value)], if exchangeOk then (if next.Some? then next.value else "/dashboard") else "/login?error=auth")
    else
      CallbackResult([], "/login?error=auth")
  }

  /** A recovery token is handled first: the code is not exchanged even when present. */
  lemma RecoveryComesFirst(params: seq<(string, string)>, verifyOk: bool, exchangeOk: bool)
    requires Truthy(Filters.Lookup(params, "token")) && Filters.Lookup(params, "type") == Some("recovery")
    ensures var r := HandleCallback(params, verifyOk, exchangeOk);
      && r.calls == [VerifyRecovery(Filters.Lookup(params, "token").value)]
      && r.redirect == (if verifyOk then "/update-password" else "/login?error=recovery")
  {
  }

  /** Without a recovery token, a code that is exchanged leads to `next`, or to the dashboard when it is absent. */
  lemma CodeLeadsToNext(params: seq<(string, string)>, verifyOk: bool)
    requires !(Truthy(Filters.Lookup(params, "token")) && Filters.Lookup(params, "type") == Some("recovery"))
    requires Truthy(Filters.Lookup(params, "code"))
    ensures var r := HandleCallback(params, verifyOk, true);
      && r.calls == [ExchangeCode(Filters.Lookup(params, "code").value)]
      && r.redirect == (if Filters.Lookup(params, "next").Some? then Filters.Lookup(params, "next").value else "/dashboard")
  {
  }

  /**
   * Every other case ends on the login page with an auth error: a failed exchange, or no
   * code, including a token whose type is not `recovery`.
   */
  lemma OtherwiseAuthError(params: seq<(string, string)>, verifyOk: bool, exchangeOk: bool)
    requires !(Truthy(Filters.Lookup(params, "token")) && Filters.Lookup(params, "type") == Some("recovery"))
    requires !Truthy(Filters.Lookup(params, "code")) || !exchangeOk
    ensures HandleCallback(params, verifyOk, exchangeOk).redirect == "/login?error=auth"
    ensures !Truthy(Filters.Lookup(params, "code")) ==> HandleCallback(params, verifyOk, exchangeOk).calls == []
  {
  }

  /** The outcome of a call the route did not make has no effect. */
  lemma UnmadeCallsDoNotMatter(params: seq<(string, string)>, verifyOk: bool, exchangeOk: bool, verifyOk': bool, exchangeOk': bool)
    ensures Truthy(Filters.Lookup(params, "token")) && Filters.Lookup(params, "type") == Some("recovery") ==>
      HandleCallback(params, verifyOk, exchangeOk) == HandleCallback(params, verifyOk, exchangeOk')
    ensures !(Truthy(Filters.Lookup(params, "token")) && Filters.Lookup(params, "type") == Some("recovery")) ==>
      HandleCallback(params, verifyOk, exchangeOk) == HandleCallback(params, verifyOk', exchangeOk)
  {
  }

  /** A password-reset link whose code also appears is still a reset, and a failure there is a recovery error. */
  lemma ResetLinkWithCode()
    ensures HandleCallback([("code", "c"), ("token", "t"), ("type", "recovery")], false, true)
      == CallbackResult([VerifyRecovery("t")], "/login?error=recovery")
    ensures HandleCallback([("token", "t"), ("type", "signup")], true, true) == CallbackResult([], "/login?error=auth")
  {
    var p := [("code", "c"), ("token", "t"), ("type", "recovery")];
    assert p[1..][1..] == [("type", "recovery")];
    var q := [("token", "t"), ("type", "signup")];
    assert q[1..][1..] == [];
  }
}
