/**
 * Sessions and logins (`src/core/auth.js`): the session and status that
 * `setSession` moves between and the notifications it fires, the lazy
 * expiry in `getSession`, the login attempts kept in `DM.Auth._active`,
 * how an OAuth response is matched to its attempt, and the popup monitor
 * that finalises attempts.
 *
 * The clock, the popup windows and the event bus are outside the model:
 * the time is a `now` argument in milliseconds, a window is a number that
 * names it, which windows the user has closed is an argument, and every
 * notification, cookie write, log line, popup, window close and callback
 * is recorded in order in a trace.
 */
module Auth {
  import opened JsValues
  import opened QS
  import opened Prelude
  import opened Cookie

  // ---------------------------------------------------------------------
  // State and observable effects

  /** The notifications `setSession` fires on `DM.Event`. */
  datatype AuthEvent = AuthStatusChange | AuthLogout | AuthLogin | AuthSessionChange

  /** `{session: ..., status: ...}`: what `setSession` returns and hands to every listener. */
  datatype Response = Response(session: Session, status: string)

  /** Something the outside world can observe, in the order it happens. */
  datatype Effect =
    | CookieWrite(stored: Session)
    | Fire(event: AuthEvent, response: Response)
    | Log(message: string)
    | OpenPopup(url: string)
    | CloseWindow(win: nat)
    | Callback(cb: nat, response: Response, perms: Value)

  /** An entry of `DM.Auth._active`: the callback of the login, its popup
      (gone once the window was found closed) and the OAuth response once
      one has been received. */
  datatype Attempt = Attempt(cb: nat, win: Option<nat>, response: Option<Dict>)

  /** `DM._session`, `DM._userStatus`, `DM.Auth._active` with its keys in
      insertion order (the order `for (var id in ...)` visits them), and the
      trace of effects so far. */
  datatype State = State(session: Session, status: string, active: map<string, Attempt>,
                         order: seq<string>, trace: seq<Effect>)

  predicate Distinct(ids: seq<string>) {
    forall i, j :: 0 <= i < j < |ids| ==> ids[i] != ids[j]
  }

  /** `order` lists the keys of `active`, each once. */
  ghost predicate Consistent(s: State) {
    Distinct(s.order) && forall k :: k in s.active <==> k in s.order
  }

  /** `order` without `id`. */
  function Remove(ids: seq<string>, id: string): (r: seq<string>)
    ensures forall k :: k in r <==> k in ids && k != id
  {
    if ids == [] then []
    else if ids[0] == id then Remove(ids[1..], id)
    else [ids[0]] + Remove(ids[1..], id)
  }

  lemma {:induction false} RemoveDistinct(ids: seq<string>, id: string)
    requires Distinct(ids)
    ensures Distinct(Remove(ids, id))
  {
    if ids != [] {
      assert Distinct(ids[1..]) by {
        forall i, j | 0 <= i < j < |ids[1..]| ensures ids[1..][i] != ids[1..][j] {
          assert ids[1..][i] == ids[i + 1] && ids[1..][j] == ids[j + 1];
        }
      }
      RemoveDistinct(ids[1..], id);
      if ids[0] != id {
        assert ids[0] !in ids[1..] by {
          forall i | 0 <= i < |ids[1..]| ensures ids[1..][i] != ids[0] {
            assert ids[1..][i] == ids[i + 1];
          }
        }
        var rest := Remove(ids[1..], id);
        forall i, j | 0 <= i < j < |[ids[0]] + rest| ensures ([ids[0]] + rest)[i] != ([ids[0]] + rest)[j] {
          if i == 0 {
            assert ([ids[0]] + rest)[j] == rest[j - 1];
          } else {
            assert ([ids[0]] + rest)[i] == rest[i - 1] && ([ids[0]] + rest)[j] == rest[j - 1];
          }
        }
      }
    }
  }

  /** `order` after an assignment to `_active[id]`: a new key goes last, an existing one keeps its place. */
  function AddKey(ids: seq<string>, id: string): (r: seq<string>)
    ensures forall k :: k in r <==> k in ids || k == id
    ensures Distinct(ids) ==> Distinct(r)
  {
    if id in ids then ids else ids + [id]
  }

  // ---------------------------------------------------------------------
  // `setSession`

  /** The flags `setSession` computes before it changes anything. */
  datatype Flags = Flags(login: bool, logout: bool, sessionChange: bool, statusChange: bool)

  function TransitionFlags(prev: Session, prevStatus: string, session: Session, status: string): Flags {
    var login := prev.None? && session.Some?;
    var logout := prev.Some? && session.None?;
    var tokenChange := prev.Some? && session.Some?
      && !LooseEq(Get(prev.value, "access_token"), Get(session.value, "access_token"));
    Flags(login, logout, login || logout || tokenChange, status != prevStatus)
  }

  /** `Math.round(now / 1000)` for a clock reading in milliseconds. */
  function RoundSeconds(now: nat): (r: nat)
    ensures r * 1000 <= now + 500 < r * 1000 + 1000
  {
    (now + 500) / 1000
  }

  /** The session as `setSession` stores it: an `expires_in` (seconds from now)
      is replaced by an absolute `expires` (seconds since the epoch). */
  function StampExpiry(d: Dict, now: nat): Dict {
    if "expires_in" in d then
      d["expires" := StampedExpires(d["expires_in"], now)] - {"expires_in"}
    else d
  }

  /** `Math.round(now / 1000) + parseInt(expiresIn, 10)`. */
  function StampedExpires(expiresIn: Value, now: nat): Value {
    var secs := ParseInt(expiresIn);
    if secs.Some? then Num(RoundSeconds(now) + secs.value) else NaN
  }

  /** After stamping there is no `expires_in`; when there was one, `expires`
      is the rounded time in seconds plus the parsed `expires_in` (NaN when it
      does not parse); every other property is kept. */
  lemma StampExpiryFacts(d: Dict, now: nat)
    ensures var r := StampExpiry(d, now);
            "expires_in" !in r
            && ("expires_in" !in d ==> r == d)
            && ("expires_in" in d ==> "expires" in r && r["expires"] == StampedExpires(d["expires_in"], now))
            && (forall k :: k != "expires" && k != "expires_in" ==> (k in r <==> k in d))
            && (forall k :: k in r && k != "expires" ==> k in d && r[k] == d[k])
  {
  }

  /** What `setSession` makes observable, in order: the cookie write first
      (when the session changed and cookies are enabled), then the
      notifications `statusChange`, `logout`, `login`, `sessionChange`. */
  function Notifications(f: Flags, cookieOn: bool, r: Response): seq<Effect> {
    Opt(f.sessionChange && cookieOn, CookieWrite(r.session))
    + (Opt(f.statusChange, Fire(AuthStatusChange, r))
    + (Opt(f.logout, Fire(AuthLogout, r))
    + (Opt(f.login, Fire(AuthLogin, r))
    + Opt(f.sessionChange, Fire(AuthSessionChange, r)))))
  }

  /** `x` when `b` holds. */
  function Opt(b: bool, x: Effect): seq<Effect> {
    if b then [x] else []
  }

  /** `DM.Auth.setSession(session, status)`. */
  function SetSessionSpec(s: State, cookieOn: bool, session: Session, status: string, now: nat): State {
    var f := TransitionFlags(s.session, s.status, session, status);
    var stored := if session.Some? then Some(StampExpiry(session.value, now)) else None;
    s.(session := stored, status := status, trace := s.trace + Notifications(f, cookieOn, Response(stored, status)))
  }

  /** The position of an effect in the order `setSession` produces them. */
  function Rank(e: Effect): nat {
    match e
    case CookieWrite(_) => 0
    case Fire(AuthStatusChange, _) => 1
    case Fire(AuthLogout, _) => 2
    case Fire(AuthLogin, _) => 3
    case Fire(AuthSessionChange, _) => 4
    case _ => 5
  }

  /** Whether a flag asks for the notification. */
  predicate Raised(f: Flags, e: AuthEvent) {
    match e
    case AuthStatusChange => f.statusChange
    case AuthLogout => f.logout
    case AuthLogin => f.login
    case AuthSessionChange => f.sessionChange
  }

  /** The flags agree with each other: never both a login and a logout, and
      either one is a session change; a login means there was no session
      and there is one now, a logout the other way round. */
  lemma FlagsAgree(prev: Session, prevStatus: string, session: Session, status: string)
    ensures var f := TransitionFlags(prev, prevStatus, session, status);
            !(f.login && f.logout) && (f.login || f.logout ==> f.sessionChange)
            && (f.login <==> prev.None? && session.Some?) && (f.logout <==> prev.Some? && session.None?)
            && (f.statusChange <==> status != prevStatus)
  {
  }

  /** The cookie is written strictly before any notification, and the
      notifications come in the fixed order, each at most once. */
  lemma NotificationsOrdered(f: Flags, cookieOn: bool, r: Response)
    ensures RanksIncrease(Notifications(f, cookieOn, r))
  {
    var e := Opt(f.sessionChange, Fire(AuthSessionChange, r));
    OptPrepend(f.sessionChange, Fire(AuthSessionChange, r), [], 3);
    assert Opt(f.sessionChange, Fire(AuthSessionChange, r)) + [] == e;
    var d := Opt(f.login, Fire(AuthLogin, r)) + e;
    OptPrepend(f.login, Fire(AuthLogin, r), e, 2);
    var b := Opt(f.logout, Fire(AuthLogout, r)) + d;
    OptPrepend(f.logout, Fire(AuthLogout, r), d, 1);
    var a := Opt(f.statusChange, Fire(AuthStatusChange, r)) + b;
    OptPrepend(f.statusChange, Fire(AuthStatusChange, r), b, 0);
    OptPrepend(f.sessionChange && cookieOn, CookieWrite(r.session), a, -1);
  }

  /** Each effect comes strictly after every effect of a lower rank. */
  predicate RanksIncrease(es: seq<Effect>) {
    forall i, j :: 0 <= i < j < |es| ==> Rank(es[i]) < Rank(es[j])
  }

  /** Prepending an effect of a lower rank, when asked, keeps the ranks
      increasing; all of them stay above `lo` when `x`'s does. */
  lemma OptPrepend(b: bool, x: Effect, ys: seq<Effect>, lo: int)
    requires RanksIncrease(ys) && forall y :: y in ys ==> Rank(x) < Rank(y)
    requires lo < Rank(x)
    ensures RanksIncrease(Opt(b, x) + ys) && forall z :: z in Opt(b, x) + ys ==> lo < Rank(z)
  {
    if b {
      forall i, j | 0 <= i < j < |[x] + ys| ensures Rank(([x] + ys)[i]) < Rank(([x] + ys)[j]) {
        assert ([x] + ys)[j] == ys[j - 1];
        if i > 0 {
          assert ([x] + ys)[i] == ys[i - 1];
        }
      }
    } else {
      assert Opt(b, x) + ys == ys;
    }
  }

  /** A notification is fired iff its flag holds, the cookie is written iff
      the session changed and cookies are enabled, and every effect carries
      the response. */
  lemma NotificationsExactly(f: Flags, cookieOn: bool, r: Response, e: AuthEvent)
    ensures var es := Notifications(f, cookieOn, r);
            (CookieWrite(r.session) in es <==> f.sessionChange && cookieOn)
            && (Fire(e, r) in es <==> Raised(f, e))
            && (forall x :: x in es ==> x == CookieWrite(r.session) || (x.Fire? && x.response == r))
  {
    var es := Notifications(f, cookieOn, r);
    forall x
      ensures x in es <==> (f.sessionChange && cookieOn && x == CookieWrite(r.session))
                           || (x.Fire? && x.response == r && Raised(f, x.event))
    {
      OptIn(f.sessionChange && cookieOn, CookieWrite(r.session), x);
      OptIn(f.statusChange, Fire(AuthStatusChange, r), x);
      OptIn(f.logout, Fire(AuthLogout, r), x);
      OptIn(f.login, Fire(AuthLogin, r), x);
      OptIn(f.sessionChange, Fire(AuthSessionChange, r), x);
    }
  }

  lemma OptIn(b: bool, x: Effect, y: Effect)
    ensures y in Opt(b, x) <==> b && y == x
  {
  }

  /** Setting the session and status that are already there fires nothing
      and writes no cookie (an access token compares equal to itself when
      it is a string, or missing). */
  lemma SetSessionRepeatIsQuiet(s: State, cookieOn: bool, now: nat)
    requires s.session.None? || Get(s.session.value, "access_token").Str? || IsNullish(Get(s.session.value, "access_token"))
    requires s.session.None? || "expires_in" !in s.session.value
    ensures SetSessionSpec(s, cookieOn, s.session, s.status, now) == s
  {
    var f := TransitionFlags(s.session, s.status, s.session, s.status);
    assert !f.sessionChange && !f.statusChange && !f.login && !f.logout;
    assert Notifications(f, cookieOn, Response(s.session, s.status)) == [];
    assert s.trace + [] == s.trace;
  }

  /** How many times `event` was fired in a trace. */
  function Fired(es: seq<Effect>, event: AuthEvent): nat {
    if es == [] then 0
    else Fired(es[..|es| - 1], event) + (if es[|es| - 1].Fire? && es[|es| - 1].event == event then 1 else 0)
  }

  lemma {:induction false} FiredAppend(a: seq<Effect>, b: seq<Effect>, event: AuthEvent)
    ensures Fired(a + b, event) == Fired(a, event) + Fired(b, event)
    decreases |b|
  {
    if b == [] {
      assert a + b == a;
    } else {
      assert (a + b)[..|a + b| - 1] == a + b[..|b| - 1];
      assert (a + b)[|a + b| - 1] == b[|b| - 1];
      FiredAppend(a, b[..|b| - 1], event);
    }
  }

  /** `setSession` fires `statusChange` once when the status changes and not at all otherwise. */
  lemma SetSessionStatusFires(s: State, cookieOn: bool, session: Session, status: string, now: nat)
    ensures Fired(SetSessionSpec(s, cookieOn, session, status, now).trace, AuthStatusChange)
         == Fired(s.trace, AuthStatusChange) + (if status != s.status then 1 else 0)
  {
    var f := TransitionFlags(s.session, s.status, session, status);
    var stored := if session.Some? then Some(StampExpiry(session.value, now)) else None;
    NotificationsStatus(f, cookieOn, Response(stored, status));
    FiredAppend(s.trace, Notifications(f, cookieOn, Response(stored, status)), AuthStatusChange);
  }

  lemma NotificationsStatus(f: Flags, cookieOn: bool, r: Response)
    ensures Fired(Notifications(f, cookieOn, r), AuthStatusChange) == if f.statusChange then 1 else 0
  {
    var e := Opt(f.sessionChange, Fire(AuthSessionChange, r));
    var d := Opt(f.login, Fire(AuthLogin, r));
    var b := Opt(f.logout, Fire(AuthLogout, r));
    var a := Opt(f.statusChange, Fire(AuthStatusChange, r));
    var c := Opt(f.sessionChange && cookieOn, CookieWrite(r.session));
    FiredOpt(f.sessionChange, Fire(AuthSessionChange, r));
    FiredOpt(f.login, Fire(AuthLogin, r));
    FiredOpt(f.logout, Fire(AuthLogout, r));
    FiredOpt(f.statusChange, Fire(AuthStatusChange, r));
    FiredOpt(f.sessionChange && cookieOn, CookieWrite(r.session));
    FiredAppend(d, e, AuthStatusChange);
    FiredAppend(b, d + e, AuthStatusChange);
    FiredAppend(a, b + (d + e), AuthStatusChange);
    FiredAppend(c, a + (b + (d + e)), AuthStatusChange);
  }

  lemma FiredOpt(b: bool, x: Effect)
    ensures Fired(Opt(b, x), AuthStatusChange) == if b && x.Fire? && x.event == AuthStatusChange then 1 else 0
  {
    if b {
      assert [x][..0] == [];
    }
  }

  /** Logging out twice with the same status and then changing the status
      fires `statusChange` once per actual change: twice from a connected
      state, once from a state already `notConnected`. */
  lemma StatusChangeOncePerChange(s: State, cookieOn: bool, now: nat)
    ensures var s1 := SetSessionSpec(s, cookieOn, None, "notConnected", now);
            var s2 := SetSessionSpec(s1, cookieOn, None, "notConnected", now);
            var s3 := SetSessionSpec(s2, cookieOn, None, "unknown", now);
            Fired(s3.trace, AuthStatusChange) == Fired(s.trace, AuthStatusChange) + (if s.status == "notConnected" then 1 else 2)
  {
    var s1 := SetSessionSpec(s, cookieOn, None, "notConnected", now);
    var s2 := SetSessionSpec(s1, cookieOn, None, "notConnected", now);
    SetSessionStatusFires(s, cookieOn, None, "notConnected", now);
    SetSessionStatusFires(s1, cookieOn, None, "notConnected", now);
    SetSessionStatusFires(s2, cookieOn, None, "unknown", now);
  }

  // ---------------------------------------------------------------------
  // `getSession`

  /** `'expires' in session && now > session.expires * 1000`. */
  predicate Expired(d: Dict, now: int) {
    "expires" in d && ToNumber(d["expires"]).Some? && now > ToNumber(d["expires"]).value * 1000
  }

  /** `DM.getSession()`, null-safe: an expired session is dropped through
      `setSession(null, 'notConnected')`; anything else is left alone. */
  function GetSessionSpec(s: State, cookieOn: bool, now: nat): State {
    if s.session.Some? && Expired(s.session.value, now) then SetSessionSpec(s, cookieOn, None, "notConnected", now)
    else s
  }

  /** `DM.getSession()` as written: `'expires' in DM._session` throws when there is no session. */
  function GetSessionAsWrittenSpec(s: State, cookieOn: bool, now: nat): Completion<State> {
    if s.session.None? then Throw("TypeError: cannot use 'in' operator to search for 'expires' in null")
    else Normal(GetSessionSpec(s, cookieOn, now))
  }

  /** Without a session, `getSession` as written throws, where the null-safe
      one returns null and changes nothing. */
  lemma NoSessionThrows(s: State, cookieOn: bool, now: nat)
    requires s.session.None?
    ensures GetSessionAsWrittenSpec(s, cookieOn, now).Throw?
    ensures GetSessionSpec(s, cookieOn, now) == s
  {
  }

  /** With a session, both agree. */
  lemma GetSessionAgrees(s: State, cookieOn: bool, now: nat)
    requires s.session.Some?
    ensures GetSessionAsWrittenSpec(s, cookieOn, now) == Normal(GetSessionSpec(s, cookieOn, now))
  {
  }

  /** The session `getSession` returns has not expired; an expired one is
      replaced by none with the status `notConnected`, and a live one is
      returned with the state unchanged. */
  lemma GetSessionNeverExpired(s: State, cookieOn: bool, now: nat)
    ensures var t := GetSessionSpec(s, cookieOn, now);
            (t.session.None? || !Expired(t.session.value, now))
            && (s.session.Some? && Expired(s.session.value, now) ==> t.session.None? && t.status == "notConnected")
            && (s.session.None? || !Expired(s.session.value, now) ==> t == s)
  {
  }

  // ---------------------------------------------------------------------
  // `recvSession` and `readFragment`

  /** `DM.Auth.recvSession(session)`: an error is logged; a response without
      a `state`, or whose `state` names no active attempt, is logged and
      dropped; otherwise it is attached to that attempt, error or not. */
  function RecvSpec(s: State, d: Dict): State {
    var s1 := if "error" in d then
        s.(trace := s.trace + [Log("Received auth error `" + ToStr(d["error"]) + "': " + ToStr(Get(d, "error_description")))])
      else s;
    if "state" !in d then s1.(trace := s1.trace + [Log("Received a session with not `state' field")])
    else if ToStr(d["state"]) !in s1.active then s1.(trace := s1.trace + [Log("Received a session from an inactive window")])
    else
      var id := ToStr(d["state"]);
      s1.(active := s1.active[id := s1.active[id].(response := Some(d))])
  }

  /** A response that names no active attempt changes nothing but the log. */
  lemma RecvDiscards(s: State, d: Dict)
    requires "state" !in d || ToStr(d["state"]) !in s.active
    ensures var t := RecvSpec(s, d);
            t.session == s.session && t.status == s.status && t.active == s.active && t.order == s.order
            && |t.trace| > |s.trace| && forall i :: |s.trace| <= i < |t.trace| ==> t.trace[i].Log?
  {
  }

  /** A response that names an active attempt is attached to it, even an
      error; no other attempt and nothing else changes. */
  lemma RecvAttaches(s: State, d: Dict)
    requires "state" in d && ToStr(d["state"]) in s.active
    ensures var t := RecvSpec(s, d);
            var id := ToStr(d["state"]);
            t.active.Keys == s.active.Keys && t.active[id].response == Some(d)
            && t.active[id].cb == s.active[id].cb && t.active[id].win == s.active[id].win
            && (forall k :: k in s.active && k != id ==> t.active[k] == s.active[k])
            && t.session == s.session && t.status == s.status && t.order == s.order
  {
  }

  /** The test `readFragment` applies before forwarding the URL fragment of
      the popup to the window that opened it: a `dmauth` popup whose opener
      runs the SDK, with a token or an error in the fragment. */
  predicate ForwardsFragment(openerHasAuth: bool, name: string, fragment: string) {
    openerHasAuth && name == "dmauth" && (Contains(fragment, "access_token=") || Contains(fragment, "error="))
  }

  /** `window.location.hash.substr(1)`. */
  function FragmentOf(hash: string): (r: string)
    ensures |hash| > 0 ==> hash == [hash[0]] + r
    ensures |hash| == 0 ==> r == ""
  {
    if |hash| > 0 then hash[1..] else ""
  }

  // ---------------------------------------------------------------------
  // `login` and the popup monitor

  const AuthorizeUrl := "https://api.dailymotion.com/oauth/authorize"

  /** The options `login` starts from; `guid` is the `DM.guid()` of this login. */
  function LoginDefaults(apiKey: Value, href: string, guid: string): Dict {
    map["client_id" := apiKey, "response_type" := Str("token"), "display" := Str("popup"), "scope" := Str(""),
        "redirect_uri" := Str(href), "state" := Str(guid)]
  }

  /** `DM.copy({...defaults}, opts || {})`: the caller's options only fill keys
      the defaults leave undefined. */
  function LoginOptions(apiKey: Value, href: string, guid: string, opts: Option<Dict>): Dict {
    CopyInto(LoginDefaults(apiKey, href, guid), if opts.Some? then opts.value else map[], false, None)
  }

  /** `DM.login` on the state `s` with the merged options `o`: the popup is
      opened on the authorize URL; with a callback, the attempt is
      registered under the options' `state` and the monitor runs once. */
  ghost function LoginSpec(s: State, o: Dict, codec: UriCodec, cb: Option<nat>, win: nat,
                           closed: set<nat>, cookieOn: bool, now: nat): State {
    var shown := Opened(s, AuthorizeUrl + "?" + EncodeSpec(o, Undefined, Undefined, codec));
    if cb.None? then shown
    else MonitorAll(Register(shown, ToStr(Get(o, "state")), Attempt(cb.value, Some(win), None)),
                    AddKey(shown.order, ToStr(Get(o, "state"))), closed, cookieOn, now)
  }

  /** The defaults win over the caller's options: `response_type`, `display`,
      `scope`, `redirect_uri` and `state` always keep theirs, `client_id`
      too unless the API key is undefined; every other option of the caller
      is passed through; and the attempt is keyed by this login's guid. */
  lemma LoginOptionsKeepDefaults(apiKey: Value, href: string, guid: string, opts: Option<Dict>)
    ensures var o := LoginOptions(apiKey, href, guid, opts);
            var given := if opts.Some? then opts.value else map[];
            o["response_type"] == Str("token") && o["display"] == Str("popup") && o["scope"] == Str("")
            && o["redirect_uri"] == Str(href) && o["state"] == Str(guid)
            && ToStr(Get(o, "state")) == guid
            && o["client_id"] == (if apiKey == Undefined && "client_id" in given then given["client_id"] else apiKey)
            && (forall k :: k in given && k !in LoginDefaults(apiKey, href, guid) ==> k in o && o[k] == given[k])
  {
    var d := LoginDefaults(apiKey, href, guid);
    var given := if opts.Some? then opts.value else map[];
    var o := LoginOptions(apiKey, href, guid, opts);
    CopyIntoWrites(d, given, false, None, "client_id");
    assert Get(o, "state") == Str(guid);
  }

  /** `recvSession({error: 'access_denied', ...})`, what the monitor feeds
      itself for a popup that was closed. */
  function ClosedResponse(id: string): Dict {
    map["error" := Str("access_denied"), "error_description" := Str("Client closed the window"), "state" := Str(id)]
  }

  /** Whether the monitor finalises the attempt: it already has a response,
      or its popup has been closed. */
  predicate Answered(a: Attempt, closed: set<nat>) {
    a.response.Some? || (a.win.Some? && a.win.value in closed)
  }

  /** The popup `window.open` shows, recorded. */
  function Opened(s: State, url: string): State {
    s.(trace := s.trace + [OpenPopup(url)])
  }

  /** `DM.Auth._active[id] = {cb: cb, win: win}`. */
  function Register(s: State, id: string, a: Attempt): State {
    s.(active := s.active[id := a], order := AddKey(s.order, id))
  }

  /** Registering an attempt keeps `order` listing the keys of `_active`. */
  lemma RegisterConsistent(s: State, id: string, a: Attempt)
    requires Consistent(s)
    ensures Consistent(Register(s, id, a))
  {
  }

  /** `perms` of the callback: the stored session's `scope`, else null. */
  function Perms(session: Session): Value {
    if session.Some? && "scope" in session.value then session.value["scope"] else Null
  }

  /** The response the monitor acts on: the `access_denied` it feeds itself
      when the popup was closed, else the one received. */
  function ResponseOf(a: Attempt, id: string, closed: set<nat>): Dict
    requires Answered(a, closed)
  {
    if a.win.Some? && a.win.value in closed then ClosedResponse(id) else a.response.value
  }

  /** The first half of a turn: a popup found closed loses its window and the
      attempt gets the `access_denied` response through `recvSession`. */
  function CloseCheck(s: State, id: string, closed: set<nat>): State
    requires id in s.active
  {
    var a := s.active[id];
    if a.win.Some? && a.win.value in closed
    then RecvSpec(s.(active := s.active[id := a.(win := None)]), ClosedResponse(id))
    else s
  }

  /** `callInfo.win.close()` when the attempt still has its popup. */
  function Closing(win: Option<nat>): seq<Effect> {
    if win.Some? then [CloseWindow(win.value)] else []
  }

  /** The second half, for an attempt holding a response: it leaves
      `_active`, the session is set from the response, its popup is closed
      and its callback runs. */
  function Finalise(s: State, id: string, info: Attempt, cookieOn: bool, now: nat): State
    requires info.response.Some?
  {
    var resp := info.response.value;
    var s2 := s.(active := s.active - {id}, order := Remove(s.order, id));
    var s3 := if "access_token" in resp then SetSessionSpec(s2, cookieOn, Some(resp), "connected", now)
              else SetSessionSpec(s2, cookieOn, None, "notConnected", now);
    s3.(trace := s3.trace + Closing(info.win) + [Callback(info.cb, Response(s3.session, s3.status), Perms(s3.session))])
  }

  /** One turn of the first loop of `_popupMonitor`, for attempt `id`. */
  function MonitorStep(s: State, id: string, closed: set<nat>, cookieOn: bool, now: nat): State {
    if id !in s.active then s
    else
      var s1 := CloseCheck(s, id, closed);
      if id in s1.active && s1.active[id].response.Some? then Finalise(s1, id, s1.active[id], cookieOn, now)
      else s1
  }

  /** The first loop of `_popupMonitor`, over `ids` in order. */
  function MonitorAll(s: State, ids: seq<string>, closed: set<nat>, cookieOn: bool, now: nat): State
    decreases |ids|
  {
    if ids == [] then s
    else MonitorStep(MonitorAll(s, ids[..|ids| - 1], closed, cookieOn, now), ids[|ids| - 1], closed, cookieOn, now)
  }

  /** The attempts the monitor leaves in `_active`. */
  function Pending(active: map<string, Attempt>, done: set<string>, closed: set<nat>): map<string, Attempt> {
    map k | k in active && !(k in done && Answered(active[k], closed)) :: active[k]
  }

  /** The callbacks recorded in a trace, in order. */
  function Callbacks(es: seq<Effect>): seq<nat> {
    if es == [] then []
    else Callbacks(es[..|es| - 1]) + (if es[|es| - 1].Callback? then [es[|es| - 1].cb] else [])
  }

  /** The callbacks of the answered attempts among `ids`, in order. */
  function AnsweredCallbacks(active: map<string, Attempt>, ids: seq<string>, closed: set<nat>): seq<nat> {
    if ids == [] then []
    else
      var id := ids[|ids| - 1];
      AnsweredCallbacks(active, ids[..|ids| - 1], closed)
        + (if id in active && Answered(active[id], closed) then [active[id].cb] else [])
  }

  lemma {:induction false} CallbacksAppend(a: seq<Effect>, b: seq<Effect>)
    ensures Callbacks(a + b) == Callbacks(a) + Callbacks(b)
    decreases |b|
  {
    if b == [] {
      assert a + b == a;
    } else {
      assert (a + b)[..|a + b| - 1] == a + b[..|b| - 1];
      assert (a + b)[|a + b| - 1] == b[|b| - 1];
      CallbacksAppend(a, b[..|b| - 1]);
    }
  }

  lemma {:induction false} NoCallbacksIn(es: seq<Effect>)
    requires forall x :: x in es ==> !x.Callback?
    ensures Callbacks(es) == []
    decreases |es|
  {
    if es != [] {
      assert forall x :: x in es[..|es| - 1] ==> x in es;
      NoCallbacksIn(es[..|es| - 1]);
    }
  }

  /** Appending effects that are not callbacks leaves the callbacks alone. */
  lemma CallbacksKept(a: seq<Effect>, b: seq<Effect>)
    requires forall x :: x in b ==> !x.Callback?
    ensures Callbacks(a + b) == Callbacks(a)
  {
    NoCallbacksIn(b);
    CallbacksAppend(a, b);
    assert Callbacks(a) + [] == Callbacks(a);
  }

  /** `setSession` runs no login callback. */
  lemma SetSessionCallbacks(s: State, cookieOn: bool, session: Session, status: string, now: nat)
    ensures Callbacks(SetSessionSpec(s, cookieOn, session, status, now).trace) == Callbacks(s.trace)
  {
    var f := TransitionFlags(s.session, s.status, session, status);
    var stored := if session.Some? then Some(StampExpiry(session.value, now)) else None;
    NotificationsExactly(f, cookieOn, Response(stored, status), AuthLogin);
    CallbacksKept(s.trace, Notifications(f, cookieOn, Response(stored, status)));
  }

  /** Checking the popup only records the closed window's response, with a log line. */
  lemma CloseCheckFacts(s: State, id: string, closed: set<nat>)
    requires id in s.active
    ensures var t := CloseCheck(s, id, closed);
            var a := s.active[id];
            t.session == s.session && t.status == s.status && t.order == s.order
            && t.active == (if a.win.Some? && a.win.value in closed
                            then s.active[id := Attempt(a.cb, None, Some(ClosedResponse(id)))] else s.active)
            && Callbacks(t.trace) == Callbacks(s.trace)
  {
    var a := s.active[id];
    if a.win.Some? && a.win.value in closed {
      var d := ClosedResponse(id);
      assert ToStr(d["state"]) == id;
      var s0 := s.(active := s.active[id := a.(win := None)]);
      var s1 := s0.(trace := s0.trace + [Log("Received auth error `" + ToStr(d["error"]) + "': " + ToStr(Get(d, "error_description")))]);
      assert RecvSpec(s0, d) == s1.(active := s1.active[id := s1.active[id].(response := Some(d))]);
      CallbacksKept(s.trace, [Log("Received auth error `" + ToStr(d["error"]) + "': " + ToStr(Get(d, "error_description")))]);
    }
  }

  /** Finalising installs the response as the session (`connected`) when it
      carries an access token, and otherwise no session (`notConnected`); the
      attempt leaves `_active`, and the last thing that happens is its
      callback, with the new status, session and perms. */
  lemma FinaliseFacts(s: State, id: string, info: Attempt, cookieOn: bool, now: nat)
    requires info.response.Some?
    ensures var t := Finalise(s, id, info, cookieOn, now);
            var resp := info.response.value;
            t.active == s.active - {id} && t.order == Remove(s.order, id)
            && (t.status == "connected" <==> "access_token" in resp)
            && (t.status == "notConnected" <==> "access_token" !in resp)
            && t.session == (if "access_token" in resp then Some(StampExpiry(resp, now)) else None)
            && t.trace[|t.trace| - 1] == Callback(info.cb, Response(t.session, t.status), Perms(t.session))
            && Callbacks(t.trace) == Callbacks(s.trace) + [info.cb]
  {
    var resp := info.response.value;
    var s2 := s.(active := s.active - {id}, order := Remove(s.order, id));
    var s3 := if "access_token" in resp then SetSessionSpec(s2, cookieOn, Some(resp), "connected", now)
              else SetSessionSpec(s2, cookieOn, None, "notConnected", now);
    if "access_token" in resp {
      SetSessionCallbacks(s2, cookieOn, Some(resp), "connected", now);
    } else {
      SetSessionCallbacks(s2, cookieOn, None, "notConnected", now);
    }
    var last := Callback(info.cb, Response(s3.session, s3.status), Perms(s3.session));
    CallbacksKept(s3.trace, Closing(info.win));
    CallbacksAppend(s3.trace + Closing(info.win), [last]);
    assert [last][..0] == [];
  }

  /** A turn for an answered attempt: the attempt leaves `_active`, the
      session and status are set from its response (the `access_denied` one
      when the popup was closed), and its callback runs, last and once. */
  lemma MonitorStepFinalises(s: State, id: string, closed: set<nat>, cookieOn: bool, now: nat)
    requires id in s.active && Answered(s.active[id], closed)
    ensures var t := MonitorStep(s, id, closed, cookieOn, now);
            var a := s.active[id];
            var resp := ResponseOf(a, id, closed);
            t.active == s.active - {id} && t.order == Remove(s.order, id)
            && (t.status == "connected" <==> "access_token" in resp)
            && (t.status == "notConnected" <==> "access_token" !in resp)
            && t.session == (if "access_token" in resp then Some(StampExpiry(resp, now)) else None)
            && t.trace[|t.trace| - 1] == Callback(a.cb, Response(t.session, t.status), Perms(t.session))
            && Callbacks(t.trace) == Callbacks(s.trace) + [a.cb]
  {
    var s1 := CloseCheck(s, id, closed);
    CloseCheckAnswers(s, id, closed);
    FinaliseFacts(s1, id, s1.active[id], cookieOn, now);
  }

  /** After the close check, an answered attempt holds the response it is
      finalised with, and nothing else of the state has moved. */
  lemma CloseCheckAnswers(s: State, id: string, closed: set<nat>)
    requires id in s.active && Answered(s.active[id], closed)
    ensures var t := CloseCheck(s, id, closed);
            var a := s.active[id];
            id in t.active && t.active[id].cb == a.cb
            && t.active[id].response == Some(ResponseOf(a, id, closed))
            && t.active - {id} == s.active - {id} && t.order == s.order
            && Callbacks(t.trace) == Callbacks(s.trace)
  {
    CloseCheckFacts(s, id, closed);
    var a := s.active[id];
    if a.win.Some? && a.win.value in closed {
      UpdateRemoved(s.active, id, Attempt(a.cb, None, Some(ClosedResponse(id))));
    }
  }

  lemma UpdateRemoved(m: map<string, Attempt>, k: string, v: Attempt)
    ensures m[k := v] - {k} == m - {k}
  {
  }

  /** A turn for an attempt that is not answered changes nothing. */
  lemma MonitorStepWaits(s: State, id: string, closed: set<nat>, cookieOn: bool, now: nat)
    requires id !in s.active || !Answered(s.active[id], closed)
    ensures MonitorStep(s, id, closed, cookieOn, now) == s
  {
  }

  lemma MonitorStepActive(s: State, id: string, closed: set<nat>, cookieOn: bool, now: nat)
    ensures MonitorStep(s, id, closed, cookieOn, now).active
         == if id in s.active && Answered(s.active[id], closed) then s.active - {id} else s.active
  {
    if id in s.active && Answered(s.active[id], closed) {
      MonitorStepFinalises(s, id, closed, cookieOn, now);
    }
  }

  /** The monitor keeps exactly the attempts that were not answered, unchanged. */
  lemma {:induction false} MonitorAllActive(s: State, ids: seq<string>, closed: set<nat>, cookieOn: bool, now: nat)
    requires Distinct(ids)
    ensures MonitorAll(s, ids, closed, cookieOn, now).active == Pending(s.active, (set i | i in ids), closed)
    decreases |ids|
  {
    if ids == [] {
      assert Pending(s.active, {}, closed) == s.active;
    } else {
      var init := ids[..|ids| - 1];
      var id := ids[|ids| - 1];
      InitDistinct(ids);
      MonitorAllActive(s, init, closed, cookieOn, now);
      var before := MonitorAll(s, init, closed, cookieOn, now);
      MonitorStepActive(before, id, closed, cookieOn, now);
      PendingStep(s.active, (set i | i in init), id, closed);
      assert (set i | i in ids) == (set i | i in init) + {id};
    }
  }

  /** Dropping the last of distinct keys leaves distinct keys, without it. */
  lemma InitDistinct(ids: seq<string>)
    requires Distinct(ids) && ids != []
    ensures Distinct(ids[..|ids| - 1]) && ids[|ids| - 1] !in ids[..|ids| - 1]
  {
    var init := ids[..|ids| - 1];
    forall i | 0 <= i < |init| ensures init[i] != ids[|ids| - 1] {
      assert init[i] == ids[i];
    }
  }

  lemma PendingStep(active: map<string, Attempt>, done: set<string>, id: string, closed: set<nat>)
    requires id !in done
    ensures var p := Pending(active, done, closed);
            Pending(active, done + {id}, closed)
            == if id in p && Answered(p[id], closed) then p - {id} else p
  {
  }

  /** A finalising turn adds its callback to the trace; any other turn adds none. */
  lemma MonitorStepCallbacks(s: State, id: string, closed: set<nat>, cookieOn: bool, now: nat)
    ensures Callbacks(MonitorStep(s, id, closed, cookieOn, now).trace)
         == Callbacks(s.trace) + (if id in s.active && Answered(s.active[id], closed) then [s.active[id].cb] else [])
  {
    if id in s.active && Answered(s.active[id], closed) {
      MonitorStepFinalises(s, id, closed, cookieOn, now);
    } else {
      MonitorStepWaits(s, id, closed, cookieOn, now);
      assert Callbacks(s.trace) + [] == Callbacks(s.trace);
    }
  }

  /** Over a whole pass, the callbacks run are exactly those of the answered
      attempts, each once, in `_active` order. */
  lemma {:induction false} MonitorAllCallbacks(s: State, ids: seq<string>, closed: set<nat>, cookieOn: bool, now: nat)
    requires Distinct(ids)
    ensures Callbacks(MonitorAll(s, ids, closed, cookieOn, now).trace)
         == Callbacks(s.trace) + AnsweredCallbacks(s.active, ids, closed)
    decreases |ids|
  {
    if ids == [] {
      assert Callbacks(s.trace) + [] == Callbacks(s.trace);
    } else {
      var init := ids[..|ids| - 1];
      var id := ids[|ids| - 1];
      InitDistinct(ids);
      MonitorAllCallbacks(s, init, closed, cookieOn, now);
      MonitorAllActive(s, init, closed, cookieOn, now);
      var before := MonitorAll(s, init, closed, cookieOn, now);
      assert id in before.active <==> id in s.active;
      assert id in s.active ==> before.active[id] == s.active[id];
      MonitorStepCallbacks(before, id, closed, cookieOn, now);
    }
  }

  /** The turn for `id` keeps `order` listing the keys of `_active`. */
  lemma MonitorStepConsistent(s: State, id: string, closed: set<nat>, cookieOn: bool, now: nat)
    requires Consistent(s)
    ensures Consistent(MonitorStep(s, id, closed, cookieOn, now))
  {
    if id in s.active && Answered(s.active[id], closed) {
      MonitorStepFinalises(s, id, closed, cookieOn, now);
      RemoveDistinct(s.order, id);
    } else {
      MonitorStepWaits(s, id, closed, cookieOn, now);
    }
  }

  // ---------------------------------------------------------------------
  // The module state

  /** `DM._session`, `DM._userStatus`, `DM.Auth._active` and
      `DM.Auth._popupInterval`, with the cookie store `setSession` writes
      to, the globals it reads the API key from, the URI codec and
      `Date.toGMTString` the cookie writer uses. */
  class AuthState {
    var session: Session
    var status: string
    var active: map<string, Attempt>
    var order: seq<string>
    var trace: seq<Effect>
    /** The handle of the running monitor timer, if any. */
    var interval: Option<nat>
    const cookies: CookieStore
    const globals: Globals
    const codec: UriCodec
    const gmt: Value -> string

    function Model(): State
      reads this
    {
      State(session, status, active, order, trace)
    }

    ghost predicate Valid()
      reads this
    {
      Consistent(Model())
    }

    /** The values `DM` and `DM.Auth` start with. */
    constructor (cookies: CookieStore, globals: Globals, codec: UriCodec, gmt: Value -> string)
      ensures Valid() && Model() == State(None, "unknown", map[], [], [])
      ensures interval == None
      ensures this.cookies == cookies && this.globals == globals && this.codec == codec && this.gmt == gmt
    {
      session := None;
      status := "unknown";
      active := map[];
      order := [];
      trace := [];
      interval := None;
      this.cookies := cookies;
      this.globals := globals;
      this.codec := codec;
      this.gmt := gmt;
    }

    /** `DM.Auth.setSession(session, status)`: stores the pair, writes the
        cookie first when the session changed and cookies are enabled, then
        fires the notifications; returns `{session, status}`. */
    method SetSession(session: Session, status: string, now: nat) returns (r: Response)
      modifies this, cookies
      ensures Model() == SetSessionSpec(old(Model()), Truthy(old(cookies.enabled)), session, status, now)
      ensures r == Response(this.session, this.status)
      ensures interval == old(interval) && cookies.enabled == old(cookies.enabled)
      ensures CookieSet(TransitionFlags(old(this.session), old(this.status), session, status).sessionChange
                          && Truthy(old(cookies.enabled)),
                        old(cookies.written), old(cookies.domain), cookies.written, cookies.domain,
                        SetWrite(globals.apiKey, this.session, old(cookies.domain), codec, gmt))
    {
      var f := TransitionFlags(this.session, this.status, session, status);
      var stored := if session.Some? then Some(StampExpiry(session.value, now)) else None;
      r := Response(stored, status);
      this.session := stored;
      this.status := status;
      var on := cookies.GetEnabled();
      if f.sessionChange && Truthy(on) {
        cookies.Set(globals.apiKey, stored, codec, gmt);
      }
      trace := trace + Notifications(f, Truthy(on), r);
    }

    /** `DM.getSession()` as written: throws when there is no session. */
    method GetSessionAsWritten(now: nat) returns (r: Completion<Session>)
      modifies this, cookies
      ensures var c := GetSessionAsWrittenSpec(old(Model()), Truthy(old(cookies.enabled)), now);
              (c.Throw? ==> r == Throw(c.message) && Model() == old(Model()))
              && (c.Normal? ==> r == Normal(session) && Model() == c.value)
      ensures interval == old(interval) && cookies.enabled == old(cookies.enabled)
    {
      if session.None? {
        return Throw("TypeError: cannot use 'in' operator to search for 'expires' in null");
      }
      if Expired(session.value, now) {
        var _ := SetSession(None, "notConnected", now);
      }
      r := Normal(session);
    }

    /** `DM.getLoginStatus(cb)`: hands `{status, session}` to the callback, if
        one is given, without asking the server; nothing else changes. */
    method GetLoginStatus(cb: Option<nat>)
      modifies this
      ensures trace == old(trace) + if cb.Some? then [Callback(cb.value, Response(session, status), Undefined)] else []
      ensures session == old(session) && status == old(status) && active == old(active)
      ensures order == old(order) && interval == old(interval)
    {
      if cb.Some? {
        trace := trace + [Callback(cb.value, Response(session, status), Undefined)];
      }
    }

    /** `DM.getSession()`, null-safe: drops an expired session and returns what is left. */
    method GetSession(now: nat) returns (r: Session)
      modifies this, cookies
      ensures Model() == GetSessionSpec(old(Model()), Truthy(old(cookies.enabled)), now)
      ensures r == session
      ensures interval == old(interval) && cookies.enabled == old(cookies.enabled)
      ensures CookieSet(old(session).Some? && Expired(old(session).value, now) && Truthy(old(cookies.enabled)),
                        old(cookies.written), old(cookies.domain), cookies.written, cookies.domain,
                        SetWrite(globals.apiKey, None, old(cookies.domain), codec, gmt))
    {
      if session.Some? && Expired(session.value, now) {
        var _ := SetSession(None, "notConnected", now);
      }
      r := session;
    }

    /** `DM.Auth.recvSession(session)`. */
    method RecvSession(d: Dict)
      modifies this
      ensures Model() == RecvSpec(old(Model()), d)
      ensures interval == old(interval)
    {
      if "error" in d {
        trace := trace + [Log("Received auth error `" + ToStr(d["error"]) + "': " + ToStr(Get(d, "error_description")))];
      }
      if "state" !in d {
        trace := trace + [Log("Received a session with not `state' field")];
        return;
      }
      var id := ToStr(d["state"]);
      if id !in active {
        trace := trace + [Log("Received a session from an inactive window")];
        return;
      }
      active := active[id := active[id].(response := Some(d))];
    }

    /** The popup check of one turn: a closed popup loses its window and
        its attempt receives the `access_denied` response. */
    method CheckWindow(id: string, closed: set<nat>)
      requires id in active
      modifies this
      ensures Model() == CloseCheck(old(Model()), id, closed)
      ensures interval == old(interval)
    {
      var a := active[id];
      if a.win.Some? && a.win.value in closed {
        active := active[id := a.(win := None)];
        RecvSession(ClosedResponse(id));
      }
    }

    /** The end of an answered attempt: it leaves `_active`, the session is
        set from its response, its popup is closed and its callback runs. */
    method FinaliseAttempt(id: string, info: Attempt, now: nat)
      requires info.response.Some?
      modifies this, cookies
      ensures Model() == Finalise(old(Model()), id, info, Truthy(old(cookies.enabled)), now)
      ensures interval == old(interval) && cookies.enabled == old(cookies.enabled)
      ensures var next := if "access_token" in info.response.value then Some(info.response.value) else None;
              CookieSet(TransitionFlags(old(this.session), old(status), next,
                                        if next.Some? then "connected" else "notConnected").sessionChange
                          && Truthy(old(cookies.enabled)),
                        old(cookies.written), old(cookies.domain), cookies.written, cookies.domain,
                        SetWrite(globals.apiKey, session, old(cookies.domain), codec, gmt))
    {
      active := active - {id};
      order := Remove(order, id);
      var resp := info.response.value;
      if "access_token" in resp {
        var _ := SetSession(Some(resp), "connected", now);
      } else {
        var _ := SetSession(None, "notConnected", now);
      }
      trace := trace + Closing(info.win) + [Callback(info.cb, Response(session, status), Perms(session))];
    }

    /** One turn of the first loop of `_popupMonitor`. */
    method MonitorAttempt(id: string, closed: set<nat>, now: nat)
      requires Valid()
      modifies this, cookies
      ensures Valid()
      ensures Model() == MonitorStep(old(Model()), id, closed, Truthy(old(cookies.enabled)), now)
      ensures interval == old(interval) && cookies.enabled == old(cookies.enabled)
    {
      MonitorStepConsistent(Model(), id, closed, Truthy(cookies.enabled), now);
      if id !in active {
        return;
      }
      CheckWindow(id, closed);
      if id in active && active[id].response.Some? {
        FinaliseAttempt(id, active[id], now);
      }
    }

    /** `DM.Auth._popupMonitor()`: visits every attempt in `_active` order,
        then starts the timer (with the handle `setInterval` would return)
        when attempts remain and none runs, or stops it when none remain. */
    method PopupMonitor(closed: set<nat>, now: nat, handle: nat)
      requires Valid()
      modifies this, cookies
      ensures Valid()
      ensures Model() == MonitorAll(old(Model()), old(order), closed, Truthy(old(cookies.enabled)), now)
      ensures interval.Some? <==> active != map[]
      ensures interval == (if active != map[] && old(interval).None? then Some(handle)
                           else if active == map[] then None else old(interval))
      ensures cookies.enabled == old(cookies.enabled)
    {
      var ids := order;
      ghost var s0 := Model();
      ghost var on := Truthy(cookies.enabled);
      var i := 0;
      while i < |ids|
        invariant 0 <= i <= |ids|
        invariant Valid()
        invariant Model() == MonitorAll(s0, ids[..i], closed, on, now)
        invariant interval == old(interval) && Truthy(cookies.enabled) == on
        invariant cookies.enabled == old(cookies.enabled)
      {
        MonitorAttempt(ids[i], closed, now);
        assert ids[..i + 1][..i] == ids[..i];
        i := i + 1;
      }
      assert ids[..i] == ids;
      if active != map[] && interval.None? {
        interval := Some(handle);
      } else if active == map[] && interval.Some? {
        interval := None;
      }
    }

    /** `DM.login(cb, opts)`: opens the popup on the authorize URL with the
        merged options; with a callback, registers the attempt under the
        options' `state` and runs the monitor once. `href` is the page's
        address, `guid` the `DM.guid()` drawn and `win` the window opened. */
    method Login(cb: Option<nat>, opts: Option<Dict>, href: string, guid: string, win: nat,
                 closed: set<nat>, now: nat, handle: nat)
      requires Valid()
      modifies this, cookies
      ensures Valid()
      ensures Model() == LoginSpec(old(Model()), LoginOptions(globals.apiKey, href, guid, opts), codec, cb, win,
                                   closed, Truthy(old(cookies.enabled)), now)
      ensures cb.None? ==> interval == old(interval)
      ensures cb.Some? ==> (interval.Some? <==> active != map[])
      ensures cookies.enabled == old(cookies.enabled)
    {
      var o := OpenAuthorize(href, guid, opts);
      if cb.Some? {
        var id := ToStr(Get(o, "state"));
        RegisterAttempt(id, Attempt(cb.value, Some(win), None));
        PopupMonitor(closed, now, handle);
      }
    }

    /** The first half of `DM.login`: merges the options and opens the
        popup on the authorize URL they encode. */
    method OpenAuthorize(href: string, guid: string, opts: Option<Dict>) returns (o: Dict)
      requires Valid()
      modifies this
      ensures Valid()
      ensures o == LoginOptions(globals.apiKey, href, guid, opts)
      ensures Model() == Opened(old(Model()), AuthorizeUrl + "?" + EncodeSpec(o, Undefined, Undefined, codec))
      ensures interval == old(interval)
    {
      o := CopyProperties(LoginDefaults(globals.apiKey, href, guid), if opts.Some? then opts.value else map[], false, None);
      var query := Encode(o, Undefined, Undefined, codec);
      trace := trace + [OpenPopup(AuthorizeUrl + "?" + query)];
    }

    /** `DM.Auth._active[id] = {cb: cb, win: win}`. */
    method RegisterAttempt(id: string, a: Attempt)
      requires Valid()
      modifies this
      ensures Valid()
      ensures Model() == Register(old(Model()), id, a)
      ensures interval == old(interval)
    {
      RegisterConsistent(Model(), id, a);
      active := active[id := a];
      order := AddKey(order, id);
    }
  }

  /** Whether the cookie store received the write `w` (text, remembered
      domain), or was left alone when `write` is false. */
  predicate CookieSet(write: bool, oldWritten: seq<string>, oldDomain: Value,
                      written: seq<string>, domain: Value, w: (string, Value)) {
    if write then written == oldWritten + [w.0] && domain == w.1
    else written == oldWritten && domain == oldDomain
  }

  /** `DM.Auth.readFragment()` in the popup: when the test passes, the
      decoded fragment is handed to the opener's `recvSession`. Returns
      whether it was forwarded; decoding a malformed fragment throws. */
  method ReadFragment(opener: AuthState, openerHasAuth: bool, name: string, hash: string, codec: UriCodec)
    returns (r: Completion<bool>)
    modifies opener
    ensures var fragment := FragmentOf(hash);
            if !ForwardsFragment(openerHasAuth, name, fragment) then r == Normal(false) && opener.Model() == old(opener.Model())
            else if DecodeSpec(fragment, codec).Throw? then r.Throw? && opener.Model() == old(opener.Model())
            else r == Normal(true) && opener.Model() == RecvSpec(old(opener.Model()), DecodeSpec(fragment, codec).value)
    ensures opener.interval == old(opener.interval)
  {
    var fragment := FragmentOf(hash);
    if !ForwardsFragment(openerHasAuth, name, fragment) {
      return Normal(false);
    }
    var d := Decode(fragment, codec);
    if d.Throw? {
      return Throw(d.message);
    }
    opener.RecvSession(d.value);
    r := Normal(true);
  }
}
