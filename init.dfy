/**
 * `DM.init(options)`: the call a page makes once, with its API key and
 * settings, before using the rest of the SDK. It records the key, may
 * switch logging off and, when a key is given, sets up cookie support and
 * the starting session.
 */
module Init {
  import opened JsValues
  import opened QS
  import opened Prelude
  import opened Cookie
  import Auth

  /** `options || {}`: the properties of the object the caller passed, none
      for a missing argument. */
  function Given(options: Value, objects: map<nat, Dict>): Dict {
    if options.Ref? && options.id in objects then objects[options.id] else map[]
  }

  /** `DM.copy(options || {}, {logging: true})`: the options with `logging`
      defaulted to true. */
  function Options(options: Value, objects: map<nat, Dict>): Dict {
    CopyInto(Given(options, objects), map["logging" := Bool(true)], false, None)
  }

  /** The options keep every property the caller set, and `logging` is true
      exactly when the caller left it undefined. */
  lemma OptionsDefaults(options: Value, objects: map<nat, Dict>, k: string)
    ensures var g := Given(options, objects);
            Get(Options(options, objects), k)
            == if k == "logging" && Get(g, k) == Undefined then Bool(true) else Get(g, k)
  {
    CopyIntoWrites(Given(options, objects), map["logging" := Bool(true)], false, None, k);
  }

  /** Logging is switched off when the options turn it off, unless the page
      URL carries `dm_debug=1`. */
  predicate LoggingOff(o: Dict, location: string) {
    !Truthy(Get(o, "logging")) && !Contains(location, "dm_debug=1")
  }

  /** A value used as a session: nothing when falsy, else the object's properties. */
  function SessionOf(v: Value, objects: map<nat, Dict>): Session {
    if !Truthy(v) then None
    else if v.Ref? && v.id in objects then Some(objects[v.id])
    else Some(map[])
  }

  /** `DM._apiKey`, `DM._logging`, the cookie settings and the writes so
      far, and the state of `DM.Auth`: everything `init` may change. */
  datatype World = World(apiKey: Value, logging: Value, cookieOn: Value, domain: Value,
                         written: seq<string>, auth: Auth.State)

  /** The world as the objects hold it. */
  function WorldOf(auth: Auth.AuthState): World
    reads auth, auth.cookies, auth.globals
  {
    World(auth.globals.apiKey, auth.globals.logging, auth.cookies.enabled, auth.cookies.domain,
          auth.cookies.written, auth.Model())
  }

  /** `DM.Auth.setSession(session, session ? 'connected' : 'unknown')`,
      with the cookie it writes when the session changed and cookies are on. */
  ghost function Store(w: World, session: Session, codec: UriCodec, gmt: Value -> string, now: nat): World {
    var status := if session.Some? then "connected" else "unknown";
    var on := Truthy(w.cookieOn);
    var a := Auth.SetSessionSpec(w.auth, on, session, status, now);
    var sw := SetWrite(w.apiKey, a.session, w.domain, codec, gmt);
    if Auth.TransitionFlags(w.auth.session, w.auth.status, session, status).sessionChange && on
    then w.(auth := a, written := w.written + [sw.0], domain := sw.1)
    else w.(auth := a)
  }

  /** What `init` does whether or not a key is given: it records the key
      and may switch logging off. */
  function Begin(w: World, o: Dict, location: string): World {
    w.(apiKey := Get(o, "apiKey"), logging := if LoggingOff(o, location) then Bool(false) else w.logging)
  }

  /** What `init` does once it has a key: it sets the cookie switch, then
      stores the explicit session, else the received one, else the one in
      the cookie. Reading the cookie may throw, and then the switch stays
      set and the session is not stored. */
  ghost function Start(w: World, o: Dict, objects: map<nat, Dict>, received: Session,
                       text: string, codec: UriCodec, gmt: Value -> string, now: nat): (Completion<()>, World)
  {
    var w2 := w.(cookieOn := Get(o, "cookie"));
    var given := SessionOf(Get(o, "session"), objects);
    if given.Some? then (Normal(()), Store(w2, given, codec, gmt, now))
    else if received.Some? then (Normal(()), Store(w2, received, codec, gmt, now))
    else match LoadSpec(text, w.apiKey, codec)
      case Throw(m) => (Throw(m), w2)
      case Normal(loaded) =>
        var w3 := if loaded.Some? then w2.(domain := Get(loaded.value, "base_domain")) else w2;
        (Normal(()), Store(w3, loaded, codec, gmt, now))
  }

  /** `DM.init(options)` on the world `w`, given the page URL, the session
      received from a login popup (if any), the text of `document.cookie`
      and the clock. */
  ghost function InitSpec(w: World, o: Dict, objects: map<nat, Dict>, location: string, received: Session,
                          text: string, codec: UriCodec, gmt: Value -> string, now: nat): (Completion<()>, World)
  {
    var w1 := Begin(w, o, location);
    if !Truthy(w1.apiKey) then (Normal(()), w1)
    else Start(w1, o, objects, received, text, codec, gmt, now)
  }

  /** `init` always records the key; logging ends up off exactly when it
      was off already or the options switch it off, so `init` never turns
      it back on. */
  lemma InitKeyAndLogging(w: World, o: Dict, objects: map<nat, Dict>, location: string, received: Session,
                          text: string, codec: UriCodec, gmt: Value -> string, now: nat)
    requires w.logging.Bool?
    ensures var v := InitSpec(w, o, objects, location, received, text, codec, gmt, now).1;
            v.apiKey == Get(o, "apiKey")
            && v.logging.Bool?
            && (v.logging == Bool(false) <==> w.logging == Bool(false) || LoggingOff(o, location))
  {
    var w1 := Begin(w, o, location);
    if Truthy(w1.apiKey) {
      StartKeeps(w1, o, objects, received, text, codec, gmt, now);
    }
  }

  /** Once it has a key, `init` leaves the key and the logging flag alone. */
  lemma StartKeeps(w: World, o: Dict, objects: map<nat, Dict>, received: Session,
                   text: string, codec: UriCodec, gmt: Value -> string, now: nat)
    ensures var v := Start(w, o, objects, received, text, codec, gmt, now).1;
            v.apiKey == w.apiKey && v.logging == w.logging
  {
    var w2 := w.(cookieOn := Get(o, "cookie"));
    StoreKeeps(w2, SessionOf(Get(o, "session"), objects), codec, gmt, now);
    StoreKeeps(w2, received, codec, gmt, now);
    var c := LoadSpec(text, w.apiKey, codec);
    if c.Normal? {
      var w3 := if c.value.Some? then w2.(domain := Get(c.value.value, "base_domain")) else w2;
      StoreKeeps(w3, c.value, codec, gmt, now);
    }
  }

  /** Setting the session leaves the key, the logging flag and the cookie switch alone. */
  lemma StoreKeeps(w: World, session: Session, codec: UriCodec, gmt: Value -> string, now: nat)
    ensures var v := Store(w, session, codec, gmt, now);
            v.apiKey == w.apiKey && v.logging == w.logging && v.cookieOn == w.cookieOn
  {
  }

  /** Without an API key, `init` touches neither cookies nor the session. */
  lemma InitWithoutKey(w: World, o: Dict, objects: map<nat, Dict>, location: string, received: Session,
                       text: string, codec: UriCodec, gmt: Value -> string, now: nat)
    requires !Truthy(Get(o, "apiKey"))
    ensures var (r, v) := InitSpec(w, o, objects, location, received, text, codec, gmt, now);
            r == Normal(()) && v.auth == w.auth && v.cookieOn == w.cookieOn
            && v.domain == w.domain && v.written == w.written
  {
  }

  /** `init` throws only when it has to read the cookie (a key, no explicit
      and no received session) and reading it throws; the key, the logging
      flag and the cookie switch are set by then, the session is not. */
  lemma InitThrows(w: World, o: Dict, objects: map<nat, Dict>, location: string, received: Session,
                   text: string, codec: UriCodec, gmt: Value -> string, now: nat)
    ensures var (r, v) := InitSpec(w, o, objects, location, received, text, codec, gmt, now);
            r.Throw? <==> Truthy(Get(o, "apiKey")) && !Truthy(Get(o, "session")) && received.None?
                          && LoadSpec(text, Get(o, "apiKey"), codec).Throw?
    ensures var (r, v) := InitSpec(w, o, objects, location, received, text, codec, gmt, now);
            r.Throw? ==> v.auth == w.auth && v.cookieOn == Get(o, "cookie")
                         && v.domain == w.domain && v.written == w.written
  {
  }

  /** With a key, a normal `init` leaves a session exactly when the status
      is "connected", and the status is otherwise "unknown"; the cookie
      switch is the one the options give. */
  lemma InitStatus(w: World, o: Dict, objects: map<nat, Dict>, location: string, received: Session,
                   text: string, codec: UriCodec, gmt: Value -> string, now: nat)
    requires Truthy(Get(o, "apiKey"))
    ensures var (r, v) := InitSpec(w, o, objects, location, received, text, codec, gmt, now);
            r.Normal? ==> (v.auth.status == "connected" <==> v.auth.session.Some?)
                          && (v.auth.status == "connected" || v.auth.status == "unknown")
                          && v.cookieOn == Get(o, "cookie")
  {
    var key := Get(o, "apiKey");
    var w2 := w.(apiKey := key, logging := if LoggingOff(o, location) then Bool(false) else w.logging,
                 cookieOn := Get(o, "cookie"));
    StoreStatus(w2, SessionOf(Get(o, "session"), objects), codec, gmt, now);
    StoreKeeps(w2, SessionOf(Get(o, "session"), objects), codec, gmt, now);
    StoreStatus(w2, received, codec, gmt, now);
    StoreKeeps(w2, received, codec, gmt, now);
    var c := LoadSpec(text, key, codec);
    if c.Normal? {
      var w3 := if c.value.Some? then w2.(domain := Get(c.value.value, "base_domain")) else w2;
      StoreStatus(w3, c.value, codec, gmt, now);
      StoreKeeps(w3, c.value, codec, gmt, now);
    }
  }

  /** After `Store` the session is the given one, stamped, and the status
      says whether there is one. */
  lemma StoreStatus(w: World, session: Session, codec: UriCodec, gmt: Value -> string, now: nat)
    ensures var v := Store(w, session, codec, gmt, now);
            v.auth.session == (if session.Some? then Some(Auth.StampExpiry(session.value, now)) else None)
            && v.auth.status == (if session.Some? then "connected" else "unknown")
  {
  }

  /** An explicit session wins: the cookie is not read, whatever it holds,
      and the session stored is the one given. */
  lemma ExplicitSessionWins(w: World, o: Dict, objects: map<nat, Dict>, location: string, received: Session,
                            text1: string, text2: string, codec: UriCodec, gmt: Value -> string, now: nat)
    requires Truthy(Get(o, "apiKey")) && Truthy(Get(o, "session"))
    ensures InitSpec(w, o, objects, location, received, text1, codec, gmt, now)
            == InitSpec(w, o, objects, location, received, text2, codec, gmt, now)
    ensures var (r, v) := InitSpec(w, o, objects, location, received, text1, codec, gmt, now);
            r == Normal(()) && v.auth.session == Some(Auth.StampExpiry(SessionOf(Get(o, "session"), objects).value, now))
  {
    var w2 := w.(apiKey := Get(o, "apiKey"), logging := if LoggingOff(o, location) then Bool(false) else w.logging,
                 cookieOn := Get(o, "cookie"));
    StoreStatus(w2, SessionOf(Get(o, "session"), objects), codec, gmt, now);
  }

  /** Without an explicit session, a session received from a login popup
      comes next: the cookie is not read, whatever it holds, and the
      received session is stored, stamped, as "connected". */
  lemma ReceivedSessionWins(w: World, o: Dict, objects: map<nat, Dict>, location: string, s: Dict,
                            text1: string, text2: string, codec: UriCodec, gmt: Value -> string, now: nat)
    requires Truthy(Get(o, "apiKey")) && !Truthy(Get(o, "session"))
    ensures InitSpec(w, o, objects, location, Some(s), text1, codec, gmt, now)
            == InitSpec(w, o, objects, location, Some(s), text2, codec, gmt, now)
    ensures var (r, v) := InitSpec(w, o, objects, location, Some(s), text1, codec, gmt, now);
            r == Normal(()) && v.auth.session == Some(Auth.StampExpiry(s, now)) && v.auth.status == "connected"
            && v.cookieOn == Get(o, "cookie")
  {
    var w2 := w.(apiKey := Get(o, "apiKey"), logging := if LoggingOff(o, location) then Bool(false) else w.logging,
                 cookieOn := Get(o, "cookie"));
    StoreStatus(w2, Some(s), codec, gmt, now);
    StoreKeeps(w2, Some(s), codec, gmt, now);
  }

  /** A page that calls `init` with its key and no session picks up the
      session a previous visit wrote to the cookie, stamped afresh. */
  lemma InitRestoresCookie(w: World, o: Dict, objects: map<nat, Dict>, location: string,
                           m: Dict, n: int, rest: string, codec: UriCodec, gmt: Value -> string, now: nat)
    requires Truthy(Get(o, "apiKey")) && !Truthy(Get(o, "session"))
    requires CookieCodec(codec)
    requires "expires" in m && m["expires"] == Num(n)
    requires FlatStringMap(m - {"expires"})
    ensures var text := NameValue(Get(o, "apiKey"), EncodeSpec(m, Undefined, Undefined, codec)) + rest;
            var (r, v) := InitSpec(w, o, objects, location, None, text, codec, gmt, now);
            r == Normal(()) && v.auth.session == Some(Auth.StampExpiry(m, now)) && v.auth.status == "connected"
  {
    var text := NameValue(Get(o, "apiKey"), EncodeSpec(m, Undefined, Undefined, codec)) + rest;
    CookieRoundTrip(Get(o, "apiKey"), m, n, rest, codec);
    StartLoads(Begin(w, o, location), o, objects, text, codec, gmt, now, m);
  }

  /** Without a session given or received, the one the cookie loads is stored. */
  lemma StartLoads(w: World, o: Dict, objects: map<nat, Dict>, text: string,
                   codec: UriCodec, gmt: Value -> string, now: nat, m: Dict)
    requires SessionOf(Get(o, "session"), objects).None?
    requires LoadSpec(text, w.apiKey, codec) == Normal(Some(m))
    ensures var (r, v) := Start(w, o, objects, None, text, codec, gmt, now);
            r == Normal(()) && v.auth.session == Some(Auth.StampExpiry(m, now)) && v.auth.status == "connected"
  {
    var w2 := w.(cookieOn := Get(o, "cookie"));
    StoreStatus(w2.(domain := Get(m, "base_domain")), Some(m), codec, gmt, now);
  }

  /** `DM.Auth.setSession(session, session ? 'connected' : 'unknown')` as `init` calls it. */
  method StoreSession(auth: Auth.AuthState, session: Session, now: nat)
    modifies auth, auth.cookies
    ensures WorldOf(auth) == Store(old(WorldOf(auth)), session, auth.codec, auth.gmt, now)
    ensures auth.interval == old(auth.interval)
  {
    var _ := auth.SetSession(session, if session.Some? then "connected" else "unknown", now);
  }

  /** The part of `DM.init` that runs once a key is set. */
  method StartSession(o: Dict, objects: map<nat, Dict>, received: Session, cookieText: string,
                      auth: Auth.AuthState, now: nat) returns (r: Completion<()>)
    modifies auth, auth.cookies
    ensures (r, WorldOf(auth)) == Start(old(WorldOf(auth)), o, objects, received, cookieText, auth.codec, auth.gmt, now)
    ensures auth.interval == old(auth.interval)
  {
    auth.cookies.SetEnabled(Get(o, "cookie"));
    var session := SessionOf(Get(o, "session"), objects);
    if session.None? {
      session := received;
    }
    if session.None? {
      var loaded := auth.cookies.Load(cookieText, auth.globals.apiKey, auth.codec);
      if loaded.Throw? {
        return Throw(loaded.message);
      }
      session := loaded.value;
    }
    StoreSession(auth, session, now);
    r := Normal(());
  }

  /** `DM._apiKey = options.apiKey`, and logging switched off unless asked for. */
  method SetKeyAndLogging(o: Dict, location: string, globals: Globals)
    modifies globals
    ensures globals.apiKey == Get(o, "apiKey")
    ensures globals.logging == if LoggingOff(o, location) then Bool(false) else old(globals.logging)
    ensures globals.class2type == old(globals.class2type)
  {
    globals.apiKey := Get(o, "apiKey");
    if LoggingOff(o, location) {
      globals.logging := Bool(false);
    }
  }

  /** `DM.init(options)`. With a truthy `options.status` it calls
      `DM.getLoginStatus()` with no callback, which changes nothing. */
  method Init(options: Value, objects: map<nat, Dict>, location: string, received: Session,
              cookieText: string, auth: Auth.AuthState, now: nat) returns (r: Completion<()>)
    modifies auth, auth.cookies, auth.globals
    ensures (r, WorldOf(auth)) == InitSpec(old(WorldOf(auth)), Options(options, objects), objects, location,
                                           received, cookieText, auth.codec, auth.gmt, now)
    ensures auth.interval == old(auth.interval) && auth.globals.class2type == old(auth.globals.class2type)
  {
    var o := Options(options, objects);
    SetKeyAndLogging(o, location, auth.globals);
    if !Truthy(auth.globals.apiKey) {
      return Normal(());
    }
    r := StartSession(o, objects, received, cookieText, auth, now);
    if r.Normal? && Truthy(Get(o, "status")) {
      ghost var t := auth.trace;
      auth.GetLoginStatus(None);
      assert auth.trace == t + [] == t;
    }
  }
}
