/**
 * `DM.api(path, ...)` and `DM.ApiServer`: the variadic arguments are sorted
 * out by type, defaults are applied, the HTTP method is checked, the
 * session's access token is added, and the call goes out as a JSONP
 * request whose answer is routed back through a registry of callbacks.
 *
 * The `<script>` tag the request is made with is recorded as the URL it
 * loads; the caller's callbacks are named by identity and their calls are
 * recorded, in order, in the server's trace.
 */
module Api {
  import opened JsValues
  import opened QS
  import Auth
  import Cookie

  /** `DM.ApiServer.METHODS`. */
  const Methods: seq<string> := ["get", "post", "delete"]

  /** `DM.ApiServer.endpoint`: `DM._domain.api + '/'`. */
  const Endpoint: string := "https://api.dailymotion.com/"

  /** The longest request URL `jsonp` sends. */
  const UrlLimit: nat := 2000

  const TooLong: string := "Error: JSONP only support a maximum of 2000 bytes of input."

  // ---------------------------------------------------------------------
  // The arguments of `DM.api`

  /** What the argument loop has picked up so far: the lower-cased method,
      the parameters object and the callback (by identity). */
  datatype Parsed = Parsed(verb: Option<string>, params: Option<Dict>, cb: Option<nat>)

  /** The loop either accepts the arguments or stops at one it cannot place. */
  datatype Arguments = Accepted(parsed: Parsed) | Rejected(arg: Value)

  const Start: Parsed := Parsed(None, None, None)

  /** The properties of an object argument. `objects` holds the plain
      objects the caller passed, by identity; an array or any other object
      gives no properties. */
  function ParamsOf(v: Value, objects: map<nat, Dict>): Dict {
    if v.Ref? && v.id in objects then objects[v.id] else map[]
  }

  /** The slot an argument goes to, by its `typeof`: a string names the
      method, a function is the callback, an object holds the parameters. */
  datatype Slot = VerbSlot | CbSlot | ParamsSlot | NoSlot

  function SlotOf(v: Value): Slot {
    match v
    case Str(_) => VerbSlot
    case Ref(_, cls) => if cls == "Function" then CbSlot else ParamsSlot
    case Null => ParamsSlot
    case Arr(_) => ParamsSlot
    case _ => NoSlot
  }

  /** The slot is the one `typeof` picks: `string`, `function`, `object`. */
  lemma SlotOfTypeOf(v: Value)
    ensures SlotOf(v) == VerbSlot <==> TypeOf(v) == "string"
    ensures SlotOf(v) == CbSlot <==> TypeOf(v) == "function"
    ensures SlotOf(v) == ParamsSlot <==> TypeOf(v) == "object"
  {
  }

  /** Whether `slot` is still empty in `p`. */
  predicate Free(p: Parsed, slot: Slot) {
    match slot
    case VerbSlot => p.verb.None?
    case CbSlot => p.cb.None?
    case ParamsSlot => p.params.None?
    case NoSlot => false
  }

  /** `p` with the argument `x` in its slot: the method lower-cased, the
      callback by identity, the parameters as the object's properties. */
  function Fill(p: Parsed, x: Value, objects: map<nat, Dict>): Parsed {
    match SlotOf(x)
    case VerbSlot => p.(verb := Some(Lower(x.s)))
    case CbSlot => p.(cb := Some(x.id))
    case ParamsSlot => p.(params := Some(ParamsOf(x, objects)))
    case NoSlot => p
  }

  /** The loop of `ApiServer.call` from `p` on: it stops at the first falsy
      argument; a string, a function or an object fills its slot when the
      slot is still empty; anything else is rejected. */
  function Scan(p: Parsed, args: seq<Value>, objects: map<nat, Dict>): Arguments
    decreases |args|
  {
    if args == [] || !Truthy(args[0]) then Accepted(p)
    else if Free(p, SlotOf(args[0])) then Scan(Fill(p, args[0], objects), args[1..], objects)
    else Rejected(args[0])
  }

  /** The number of arguments before the first falsy one. */
  function Stop(args: seq<Value>): (n: nat)
    ensures n <= |args|
    ensures forall i :: 0 <= i < n ==> Truthy(args[i])
    ensures n < |args| ==> !Truthy(args[n])
  {
    if args == [] || !Truthy(args[0]) then 0 else 1 + Stop(args[1..])
  }

  /** Every argument is a string, a function or an object, and no two share a type. */
  ghost predicate Acceptable(xs: seq<Value>) {
    && (forall i :: 0 <= i < |xs| ==> SlotOf(xs[i]) != NoSlot)
    && (forall i, j :: 0 <= i < j < |xs| ==> SlotOf(xs[i]) != SlotOf(xs[j]))
  }

  /** Only the arguments before the first falsy one are looked at. */
  lemma {:induction false} ScanStops(p: Parsed, args: seq<Value>, objects: map<nat, Dict>)
    ensures Scan(p, args, objects) == Scan(p, args[..Stop(args)], objects)
    decreases |args|
  {
    if args != [] && Truthy(args[0]) {
      assert args[..Stop(args)][1..] == args[1..][..Stop(args[1..])];
      ScanStops(Fill(p, args[0], objects), args[1..], objects);
    }
  }

  /** Filling a free slot empties no other slot and fills that one. */
  lemma FillFree(p: Parsed, x: Value, objects: map<nat, Dict>)
    requires Free(p, SlotOf(x))
    ensures forall s :: Free(Fill(p, x, objects), s) <==> Free(p, s) && s != SlotOf(x)
  {
  }

  /** Truthy arguments are accepted from `p` on exactly when each is a
      string, function or object whose slot is empty in `p`, and no two
      share a type. */
  lemma {:induction false} ScanAccepts(p: Parsed, xs: seq<Value>, objects: map<nat, Dict>)
    requires forall i :: 0 <= i < |xs| ==> Truthy(xs[i])
    ensures Scan(p, xs, objects).Accepted?
        <==> Acceptable(xs) && forall i :: 0 <= i < |xs| ==> Free(p, SlotOf(xs[i]))
    decreases |xs|
  {
    if xs != [] {
      var rest := xs[1..];
      var t := SlotOf(xs[0]);
      assert forall i :: 0 <= i < |rest| ==> rest[i] == xs[i + 1];
      if Free(p, t) {
        var q := Fill(p, xs[0], objects);
        ScanAccepts(q, rest, objects);
        FillFree(p, xs[0], objects);
        if Scan(q, rest, objects).Accepted? {
          forall i, j | 0 <= i < j < |xs| ensures SlotOf(xs[i]) != SlotOf(xs[j]) {
            if i > 0 {
              assert xs[i] == rest[i - 1] && xs[j] == rest[j - 1];
            } else {
              assert Free(q, SlotOf(rest[j - 1]));
            }
          }
          forall i | 0 <= i < |xs| ensures Free(p, SlotOf(xs[i])) {
            if i > 0 {
              assert Free(q, SlotOf(rest[i - 1]));
            }
          }
        }
        if Acceptable(xs) && forall i :: 0 <= i < |xs| ==> Free(p, SlotOf(xs[i])) {
          forall i | 0 <= i < |rest| ensures Free(q, SlotOf(rest[i])) {
            assert SlotOf(xs[0]) != SlotOf(xs[i + 1]);
          }
          assert Acceptable(rest) by {
            forall i, j | 0 <= i < j < |rest| ensures SlotOf(rest[i]) != SlotOf(rest[j]) {
              assert SlotOf(xs[i + 1]) != SlotOf(xs[j + 1]);
            }
          }
        }
      }
    }
  }

  /** Slot `slot` holds the same in `p` and `q`. */
  predicate SameSlot(p: Parsed, q: Parsed, slot: Slot) {
    match slot
    case VerbSlot => p.verb == q.verb
    case CbSlot => p.cb == q.cb
    case ParamsSlot => p.params == q.params
    case NoSlot => true
  }

  /** The loop never changes a slot that is already filled, nor one that no
      argument goes to. */
  lemma {:induction false} ScanKeeps(p: Parsed, xs: seq<Value>, objects: map<nat, Dict>, slot: Slot)
    requires Scan(p, xs, objects).Accepted?
    requires !Free(p, slot) || forall i :: 0 <= i < |xs| ==> SlotOf(xs[i]) != slot
    ensures SameSlot(p, Scan(p, xs, objects).parsed, slot)
    decreases |xs|
  {
    if xs != [] && Truthy(xs[0]) {
      var q := Fill(p, xs[0], objects);
      var rest := xs[1..];
      assert forall i :: 0 <= i < |rest| ==> rest[i] == xs[i + 1];
      assert SameSlot(p, q, slot);
      ScanKeeps(q, rest, objects, slot);
    }
  }

  /** Each accepted argument ends up in its slot. */
  lemma {:induction false} ScanPlaces(p: Parsed, xs: seq<Value>, objects: map<nat, Dict>, i: nat)
    requires Scan(p, xs, objects).Accepted?
    requires i < |xs| && forall j :: 0 <= j <= i ==> Truthy(xs[j])
    ensures SameSlot(Fill(p, xs[i], objects), Scan(p, xs, objects).parsed, SlotOf(xs[i]))
    decreases i
  {
    var q := Fill(p, xs[0], objects);
    var rest := xs[1..];
    if i == 0 {
      ScanKeeps(q, rest, objects, SlotOf(xs[0]));
    } else {
      assert rest[i - 1] == xs[i];
      ScanPlaces(q, rest, objects, i - 1);
    }
  }

  /** Accepted arguments fill each slot from the argument of its type, the
      string lower-cased, and leave a slot no argument fills as it was. */
  lemma ScanFills(p: Parsed, xs: seq<Value>, objects: map<nat, Dict>)
    requires Scan(p, xs, objects).Accepted?
    requires forall i :: 0 <= i < |xs| ==> Truthy(xs[i])
    ensures var q := Scan(p, xs, objects).parsed;
            && (forall i :: 0 <= i < |xs| && SlotOf(xs[i]) == VerbSlot ==> q.verb == Some(Lower(xs[i].s)))
            && (forall i :: 0 <= i < |xs| && SlotOf(xs[i]) == CbSlot ==> q.cb == Some(xs[i].id))
            && (forall i :: 0 <= i < |xs| && SlotOf(xs[i]) == ParamsSlot ==> q.params == Some(ParamsOf(xs[i], objects)))
            && ((forall i :: 0 <= i < |xs| ==> SlotOf(xs[i]) != VerbSlot) ==> q.verb == p.verb)
            && ((forall i :: 0 <= i < |xs| ==> SlotOf(xs[i]) != CbSlot) ==> q.cb == p.cb)
            && ((forall i :: 0 <= i < |xs| ==> SlotOf(xs[i]) != ParamsSlot) ==> q.params == p.params)
  {
    forall i | 0 <= i < |xs|
      ensures SameSlot(Fill(p, xs[i], objects), Scan(p, xs, objects).parsed, SlotOf(xs[i]))
    {
      ScanPlaces(p, xs, objects, i);
    }
    if forall i :: 0 <= i < |xs| ==> SlotOf(xs[i]) != VerbSlot {
      ScanKeeps(p, xs, objects, VerbSlot);
    }
    if forall i :: 0 <= i < |xs| ==> SlotOf(xs[i]) != CbSlot {
      ScanKeeps(p, xs, objects, CbSlot);
    }
    if forall i :: 0 <= i < |xs| ==> SlotOf(xs[i]) != ParamsSlot {
      ScanKeeps(p, xs, objects, ParamsSlot);
    }
  }

  /** `DM.api`'s argument loop. */
  method ParseArguments(args: seq<Value>, objects: map<nat, Dict>) returns (r: Arguments)
    ensures r == Scan(Start, args, objects)
  {
    var verb: Option<string> := None;
    var params: Option<Dict> := None;
    var cb: Option<nat> := None;
    var i := 0;
    while i < |args| && Truthy(args[i])
      invariant 0 <= i <= |args|
      invariant Scan(Parsed(verb, params, cb), args[i..], objects) == Scan(Start, args, objects)
    {
      var next := args[i];
      assert args[i..][1..] == args[i + 1..];
      var t := TypeOf(next);
      SlotOfTypeOf(next);
      if t == "string" && verb.None? {
        verb := Some(Lower(next.s));
      } else if t == "function" && cb.None? {
        cb := Some(next.id);
      } else if t == "object" && params.None? {
        params := Some(ParamsOf(next, objects));
      } else {
        return Rejected(next);
      }
      i := i + 1;
    }
    r := Accepted(Parsed(verb, params, cb));
  }

  // ---------------------------------------------------------------------
  // Defaults and validation

  /** A request ready for `oauthRequest`. */
  datatype Request = Request(path: string, verb: string, params: Dict, cb: Option<nat>)

  /** What `call` does with its arguments: log a message and return, or send. */
  datatype Plan = Refused(message: string) | Send(request: Request)

  /** `path.substr(1)` when the path starts with `/`. */
  function StripSlash(path: string): (r: string)
    ensures StartsWith(path, "/") ==> "/" + r == path
    ensures !StartsWith(path, "/") ==> r == path
  {
    if |path| > 0 && path[0] == '/' then path[1..] else path
  }

  /** The method `call` settles on: the one given, else `get`. */
  function VerbOf(p: Parsed): string {
    if p.verb.Some? then p.verb.value else "get"
  }

  /** The rest of `ApiServer.call` after the argument loop. */
  function Prepare(path: string, a: Arguments): Plan {
    match a
    case Rejected(v) => Refused("Invalid argument passed to DM.api(): " + ToStr(v))
    case Accepted(p) =>
      var verb := VerbOf(p);
      if verb !in Methods then Refused("Invalid method passed to DM.api(): " + verb)
      else Send(Request(StripSlash(path), verb, if p.params.Some? then p.params.value else map[], p.cb))
  }

  /** Exactly one leading `/` is removed, even from `//x`. */
  lemma StripOneSlash(path: string)
    ensures StripSlash("/" + path) == path
  {
  }

  /** Truthy arguments lead to a request exactly when they are acceptable
      and every method they name is a known one. */
  lemma {:induction false} PlanSends(path: string, xs: seq<Value>, objects: map<nat, Dict>)
    requires forall i :: 0 <= i < |xs| ==> Truthy(xs[i])
    ensures Prepare(path, Scan(Start, xs, objects)).Send?
            <==> Acceptable(xs) && forall i :: 0 <= i < |xs| && SlotOf(xs[i]) == VerbSlot ==> Lower(xs[i].s) in Methods
  {
    ScanAccepts(Start, xs, objects);
    assert forall slot :: Free(Start, slot) <==> slot != NoSlot;
    var a := Scan(Start, xs, objects);
    if a.Accepted? {
      ScanFills(Start, xs, objects);
      assert "get" in Methods;
      if exists i :: 0 <= i < |xs| && SlotOf(xs[i]) == VerbSlot {
        var i :| 0 <= i < |xs| && SlotOf(xs[i]) == VerbSlot;
        assert VerbOf(a.parsed) == Lower(xs[i].s);
      }
    }
  }

  /** The request truthy arguments lead to: the method named (`get` when
      none is), the given object's properties (none when no object is
      given), the given callback and the path without its leading slash. */
  lemma PlanRequest(path: string, xs: seq<Value>, objects: map<nat, Dict>)
    requires forall i :: 0 <= i < |xs| ==> Truthy(xs[i])
    requires Prepare(path, Scan(Start, xs, objects)).Send?
    ensures var r := Prepare(path, Scan(Start, xs, objects)).request;
            && r.path == StripSlash(path)
            && r.verb in Methods
            && ((forall i :: 0 <= i < |xs| ==> SlotOf(xs[i]) != VerbSlot) ==> r.verb == "get")
            && (forall i :: 0 <= i < |xs| && SlotOf(xs[i]) == VerbSlot ==> r.verb == Lower(xs[i].s))
            && ((forall i :: 0 <= i < |xs| ==> SlotOf(xs[i]) != ParamsSlot) ==> r.params == map[])
            && (forall i :: 0 <= i < |xs| && SlotOf(xs[i]) == ParamsSlot ==> r.params == ParamsOf(xs[i], objects))
            && ((forall i :: 0 <= i < |xs| ==> SlotOf(xs[i]) != CbSlot) ==> r.cb == None)
            && (forall i :: 0 <= i < |xs| && SlotOf(xs[i]) == CbSlot ==> r.cb == Some(xs[i].id))
  {
    ScanFills(Start, xs, objects);
  }

  /** `DM.api` sends a request exactly when the arguments up to the first
      falsy one are strings, functions or objects, no two of one type, and
      the method they name is `get`, `post` or `delete`; the request is the
      one `PlanRequest` describes for those arguments. */
  lemma CallPlan(path: string, args: seq<Value>, objects: map<nat, Dict>)
    ensures var xs := args[..Stop(args)];
            && Prepare(path, Scan(Start, args, objects)) == Prepare(path, Scan(Start, xs, objects))
            && (Prepare(path, Scan(Start, args, objects)).Send?
                <==> Acceptable(xs) && forall i :: 0 <= i < |xs| && SlotOf(xs[i]) == VerbSlot ==> Lower(xs[i].s) in Methods)
  {
    ScanStops(Start, args, objects);
    PlanSends(path, args[..Stop(args)], objects);
  }

  // ---------------------------------------------------------------------
  // `oauthRequest` and `jsonp`

  /** Whether `oauthRequest` copies the session's token into the parameters. */
  predicate AddsToken(params: Dict, session: Session) {
    session.Some? && Truthy(Get(session.value, "access_token")) && !Truthy(Get(params, "access_token"))
  }

  /** The parameters after `oauthRequest` added the token. */
  function WithToken(params: Dict, session: Session): (r: Dict)
    ensures forall k :: k in r <==> k in params || (k == "access_token" && AddsToken(params, session))
    ensures forall k :: k in params && k != "access_token" ==> r[k] == params[k]
    ensures session.Some? && Truthy(Get(session.value, "access_token")) && !Truthy(Get(params, "access_token"))
            ==> "access_token" in r && r["access_token"] == session.value["access_token"]
    ensures Truthy(Get(params, "access_token")) ==> r["access_token"] == params["access_token"]
    ensures "access_token" in params && !AddsToken(params, session) ==> r["access_token"] == params["access_token"]
  {
    if AddsToken(params, session) then params["access_token" := session.value["access_token"]] else params
  }

  /** A token the caller passed is never replaced, and the session's token
      is used whenever the caller passed none. */
  lemma TokenKept(params: Dict, session: Session)
    ensures Truthy(Get(params, "access_token")) ==> WithToken(params, session) == params
    ensures session.Some? && Truthy(Get(session.value, "access_token")) && !Truthy(Get(params, "access_token"))
            ==> Get(WithToken(params, session), "access_token") == Get(session.value, "access_token")
    ensures forall k :: k != "access_token" ==> Get(WithToken(params, session), k) == Get(params, k)
  {
  }

  /** The global name the JSONP answer calls back. */
  function CallbackName(g: string): string {
    "DM.ApiServer._callbacks." + g
  }

  /** `params` with the JSONP `method` override and `callback`. */
  function JsonpParams(params: Dict, verb: string, g: string): Dict {
    params["method" := Str(verb)]["callback" := Str(CallbackName(g))]
  }

  /** The character between the path and the query. */
  function Joiner(path: string): string {
    if IndexOf(path, '?') > -1 then "&" else "?"
  }

  /** The URL of the JSONP request. */
  ghost function JsonpUrl(path: string, verb: string, params: Dict, g: string, codec: UriCodec): string {
    Endpoint + path + Joiner(path) + EncodeSpec(JsonpParams(params, verb, g), Undefined, Undefined, codec)
  }

  /** The request URL is the endpoint and the path, then `&` when the path
      already has a query and `?` otherwise, then a query that decodes to
      the parameters with `method` and `callback` set (for flat string
      parameters and a URI codec that round-trips). */
  lemma JsonpUrlCarries(path: string, verb: string, params: Dict, g: string, codec: UriCodec)
    requires Inverse(codec) && FlatStringMap(params)
    ensures var url := JsonpUrl(path, verb, params, g, codec);
            var n := |Endpoint + path|;
            && n < |url| && url[..n] == Endpoint + path
            && (url[n] == '&' <==> '?' in path) && (url[n] == '?' <==> '?' !in path)
            && DecodeSpec(url[n + 1..], codec) == Normal(JsonpParams(params, verb, g))
  {
    var jp := JsonpParams(params, verb, g);
    JsonpParamsFlat(params, verb, g);
    DecodeEncodeRoundTrip(jp, codec);
    ConcatParts(Endpoint + path, Joiner(path), EncodeSpec(jp, Undefined, Undefined, codec));
  }

  /** The JSONP parameters carry `method` and `callback` and keep every
      other parameter; flat string parameters stay flat. */
  lemma JsonpParamsFlat(params: Dict, verb: string, g: string)
    ensures var jp := JsonpParams(params, verb, g);
            && jp["method"] == Str(verb) && jp["callback"] == Str(CallbackName(g))
            && (forall k :: k in params && k != "method" && k != "callback" ==> jp[k] == params[k])
            && (FlatStringMap(params) ==> FlatStringMap(jp))
  {
    assert !EndsWithBrackets("method") && !EndsWithBrackets("callback");
  }

  // ---------------------------------------------------------------------
  // The callback registry

  /** What the API server does that can be seen from outside. */
  datatype ApiEffect =
    | Logged(message: string)
    | Requested(url: string)
    | Invoked(cb: nat, response: Value)

  /** `DM.ApiServer._callbacks` (the caller's callback each one runs, if
      any) and the trace of requests, log lines and callback calls. */
  datatype Registry = Registry(callbacks: map<string, Option<nat>>, trace: seq<ApiEffect>)

  /** `cb && cb(response)`. */
  function Invocation(cb: Option<nat>, response: Value): seq<ApiEffect> {
    if cb.Some? then [Invoked(cb.value, response)] else []
  }

  /** `jsonp` from the URL on: too long a URL throws before anything is
      registered; otherwise the callback is registered under `g` and the
      script is loaded. */
  function JsonpSpec(m: Registry, url: string, g: string, cb: Option<nat>): (Completion<()>, Registry) {
    if |url| > UrlLimit then (Throw(TooLong), m)
    else (Normal(()), Registry(m.callbacks[g := cb], m.trace + [Requested(url)]))
  }

  /** The answer to request `g`: the registered function runs the caller's
      callback and deletes itself; a name no longer registered is not a
      function and the call throws. */
  function RespondSpec(m: Registry, g: string, response: Value): (Completion<()>, Registry) {
    if g !in m.callbacks then (Throw("TypeError: " + CallbackName(g) + " is not a function"), m)
    else (Normal(()), Registry(m.callbacks - {g}, m.trace + Invocation(m.callbacks[g], response)))
  }

  /** A request is answered at most once: the second answer to the same
      request runs nothing and throws. */
  lemma RespondOnce(m: Registry, g: string, x: Value, y: Value)
    requires g in m.callbacks
    ensures var (r1, m1) := RespondSpec(m, g, x);
            r1.Normal? && m1.trace == m.trace + Invocation(m.callbacks[g], x)
            && RespondSpec(m1, g, y).0.Throw? && RespondSpec(m1, g, y).1 == m1
  {
  }

  /** A request registered under a fresh name and then answered runs the
      caller's callback once and leaves the registry as it found it. */
  lemma RegisterThenRespond(m: Registry, url: string, g: string, cb: Option<nat>, x: Value)
    requires g !in m.callbacks && |url| <= UrlLimit
    ensures var m1 := JsonpSpec(m, url, g, cb).1;
            var (r, m2) := RespondSpec(m1, g, x);
            r.Normal? && m2.callbacks == m.callbacks && m2.trace == m.trace + [Requested(url)] + Invocation(cb, x)
  {
    assert m.callbacks[g := cb] - {g} == m.callbacks;
  }

  /** A URL over the limit is refused with nothing registered and nothing sent. */
  lemma JsonpTooLong(m: Registry, url: string, g: string, cb: Option<nat>)
    ensures JsonpSpec(m, url, g, cb).0.Throw? <==> |url| > UrlLimit
    ensures JsonpSpec(m, url, g, cb).0.Throw? ==> JsonpSpec(m, url, g, cb).1 == m
    ensures JsonpSpec(m, url, g, cb).0.Normal? ==> g in JsonpSpec(m, url, g, cb).1.callbacks
  {
  }

  // ---------------------------------------------------------------------
  // The server

  /** `DM.ApiServer`, with the session state `oauthRequest` reads the token
      from, the URI codec `DM.QS.encode` uses and `DM.JSON.flatten`. */
  class ApiServer {
    var callbacks: map<string, Option<nat>>
    var trace: seq<ApiEffect>
    const auth: Auth.AuthState
    const codec: UriCodec
    const flatten: Dict -> Dict

    function Model(): Registry
      reads this
    {
      Registry(callbacks, trace)
    }

    constructor (auth: Auth.AuthState, codec: UriCodec, flatten: Dict -> Dict)
      ensures Model() == Registry(map[], [])
      ensures this.auth == auth && this.codec == codec && this.flatten == flatten
    {
      callbacks := map[];
      trace := [];
      this.auth := auth;
      this.codec := codec;
      this.flatten := flatten;
    }

    /** `DM.api(path, ...args)`. `objects` gives the properties of the
        objects among `args`, `guid` is the `DM.guid()` the request draws. */
    method Call(path: string, args: seq<Value>, objects: map<nat, Dict>, guid: string, now: nat)
      returns (r: Completion<()>)
      modifies this, auth, auth.cookies
      ensures var plan := Prepare(path, Scan(Start, args, objects));
              plan.Refused? ==> r == Normal(()) && Model() == old(Model()).(trace := old(trace) + [Logged(plan.message)])
                                && unchanged(auth, auth.cookies)
      ensures var plan := Prepare(path, Scan(Start, args, objects));
              plan.Send? ==>
                var q := plan.request;
                && auth.Model() == Auth.GetSessionSpec(old(auth.Model()), Truthy(old(auth.cookies.enabled)), now)
                && Auth.CookieSet(old(auth.session).Some? && Auth.Expired(old(auth.session).value, now)
                                    && Truthy(old(auth.cookies.enabled)),
                                  old(auth.cookies.written), old(auth.cookies.domain), auth.cookies.written,
                                  auth.cookies.domain,
                                  Cookie.SetWrite(auth.globals.apiKey, None, old(auth.cookies.domain), auth.codec, auth.gmt))
                && (r, Model()) == JsonpSpec(old(Model()),
                                             JsonpUrl(q.path, q.verb, flatten(WithToken(q.params, auth.session)), guid, codec),
                                             guid, q.cb)
    {
      var a := ParseArguments(args, objects);
      if a.Rejected? {
        trace := trace + [Logged("Invalid argument passed to DM.api(): " + ToStr(a.arg))];
        return Normal(());
      }
      var verb := if a.parsed.verb.Some? then a.parsed.verb.value else "get";
      var params := if a.parsed.params.Some? then a.parsed.params.value else map[];
      var p := path;
      if |p| > 0 && p[0] == '/' {
        p := p[1..];
      }
      if verb !in Methods {
        trace := trace + [Logged("Invalid method passed to DM.api(): " + verb)];
        return Normal(());
      }
      r := OauthRequest(p, verb, params, a.parsed.cb, guid, now);
    }

    /** `ApiServer.oauthRequest`: adds the session's token unless the caller
        gave one, then sends the flattened parameters. */
    method OauthRequest(path: string, verb: string, params: Dict, cb: Option<nat>, guid: string, now: nat)
      returns (r: Completion<()>)
      modifies this, auth, auth.cookies
      ensures auth.Model() == Auth.GetSessionSpec(old(auth.Model()), Truthy(old(auth.cookies.enabled)), now)
      ensures Auth.CookieSet(old(auth.session).Some? && Auth.Expired(old(auth.session).value, now)
                               && Truthy(old(auth.cookies.enabled)),
                             old(auth.cookies.written), old(auth.cookies.domain), auth.cookies.written, auth.cookies.domain,
                             Cookie.SetWrite(auth.globals.apiKey, None, old(auth.cookies.domain), auth.codec, auth.gmt))
      ensures (r, Model()) == JsonpSpec(old(Model()), JsonpUrl(path, verb, flatten(WithToken(params, auth.session)), guid, codec), guid, cb)
    {
      var session := auth.GetSession(now);
      var p := params;
      if session.Some? && Truthy(Get(session.value, "access_token")) && !Truthy(Get(p, "access_token")) {
        p := p["access_token" := session.value["access_token"]];
      }
      r := Jsonp(path, verb, flatten(p), cb, guid);
    }

    /** `ApiServer.jsonp`. */
    method Jsonp(path: string, verb: string, params: Dict, cb: Option<nat>, g: string) returns (r: Completion<()>)
      modifies this
      ensures (r, Model()) == JsonpSpec(old(Model()), JsonpUrl(path, verb, params, g, codec), g, cb)
    {
      var p := params["method" := Str(verb)];
      p := p["callback" := Str("DM.ApiServer._callbacks." + g)];
      var query := Encode(p, Undefined, Undefined, codec);
      var url := Endpoint + path + (if IndexOf(path, '?') > -1 then "&" else "?") + query;
      if |url| > UrlLimit {
        return Throw(TooLong);
      }
      callbacks := callbacks[g := cb];
      trace := trace + [Requested(url)];
      r := Normal(());
    }

    /** The JSONP answer to request `g` calling `DM.ApiServer._callbacks[g]`. */
    method Respond(g: string, response: Value) returns (r: Completion<()>)
      modifies this
      ensures (r, Model()) == RespondSpec(old(Model()), g, response)
    {
      if g !in callbacks {
        return Throw("TypeError: " + CallbackName(g) + " is not a function");
      }
      var cb := callbacks[g];
      if cb.Some? {
        trace := trace + [Invoked(cb.value, response)];
      } else {
        assert trace + Invocation(cb, response) == trace;
      }
      callbacks := callbacks - {g};
      r := Normal(());
    }
  }
}
