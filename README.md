# Dailymotion JavaScript SDK core, modelled in Dafny

This project models the core of the Dailymotion JavaScript SDK (`DM`) and
proves properties about that model:

- the `DM` prelude helpers (`copy`, `create`, `provide`, `parseBool`, `type`);
- the query-string codec `DM.QS`;
- the session cookie writer and reader `DM.Cookie`;
- the session and login state machine `DM.Auth`, with `getSession`, `login`,
  `getLoginStatus`, `recvSession`, `readFragment`, `setSession` and the popup
  monitor;
- the API front end `DM.ApiServer`, with argument parsing, defaults,
  validation, access-token injection, the JSONP URL and its 2000-character
  limit, and the callback registry;
- the `DM.Player` event-to-state machine, command framing, embed URL and
  inbound message filter;
- the bootstrap `DM.init`.

JavaScript values are a `Value` datatype (`values.dfy`):

- `undefined`, `null`, booleans, integers, `NaN`, strings, arrays;
- objects as references `Ref(id, class)` into a map of property dictionaries.

Functions are references of class `Function`. Truthiness, `typeof`, loose
equality `==`, `String(v)` and `parseInt(v, 10)` are written out over that
datatype.

Code that updates state in place keeps that form:

- `DM.Auth`'s session, status, `_active` dictionary and poll handle are
  fields of the class `Auth.AuthState`.
- The cookie flag, domain and written strings are fields of `Cookie.CookieStore`.
- The JSONP registry is a field of `Api.ApiServer`.
- The player fields are fields of `Player.PlayerElement`; the shared player
  state (API mode, handler lists, instances) is `Player.Shared`.
- The object heap of `create`/`provide` is `Prelude.Heap`.
- `DM._apiKey`, `DM._logging` and the `type` table live in `Prelude.Globals`.

Each method is proved against a specification function of the old state, and
the properties the SDK promises are lemmas about those functions.

What the model takes as parameters:

- the URI codec pair `encodeURIComponent`/`decodeURIComponent`, as
  `QS.UriCodec`; where a round trip is claimed, the predicate `QS.Inverse`
  states the pair is mutually inverse on the texts involved;
- the clock `now`, in milliseconds;
- the ids `DM.guid()` returns;
- the closed popup windows;
- the interval handles;
- `Date.toGMTString` (`gmt`);
- `parseFloat` (`num`);
- `DM.JSON.flatten` (`flatten`).

Events fired on `DM.Event`, cookies written, log lines and callback
invocations are recorded in traces. That makes their order part of each
contract.

## Model

| member | source | states |
|---|---|---|
| JsValues.TypeOf | src/core/api.js:92 | `typeof` is `function` exactly for function objects, `string` for strings, `undefined` for undefined, and `object` for null, arrays and other objects |
| JsValues.ParseIntOfNumber | src/core/cookie.js:90 | `parseInt(String(n), 10)` gives back every integer `n` printed in plain decimal, negative ones included, so a numeric `expires` survives the cookie (the exponent form JavaScript prints from 10^21 up is left out) |
| JsValues.ParseSigned | src/core/cookie.js:90 | `parseInt` of `-` followed by digits is minus the value of those digits |
| JsValues.ParseUnsigned | src/core/cookie.js:90 | `parseInt` of a non-empty run of digits is its decimal value |
| JsValues.IndexOf | src/core/player.js:237 | `indexOf(c)` is -1 exactly when `c` is absent, else the first position holding `c` |
| JsValues.Split | src/core/qs.js:70 | `split(c)` gives at least one piece, none containing `c`, and joining the pieces with `c` gives the input back |
| JsValues.SplitJoin | src/core/qs.js:70 | splitting pieces joined by `c`, where no piece holds `c`, returns exactly those pieces |
| JsValues.SplitTwo | src/core/qs.js:78 | `split('=', 2)` keeps the first piece and has a second one exactly when the segment contains `=`; that second piece is the text between the first and any second `=`, the value `decode` reads |
| QS.SortSeq | src/core/qs.js:55 | the sorted pairs are in code-point order (UTF-16 code units are left out) and are a permutation of the input |
| QS.SortedUnique | src/core/qs.js:55 | two sorted permutations of the same pairs are equal, so the encoded text does not depend on property enumeration order |
| QS.SortInPlace | src/core/qs.js:55 | `pairs.sort()` leaves the array sorted and a permutation of its old contents |
| QS.CollectPairs | src/core/qs.js:47-54 | the pairs collected by the `forEach` are, as a multiset, the `k=v` pairs of the non-nullish properties |
| QS.PairListMembers | src/core/qs.js:48-54 | a text is a collected pair exactly when it is `enc(k)=enc(String(v))` for a property whose value is neither null nor undefined |
| QS.Encode | src/core/qs.js:42-57 | `encode` returns the sorted pairs joined by the separator: `&` when the separator is undefined, percent-encoding unless `encode === false` |
| QS.EncodeSkipsNullish | src/core/qs.js:50 | a property whose value is null or undefined does not affect the encoded text |
| QS.EncodeEmpty | src/core/qs.js:55-56 | the empty object encodes to `''` whatever the separator and encoder |
| QS.EncodeSortsPairs | src/core/qs.js:44-56 | `{b:2, a:1}` encodes to `a=1&b=2`, to `a=1;b=2` with separator `;`, and to `a=1&b=2` without encoding |
| QS.EncodeNonEmpty | src/core/qs.js:50-56 | an object with one non-nullish property encodes to a non-empty text |
| QS.EncodeAvoids | src/core/qs.js:52-56 | a character the URI encoder never emits, other than `=` and `&`, never appears in the encoded text |
| QS.EncodeNumberAsText | src/core/qs.js:52 | a number value encodes exactly as its decimal string |
| QS.Decode | src/core/qs.js:66-96 | `decode` folds the `&`-separated segments left to right into a fresh object, stopping with the error when a segment throws |
| QS.DecodeSegment | src/core/qs.js:78-91 | one segment is skipped when its key is empty, else its value is pushed or assigned under the decoded key |
| QS.PlusToPercent20 | src/core/qs.js:82 | after the replacement no `+` remains, and a text without `+` is unchanged |
| QS.DecodeSkipsEmptyKey | src/core/qs.js:79 | a segment that is empty or starts with `=` changes nothing |
| QS.DecodeEmptyInputs | src/core/qs.js:79 | `decode('')` and `decode('=')` are both `{}`, with no `''` key |
| QS.DecodeMissingValue | src/core/qs.js:82 | `k` and `k=` both store `''` under the decoded key |
| QS.DecodePlainSegment | src/core/qs.js:81-90 | `k=v` stores the decoded value, with `+` read as a space, under the decoded key |
| QS.DecodeDropsAfterSecondEquals | src/core/qs.js:78 | anything after a second `=` in a segment is ignored |
| QS.DecodeLastWins | src/core/qs.js:90 | of two segments with the same plain key, the later value is kept |
| QS.DecodeCollects | src/core/qs.js:83-87 | `k[]=v1&…&k[]=vn` with nothing truthy under `k` yields the array of the n decoded values, in order, under `k` |
| QS.DecodeAppends | src/core/qs.js:86 | `k[]` segments append their values, in order, to an array already stored under `k` |
| QS.DecodeEncodeRoundTrip | src/core/qs.js:42-96 | for a flat map of non-empty keys not ending in `[]` with string values, and a mutually inverse URI codec, `decode(encode(m))` is `m` |
| Prelude.CopyIntoWrites | src/core/prelude.js:104-114 | a source key is written, through `transform`, exactly when `overwrite` is set or the target's value is undefined; every other target key keeps its value |
| Prelude.CopyKeepsDefined | src/core/prelude.js:108 | without `overwrite` a defined target value is never replaced |
| Prelude.CopyIntoEmpty | src/core/prelude.js:104-114 | copying into an empty object gives the source itself |
| Prelude.CopyIdempotent | src/core/prelude.js:104-114 | copying the same source a second time changes nothing |
| Prelude.CopyProperties | src/core/prelude.js:106-112 | the `for…in` loop over the source computes exactly the copy, whatever order it visits the keys in |
| Prelude.Heap.Copy | src/core/prelude.js:104-114 | `copy` updates the target object in the heap to the copy and returns the same target reference; a null or undefined target throws once the source has a key |
| Prelude.StepFacts | src/core/prelude.js:129-138 | one step of `create` keeps every object and truthy property, and creates a fresh empty object when the part is missing and no value is placed |
| Prelude.WalkKeeps | src/core/prelude.js:124-141 | `create` keeps every existing object and every truthy property: it writes only missing or falsy properties |
| Prelude.WalkExisting | src/core/prelude.js:124-141 | a dotted name that already leads to an object is left as it is, and that object is returned |
| Prelude.WalkPlacesValue | src/core/prelude.js:131-134 | on a missing path, a truthy `value` ends up at the last segment and is returned |
| Prelude.WalkCreatesEmpty | src/core/prelude.js:131-134 | on a missing path without a truthy value, the last segment is a fresh empty object |
| Prelude.WalkResolves | src/core/prelude.js:124-141 | after `create`, the dotted name leads from the root to the object it returned |
| Prelude.Heap.CreateStep | src/core/prelude.js:129-138 | one loop turn of `create` is exactly the step function, and keeps the heap well formed |
| Prelude.Heap.Create | src/core/prelude.js:124-141 | the `create` loop walks every dotted part from the root, as the walk function says |
| Prelude.ProvideNew | src/core/prelude.js:154-163 | `provide` on a new dotted name creates a fresh object reachable by that name, holding exactly the source's properties |
| Prelude.Heap.Provide | src/core/prelude.js:154-163 | `provide` creates or finds the namespace object and copies the source into it |
| Prelude.ParseBoolVsTruthy | src/core/prelude.js:243-249 | `parseBool` differs from truthiness exactly on non-empty strings that spell false (`false`, `no`, `off`, `0`, any case), and is never true for a falsy value |
| Prelude.TypeNameBuiltins | src/core/prelude.js:251-265 | `type(null)` is `null`, `type(undefined)` is `undefined`, a built-in class gives its lower-case name, and any other object gives `object` |
| Prelude.ClassTableLookup | src/core/prelude.js:253-263 | the table maps `[object C]` to the lower-case `C` for exactly the built-in classes and `Undefined` |
| Prelude.BuildClassTable | src/core/prelude.js:253-263 | the table-building loop produces exactly the class table |
| Prelude.Globals.constructor | src/core/prelude.js:68-76 | the SDK starts with a null API key, logging on and no `type` table |
| Prelude.Globals.Type | src/core/prelude.js:251-265 | the table is built once, on the first call, and kept; the result is the table lookup |
| Cookie.CookieText | src/core/cookie.js:108 | the cookie string starts with `dms_<key>="<val>"` |
| Cookie.CookieAttributes | src/core/cookie.js:109-111 | the text after `name="value"` is exactly `; expires=…` unless the value is non-empty and `ts == 0`, then `; path=/`, then `; domain=.<domain>` when a domain is given and nothing when none is |
| Cookie.ClearExpires | src/core/cookie.js:140-143 | the cookie `clear` writes always carries the expiry for `ts = 0` |
| Cookie.CookieStore.constructor | src/core/cookie.js:40-48 | cookies start disabled, with a null domain and nothing written |
| Cookie.CookieStore.SetEnabled | src/core/cookie.js:56-59 | `setEnabled` stores the given value and nothing else |
| Cookie.CookieStore.GetEnabled | src/core/cookie.js:67-70 | `getEnabled` returns the last value stored |
| Cookie.CookieStore.SetRaw | src/core/cookie.js:106-115 | `setRaw` appends the cookie string and remembers the given domain |
| Cookie.CookieStore.Clear | src/core/cookie.js:140-143 | `clear` writes an empty value with `ts = 0` and the remembered domain |
| Cookie.CookieStore.Set | src/core/cookie.js:123-133 | `set` writes the encoded session with its `expires` and `base_domain`, and `set(null)` does what `clear` does |
| Cookie.CookieStore.Load | src/core/cookie.js:78-96 | `load` returns what the cookie text decodes to, with `expires` as an integer, and remembers its `base_domain`; without a cookie it changes nothing; corrected (Findings 3): the value is read up to the closing quote |
| Cookie.MatchCookie | src/core/cookie.js:82 | the `\b`-terminated regex as written (see Findings) |
| Cookie.MatchReadsBack | src/core/cookie.js:82 | when the stored value ends in a word character, the regex reads the whole value back |
| Cookie.MatchTrims | src/core/cookie.js:82 | a value ending in non-word characters loses them to the regex, where the quoted reading keeps them |
| Cookie.MatchTruncates | src/core/cookie.js:82 | `dms_k="uid=a."` is read as `uid=a` |
| Cookie.QuotedReadsBack | src/core/cookie.js:82 | the corrected reading, up to the closing quote, returns every cookie-safe value written |
| Cookie.CookieRoundTrip | src/core/cookie.js:82-90 | a session with an integer `expires` and flat string properties, written by `set`, is loaded back unchanged |
| Cookie.ClearedLoadsNothing | src/core/cookie.js:82-95 | after `clear`, `load` finds no session |
| Cookie.EncodedCookieSafe | src/core/cookie.js:127 | an encoded session never contains `;` or `"`, so it cannot break the cookie syntax |
| Auth.RemoveDistinct | src/core/auth.js:269 | deleting an attempt keeps the attempt order free of duplicates |
| Auth.AddKey | src/core/auth.js:82 | registering a key adds exactly that key to the attempt order and keeps it duplicate-free |
| Auth.RoundSeconds | src/core/auth.js:175 | `Math.round(now / 1000)` is the whole number of seconds nearest to `now`, halves rounded up |
| Auth.StampExpiryFacts | src/core/auth.js:171-177 | afterwards there is no `expires_in`; when there was one, `expires` is the rounded seconds plus its parsed value (NaN when it does not parse); every other property is kept |
| Auth.FlagsAgree | src/core/auth.js:165-169 | `login` iff there was no session and there is one, `logout` the other way round, never both, either implies `sessionChange`, and `statusChange` iff the status differs |
| Auth.NotificationsOrdered | src/core/auth.js:191-233 | the cookie write comes strictly before every event, and events fire in the order statusChange, logout, login, sessionChange |
| Auth.NotificationsExactly | src/core/auth.js:191-233 | the cookie is written iff the session changed and cookies are on; each event fires iff its flag holds, with the `{session, status}` response |
| Auth.SetSessionStatusFires | src/core/auth.js:197-205 | `setSession` fires `auth.statusChange` once when the status differs and not otherwise |
| Auth.StatusChangeOncePerChange | src/core/auth.js:197-205 | `setSession(null,'notConnected')` twice, then `setSession(null,'unknown')`, fires statusChange twice in all (once when the status was already `notConnected`): the repeated call fires nothing |
| Auth.SetSessionRepeatIsQuiet | src/core/auth.js:162-236 | calling `setSession` again with the stored (already stamped) session and status changes nothing and fires nothing |
| Auth.AuthState.constructor | src/core/prelude.js:69-70 | the SDK starts with no session, status `unknown`, no attempts and no poll |
| Auth.AuthState.SetSession | src/core/auth.js:162-236 | `setSession` stores the stamped session and status, writes the cookie when due, records the events in order and returns `{session, status}` |
| Auth.GetSessionNeverExpired | src/core/auth.js:45-53 | after `getSession` the stored session is not expired; an expired one is replaced by null with status `notConnected`; otherwise nothing changes |
| Auth.AuthState.GetSession | src/core/auth.js:45-53 | the corrected `getSession` (Findings 1): lazily expires the stored session and returns what is stored; the clearing cookie is written exactly when an expired session is dropped with cookies enabled, otherwise the cookie store is unchanged |
| Auth.NoSessionThrows | src/core/auth.js:47 | without a session, `getSession` as written throws, where the null-safe one changes nothing |
| Auth.GetSessionAgrees | src/core/auth.js:45-53 | with a session, `getSession` as written and the null-safe one agree |
| Auth.AuthState.GetSessionAsWritten | src/core/auth.js:45-53 | `getSession` as written: throws without touching the state when there is no session |
| Auth.AuthState.GetLoginStatus | src/core/auth.js:37-43 | the callback, when given, is called once with the current `{status, session}`, and nothing else changes |
| Auth.RecvDiscards | src/core/auth.js:138-148 | a response without `state`, or whose `state` names no active attempt, is logged and discarded: only the log grows |
| Auth.RecvAttaches | src/core/auth.js:131-151 | otherwise the response is attached to that attempt, even when it carries `error`, and nothing else changes |
| Auth.AuthState.RecvSession | src/core/auth.js:131-151 | `recvSession` updates the state as the specification function says |
| Auth.FragmentOf | src/core/auth.js:113 | `hash.substr(1)` drops exactly the first character |
| Auth.ReadFragment | src/core/auth.js:111-123 | the fragment is forwarded to the opener only for the `dmauth` window of an opener with `DM.Auth`, when it holds `access_token=` or `error=`; then the opener receives its decoding |
| Auth.LoginOptionsKeepDefaults | src/core/auth.js:68-76 | the login options keep `response_type`, `display`, `scope`, `redirect_uri` and `state` whatever the caller gives, take `client_id` from the caller only when there is no API key, and keep every other caller option |
| Auth.AuthState.OpenAuthorize | src/core/auth.js:68-78 | the popup is opened on the authorize URL followed by the encoded login options |
| Auth.RegisterConsistent | src/core/auth.js:82 | registering an attempt keeps the attempt order listing exactly the keys of `_active`, without duplicates |
| Auth.AuthState.RegisterAttempt | src/core/auth.js:82 | the attempt is stored under its `state` and added to the order |
| Auth.AuthState.Login | src/core/auth.js:55-85 | `login` opens the popup and, only when a callback is given, registers the attempt under `state` and runs the monitor |
| Auth.CloseCheckFacts | src/core/auth.js:250-264 | a closed window loses its handle and its attempt receives the `access_denied` response; nothing else changes |
| Auth.CloseCheckAnswers | src/core/auth.js:250-264 | after the close check, an answered attempt holds its response and keeps its callback |
| Auth.AuthState.CheckWindow | src/core/auth.js:250-264 | the close check updates the state as the specification function says |
| Auth.FinaliseFacts | src/core/auth.js:266-295 | the attempt is removed; the session is installed as `connected` iff the response has `access_token`, else null with `notConnected`; the callback runs once, last, with `{status, session, perms}` |
| Auth.AuthState.FinaliseAttempt | src/core/auth.js:266-295 | finalising an attempt updates the state as the specification function says; the cookie of the new session is written exactly when the session changed and cookies are enabled, otherwise the cookie store is unchanged |
| Auth.MonitorStepFinalises | src/core/auth.js:248-296 | one monitor turn on an answered attempt removes it, installs the session, and calls its callback once |
| Auth.MonitorStepWaits | src/core/auth.js:248-296 | an attempt with no response and an open window is left alone |
| Auth.MonitorStepConsistent | src/core/auth.js:248-296 | a monitor turn keeps the attempt order listing exactly the keys of `_active` |
| Auth.MonitorAllActive | src/core/auth.js:248-296 | after the pass, exactly the unanswered attempts remain |
| Auth.MonitorAllCallbacks | src/core/auth.js:248-296 | the pass calls the callback of each answered attempt exactly once, in attempt order |
| Auth.SetSessionCallbacks | src/core/auth.js:162-236 | `setSession` calls no login callback |
| Auth.AuthState.MonitorAttempt | src/core/auth.js:248-296 | one loop turn of the monitor |
| Auth.AuthState.PopupMonitor | src/core/auth.js:245-315 | the monitor handles every attempt; afterwards the poll handle is set iff attempts remain, and it is started only when it was not running |
| Api.SlotOfTypeOf | src/core/api.js:92-104 | an argument goes to the method, callback or params slot exactly when its `typeof` is `string`, `function` or `object` |
| Api.Stop | src/core/api.js:90 | only the arguments before the first falsy one are read |
| Api.ScanStops | src/core/api.js:90-111 | arguments after the first falsy one do not affect the parse |
| Api.ScanAccepts | src/core/api.js:90-111 | the arguments are accepted exactly when each has a slot and no two share one |
| Api.ScanFills | src/core/api.js:93-104 | the lower-cased string becomes the method, the function the callback and the object the params; a slot no argument fills keeps its value |
| Api.ParseArguments | src/core/api.js:83-111 | the argument loop computes exactly the parse |
| Api.StripSlash | src/core/api.js:117-120 | a leading `/` is removed and any other path is kept |
| Api.StripOneSlash | src/core/api.js:117-120 | exactly one leading `/` is removed, even from `//x` |
| Api.PlanSends | src/core/api.js:90-128 | a request is made exactly when the arguments are acceptable and any method given is `get`, `post` or `delete` |
| Api.PlanRequest | src/core/api.js:113-128 | the request has the stripped path, the given method or `get`, the given params or `{}`, and the given callback or none |
| Api.CallPlan | src/core/api.js:81-129 | the plan depends only on the arguments before the first falsy one, and it sends exactly when they are acceptable with a known method |
| Api.WithToken | src/core/api.js:146-149 | the keys are the params' keys, plus `access_token` exactly when the session has a truthy token and the params' token is falsy; that key then holds the session's token; a truthy caller token and every other parameter keep their values |
| Api.TokenKept | src/core/api.js:146-149 | a caller-supplied token is kept, and no other parameter changes |
| Api.JsonpParamsFlat | src/core/api.js:170-171 | the JSONP parameters have `method` and `callback = 'DM.ApiServer._callbacks.' + id` set and keep every other parameter |
| Api.JsonpUrlCarries | src/core/api.js:173 | the URL is endpoint + path, then `&` iff the path holds `?`, else `?`, then a query that decodes back to the JSONP parameters |
| Api.JsonpTooLong | src/core/api.js:174-186 | a URL over 2000 characters throws and registers nothing; otherwise the callback is registered |
| Api.RespondOnce | src/core/api.js:180-186 | a response runs the caller's callback once and removes the entry, so a second response to the same id throws and runs nothing |
| Api.RegisterThenRespond | src/core/api.js:174-188 | registering and then answering a request leaves the registry as it was, with the request and the callback recorded in order |
| Api.ApiServer.constructor | src/core/api.js:55 | the registry starts empty |
| Api.ApiServer.Call | src/core/api.js:81-129 | a refused call only logs and changes neither the session nor the cookies; an accepted one reads the session through `getSession` and issues the JSONP request, writing the clearing cookie exactly when an expired session is dropped; corrected (Findings 1): with no session it sends without a token, where the source throws |
| Api.ApiServer.OauthRequest | src/core/api.js:140-153 | the token is added from the (lazily expired) session, the params are flattened, and the JSONP request is issued; the clearing cookie is written exactly when an expired session is dropped; corrected (Findings 1): with no session it sends without a token, where the source throws |
| Api.ApiServer.Jsonp | src/core/api.js:164-190 | the URL is checked against the limit before the callback is registered and the request is recorded |
| Api.ApiServer.Respond | src/core/api.js:180-186 | the registered callback runs once and removes its entry |
| Player.ProtocolOf | src/core/player.js:106 | the protocol is the page's when it is `http:` or `https:`, and `http:` otherwise |
| Player.Command | src/core/player.js:80-84 | `cmd=arg` when `arg` is defined, else the bare `cmd` |
| Player.CommandParts | src/core/player.js:82 | the command reads back: `=` appears exactly when an argument was given, and it separates the name from the argument |
| Player.PlayerElement.Api | src/core/player.js:80-84 | `api` sends the framed command |
| Player.WithoutFragment | src/core/player.js:236-237 | the result is the text before the first `#` (a `#`-free prefix followed in `src` by `#`), and a `src` without `#` is kept |
| Player.FragmentLastWins | src/core/player.js:235-239 | after two sends in fragment mode only the last command remains, after the first `#` |
| Player.PlayerElement.Send | src/core/player.js:223-241 | `_send` records a message in the postMessage and XDCom modes and rewrites `src` in fragment mode |
| Player.UpdateTouchesOnly | src/core/player.js:266-293 | an event changes no field but those its branch names; `autoplay` is never changed, and an unknown event changes nothing |
| Player.ApiReadyOnce | src/core/player.js:270 | the first `apiready` sets `apiReady` and dispatches; a later one changes nothing and dispatches nothing |
| Player.PausedGroups | src/core/player.js:280-288 | play, playing, ad_start and ad_play unpause; pause, ad_pause, ad_end and (corrected) ended pause; ended sets `ended` |
| Player.EndedLeavesPaused | src/core/player.js:284 | as written, `ended` leaves `paused` unchanged, so a playing player stays unpaused where the corrected one pauses |
| Player.KindOfLabels | src/core/player.js:268-292 | the event name selects the branch, and a non-string name selects no branch |
| Player.UpdateFields | src/core/player.js:271-290 | `loadedmetadata` clears the error and `ended`; `seeking` and `seeked` set `seeking` and the time; `error` stores `{code, title, message}`; the boolean fields go through `parseBool` |
| Player.PlayerElement.RecvEvent | src/core/player.js:266-296 | the fields are updated by the event's branch, and the event is dispatched unless it is a repeated `apiready`; corrected (Findings 2): `ended` also sets `paused` |
| Player.PlayerElement.ApplyBranch | src/core/player.js:268-293 | the `switch` updates the fields as the update function says; corrected (Findings 2): `ended` also sets `paused` |
| Player.InboundDelivers | src/core/player.js:175-182 | a delivered message came from the player's site when origins are checked, and decodes to an event with a truthy `id` and `event` |
| Player.InboundAcceptsPlayerMessages | src/core/player.js:175-182 | every encoded event from the player's site with an `id` and an `event` is delivered unchanged |
| Player.Shared.constructor | src/core/player.js:45-49 | no API mode, no handlers and no instances at first |
| Player.Shared.InstallHandlers | src/core/player.js:168-201 | the API mode is chosen once: postMessage when available, else XDCom when capable, else fragment |
| Player.PlayerElement.constructor | src/core/player.js:52-66 | a player starts with the initial field values |
| Player.EmbedParamsFacts | src/core/player.js:147-157 | the embed parameters carry the API mode, the player id, the API key when there is one and the XDCom channel in XDCom mode, and keep every other parameter given |
| Player.EmbedSrcCarries | src/core/player.js:158 | `src` is protocol + www + `/embed` (+ `/video/<id>`), then `?`, then a query that decodes back to the parameters |
| Player.BuildParams | src/core/player.js:147-157 | the parameter updates compute exactly the embed parameters |
| Player.PlayerElement.Init | src/core/player.js:139-166 | `init` keeps an existing id or takes a fresh one, sets `src` to the embed URL, registers the instance as `Register` states (its `unload` listener included) and sets `autoplay` by `parseBool`; null params throw and leave the instances, handlers and listeners as they were |
| Player.PlayerElement.SetEmbedSrc | src/core/player.js:158 | `src` becomes the embed URL |
| Player.PlayerElement.Register | src/core/player.js:159-163 | the player is registered under its id and every other instance is kept; the `unload` listener is added, natively or to the shared handlers, exactly when the player was not registered already; the fields, `sent` and `dispatched` stay |
| Player.HandlersInOrder | src/core/player.js:307-311 | handlers are kept per event name in registration order; other events' lists are untouched |
| Player.PlayerElement.AddEventListener | src/core/player.js:299-313 | a native listener is attached, otherwise the handler is appended to the event's list; nothing else changes |
| Init.OptionsDefaults | src/core/init.js:42-45 | the options keep every property the caller set, and `logging` is true exactly when the caller left it undefined |
| Init.SetKeyAndLogging | src/core/init.js:47-55 | the API key is recorded, and logging is switched off when `options.logging` is falsy and the URL lacks `dm_debug=1`, else kept |
| Init.InitKeyAndLogging | src/core/init.js:47-55 | logging ends up off exactly when it was off or the options switch it off: `init` never turns it back on |
| Init.InitWithoutKey | src/core/init.js:57 | without an API key, the cookie flag, domain, cookie writes and session state are untouched |
| Init.InitThrows | src/core/init.js:57-67 | `init` throws only when reading the cookie throws, with no explicit or received session; then the cookie flag is set and the session is untouched |
| Init.InitStatus | src/core/init.js:67 | with a key, the status is `connected` iff a session was found, and `unknown` otherwise; the cookie switch is `options.cookie` |
| Init.ExplicitSessionWins | src/core/init.js:64 | an explicit `options.session` is stored and the cookie is not consulted |
| Init.ReceivedSessionWins | src/core/init.js:60-67 | without an explicit session, the session received from a login popup is stored, stamped, as `connected`; the cookie is not consulted and the cookie switch is `options.cookie` |
| Init.InitRestoresCookie | src/core/init.js:60-67 | with a key and no explicit or received session, a session the cookie holds is restored as `connected`; corrected (Findings 3): a cookie value is read up to its closing quote |
| Init.StartLoads | src/core/init.js:64-67 | a session loaded from the cookie is stored, stamped, as `connected`; corrected (Findings 3): a cookie value is read up to its closing quote |
| Init.StoreStatus | src/core/init.js:67 | the stored session is the stamped session, with status `connected` iff there is one |
| Init.StoreSession | src/core/init.js:67 | `setSession(session, session ? 'connected' : 'unknown')` on the objects, with its cookie write |
| Init.StartSession | src/core/init.js:57-67 | the cookie flag is set, then the explicit session, else the received one, else the cookie's is stored; corrected (Findings 3): a cookie value is read up to its closing quote |
| Init.Init | src/core/init.js:38-75 | `init` updates the key, logging, cookie settings and session as the specification function says; corrected (Findings 3): a cookie value is read up to its closing quote |

## Left out

- Browser I/O is not modelled. That covers DOM events (`_dispatch`), iframe creation in `Player.create`, `postMessage`, XDCom channels, script tags and `window.open`. Sends are recorded in traces; dispatches are recorded as names.
- `document.cookie` is not modelled as a cookie jar: the model records the strings written and takes the text read back as a parameter. Browser expiry is not modelled.
- Floating point is not modelled: numbers are integers or `NaN`. `parseFloat` and `Date.toGMTString` are parameters.
- The popup-centring geometry in `login` is not modelled.
- `window.open` returning null is not modelled: the window handle is always present.
- Clocks, randomness and timers are parameters. `now` is in milliseconds, `DM.guid()` values are inputs, and the `setInterval` handle is an input. The 100 ms polling schedule is not modelled; each monitor pass is one call.
- `DM.JSON.flatten` is not modelled: it is a parameter.
- `encodeURIComponent` and `decodeURIComponent` are a codec parameter, so the decoder's throw on a malformed `%` is not modelled. `QS.Inverse` states where they are assumed to be inverse.
- The order of `for…in` and `DM.Array.forEach` over object keys is left abstract (`QS.PickKey`). Encoding sorts the pairs, so its result does not depend on that order. The popup monitor visits attempts in registration order.
- Inherited `Object.prototype` properties are not modelled. In `decode`, a key such as `toString[]` would see them in the source; here every absent key reads as undefined.
- Objects are values: sessions and options are dictionaries, not shared references.
  - `setSession` stamps `expires` into the caller's own object in the source; here the stored session is a stamped copy.
  - The write `init` makes to `options.session` is not modelled.
  - `oauthRequest` writes the session's token into the caller's own `params` object (src/core/api.js:146-148). Here `Api.WithToken` builds a new dictionary, so a caller that reuses that object does not carry the token into a later call. In the source, that later call sends the stale token, because `!params.access_token` is then false.
  - `Player.PlayerElement.Init` writes `api`, `xdcomId`, `apiKey` and `id` into the caller's `params` object (src/core/player.js:148-157), which `Player.create` passes on unchanged. Here those writes go to a copy (`Player.BuildParams`), and the caller's object is unchanged.
- A truthy non-object used as params, session or options is treated as `{}`. Arrays passed as API params are treated as `{}`.
- `Player.ParamsFor`: an array passed as player params is treated as `{}`. In the source, `typeof [] == 'object'` keeps the array, the embed parameters are written onto it, and its elements are encoded into the embed URL under their indices.
- `Auth.AuthState.PopupMonitor`: the cookie texts that finalised attempts write are not stated. The contract gives the auth state the monitor reaches but not the cookie store's new `written` and `domain`.
- `Auth.AuthState.MonitorAttempt`: likewise, the cookie an attempt's finalisation writes is not stated. `Auth.AuthState.FinaliseAttempt` states it for one attempt.
- `Auth.AuthState.Login`: likewise, through the monitor pass it runs, the cookie store's new contents are not stated.
- `Api.ApiServer.Call`, `Api.ApiServer.OauthRequest`, `Cookie.CookieStore.Load`, `Init.InitRestoresCookie`, `Init.StartLoads`, `Init.StartSession`, `Init.Init`, `Player.PlayerElement.RecvEvent` and `Player.PlayerElement.ApplyBranch` model the corrected readings of the Findings table, not the code as written. With no session, `DM.api` throws in the source (Findings 1). A cookie value holding a non-word character before its closing quote is cut short in the source (Findings 3). The `ended` event leaves `paused` as it was in the source (Findings 2).
- `JsValues.ToStr`: every object other than an array prints as `[object <class>]`. Own `toString` or `valueOf` methods are not modelled. That text reaches the log of an invalid `DM.api` argument, player commands and query-string encoding.
- `JsValues.ParseIntOfNumber`: numbers print in plain decimal in the model. JavaScript prints magnitudes from 10^21 up in exponent form (`1e+21`), and `parseInt` reads that back as 1. So the round trip holds for every integer in the model but only below 10^21 in the source.
- `QS.SortSeq`: strings are sequences of Unicode scalar values, not UTF-16 code units. The sort orders by code point, whereas `Array.prototype.sort` orders by code unit. The two orders differ only between characters above U+FFFF and those in U+E000–U+FFFF.
- `Api.ApiServer.Jsonp`: the 2000-character URL limit counts code points, whereas `url.length` counts UTF-16 code units. They differ only for characters above U+FFFF that the codec leaves unencoded.
- `JsValues.Lower`: only ASCII letters are lowered; `toLowerCase` on other letters is not modelled. No request method contains such a letter, so acceptance is the same, but the logged text of a refused method can differ.
- A `string` `expires` in a session is not modelled. The cookie's `ts` is passed on as the value it is, and `Date` is the `gmt` parameter.
- User callbacks that throw are not modelled; they are recorded as invocations.
- `DM.Auth._receivedSession` is never assigned in the source. It is an input of `Init.Init`.
- `getLoginStatus` with a truthy non-function callback is not modelled: a callback is a function reference.
- `init`'s `options.status` branch is not modelled separately. It calls `getLoginStatus()` with no callback, which `Auth.AuthState.GetLoginStatus` shows changes nothing.
- `logout` (`DM.api('/logout', cb)`) is not modelled separately. It is `Api.ApiServer.Call` with that path.
- `DM.log`'s console output is not modelled, and neither is the `Debug` channel. Logged messages are recorded in traces.
- `DM.guid`'s use of `Math.random` is not modelled: guids are inputs.
- `DM.$` lookup is not modelled, so delivered player events are returned rather than routed to an element.
- `src/core/xdcom.js` is not part of this model.
- The unreachable fragment-polling block after the `return` at src/core/player.js:201 is not modelled.
- `Player.PlayerElement.Register`: the `unload` listener it adds (also through `Player.PlayerElement.Init`) is recorded like any other listener. The instance removal that listener would perform when the page unloads is not modelled.

## Findings

| source | as written | input that shows it | evidently intended | confidence | as-written member | corrected member |
|---|---|---|---|---|---|---|
| src/core/auth.js:47 | `getSession` evaluates `'expires' in DM._session` even when there is no session | any call with `DM._session === null`, for example `DM.api('/me')` before login, which reaches `getSession` through `oauthRequest` | with no session, return null and change nothing | high (not executed) | Auth.NoSessionThrows | Auth.GetSessionNeverExpired |
| src/core/player.js:284 | the first `case 'ended'` breaks, so the later `case 'ended'` that sets `paused` is never reached | event `ended` while playing (`paused == false`) | `ended` sets `ended` and also `paused = true`, as the comment on that line says | high (not executed) | Player.EndedLeavesPaused | Player.PausedGroups |
| src/core/cookie.js:82 | the regex ends the value at the last word boundary instead of at the closing quote | cookie text `dms_k="uid=a."` gives `uid=a` | the value up to the closing quote, `uid=a.` | medium (not executed) | Cookie.MatchTruncates | Cookie.CookieRoundTrip |
