/**
 * `DM.Player`: the embedded player's view of the video. Events arriving
 * from the player frame update the player's fields and are re-dispatched;
 * commands go back to the frame by `postMessage`, through the XDCom
 * channel, or, as a last resort, in the fragment of the frame's `src`.
 *
 * Floating-point numbers are not part of the model: `parseFloat` is the
 * opaque function `num`. The DOM events `_dispatch` raises are recorded
 * as the event names dispatched, and the messages posted to the frame as
 * the commands sent.
 */
module Player {
  import opened JsValues
  import opened QS
  import opened Prelude

  /** `DM.Player.API_MODE`, once chosen. */
  datatype ApiMode = PostMessage | XDCom | Fragment

  /** `DM.Player.API_MODE` as the value `init` puts in `params.api`. */
  function ModeName(mode: Option<ApiMode>): Value {
    match mode
    case None => Null
    case Some(PostMessage) => Str("postMessage")
    case Some(XDCom) => Str("xdcom")
    case Some(Fragment) => Str("fragment")
  }

  /** `DM._domain.www`, without a protocol. */
  const WwwDomain: string := "//www.dailymotion.com"

  /** `DM.Player._PROTOCOL`: the page's protocol when it is `http:` or
      `https:`, `http:` otherwise. */
  function ProtocolOf(location: string): (r: string)
    ensures r == "http:" || r == "https:"
    ensures (location == "http:" || location == "https:") ==> r == location
    ensures !(location == "http:" || location == "https:") ==> r == "http:"
  {
    if location == "http:" || location == "https:" then location else "http:"
  }

  // ---------------------------------------------------------------------
  // The fields `_recvEvent` updates

  /** The video properties of a player, as `DM.Player` declares them. */
  datatype Fields = Fields(
    apiReady: bool,
    autoplay: bool,
    currentTime: Value,
    bufferedTime: Value,
    duration: Value,
    seeking: bool,
    error: Option<Dict>,
    ended: bool,
    muted: bool,
    volume: Value,
    paused: bool,
    fullscreen: bool,
    rebuffering: bool,
    qualities: Value,
    quality: Value)

  /** The defaults a new player starts from. */
  const Initial: Fields := Fields(false, false, Num(0), Num(0), NaN, false, None, false, false, Num(1), true,
                                  false, false, Arr([]), Undefined)

  /** The `case` labels of `_recvEvent`, grouped by the branch they reach. */
  datatype Kind =
    | ApiReady | LoadedMetadata | TimeUpdate | Progress | DurationChange | Seeking | Seeked
    | FullscreenChange | VolumeChange | PlayGroup | Ended | PauseGroup | ErrorEvent | Rebuffer
    | AvailableQualities | QualityChange | Unknown

  /** The branch the `switch (event.event)` of `_recvEvent` takes: the
      first label equal to the name, `===`. */
  function KindOf(event: Dict): Kind {
    var name := Get(event, "event");
    if !name.Str? then Unknown
    else
      var n := name.s;
      if n == "apiready" then ApiReady
      else if n == "loadedmetadata" then LoadedMetadata
      else if n == "timeupdate" || n == "ad_timeupdate" then TimeUpdate
      else if n == "progress" then Progress
      else if n == "durationchange" then DurationChange
      else if n == "seeking" then Seeking
      else if n == "seeked" then Seeked
      else if n == "fullscreenchange" then FullscreenChange
      else if n == "volumechange" then VolumeChange
      else if n == "ad_start" || n == "ad_play" || n == "playing" || n == "play" then PlayGroup
      else if n == "ended" then Ended
      else if n == "ad_pause" || n == "ad_end" || n == "pause" then PauseGroup
      else if n == "error" then ErrorEvent
      else if n == "rebuffer" then Rebuffer
      else if n == "availablequalities" then AvailableQualities
      else if n == "qualitychange" then QualityChange
      else Unknown
  }

  /** The `switch` of `_recvEvent`, as written: the first `ended` label
      sets `ended` and breaks, so the second one, in the group that sets
      `paused`, is never reached. */
  function UpdateAsWritten(f: Fields, k: Kind, event: Dict, num: Value -> Value): Fields {
    match k
    case ApiReady => f.(apiReady := true)
    case LoadedMetadata => f.(error := None, ended := false)
    case TimeUpdate => f.(currentTime := num(Get(event, "time")))
    case Progress => f.(bufferedTime := num(Get(event, "time")))
    case DurationChange => f.(duration := num(Get(event, "duration")))
    case Seeking => f.(seeking := true, currentTime := num(Get(event, "time")))
    case Seeked => f.(seeking := false, currentTime := num(Get(event, "time")))
    case FullscreenChange => f.(fullscreen := ParseBool(Get(event, "fullscreen")))
    case VolumeChange => f.(volume := num(Get(event, "volume")), muted := ParseBool(Get(event, "muted")))
    case PlayGroup => f.(paused := false)
    case Ended => f.(ended := true)
    case PauseGroup => f.(paused := true)
    case ErrorEvent => f.(error := Some(ErrorInfo(event)))
    case Rebuffer => f.(rebuffering := ParseBool(Get(event, "rebuffering")))
    case AvailableQualities => f.(qualities := Get(event, "qualities"))
    case QualityChange => f.(quality := Get(event, "quality"))
    case Unknown => f
  }

  /** `{code: event.code, title: event.title, message: event.message}`. */
  function ErrorInfo(event: Dict): Dict {
    map["code" := Get(event, "code"), "title" := Get(event, "title"), "message" := Get(event, "message")]
  }

  /** The `switch` of `_recvEvent` as its comments and its second `ended`
      label intend: `ended` also sets `paused`. */
  function Update(f: Fields, k: Kind, event: Dict, num: Value -> Value): Fields {
    var g := UpdateAsWritten(f, k, event, num);
    if k == Ended then g.(paused := true) else g
  }

  /** Whether `_recvEvent` goes on to `_dispatch` the event: every event
      but an `apiready` after the first. */
  predicate Dispatches(f: Fields, k: Kind) {
    !(k == ApiReady && f.apiReady)
  }

  /** The fields of a player, by name. */
  datatype FieldName =
    | ApiReadyField | AutoplayField | CurrentTimeField | BufferedTimeField | DurationField
    | SeekingField | ErrorField | EndedField | MutedField | VolumeField
    | PausedField | FullscreenField | RebufferingField | QualitiesField | QualityField

  /** The fields each branch may change. */
  function Touches(k: Kind): set<FieldName> {
    match k
    case ApiReady => {ApiReadyField}
    case LoadedMetadata => {ErrorField, EndedField}
    case TimeUpdate => {CurrentTimeField}
    case Progress => {BufferedTimeField}
    case DurationChange => {DurationField}
    case Seeking => {SeekingField, CurrentTimeField}
    case Seeked => {SeekingField, CurrentTimeField}
    case FullscreenChange => {FullscreenField}
    case VolumeChange => {VolumeField, MutedField}
    case PlayGroup => {PausedField}
    case Ended => {EndedField, PausedField}
    case PauseGroup => {PausedField}
    case ErrorEvent => {ErrorField}
    case Rebuffer => {RebufferingField}
    case AvailableQualities => {QualitiesField}
    case QualityChange => {QualityField}
    case Unknown => {}
  }

  /** The fields in which `f` and `g` differ. */
  function Changed(f: Fields, g: Fields): set<FieldName> {
    set n: FieldName | Differs(f, g, n)
  }

  /** Whether `f` and `g` differ in the field `n`. */
  predicate Differs(f: Fields, g: Fields, n: FieldName) {
    match n
    case ApiReadyField => f.apiReady != g.apiReady
    case AutoplayField => f.autoplay != g.autoplay
    case CurrentTimeField => f.currentTime != g.currentTime
    case BufferedTimeField => f.bufferedTime != g.bufferedTime
    case DurationField => f.duration != g.duration
    case SeekingField => f.seeking != g.seeking
    case ErrorField => f.error != g.error
    case EndedField => f.ended != g.ended
    case MutedField => f.muted != g.muted
    case VolumeField => f.volume != g.volume
    case PausedField => f.paused != g.paused
    case FullscreenField => f.fullscreen != g.fullscreen
    case RebufferingField => f.rebuffering != g.rebuffering
    case QualitiesField => f.qualities != g.qualities
    case QualityField => f.quality != g.quality
  }

  /** An event changes no field but those its branch names; `autoplay` is
      never changed by an event, and an unknown event changes nothing. */
  lemma UpdateTouchesOnly(f: Fields, k: Kind, event: Dict, num: Value -> Value)
    ensures Changed(f, Update(f, k, event, num)) <= Touches(k)
    ensures Update(f, k, event, num).autoplay == f.autoplay
    ensures k == Unknown ==> Update(f, k, event, num) == f
  {
  }

  /** `apiready` is taken once: the first one marks the player ready and
      is dispatched; any later one changes nothing and is not dispatched. */
  lemma ApiReadyOnce(f: Fields, k: Kind, event: Dict, num: Value -> Value)
    requires k == ApiReady
    ensures var g := Update(f, k, event, num);
            g.apiReady && Dispatches(f, k) == !f.apiReady
            && (f.apiReady ==> g == f && !Dispatches(g, k))
  {
  }

  /** The play group (`ad_start`, `ad_play`, `playing`, `play`) clears
      `paused`; the pause group (`ad_pause`, `ad_end`, `pause`) and
      `ended` set it. */
  lemma PausedGroups(f: Fields, k: Kind, event: Dict, num: Value -> Value)
    ensures k == PlayGroup ==> !Update(f, k, event, num).paused
    ensures k in {PauseGroup, Ended} ==> Update(f, k, event, num).paused
    ensures k == Ended ==> Update(f, k, event, num).ended
  {
  }

  /** As written, `ended` leaves a playing player's `paused` false. */
  lemma EndedLeavesPaused(f: Fields, k: Kind, event: Dict, num: Value -> Value)
    requires k == Ended
    ensures UpdateAsWritten(f, k, event, num).paused == f.paused
    ensures UpdateAsWritten(f, k, event, num).ended
    ensures !f.paused ==> !UpdateAsWritten(f, k, event, num).paused && Update(f, k, event, num).paused
  {
  }

  /** The labels reach the branches they are listed under. */
  lemma KindOfLabels(event: Dict)
    ensures Get(event, "event") == Str("ended") ==> KindOf(event) == Ended
    ensures Get(event, "event") == Str("pause") ==> KindOf(event) == PauseGroup
    ensures Get(event, "event") == Str("play") ==> KindOf(event) == PlayGroup
    ensures Get(event, "event") == Str("apiready") ==> KindOf(event) == ApiReady
    ensures !Get(event, "event").Str? ==> KindOf(event) == Unknown
  {
  }

  /** The other fields: `loadedmetadata` clears `error` and `ended`,
      `seeking`/`seeked` set and clear `seeking`, `error` keeps the code,
      title and message, and the switches read their flag with `parseBool`. */
  lemma UpdateFields(f: Fields, k: Kind, event: Dict, num: Value -> Value)
    ensures var g := Update(f, k, event, num);
            && (k == LoadedMetadata ==> g.error == None && !g.ended)
            && (k == Seeking ==> g.seeking && g.currentTime == num(Get(event, "time")))
            && (k == Seeked ==> !g.seeking && g.currentTime == num(Get(event, "time")))
            && (k == ErrorEvent ==>
                  && g.error.Some? && g.error.value.Keys == {"code", "title", "message"}
                  && g.error.value["code"] == Get(event, "code")
                  && g.error.value["title"] == Get(event, "title")
                  && g.error.value["message"] == Get(event, "message"))
            && (k == FullscreenChange ==> g.fullscreen == ParseBool(Get(event, "fullscreen")))
            && (k == Rebuffer ==> g.rebuffering == ParseBool(Get(event, "rebuffering")))
            && (k == VolumeChange ==> g.muted == ParseBool(Get(event, "muted")))
  {
  }

  // ---------------------------------------------------------------------
  // Commands

  /** `api(command, arg)`: `command=arg` when `arg` is defined. */
  function Command(command: string, arg: Value): string {
    if arg.Undefined? then command else command + "=" + ToStr(arg)
  }

  /** The command reads back: its name up to the `=`, which is there
      exactly when an argument was given, and the argument after it. */
  lemma CommandParts(command: string, arg: Value)
    requires '=' !in command
    ensures var c := Command(command, arg);
            && c[..|command|] == command
            && ('=' in c <==> !arg.Undefined?)
            && (!arg.Undefined? ==> IndexOf(c, '=') == |command| && c[|command| + 1..] == ToStr(arg))
  {
    var c := Command(command, arg);
    if !arg.Undefined? {
      ConcatParts(command, "=", ToStr(arg));
      assert c[..|command|] == command;
    }
  }

  /** `src` without its `#...` fragment. */
  function WithoutFragment(src: string): (r: string)
    ensures '#' !in r
    ensures '#' !in src ==> r == src
    ensures r <= src
    ensures '#' in src ==> |r| < |src| && src[|r|] == '#'
  {
    var pos := IndexOf(src, '#');
    if pos != -1 then src[..pos] else src
  }

  /** In fragment mode, `_send` puts the command in the fragment. */
  function FragmentSrc(src: string, command: string): string {
    WithoutFragment(src) + "#" + command
  }

  /** The fragment holds the last command only: the address is kept and
      whatever follows the first `#` is the command. */
  lemma FragmentLastWins(src: string, c1: string, c2: string)
    ensures FragmentSrc(FragmentSrc(src, c1), c2) == FragmentSrc(src, c2)
    ensures var s := FragmentSrc(src, c2);
            var pos := |WithoutFragment(src)|;
            IndexOf(s, '#') == pos && s[pos + 1..] == c2 && s[..pos] == WithoutFragment(src)
  {
    var base := WithoutFragment(src);
    FragmentAt(base, c1);
    FragmentAt(base, c2);
  }

  lemma FragmentAt(base: string, c: string)
    requires '#' !in base
    ensures var s := base + "#" + c;
            IndexOf(s, '#') == |base| && s[..|base|] == base && s[|base| + 1..] == c && WithoutFragment(s) == base
  {
    var s := base + "#" + c;
    ConcatParts(base, "#", c);
    assert s[..|base|] == base;
    assert '#' !in s[..|base|];
  }

  /** What `_send` leaves: the frame's `src` and the commands posted. */
  function SendSpec(mode: Option<ApiMode>, src: string, sent: seq<string>, command: string): (string, seq<string>) {
    match mode
    case Some(Fragment) => (FragmentSrc(src, command), sent)
    case Some(_) => (src, sent + [command])
    case None => (src, sent)
  }

  // ---------------------------------------------------------------------
  // Incoming messages

  /** What the message handler does with a message. */
  datatype Delivery = Dropped | Failed(message: string) | Deliver(event: Dict)

  /** The handler `_installHandlers` installs: with `postMessage`, a message
      whose origin is not the player's site is dropped; the data is
      decoded, and a message without `id` or `event` is dropped. */
  function Inbound(checkOrigin: bool, origin: string, site: string, data: string, codec: UriCodec): Delivery {
    if checkOrigin && (origin == "" || !StartsWith(origin, site)) then Dropped
    else
      var d := DecodeSpec(data, codec);
      if d.Throw? then Failed(d.message)
      else if !Truthy(Get(d.value, "id")) || !Truthy(Get(d.value, "event")) then Dropped
      else Deliver(d.value)
  }

  /** A delivered event names a player and an event, and came from the
      player's site when origins are checked. */
  lemma InboundDelivers(checkOrigin: bool, origin: string, site: string, data: string, codec: UriCodec)
    ensures var r := Inbound(checkOrigin, origin, site, data, codec);
            r.Deliver? ==> && (checkOrigin ==> StartsWith(origin, site))
                           && DecodeSpec(data, codec) == Normal(r.event)
                           && Truthy(Get(r.event, "id")) && Truthy(Get(r.event, "event"))
  {
  }

  /** The player frame's own messages get through: an event encoded with
      the query-string codec, naming a player and an event, from the
      player's site, is delivered as it was sent. */
  lemma InboundAcceptsPlayerMessages(origin: string, site: string, event: Dict, codec: UriCodec)
    requires Inverse(codec) && FlatStringMap(event)
    requires site != "" && StartsWith(origin, site)
    requires Truthy(Get(event, "id")) && Truthy(Get(event, "event"))
    ensures Inbound(true, origin, site, EncodeSpec(event, Undefined, Undefined, codec), codec) == Deliver(event)
  {
    DecodeEncodeRoundTrip(event, codec);
  }

  // ---------------------------------------------------------------------
  // The embed URL

  /** The parameters `init` puts in the embed URL. */
  function EmbedParams(given: Dict, mode: Option<ApiMode>, xdcomId: Value, apiKey: Value, id: string): Dict {
    var p := given["api" := ModeName(mode)];
    var p2 := if mode == Some(XDCom) then p["xdcomId" := xdcomId] else p;
    var p3 := if Truthy(apiKey) then p2["apiKey" := apiKey] else p2;
    p3["id" := Str(id)]
  }

  /** `"/video/" + video` when a video is given. */
  function VideoPath(video: Value): string {
    if Truthy(video) then "/video/" + ToStr(video) else ""
  }

  /** The address before the query. */
  function EmbedBase(protocol: string, video: Value): string {
    protocol + WwwDomain + "/embed" + VideoPath(video)
  }

  /** `this.src` after `init`. */
  ghost function EmbedSrc(protocol: string, video: Value, params: Dict, codec: UriCodec): string {
    EmbedBase(protocol, video) + "?" + EncodeSpec(params, Undefined, Undefined, codec)
  }

  /** The embed parameters tell the frame the API mode and the player's
      id, carry the API key when there is one and the XDCom channel in
      XDCom mode, and keep every other parameter given. */
  lemma EmbedParamsFacts(given: Dict, mode: Option<ApiMode>, xdcomId: Value, apiKey: Value, id: string)
    ensures var p := EmbedParams(given, mode, xdcomId, apiKey, id);
            && p["api"] == ModeName(mode) && p["id"] == Str(id)
            && ("apiKey" in p && p["apiKey"] == apiKey <== Truthy(apiKey))
            && (mode == Some(XDCom) ==> "xdcomId" in p && p["xdcomId"] == xdcomId)
            && (forall k :: k in given && k !in {"api", "xdcomId", "apiKey", "id"} ==> k in p && p[k] == given[k])
            && p.Keys <= given.Keys + {"api", "xdcomId", "apiKey", "id"}
  {
  }

  /** The embed address is the player's site, `/embed`, the video's path
      when there is a video, then `?` and a query that decodes to the
      parameters (for flat string parameters and a URI codec that
      round-trips). */
  lemma EmbedSrcCarries(protocol: string, video: Value, params: Dict, codec: UriCodec)
    requires Inverse(codec) && FlatStringMap(params)
    ensures var src := EmbedSrc(protocol, video, params, codec);
            var base := EmbedBase(protocol, video);
            && src[..|base|] == base && src[|base|] == '?'
            && DecodeSpec(src[|base| + 1..], codec) == Normal(params)
            && StartsWith(base, protocol + WwwDomain + "/embed")
  {
    var base := EmbedBase(protocol, video);
    DecodeEncodeRoundTrip(params, codec);
    ConcatParts(base, "?", EncodeSpec(params, Undefined, Undefined, codec));
    assert base == (protocol + WwwDomain + "/embed") + VideoPath(video);
    assert base[..|protocol + WwwDomain + "/embed"|] == protocol + WwwDomain + "/embed";
  }

  /** `typeof params == "object" ? params : {}`; `null` is an object there
      and the assignment to `params.api` that follows throws. */
  function ParamsFor(params: Value, objects: map<nat, Dict>): Option<Dict> {
    if params.Null? then None
    else if params.Ref? && params.cls != "Function" then Some(if params.id in objects then objects[params.id] else map[])
    else if params.Arr? then Some(map[])
    else Some(map[])
  }

  // ---------------------------------------------------------------------
  // The event handler registry

  /** `addEventListener` in the fallback branch, for one handler. */
  function AddHandler(handlers: map<string, seq<nat>>, name: string, cb: nat): map<string, seq<nat>> {
    handlers[name := (if name in handlers then handlers[name] else []) + [cb]]
  }

  /** Several handlers added for one event, in order. */
  function AddHandlers(handlers: map<string, seq<nat>>, name: string, cbs: seq<nat>): map<string, seq<nat>>
    decreases |cbs|
  {
    if cbs == [] then handlers else AddHandler(AddHandlers(handlers, name, cbs[..|cbs| - 1]), name, cbs[|cbs| - 1])
  }

  function HandlersOf(handlers: map<string, seq<nat>>, name: string): seq<nat> {
    if name in handlers then handlers[name] else []
  }

  /** Handlers are kept per event in the order they were added; the
      handlers of other events are untouched. */
  lemma {:induction false} HandlersInOrder(handlers: map<string, seq<nat>>, name: string, cbs: seq<nat>)
    ensures var h := AddHandlers(handlers, name, cbs);
            && HandlersOf(h, name) == HandlersOf(handlers, name) + cbs
            && (cbs != [] ==> name in h)
            && forall other :: other != name ==> HandlersOf(h, other) == HandlersOf(handlers, other)
    decreases |cbs|
  {
    if cbs == [] {
      assert HandlersOf(handlers, name) + [] == HandlersOf(handlers, name);
    } else {
      var init := cbs[..|cbs| - 1];
      HandlersInOrder(handlers, name, init);
      assert init + [cbs[|cbs| - 1]] == cbs;
    }
  }

  // ---------------------------------------------------------------------
  // The player objects

  /** The assignments `init` makes to `params`. */
  method BuildParams(given: Dict, mode: Option<ApiMode>, xdcomId: Value, apiKey: Value, id: string) returns (p: Dict)
    ensures p == EmbedParams(given, mode, xdcomId, apiKey, id)
  {
    p := given["api" := ModeName(mode)];
    if mode == Some(XDCom) {
      p := p["xdcomId" := xdcomId];
    }
    if Truthy(apiKey) {
      p := p["apiKey" := apiKey];
    }
    p := p["id" := Str(id)];
  }

  /** The members of `DM.Player` that all players share: `API_MODE`,
      `EVENT_HANDLERS` (which `DM.copy` hands to every player by
      reference) and `_INSTANCES`. */
  class Shared {
    var mode: Option<ApiMode>
    var handlers: map<string, seq<nat>>
    var instances: map<string, PlayerElement>

    constructor ()
      ensures mode == None && handlers == map[] && instances == map[]
    {
      mode := None;
      handlers := map[];
      instances := map[];
    }

    /** The mode `_installHandlers` chooses: `postMessage` when the window
        has it, XDCom when the plugin is there, the fragment otherwise. */
    static function Chosen(hasPostMessage: bool, xdcomCapable: bool): ApiMode {
      if hasPostMessage then PostMessage else if xdcomCapable then XDCom else Fragment
    }

    /** `DM.Player._installHandlers()`: the mode is chosen once, by the
        first player; later calls keep it. */
    method InstallHandlers(hasPostMessage: bool, xdcomCapable: bool)
      modifies this
      ensures mode == if old(mode).None? then Some(Chosen(hasPostMessage, xdcomCapable)) else old(mode)
      ensures handlers == old(handlers) && instances == old(instances)
    {
      if mode.Some? {
        return;
      }
      if hasPostMessage {
        mode := Some(PostMessage);
      } else if xdcomCapable {
        mode := Some(XDCom);
      }
      if mode.None? {
        mode := Some(Fragment);
      }
    }
  }

  /** A player: the `<iframe>` element `DM.Player` was copied onto. */
  class PlayerElement {
    /** The video properties `_recvEvent` keeps up to date. */
    var fields: Fields
    /** The element's `id` (`""` when it has none) and `src`. */
    var id: string
    var src: string
    /** The commands posted to the frame, and the events dispatched on the element. */
    var sent: seq<string>
    var dispatched: seq<Value>
    /** Listeners attached natively with `attachEvent`. */
    var attached: seq<(string, nat)>
    const shared: Shared
    const protocol: string
    const codec: UriCodec
    /** `parseFloat`. */
    const num: Value -> Value

    constructor (id: string, shared: Shared, protocol: string, codec: UriCodec, num: Value -> Value)
      ensures fields == Initial
      ensures this.id == id && src == "" && sent == [] && dispatched == [] && attached == []
      ensures this.shared == shared && this.protocol == protocol && this.codec == codec && this.num == num
    {
      fields := Initial;
      this.id := id;
      src := "";
      sent := [];
      dispatched := [];
      attached := [];
      this.shared := shared;
      this.protocol := protocol;
      this.codec := codec;
      this.num := num;
    }

    /** `player.api(command, arg)`. */
    method Api(command: string, arg: Value)
      modifies this
      ensures (src, sent) == SendSpec(shared.mode, old(src), old(sent), Command(command, arg))
      ensures fields == old(fields) && dispatched == old(dispatched) && id == old(id)
    {
      var c := command;
      if !arg.Undefined? {
        c := c + "=" + ToStr(arg);
      }
      Send(c);
    }

    /** `player._send(command)`. */
    method Send(command: string)
      modifies this
      ensures (src, sent) == SendSpec(shared.mode, old(src), old(sent), command)
      ensures fields == old(fields) && dispatched == old(dispatched) && id == old(id)
    {
      match shared.mode
      case Some(PostMessage) =>
        sent := sent + [command];
      case Some(XDCom) =>
        sent := sent + [command];
      case Some(Fragment) =>
        var s := src;
        var pos := IndexOf(s, '#');
        if pos != -1 {
          s := s[..pos];
        }
        src := s + "#" + command;
      case None =>
    }

    /** `player._recvEvent(event)`, with `ended` also setting `paused`. */
    method RecvEvent(event: Dict)
      modifies this
      ensures fields == Update(old(fields), KindOf(event), event, num)
      ensures dispatched == old(dispatched) + (if Dispatches(old(fields), KindOf(event)) then [Get(event, "event")] else [])
      ensures src == old(src) && sent == old(sent) && id == old(id)
    {
      var k := KindOf(event);
      if k == ApiReady && fields.apiReady {
        assert dispatched + [] == dispatched;
        return;
      }
      ApplyBranch(k, event);
      dispatched := dispatched + [Get(event, "event")];
    }

    /** The branch `k` of the `switch` of `_recvEvent`. */
    method ApplyBranch(k: Kind, event: Dict)
      modifies this
      ensures fields == Update(old(fields), k, event, num)
      ensures dispatched == old(dispatched) && src == old(src) && sent == old(sent) && id == old(id)
    {
      match k
      case ApiReady =>
        fields := fields.(apiReady := true);
      case LoadedMetadata =>
        fields := fields.(error := None, ended := false);
      case TimeUpdate =>
        fields := fields.(currentTime := num(Get(event, "time")));
      case Progress =>
        fields := fields.(bufferedTime := num(Get(event, "time")));
      case DurationChange =>
        fields := fields.(duration := num(Get(event, "duration")));
      case Seeking =>
        fields := fields.(seeking := true, currentTime := num(Get(event, "time")));
      case Seeked =>
        fields := fields.(seeking := false, currentTime := num(Get(event, "time")));
      case FullscreenChange =>
        fields := fields.(fullscreen := ParseBool(Get(event, "fullscreen")));
      case VolumeChange =>
        fields := fields.(volume := num(Get(event, "volume")), muted := ParseBool(Get(event, "muted")));
      case PlayGroup =>
        fields := fields.(paused := false);
      case Ended =>
        fields := fields.(ended := true, paused := true);
      case PauseGroup =>
        fields := fields.(paused := true);
      case ErrorEvent =>
        fields := fields.(error := Some(ErrorInfo(event)));
      case Rebuffer =>
        fields := fields.(rebuffering := ParseBool(Get(event, "rebuffering")));
      case AvailableQualities =>
        fields := fields.(qualities := Get(event, "qualities"));
      case QualityChange =>
        fields := fields.(quality := Get(event, "quality"));
      case Unknown =>
    }

    /** `player.addEventListener(name, callback)`: natively when the
        element supports `attachEvent` for the event, otherwise in the
        shared handler registry. */
    method AddEventListener(name: string, cb: nat, native: bool)
      modifies this, shared
      ensures native ==> attached == old(attached) + [(name, cb)] && shared.handlers == old(shared.handlers)
      ensures !native ==> attached == old(attached) && shared.handlers == AddHandler(old(shared.handlers), name, cb)
      ensures shared.mode == old(shared.mode) && shared.instances == old(shared.instances)
      ensures fields == old(fields) && src == old(src) && id == old(id) && sent == old(sent)
      ensures dispatched == old(dispatched)
    {
      if native {
        attached := attached + [(name, cb)];
      } else {
        var hs := if name in shared.handlers then shared.handlers[name] else [];
        shared.handlers := shared.handlers[name := hs + [cb]];
      }
    }

    /** `player.init(video, params)`. The mode is chosen from what the
        window offers, `xdcomId` is the XDCom channel's id, `apiKey` is
        `DM._apiKey`, `guid` the id `DM.guid()` would give, `unload` the
        handler that forgets the player, and `native` whether `unload` is
        attached natively. */
    method Init(hasPostMessage: bool, xdcomCapable: bool, xdcomId: Value, video: Value, params: Value,
                objects: map<nat, Dict>, apiKey: Value, guid: string, unload: nat, native: bool)
      returns (r: Completion<()>)
      modifies this, shared
      ensures shared.mode == if old(shared.mode).None? then Some(Shared.Chosen(hasPostMessage, xdcomCapable)) else old(shared.mode)
      ensures sent == old(sent) && dispatched == old(dispatched)
      ensures ParamsFor(params, objects).None? ==>
                && r.Throw? && src == old(src) && id == old(id) && fields == old(fields) && attached == old(attached)
                && shared.instances == old(shared.instances) && shared.handlers == old(shared.handlers)
      ensures ParamsFor(params, objects).Some? ==>
                var p := EmbedParams(ParamsFor(params, objects).value, shared.mode, xdcomId, apiKey,
                                     if old(id) != "" then old(id) else guid);
                && r == Normal(())
                && id == (if old(id) != "" then old(id) else guid)
                && src == EmbedSrc(protocol, video, p, codec)
                && Registered(old(shared.instances), old(shared.handlers), old(attached), unload, native)
                && fields == old(fields).(autoplay := ParseBool(Get(p, "autoplay")))
    {
      shared.InstallHandlers(hasPostMessage, xdcomCapable);
      var given := ParamsFor(params, objects);
      if given.None? {
        return Throw("TypeError: Cannot set properties of null (setting 'api')");
      }
      if id == "" {
        id := guid;
      }
      var p := BuildParams(given.value, shared.mode, xdcomId, apiKey, id);
      SetEmbedSrc(video, p);
      Register(unload, native);
      fields := fields.(autoplay := ParseBool(Get(p, "autoplay")));
      r := Normal(());
    }

    /** `this.src = ... + '?' + DM.QS.encode(params)`. */
    method SetEmbedSrc(video: Value, p: Dict)
      modifies this
      ensures src == EmbedSrc(protocol, video, p, codec)
      ensures fields == old(fields) && id == old(id) && sent == old(sent) && dispatched == old(dispatched)
      ensures attached == old(attached)
    {
      var query := Encode(p, Undefined, Undefined, codec);
      src := protocol + WwwDomain + "/embed" + (if Truthy(video) then "/video/" + ToStr(video) else "") + "?" + query;
    }

    /** The player is registered under its id, every other instance is
        kept, and the `unload` listener was added (natively or in the
        shared registry) unless the player was registered already. */
    ghost predicate Registered(instances: map<string, PlayerElement>, handlers: map<string, seq<nat>>,
                               attachedBefore: seq<(string, nat)>, unload: nat, native: bool)
      reads this, shared
    {
      && shared.instances == instances[id := this]
      && if id in instances && instances[id] == this then
           attached == attachedBefore && shared.handlers == handlers
         else if native then
           attached == attachedBefore + [("unload", unload)] && shared.handlers == handlers
         else
           attached == attachedBefore && shared.handlers == AddHandler(handlers, "unload", unload)
    }

    /** `DM.Player._INSTANCES[this.id] = this`, with the `unload` handler
        that forgets it, unless the player is already registered. */
    method Register(unload: nat, native: bool)
      modifies this, shared
      ensures id in shared.instances && shared.instances[id] == this
      ensures Registered(old(shared.instances), old(shared.handlers), old(attached), unload, native)
      ensures shared.mode == old(shared.mode)
      ensures fields == old(fields) && id == old(id) && src == old(src) && sent == old(sent)
      ensures dispatched == old(dispatched)
    {
      if id !in shared.instances || shared.instances[id] != this {
        shared.instances := shared.instances[id := this];
        AddEventListener("unload", unload, native);
      }
    }
  }
}
