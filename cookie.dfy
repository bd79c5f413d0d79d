/**
 * `DM.Cookie`: the session is kept in one cookie named `dms_<apiKey>`
 * whose value is the query-string encoding of the session.
 *
 * The browser's cookie jar is not modelled: every assignment to
 * `document.cookie` is recorded in order, and what `document.cookie` reads
 * back is a parameter of `load`.
 */
module Cookie {
  import opened JsValues
  import opened QS

  // ---------------------------------------------------------------------
  // The text `setRaw` assigns to `document.cookie`

  /** `'dms_' + DM._apiKey + '="'`. */
  function CookiePrefix(apiKey: Value): string {
    "dms_" + ToStr(apiKey) + "=\""
  }

  /** The `name="value"` part of the cookie: what the browser reads back. */
  function NameValue(apiKey: Value, val: string): string {
    CookiePrefix(apiKey) + val + "\""
  }

  /** A cookie without an expiry date (a browser-session cookie) is written
      only for a non-empty value with `ts == 0`. */
  predicate SessionOnly(val: string, ts: Value) {
    val != "" && LooseEq(ts, Num(0))
  }

  /** What follows `name="value"`: an expiry date unless the value is
      non-empty and `ts == 0`, then the path, then the domain when one is
      given. `gmt(ts)` stands for `new Date(ts * 1000).toGMTString()`. */
  function Attributes(val: string, ts: Value, domain: Value, gmt: Value -> string): string {
    (if SessionOnly(val, ts) then "" else "; expires=" + gmt(ts))
    + "; path=/"
    + (if Truthy(domain) then "; domain=." + ToStr(domain) else "")
  }

  /** The string `setRaw(val, ts, domain)` assigns to `document.cookie`. */
  function CookieText(apiKey: Value, val: string, ts: Value, domain: Value, gmt: Value -> string): (r: string)
    ensures StartsWith(r, NameValue(apiKey, val))
  {
    StartsWithConcat(NameValue(apiKey, val), Attributes(val, ts, domain, gmt));
    NameValue(apiKey, val) + Attributes(val, ts, domain, gmt)
  }

  /** The attributes after `name="value"`: an expiry date unless the value is
      non-empty and `ts == 0`, then the path, then the domain when one is given. */
  lemma CookieAttributes(apiKey: Value, val: string, ts: Value, domain: Value, gmt: Value -> string)
    ensures var attrs := CookieText(apiKey, val, ts, domain, gmt)[|NameValue(apiKey, val)|..];
            (SessionOnly(val, ts) ==> StartsWith(attrs, "; path=/")) &&
            (!SessionOnly(val, ts) ==> StartsWith(attrs, "; expires=" + gmt(ts) + "; path=/")) &&
            (!Truthy(domain) ==> attrs == (if SessionOnly(val, ts) then "" else "; expires=" + gmt(ts)) + "; path=/") &&
            (Truthy(domain) ==> attrs == (if SessionOnly(val, ts) then "" else "; expires=" + gmt(ts)) + "; path=/"
                                         + "; domain=." + ToStr(domain))
  {
    DropHead(NameValue(apiKey, val), Attributes(val, ts, domain, gmt));
    var exp := if SessionOnly(val, ts) then "" else "; expires=" + gmt(ts);
    var dom := if Truthy(domain) then "; domain=." + ToStr(domain) else "";
    StartsWithConcat(exp + "; path=/", dom);
    if SessionOnly(val, ts) {
      assert exp + "; path=/" == "; path=/";
    }
    if !Truthy(domain) {
      assert Attributes(val, ts, domain, gmt) == exp + "; path=/";
    }
  }

  /** The cookie that `clear` writes is empty and always carries an expiry
      date, the one for `ts == 0`. */
  lemma ClearExpires(apiKey: Value, domain: Value, gmt: Value -> string)
    ensures !SessionOnly("", Num(0))
    ensures StartsWith(CookieText(apiKey, "", Num(0), domain, gmt)[|NameValue(apiKey, "")|..], "; expires=" + gmt(Num(0)))
  {
    CookieAttributes(apiKey, "", Num(0), domain, gmt);
  }

  // ---------------------------------------------------------------------
  // Finding the cookie in `document.cookie`

  /** A character `\w` matches. */
  predicate IsWordChar(c: char) {
    ('a' <= c <= 'z') || ('A' <= c <= 'Z') || ('0' <= c <= '9') || c == '_'
  }

  /** `\b` at position `i`: a word character on exactly one side. */
  predicate Boundary(text: string, i: nat)
    requires i <= |text|
  {
    (i > 0 && IsWordChar(text[i - 1])) != (i < |text| && IsWordChar(text[i]))
  }

  /** The length of the longest prefix of `s` free of the characters in `stop`. */
  function Span(s: string, stop: set<char>): (n: nat)
    ensures n <= |s|
    ensures forall i :: 0 <= i < n ==> s[i] !in stop
    ensures n < |s| ==> s[n] in stop
  {
    if s == [] || s[0] in stop then 0 else 1 + Span(s[1..], stop)
  }

  /** Backtracking of `[^;]*\b`: the longest length, at most `l`, after which a word boundary follows. */
  function LongestBoundary(text: string, q: nat, l: nat): (r: Option<nat>)
    requires q + l <= |text|
    ensures r.Some? ==> r.value <= l && Boundary(text, q + r.value)
    ensures r.Some? ==> forall i :: q + r.value < i <= q + l ==> !Boundary(text, i)
    ensures r.None? ==> forall i :: q <= i <= q + l ==> !Boundary(text, i)
    decreases l
  {
    if Boundary(text, q + l) then Some(l)
    else if l == 0 then None
    else LongestBoundary(text, q, l - 1)
  }

  /** Where the name of the cookie starts at `p`: `\bdms_<apiKey>="`. */
  predicate NameAt(text: string, prefix: string, p: nat)
    requires p <= |text|
  {
    Boundary(text, p) && StartsWith(text[p..], prefix)
  }

  /** The regular expression `\bdms_<apiKey>="([^;]*)\b` as written, tried at `p`. */
  function MatchHere(text: string, prefix: string, p: nat): Option<string>
    requires p <= |text|
  {
    if NameAt(text, prefix, p) then
      var q := p + |prefix|;
      var l := LongestBoundary(text, q, Span(text[q..], {';'}));
      if l.Some? then Some(text[q..q + l.value]) else None
    else None
  }

  /** The same, tried at `p` and then at every later position. */
  function MatchFrom(text: string, prefix: string, p: nat): Option<string>
    requires p <= |text|
    decreases |text| - p
  {
    if MatchHere(text, prefix, p).Some? then MatchHere(text, prefix, p)
    else if p == |text| then None
    else MatchFrom(text, prefix, p + 1)
  }

  /** `document.cookie.match('\\bdms_' + DM._apiKey + '="([^;]*)\\b')`, as written. */
  function MatchCookie(text: string, apiKey: Value): Option<string> {
    MatchFrom(text, CookiePrefix(apiKey), 0)
  }

  /** The match the comment beside the regular expression describes: the
      text between the quotes, `\bdms_<apiKey>="([^;"]+)"`, tried at `p`. */
  function QuotedHere(text: string, prefix: string, p: nat): Option<string>
    requires p <= |text|
  {
    if NameAt(text, prefix, p) then
      var q := p + |prefix|;
      var n := Span(text[q..], {';', '"'});
      if n > 0 && q + n < |text| && text[q + n] == '"' then Some(text[q..q + n]) else None
    else None
  }

  function QuotedFrom(text: string, prefix: string, p: nat): Option<string>
    requires p <= |text|
    decreases |text| - p
  {
    if QuotedHere(text, prefix, p).Some? then QuotedHere(text, prefix, p)
    else if p == |text| then None
    else QuotedFrom(text, prefix, p + 1)
  }

  function QuotedCookie(text: string, apiKey: Value): Option<string> {
    QuotedFrom(text, CookiePrefix(apiKey), 0)
  }

  /** A value that the cookie can carry: non-empty, and free of `;` and `"`. */
  predicate CookieSafe(val: string) {
    val != "" && ';' !in val && '"' !in val
  }

  /** The cookie name starts with a word character, so it can match at the start of the text. */
  lemma NameAtStart(text: string, prefix: string)
    requires prefix != [] && IsWordChar(prefix[0]) && StartsWith(text, prefix)
    ensures NameAt(text, prefix, 0)
  {
    assert text[0..] == text;
  }

  /** The quoted match reads back the value of a cookie that starts the text. */
  lemma QuotedReadsBack(apiKey: Value, val: string, rest: string)
    requires CookieSafe(val)
    ensures QuotedCookie(NameValue(apiKey, val) + rest, apiKey) == Some(val)
  {
    QuotedAt(CookiePrefix(apiKey), val, rest);
  }

  lemma QuotedAt(prefix: string, val: string, rest: string)
    requires prefix != [] && IsWordChar(prefix[0]) && CookieSafe(val)
    ensures QuotedFrom(prefix + val + "\"" + rest, prefix, 0) == Some(val)
  {
    var text := prefix + val + "\"" + rest;
    var q := |prefix|;
    assert text[..q] == prefix;
    NameAtStart(text, prefix);
    assert text[q..] == val + ("\"" + rest);
    SpanStops(val, "\"" + rest, {';', '"'});
    assert text[q + |val|] == '"';
    assert text[q..q + |val|] == val;
  }

  lemma {:induction false} SpanStops(s: string, t: string, stop: set<char>)
    requires forall i :: 0 <= i < |s| ==> s[i] !in stop
    requires t == [] || t[0] in stop
    ensures Span(s + t, stop) == |s|
  {
    if s != [] {
      assert (s + t)[0] == s[0] && (s + t)[1..] == s[1..] + t;
      assert forall i :: 0 <= i < |s[1..]| ==> s[1..][i] == s[i + 1];
      SpanStops(s[1..], t, stop);
    } else {
      assert s + t == t;
    }
  }

  /** Without the cookie's name anywhere in the text, neither match finds anything. */
  lemma {:induction false} NoNameNoMatch(text: string, prefix: string, p: nat)
    requires p <= |text|
    requires forall i :: p <= i <= |text| ==> !StartsWith(text[i..], prefix)
    ensures MatchFrom(text, prefix, p) == None && QuotedFrom(text, prefix, p) == None
    decreases |text| - p
  {
    if p < |text| {
      NoNameNoMatch(text, prefix, p + 1);
    }
  }

  /** `[^;]*\b` backtracks to the last word boundary. */
  lemma {:induction false} LongestBoundaryAt(text: string, q: nat, l: nat, k: nat)
    requires k <= l && q + l <= |text| && Boundary(text, q + k)
    requires forall i :: q + k < i <= q + l ==> !Boundary(text, i)
    ensures LongestBoundary(text, q, l) == Some(k)
    decreases l
  {
    if l > k {
      LongestBoundaryAt(text, q, l - 1, k);
    }
  }

  /** The regular expression as written reads a cookie value `w + t`, where
      `w` ends in a word character and `t` holds none, as `w` alone. */
  lemma MatchAt(prefix: string, w: string, t: string, rest: string)
    requires prefix != [] && IsWordChar(prefix[0])
    requires CookieSafe(w + t) && w != [] && IsWordChar(w[|w| - 1])
    requires forall i :: 0 <= i < |t| ==> !IsWordChar(t[i])
    requires rest == [] || rest[0] == ';'
    ensures MatchFrom(prefix + (w + t) + "\"" + rest, prefix, 0) == Some(w)
  {
    var text := prefix + (w + t) + "\"" + rest;
    CookieParts(prefix, w, t, rest);
    NameAtStart(text, prefix);
    MatchAtSpan(prefix, w + t, rest);
    MatchAtBoundaries(prefix, w, t, rest);
    MatchFirst(text, prefix, |w| + |t| + 1, w);
  }

  lemma CookieParts(prefix: string, w: string, t: string, rest: string)
    ensures var text := prefix + (w + t) + "\"" + rest;
            StartsWith(text, prefix) && |prefix| + |w| <= |text| && text[|prefix|..|prefix| + |w|] == w
  {
    var text := prefix + (w + t) + "\"" + rest;
    assert text[..|prefix|] == prefix;
    assert text[|prefix|..|prefix| + |w|] == w;
  }

  /** A match at the start of the text is the one found. */
  lemma MatchFirst(text: string, prefix: string, n: nat, w: string)
    requires NameAt(text, prefix, 0) && |prefix| + n <= |text|
    requires Span(text[|prefix|..], {';'}) == n && LongestBoundary(text, |prefix|, n) == Some(|w|)
    requires |prefix| + |w| <= |text| && text[|prefix|..|prefix| + |w|] == w
    ensures MatchFrom(text, prefix, 0) == Some(w)
  {
  }

  /** `[^;]*` stops after the closing quote. */
  lemma MatchAtSpan(prefix: string, v: string, rest: string)
    requires ';' !in v && (rest == [] || rest[0] == ';')
    ensures Span((prefix + v + "\"" + rest)[|prefix|..], {';'}) == |v| + 1
  {
    var text := prefix + v + "\"" + rest;
    assert text[|prefix|..] == (v + "\"") + rest;
    SpanStops(v + "\"", rest, {';'});
  }

  /** The last word boundary before the end of the cookie line is after `w`. */
  lemma MatchAtBoundaries(prefix: string, w: string, t: string, rest: string)
    requires w != [] && IsWordChar(w[|w| - 1])
    requires forall i :: 0 <= i < |t| ==> !IsWordChar(t[i])
    requires rest == [] || rest[0] == ';'
    ensures |prefix| + |w| + |t| + 1 <= |prefix + (w + t) + "\"" + rest|
    ensures LongestBoundary(prefix + (w + t) + "\"" + rest, |prefix|, |w| + |t| + 1) == Some(|w|)
  {
    var text := prefix + (w + t) + "\"" + rest;
    var q := |prefix|;
    var n := |w| + |t| + 1;
    assert text[q + |w| - 1] == w[|w| - 1];
    forall i | q + |w| <= i < q + n
      ensures !IsWordChar(text[i])
    {
      if i < q + |w| + |t| {
        assert text[i] == t[i - q - |w|];
      } else {
        assert text[i] == '"';
      }
    }
    assert q + n == |text| || text[q + n] == ';';
    LongestBoundaryAt(text, q, n, |w|);
  }

  /** The regular expression as written reads back a cookie whose value ends
      in a word character, when the cookie ends the text or a `;` follows. */
  lemma MatchReadsBack(apiKey: Value, val: string, rest: string)
    requires CookieSafe(val) && IsWordChar(val[|val| - 1])
    requires rest == [] || rest[0] == ';'
    ensures MatchCookie(NameValue(apiKey, val) + rest, apiKey) == Some(val)
  {
    assert val + [] == val;
    MatchAt(CookiePrefix(apiKey), val, [], rest);
  }

  /** As written, a cookie value that ends in characters that are not word
      characters (`encodeURIComponent` leaves `-.!~*'()` as they are) loses
      them, while the quoted match keeps them. */
  lemma MatchTrims(apiKey: Value, w: string, t: string, rest: string)
    requires CookieSafe(w + t) && w != [] && IsWordChar(w[|w| - 1])
    requires t != [] && forall i :: 0 <= i < |t| ==> !IsWordChar(t[i])
    requires rest == [] || rest[0] == ';'
    ensures MatchCookie(NameValue(apiKey, w + t) + rest, apiKey) == Some(w)
    ensures QuotedCookie(NameValue(apiKey, w + t) + rest, apiKey) == Some(w + t) != Some(w)
  {
    MatchAt(CookiePrefix(apiKey), w, t, rest);
    QuotedReadsBack(apiKey, w + t, rest);
  }

  /** The session `{uid: 'a.'}` is stored as `uid=a.` and read back as `uid=a`. */
  lemma MatchTruncates()
    ensures MatchCookie("dms_k=\"uid=a.\"", Str("k")) == Some("uid=a")
  {
    assert NameValue(Str("k"), "uid=a" + ".") + "" == "dms_k=\"uid=a.\"";
    MatchTrims(Str("k"), "uid=a", ".", "");
  }

  // ---------------------------------------------------------------------
  // Loading

  /** What `load` returns for the text `document.cookie` reads back: nothing
      when there is no cookie, else the decoded session with `expires`
      turned into a number by `parseInt(…, 10)`. */
  function LoadSpec(text: string, apiKey: Value, codec: UriCodec): Completion<Session> {
    var m := QuotedCookie(text, apiKey);
    if m.None? then Normal(None)
    else
      var d := DecodeSpec(m.value, codec);
      if d.Throw? then Throw(d.message)
      else Normal(Some(d.value["expires" := NumberValue(ParseInt(Get(d.value, "expires")))]))
  }

  /** The URI encoder never produces `;` or `"`. */
  ghost predicate CookieCodec(c: UriCodec) {
    Inverse(c) && forall s :: ';' !in c.enc(s) && '"' !in c.enc(s)
  }

  /** A session written by `set` is read back by `load`: its string
      properties come back as they were and `expires` as the same number. */
  lemma CookieRoundTrip(apiKey: Value, m: Dict, n: int, rest: string, c: UriCodec)
    requires CookieCodec(c)
    requires "expires" in m && m["expires"] == Num(n)
    requires FlatStringMap(m - {"expires"})
    ensures LoadSpec(NameValue(apiKey, EncodeSpec(m, Undefined, Undefined, c)) + rest, apiKey, c) == Normal(Some(m))
  {
    var val := EncodeSpec(m, Undefined, Undefined, c);
    EncodedCookieSafe(m, c);
    QuotedReadsBack(apiKey, val, rest);
    var m2 := EncodedSessionDecodes(m, n, c);
    ExpiresParsedBack(m, m2, n);
  }

  /** An encoded session is a value the cookie can carry. */
  lemma EncodedCookieSafe(m: Dict, c: UriCodec)
    requires CookieCodec(c) && "expires" in m && !IsNullish(m["expires"])
    ensures CookieSafe(EncodeSpec(m, Undefined, Undefined, c))
  {
    EncodeAvoids(m, c, ';');
    EncodeAvoids(m, c, '"');
    EncodeNonEmpty(m, c, "expires");
  }

  /** Decoding gives the session back with `expires` as the string of its digits. */
  lemma EncodedSessionDecodes(m: Dict, n: int, c: UriCodec) returns (m2: Dict)
    requires CookieCodec(c) && "expires" in m && m["expires"] == Num(n)
    requires FlatStringMap(m - {"expires"})
    ensures m2 == m["expires" := Str(IntToDecimal(n))]
    ensures DecodeSpec(EncodeSpec(m, Undefined, Undefined, c), c) == Normal(m2)
  {
    m2 := m["expires" := Str(IntToDecimal(n))];
    EncodeNumberAsText(m, "expires", n, c);
    assert FlatStringMap(m2) by {
      forall k | k in m2
        ensures k != "" && !EndsWithBrackets(k) && m2[k].Str?
      {
        if k == "expires" {
          assert !EndsWithBrackets(k);
        } else {
          assert k in m - {"expires"};
        }
      }
    }
    DecodeEncodeRoundTrip(m2, c);
  }

  /** `parseInt(…, 10)` turns the digits back into the number. */
  lemma ExpiresParsedBack(m: Dict, m2: Dict, n: int)
    requires "expires" in m && m["expires"] == Num(n)
    requires m2 == m["expires" := Str(IntToDecimal(n))]
    ensures m2["expires" := NumberValue(ParseInt(Get(m2, "expires")))] == m
  {
    ParseIntOfNumber(n);
    assert ParseInt(Get(m2, "expires")) == Some(n) by {
      assert Get(m2, "expires") == Str(IntToDecimal(n));
      assert ToStr(Str(IntToDecimal(n))) == ToStr(Num(n));
    }
    UpdateBack(m, "expires", Str(IntToDecimal(n)));
  }

  /** Writing a property and then its old value back leaves the object as it was. */
  lemma UpdateBack(m: Dict, k: string, v: Value)
    requires k in m
    ensures m[k := v][k := m[k]] == m
  {
  }

  /** The text `clear` leaves behind (an empty value) loads as no session. */
  lemma ClearedLoadsNothing(apiKey: Value, rest: string, c: UriCodec)
    requires '"' !in ToStr(apiKey)
    requires forall i :: 0 <= i <= |rest| ==> !StartsWith(rest[i..], CookiePrefix(apiKey))
    ensures LoadSpec(NameValue(apiKey, "") + rest, apiKey, c) == Normal(None)
  {
    var prefix := CookiePrefix(apiKey);
    var text := NameValue(apiKey, "") + rest;
    var q := |prefix|;
    assert text == prefix + "\"" + rest;
    assert text[q..] == "\"" + rest;
    assert QuotedFrom(text, prefix, 0) == QuotedFrom(text, prefix, 1);
    forall i | 1 <= i <= |text|
      ensures !StartsWith(text[i..], prefix)
    {
      NameOnce(ToStr(apiKey), rest, i);
    }
    NoNameNoMatch(text, prefix, 1);
  }

  /** The cookie name cannot start again inside the name, or inside the text after it. */
  lemma NameOnce(key: string, rest: string, i: nat)
    requires '"' !in key
    requires 1 <= i <= |"dms_" + key + "=\"" + "\"" + rest|
    requires forall j :: 0 <= j <= |rest| ==> !StartsWith(rest[j..], "dms_" + key + "=\"")
    ensures !StartsWith(("dms_" + key + "=\"" + "\"" + rest)[i..], "dms_" + key + "=\"")
  {
    var prefix := "dms_" + key + "=\"";
    var text := prefix + "\"" + rest;
    var p := |prefix|;
    if i == 1 {
      assert text[i..][0] != prefix[0];
    } else if i <= p {
      var j := p - i;
      if j < |text[i..]| {
        assert text[i..][j] == '"';
        assert prefix[j] != '"' by {
          if j < 4 { assert prefix[j] == "dms_"[j]; }
          else if j < 4 + |key| { assert prefix[j] == key[j - 4]; }
          else { assert prefix[j] == '='; }
        }
      }
    } else {
      assert text[i..] == rest[i - p - 1..];
    }
  }

  // ---------------------------------------------------------------------
  // The cookie state

  /** What `set(session)` assigns to `document.cookie`, and the domain it
      leaves remembered: the encoded session with its `expires` and
      `base_domain`, or, without a session, what `clear` writes. */
  ghost function SetWrite(apiKey: Value, session: Session, domain: Value, codec: UriCodec, gmt: Value -> string): (string, Value) {
    if session.Some? then
      var d := session.value;
      (CookieText(apiKey, EncodeSpec(d, Undefined, Undefined, codec), Get(d, "expires"), Get(d, "base_domain"), gmt),
       Get(d, "base_domain"))
    else
      (CookieText(apiKey, "", Num(0), domain, gmt), domain)
  }

  class CookieStore {
    /** `DM.Cookie._enabled`. */
    var enabled: Value
    /** `DM.Cookie._domain`: the domain of the last cookie written or loaded. */
    var domain: Value
    /** Every string assigned to `document.cookie`, oldest first. */
    var written: seq<string>

    constructor ()
      ensures enabled == Bool(false) && domain == Null && written == []
    {
      enabled := Bool(false);
      domain := Null;
      written := [];
    }

    /** `DM.Cookie.setEnabled(val)`. */
    method SetEnabled(val: Value)
      modifies this
      ensures enabled == val && domain == old(domain) && written == old(written)
    {
      enabled := val;
    }

    /** `DM.Cookie.getEnabled()`: the last value given to `setEnabled`. */
    method GetEnabled() returns (r: Value)
      ensures r == enabled
    {
      r := enabled;
    }

    /** `DM.Cookie.setRaw(val, ts, domain)`: writes the cookie and remembers its domain. */
    method SetRaw(apiKey: Value, val: string, ts: Value, dom: Value, gmt: Value -> string)
      modifies this
      ensures written == old(written) + [CookieText(apiKey, val, ts, dom, gmt)]
      ensures domain == dom && enabled == old(enabled)
    {
      var text := CookieText(apiKey, val, ts, dom, gmt);
      written := written + [text];
      domain := dom;
    }

    /** `DM.Cookie.clear()`: an empty cookie, expired, on the remembered domain. */
    method Clear(apiKey: Value, gmt: Value -> string)
      modifies this
      ensures written == old(written) + [CookieText(apiKey, "", Num(0), old(domain), gmt)]
      ensures domain == old(domain) && enabled == old(enabled)
    {
      SetRaw(apiKey, "", Num(0), domain, gmt);
    }

    /** `DM.Cookie.set(session)`: writes the encoded session with its
        `expires` and `base_domain`; no session clears the cookie. */
    method Set(apiKey: Value, session: Session, codec: UriCodec, gmt: Value -> string)
      modifies this
      ensures written == old(written) + [SetWrite(apiKey, session, old(domain), codec, gmt).0]
      ensures domain == SetWrite(apiKey, session, old(domain), codec, gmt).1
      ensures enabled == old(enabled)
    {
      if session.Some? {
        var val := Encode(session.value, Undefined, Undefined, codec);
        SetRaw(apiKey, val, Get(session.value, "expires"), Get(session.value, "base_domain"), gmt);
      } else {
        Clear(apiKey, gmt);
      }
    }

    /** `DM.Cookie.load()`, given what `document.cookie` reads back: the
        session in the cookie, if any; a loaded session's `base_domain`
        becomes the remembered domain. */
    method Load(text: string, apiKey: Value, codec: UriCodec) returns (r: Completion<Session>)
      modifies this
      ensures r == LoadSpec(text, apiKey, codec)
      ensures domain == (if r.Normal? && r.value.Some? then Get(r.value.value, "base_domain") else old(domain))
      ensures enabled == old(enabled) && written == old(written)
    {
      var m := QuotedCookie(text, apiKey);
      if m.None? {
        return Normal(None);
      }
      var d := Decode(m.value, codec);
      if d.Throw? {
        return Throw(d.message);
      }
      var session := d.value["expires" := NumberValue(ParseInt(Get(d.value, "expires")))];
      domain := Get(session, "base_domain");
      return Normal(Some(session));
    }
  }
}
