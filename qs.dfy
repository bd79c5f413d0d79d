/**
 * Query-string encoding and decoding (`DM.QS`).
 *
 * `encode` turns the non-null properties of an object into `key=value`
 * pairs, sorts them and joins them with a separator; `decode` splits a
 * string on `&` and rebuilds an object, collecting `key[]` entries into
 * arrays. The URI component codec (`encodeURIComponent` /
 * `decodeURIComponent`) is a parameter of the model.
 */
module QS {
  import opened JsValues

  /** `encodeURIComponent` and `decodeURIComponent`. */
  datatype UriCodec = UriCodec(enc: string -> string, dec: string -> string)

  /** What a round trip through the query-string codec needs of the URI
      codec: decoding undoes encoding, encoded text never holds the
      characters the query-string codec splits on (or rewrites), and the
      empty string decodes to itself. */
  ghost predicate Inverse(c: UriCodec) {
    && (forall s :: c.dec(c.enc(s)) == s)
    && (forall s :: '&' !in c.enc(s) && '=' !in c.enc(s) && '+' !in c.enc(s))
    && c.dec("") == ""
  }

  // ---------------------------------------------------------------------
  // The order of `Array.prototype.sort()` without a comparator

  /** `a` sorts at or before `b`: character by character, a proper prefix first. */
  predicate Below(a: string, b: string) {
    if a == [] then true
    else if b == [] then false
    else a[0] < b[0] || (a[0] == b[0] && Below(a[1..], b[1..]))
  }

  lemma {:induction false} BelowTotal(a: string, b: string)
    ensures Below(a, b) || Below(b, a)
  {
    if a != [] && b != [] && a[0] == b[0] {
      BelowTotal(a[1..], b[1..]);
    }
  }

  lemma {:induction false} BelowAntisymmetric(a: string, b: string)
    requires Below(a, b) && Below(b, a)
    ensures a == b
  {
    if a != [] && b != [] {
      BelowAntisymmetric(a[1..], b[1..]);
      assert a == [a[0]] + a[1..] && b == [b[0]] + b[1..];
    }
  }

  lemma {:induction false} BelowTransitive(a: string, b: string, c: string)
    requires Below(a, b) && Below(b, c)
    ensures Below(a, c)
  {
    if a != [] && a[0] == b[0] && b[0] == c[0] {
      BelowTransitive(a[1..], b[1..], c[1..]);
    }
  }

  predicate Sorted(s: seq<string>) {
    forall i, j :: 0 <= i < j < |s| ==> Below(s[i], s[j])
  }

  /** Inserts `x` into a sorted sequence, before the first element it sorts at or before. */
  function Insert(x: string, s: seq<string>): (r: seq<string>)
    requires Sorted(s)
    ensures Sorted(r)
    ensures multiset(r) == multiset(s) + multiset{x}
  {
    if s == [] then [x]
    else if Below(x, s[0]) then
      InsertFront(x, s);
      [x] + s
    else
      var rest := Insert(x, s[1..]);
      InsertAfterHead(x, s, rest);
      [s[0]] + rest
  }

  /** `x` sorting at or before the head goes in front. */
  lemma InsertFront(x: string, s: seq<string>)
    requires Sorted(s) && s != [] && Below(x, s[0])
    ensures Sorted([x] + s) && multiset([x] + s) == multiset(s) + multiset{x}
  {
    forall i, j | 0 <= i < j < |[x] + s| ensures Below(([x] + s)[i], ([x] + s)[j]) {
      if i == 0 && j > 1 {
        BelowTransitive(x, s[0], s[j - 1]);
      }
    }
  }

  /** `x` sorting after the head goes into the tail. */
  lemma InsertAfterHead(x: string, s: seq<string>, rest: seq<string>)
    requires Sorted(s) && s != [] && !Below(x, s[0])
    requires Sorted(rest) && multiset(rest) == multiset(s[1..]) + multiset{x}
    ensures Sorted([s[0]] + rest) && multiset([s[0]] + rest) == multiset(s) + multiset{x}
  {
    assert s == [s[0]] + s[1..];
    forall e | e in rest ensures Below(s[0], e) {
      assert e in multiset(rest);
      if e == x { BelowTotal(x, s[0]); } else { assert e in s[1..]; }
    }
    forall i, j | 0 <= i < j < |[s[0]] + rest| ensures Below(([s[0]] + rest)[i], ([s[0]] + rest)[j]) {
      if i == 0 {
        assert rest[j - 1] in rest;
      }
    }
  }

  /** The sorted permutation of a sequence of strings. */
  function SortSeq(s: seq<string>): (r: seq<string>)
    ensures Sorted(r) && multiset(r) == multiset(s)
  {
    if s == [] then []
    else
      assert s == [s[0]] + s[1..];
      Insert(s[0], SortSeq(s[1..]))
  }

  /** A multiset of strings has only one sorted arrangement. */
  lemma {:induction false} SortedUnique(a: seq<string>, b: seq<string>)
    requires Sorted(a) && Sorted(b) && multiset(a) == multiset(b)
    ensures a == b
  {
    assert |a| == |multiset(a)| == |multiset(b)| == |b|;
    if a != [] {
      SortedLeast(a, b[0]);
      SortedLeast(b, a[0]);
      BelowAntisymmetric(a[0], b[0]);
      SplitHead(a);
      SplitHead(b);
      SortedUnique(a[1..], b[1..]);
    }
  }

  /** The first element of a sorted sequence sorts at or before each of its elements. */
  lemma SortedLeast(a: seq<string>, x: string)
    requires Sorted(a) && x in multiset(a)
    ensures Below(a[0], x)
  {
    var j :| 0 <= j < |a| && a[j] == x;
    if j == 0 { BelowTotal(x, x); }
  }

  /** A non-empty sorted sequence is its head followed by a sorted tail. */
  lemma SplitHead(a: seq<string>)
    requires Sorted(a) && a != []
    ensures a == [a[0]] + a[1..] && Sorted(a[1..])
    ensures multiset(a[1..]) == multiset(a) - multiset{a[0]}
  {
    assert a == [a[0]] + a[1..];
  }

  /** `pairs.sort()`: sorts the array in place, growing a sorted prefix one
      element at a time. */
  method SortInPlace(a: array<string>)
    modifies a
    ensures Sorted(a[..])
    ensures multiset(a[..]) == multiset(old(a[..]))
  {
    var i := 0;
    while i < a.Length
      invariant 0 <= i <= a.Length
      invariant Sorted(a[..i])
      invariant multiset(a[..]) == multiset(old(a[..]))
    {
      SinkInto(a, i);
      i := i + 1;
    }
    assert a[..a.Length] == a[..];
  }

  /** Swaps `a[i]` down into the sorted prefix `a[..i]` until the element
      before it sorts at or before it. */
  method SinkInto(a: array<string>, i: nat)
    requires i < a.Length && Sorted(a[..i])
    modifies a
    ensures Sorted(a[..i + 1])
    ensures multiset(a[..]) == multiset(old(a[..]))
  {
    var j := i;
    while j > 0 && !Below(a[j - 1], a[j])
      invariant 0 <= j <= i
      invariant multiset(a[..]) == multiset(old(a[..]))
      invariant SortedBut(a[..], i, j)
    {
      ghost var before := a[..];
      a[j - 1], a[j] := a[j], a[j - 1];
      SwapDown(before, a[..], i, j);
      j := j - 1;
    }
    SortedButDone(a[..], i, j);
  }

  /** `s[..i + 1]` is sorted except that `s[j]` may sort before the elements
      ahead of it; it does sort at or before every element after it. */
  ghost predicate SortedBut(s: seq<string>, i: nat, j: nat)
    requires j <= i < |s|
  {
    && (forall p, q :: 0 <= p < q <= i && p != j && q != j ==> Below(s[p], s[q]))
    && (forall q :: j < q <= i ==> Below(s[j], s[q]))
  }

  /** Swapping `s[j]` with the element before it, when that one sorts after it. */
  lemma SwapDown(s: seq<string>, t: seq<string>, i: nat, j: nat)
    requires 0 < j <= i < |s| && SortedBut(s, i, j) && !Below(s[j - 1], s[j])
    requires t == s[j - 1 := s[j]][j := s[j - 1]]
    ensures SortedBut(t, i, j - 1)
  {
    BelowTotal(s[j - 1], s[j]);
  }

  /** Once `s[j]` sorts after the element before it, the prefix is sorted. */
  lemma SortedButDone(s: seq<string>, i: nat, j: nat)
    requires j <= i < |s| && SortedBut(s, i, j)
    requires j == 0 || Below(s[j - 1], s[j])
    ensures Sorted(s[..i + 1])
  {
    forall p, q | 0 <= p < q <= i
      ensures Below(s[p], s[q])
    {
      if q == j && p < j - 1 {
        BelowTransitive(s[p], s[j - 1], s[j]);
      }
    }
  }

  // ---------------------------------------------------------------------
  // Encoding

  /** The text of one `key=value` pair, each side passed through `f`. */
  function PairText(k: string, v: Value, f: string -> string): string {
    f(k) + "=" + f(ToStr(v))
  }

  /** The pairs one property contributes: none when its value is null or undefined. */
  function PairOf(k: string, v: Value, f: string -> string): seq<string> {
    if IsNullish(v) then [] else [PairText(k, v, f)]
  }

  /** Some key of a non-empty object: the enumeration order is not modelled. */
  ghost function PickKey(params: Dict): (k: string)
    requires params != map[]
    ensures k in params
  {
    var k :| k in params; k
  }

  /** The pairs of all properties, in some enumeration order. */
  ghost function PairList(params: Dict, f: string -> string): seq<string>
    decreases |params|
  {
    if params == map[] then []
    else
      var k := PickKey(params);
      assert |params - {k}| < |params| by { assert (params - {k}).Keys == params.Keys - {k}; }
      PairList(params - {k}, f) + PairOf(k, params[k], f)
  }

  /** The pairs do not depend on the enumeration order: any property can be taken out first. */
  lemma {:induction false} PairListPick(params: Dict, f: string -> string, k: string)
    requires k in params
    ensures multiset(PairList(params, f)) == multiset(PairList(params - {k}, f)) + multiset(PairOf(k, params[k], f))
    decreases |params|
  {
    var j := PickKey(params);
    if j != k {
      var rest, rest2 := params - {j}, params - {k};
      WithoutSmaller(params, j);
      WithoutSmaller(params, k);
      PairListPick(rest, f, k);
      PairListPick(rest2, f, j);
      RemoveBoth(params, j, k);
      Shuffle(multiset(PairList(params, f)), multiset(PairList(rest, f)), multiset(PairList(rest2, f)),
              multiset(PairList(rest - {k}, f)), multiset(PairOf(j, params[j], f)), multiset(PairOf(k, params[k], f)));
    }
  }

  /** Taking out two keys in either order leaves the same object. */
  lemma RemoveBoth(params: Dict, j: string, k: string)
    ensures (params - {j}) - {k} == (params - {k}) - {j}
  {
  }

  /** `a = c + y + x` is `c + x + y`. */
  lemma Shuffle(a: multiset<string>, r1: multiset<string>, r2: multiset<string>, c: multiset<string>,
                x: multiset<string>, y: multiset<string>)
    requires a == r1 + x && r1 == c + y && r2 == c + x
    ensures a == r2 + y
  {
  }

  /** Taking a key out makes an object smaller. */
  lemma WithoutSmaller(params: Dict, k: string)
    requires k in params
    ensures |params - {k}| < |params| && (params - {k}).Keys == params.Keys - {k}
  {
    assert (params - {k}).Keys == params.Keys - {k};
  }

  /** `sep === undefined ? '&' : sep`, as `join` reads it. */
  function SeparatorFor(sep: Value): string {
    if sep.Undefined? then "&" else ToStr(sep)
  }

  /** `encode === false` keeps keys and values as they are; any other value
      selects `encodeURIComponent`. */
  function EncoderFor(encode: Value, codec: UriCodec): string -> string {
    if encode == Bool(false) then Raw else codec.enc
  }

  /** `function(s) {return s;}` */
  function Raw(s: string): string {
    s
  }

  /** What `DM.QS.encode(params, sep, encode)` returns. */
  ghost function EncodeSpec(params: Dict, sep: Value, encode: Value, codec: UriCodec): string {
    Join(SortSeq(PairList(params, EncoderFor(encode, codec))), SeparatorFor(sep))
  }

  /** Taking one key out of the keys still to visit. */
  lemma PairListStep(params: Dict, todo: set<string>, key: string, f: string -> string)
    requires key in todo && todo <= params.Keys
    ensures multiset(PairList(Restrict(params, todo), f))
         == multiset(PairList(Restrict(params, todo - {key}), f)) + multiset(PairOf(key, params[key], f))
  {
    var before := Restrict(params, todo);
    PairListPick(before, f, key);
    assert before - {key} == Restrict(params, todo - {key});
  }

  /** One iteration of the loop of `encode` keeps its invariant. */
  lemma CollectStep(params: Dict, todo: set<string>, key: string, f: string -> string,
                    before: seq<string>, after: seq<string>)
    requires key in todo && todo <= params.Keys
    requires after == before + PairOf(key, params[key], f)
    requires multiset(before) + multiset(PairList(Restrict(params, todo), f)) == multiset(PairList(params, f))
    ensures multiset(after) + multiset(PairList(Restrict(params, todo - {key}), f)) == multiset(PairList(params, f))
  {
    PairListStep(params, todo, key, f);
  }

  lemma RestrictAll(params: Dict)
    ensures Restrict(params, params.Keys) == params
    ensures Restrict(params, {}) == map[]
  {
  }

  /** `DM.QS.encode`: collects the pairs of the non-null properties, sorts them and joins them. */
  method Encode(params: Dict, sep: Value, encode: Value, codec: UriCodec) returns (r: string)
    ensures r == EncodeSpec(params, sep, encode, codec)
  {
    var sepText := SeparatorFor(sep);
    var f := EncoderFor(encode, codec);
    var pairs := CollectPairs(params, f);
    var a := new string[|pairs|](i requires 0 <= i < |pairs| => pairs[i]);
    assert a[..] == pairs;
    SortInPlace(a);
    SortedUnique(a[..], SortSeq(PairList(params, f)));
    r := Join(a[..], sepText);
  }

  /** The loop of `encode` that pushes one pair per non-null property. */
  method CollectPairs(params: Dict, f: string -> string) returns (pairs: seq<string>)
    ensures multiset(pairs) == multiset(PairList(params, f))
  {
    pairs := [];
    var todo := params.Keys;
    RestrictAll(params);
    while todo != {}
      invariant todo <= params.Keys
      invariant multiset(pairs) + multiset(PairList(Restrict(params, todo), f)) == multiset(PairList(params, f))
      decreases |todo|
    {
      var key :| key in todo;
      var val := params[key];
      ghost var before := pairs;
      if val != Null && val != Undefined {
        pairs := pairs + [f(key) + "=" + f(ToStr(val))];
      }
      assert pairs == before + PairOf(key, val, f);
      CollectStep(params, todo, key, f, before, pairs);
      todo := todo - {key};
    }
  }

  // ---------------------------------------------------------------------
  // Decoding

  /** `s.replace(/\+/g, '%20')`. */
  function PlusToPercent20(s: string): (r: string)
    ensures '+' !in s ==> r == s
    ensures '+' !in r
  {
    if s == [] then []
    else (if s[0] == '+' then "%20" else [s[0]]) + PlusToPercent20(s[1..])
  }

  /** The value of a segment: '' when empty, else decoded after turning `+` into `%20`. */
  function ValueText(raw: string, dec: string -> string): string {
    if raw == "" then "" else dec(PlusToPercent20(raw))
  }

  predicate EndsWithBrackets(key: string) {
    |key| >= 2 && key[|key| - 2..] == "[]"
  }

  /** One `&`-separated segment. A segment whose key is empty is skipped;
      a missing or empty value is ''; `key[]` appends to an array under
      `key`, which throws when a non-empty string is already stored there. */
  function DecodeStep(params: Dict, part: string, dec: string -> string): Completion<Dict> {
    var pair := SplitTwo(part, '=');
    if pair[0] == "" then Normal(params)
    else Assign(params, dec(pair[0]), if |pair| == 2 then ValueText(pair[1], dec) else "")
  }

  /** Stores a decoded value under a decoded key: `key[]` pushes onto the
      array under `key` (creating it when nothing truthy is there, throwing
      when something else is), any other key is overwritten. */
  function Assign(params: Dict, key: string, val: string): Completion<Dict> {
    if EndsWithBrackets(key) then
      var base := key[..|key| - 2];
      var current := Get(params, base);
      if !Truthy(current) then Normal(params[base := Arr([Str(val)])])
      else if current.Arr? then Normal(params[base := Arr(current.items + [Str(val)])])
      else Throw("TypeError: push is not a function")
    else Normal(params[key := Str(val)])
  }

  /** The segments, decoded from left to right into `params`. */
  function DecodeParts(params: Dict, parts: seq<string>, dec: string -> string): Completion<Dict>
    decreases |parts|
  {
    if parts == [] then Normal(params)
    else
      match DecodeStep(params, parts[0], dec)
      case Throw(e) => Throw(e)
      case Normal(next) => DecodeParts(next, parts[1..], dec)
  }

  /** What `DM.QS.decode(str)` returns (or throws). */
  function DecodeSpec(str: string, codec: UriCodec): Completion<Dict> {
    DecodeParts(map[], Split(str, '&'), codec.dec)
  }

  lemma DecodePartsUnfold(params: Dict, parts: seq<string>, i: nat, dec: string -> string)
    requires i < |parts|
    ensures DecodeStep(params, parts[i], dec).Throw? ==>
              DecodeParts(params, parts[i..], dec) == DecodeStep(params, parts[i], dec)
    ensures DecodeStep(params, parts[i], dec).Normal? ==>
              DecodeParts(params, parts[i..], dec) == DecodeParts(DecodeStep(params, parts[i], dec).value, parts[i + 1..], dec)
  {
    assert parts[i..][1..] == parts[i + 1..];
  }

  /** `DM.QS.decode`. */
  method Decode(str: string, codec: UriCodec) returns (r: Completion<Dict>)
    ensures r == DecodeSpec(str, codec)
  {
    var dec := codec.dec;
    var params: Dict := map[];
    var parts := Split(str, '&');
    var i := 0;
    while i < |parts|
      invariant 0 <= i <= |parts|
      invariant DecodeParts(params, parts[i..], dec) == DecodeSpec(str, codec)
    {
      DecodePartsUnfold(params, parts, i, dec);
      var step := DecodeSegment(params, parts[i], dec);
      if step.Throw? {
        return step;
      }
      params := step.value;
      i := i + 1;
    }
    return Normal(params);
  }

  /** The body of the `forEach` over the segments: one segment decoded into `params`. */
  method DecodeSegment(params: Dict, part: string, dec: string -> string) returns (r: Completion<Dict>)
    ensures r == DecodeStep(params, part, dec)
  {
    var pair := SplitTwo(part, '=');
    if pair[0] == "" {
      return Normal(params);
    }
    var key := dec(pair[0]);
    var val := if |pair| == 2 then ValueText(pair[1], dec) else "";
    if EndsWithBrackets(key) {
      key := key[..|key| - 2];
      var current := Get(params, key);
      if !Truthy(current) {
        r := Normal(params[key := Arr([Str(val)])]);
      } else if current.Arr? {
        r := Normal(params[key := Arr(current.items + [Str(val)])]);
      } else {
        r := Throw("TypeError: push is not a function");
      }
    } else {
      r := Normal(params[key := Str(val)]);
    }
  }

  // ---------------------------------------------------------------------
  // Properties of encode

  /** The pairs are exactly the `key=value` texts of the properties whose
      value is neither null nor undefined. */
  lemma {:induction false} PairListMembers(params: Dict, f: string -> string, p: string)
    ensures p in PairList(params, f)
        <==> exists k :: k in params && !IsNullish(params[k]) && p == PairText(k, params[k], f)
    decreases |params|
  {
    if params != map[] {
      var k0 := PickKey(params);
      var rest := params - {k0};
      assert |rest| < |params| by { assert rest.Keys == params.Keys - {k0}; }
      PairListMembers(rest, f, p);
      assert PairList(params, f) == PairList(rest, f) + PairOf(k0, params[k0], f);
      if p in PairList(rest, f) {
        var k :| k in rest && !IsNullish(rest[k]) && p == PairText(k, rest[k], f);
        assert k in params && params[k] == rest[k];
      }
      forall k | k in params && !IsNullish(params[k]) && p == PairText(k, params[k], f)
        ensures p in PairList(params, f)
      {
        if k != k0 {
          assert k in rest && rest[k] == params[k];
        }
      }
    }
  }

  /** A property whose value is null or undefined does not show in the output. */
  lemma EncodeSkipsNullish(params: Dict, sep: Value, encode: Value, codec: UriCodec, k: string)
    requires k in params && IsNullish(params[k])
    ensures EncodeSpec(params, sep, encode, codec) == EncodeSpec(params - {k}, sep, encode, codec)
  {
    var f := EncoderFor(encode, codec);
    PairListPick(params, f, k);
    SortedUnique(SortSeq(PairList(params, f)), SortSeq(PairList(params - {k}, f)));
  }

  /** The empty object encodes to the empty string, whatever the separator. */
  lemma EncodeEmpty(sep: Value, encode: Value, codec: UriCodec)
    ensures EncodeSpec(map[], sep, encode, codec) == ""
  {
  }

  /** The pairs of a two-property object, whatever its enumeration order. */
  lemma PairListOfTwo(a: string, va: Value, b: string, vb: Value, f: string -> string)
    requires a != b
    ensures multiset(PairList(map[a := va, b := vb], f)) == multiset(PairOf(a, va, f) + PairOf(b, vb, f))
  {
    var m := map[a := va, b := vb];
    var m1 := map[b := vb];
    assert m - {a} == m1 && m[a] == va;
    assert m1 - {b} == map[];
    PairListPick(m, f, a);
    PairListPick(m1, f, b);
    assert PairList(map[], f) == [];
  }

  /** `{b: 2, a: 1}` encodes as `a=1&b=2`, or `a=1;b=2` with `;` as the
      separator, under any codec leaving these letters and digits alone. */
  lemma EncodeSortsPairs(codec: UriCodec)
    requires codec.enc("a") == "a" && codec.enc("b") == "b"
    requires codec.enc("1") == "1" && codec.enc("2") == "2"
    ensures EncodeSpec(map["b" := Num(2), "a" := Num(1)], Undefined, Undefined, codec) == "a=1&b=2"
    ensures EncodeSpec(map["b" := Num(2), "a" := Num(1)], Str(";"), Undefined, codec) == "a=1;b=2"
    ensures EncodeSpec(map["b" := Num(2), "a" := Num(1)], Undefined, Bool(false), codec) == "a=1&b=2"
  {
    SortedPairsOfAB(codec.enc);
    SortedPairsOfAB(Raw);
    assert EncoderFor(Undefined, codec) == codec.enc;
    assert EncoderFor(Bool(false), codec) == Raw;
    assert SeparatorFor(Str(";")) == ";";
    JoinAB();
  }

  lemma JoinAB()
    ensures Join(["a=1", "b=2"], "&") == "a=1&b=2"
    ensures Join(["a=1", "b=2"], ";") == "a=1;b=2"
  {
    assert ["a=1", "b=2"][1..] == ["b=2"];
  }

  lemma SortedPairsOfAB(f: string -> string)
    requires f("a") == "a" && f("b") == "b" && f("1") == "1" && f("2") == "2"
    ensures SortSeq(PairList(map["b" := Num(2), "a" := Num(1)], f)) == ["a=1", "b=2"]
  {
    var m := map["b" := Num(2), "a" := Num(1)];
    assert m == map["a" := Num(1), "b" := Num(2)];
    PairListOfTwo("a", Num(1), "b", Num(2), f);
    PairsOfAB(f);
    SortTwo("a=1", "b=2", PairList(m, f));
  }

  /** A sequence holding just `x` and `y`, with `x` below `y`, sorts to `[x, y]`. */
  lemma SortTwo(x: string, y: string, s: seq<string>)
    requires multiset(s) == multiset([x, y]) && Below(x, y)
    ensures SortSeq(s) == [x, y]
  {
    var r := SortSeq(s);
    assert multiset(r) == multiset([x, y]);
    SortedPair(x, y);
    SortedUnique(r, [x, y]);
  }

  lemma SortedPair(x: string, y: string)
    requires Below(x, y)
    ensures Sorted([x, y])
  {
    forall i, j | 0 <= i < j < 2 ensures Below([x, y][i], [x, y][j]) {
      assert i == 0 && j == 1;
    }
  }

  lemma PairsOfAB(f: string -> string)
    requires f("a") == "a" && f("b") == "b" && f("1") == "1" && f("2") == "2"
    ensures PairOf("a", Num(1), f) + PairOf("b", Num(2), f) == ["a=1", "b=2"]
  {
    assert ToStr(Num(1)) == "1" by { assert NatToDecimal(1) == [DigitChar(1)]; }
    assert ToStr(Num(2)) == "2" by { assert NatToDecimal(2) == [DigitChar(2)]; }
    assert "a" + "=" + "1" == "a=1";
    assert "b" + "=" + "2" == "b=2";
    assert PairOf("a", Num(1), f) == ["a=1"];
    assert PairOf("b", Num(2), f) == ["b=2"];
  }

  // ---------------------------------------------------------------------
  // Properties of decode

  /** `s.split('=', 2)` on `k=v` and on `k=v=w`, when neither `k` nor `v` holds `=`. */
  lemma SplitPair(k: string, v: string, w: string)
    requires '=' !in k && '=' !in v
    ensures SplitTwo(k + "=" + v, '=') == [k, v]
    ensures SplitTwo(k + "=" + v + "=" + w, '=') == [k, v]
  {
    SplitTwoAfter(k, v, '=');
    assert k + "=" + v + "=" + w == k + "=" + (v + "=" + w);
    SplitTwoAfter(k, v + "=" + w, '=');
    SplitFirst(v, w, '=');
  }

  /** `s.split(c, 2)` on `a + c + rest`, when `a` holds no `c`. */
  lemma SplitTwoAfter(a: string, rest: string, c: char)
    requires c !in a
    ensures SplitTwo(a + [c] + rest, c) == [a, Split(rest, c)[0]]
  {
    var s := a + [c] + rest;
    SplitFirst(a, rest, c);
    assert s[|a|] == c;
    var t := [a] + Split(rest, c);
    assert t[0] == a && t[1] == Split(rest, c)[0];
    assert t[..2] == [a, Split(rest, c)[0]];
  }

  /** A segment whose key is empty, such as `''` or `'=x'`, leaves the object unchanged. */
  lemma DecodeSkipsEmptyKey(params: Dict, part: string, dec: string -> string)
    requires part == "" || part[0] == '='
    ensures DecodeStep(params, part, dec) == Normal(params)
  {
    assert Split(part, '=')[0] == "";
  }

  /** Neither `''` nor `'='` produces any property. */
  lemma DecodeEmptyInputs(codec: UriCodec)
    ensures DecodeSpec("", codec) == Normal(map[])
    ensures DecodeSpec("=", codec) == Normal(map[])
  {
    DecodeSkipsEmptyKey(map[], "", codec.dec);
    DecodeSkipsEmptyKey(map[], "=", codec.dec);
    assert Split("", '&') == [""];
    assert Split("=", '&') == ["="];
    DecodePartsCons(map[], "", [], codec.dec);
    DecodePartsCons(map[], "=", [], codec.dec);
    assert [""] + [] == [""] && ["="] + [] == ["="];
  }

  /** Decoding `[part] + rest` is decoding `part`, then `rest` when `part` did not throw. */
  lemma DecodePartsCons(params: Dict, part: string, rest: seq<string>, dec: string -> string)
    ensures DecodeStep(params, part, dec).Throw? ==>
              DecodeParts(params, [part] + rest, dec) == DecodeStep(params, part, dec)
    ensures DecodeStep(params, part, dec).Normal? ==>
              DecodeParts(params, [part] + rest, dec) == DecodeParts(DecodeStep(params, part, dec).value, rest, dec)
  {
    assert ([part] + rest)[1..] == rest;
  }

  /** A plain key with no `=` after it, or with nothing after the `=`, gets ''. */
  lemma DecodeMissingValue(params: Dict, k: string, dec: string -> string)
    requires k != "" && '=' !in k && !EndsWithBrackets(dec(k))
    ensures DecodeStep(params, k, dec) == Normal(params[dec(k) := Str("")])
    ensures DecodeStep(params, k + "=", dec) == Normal(params[dec(k) := Str("")])
  {
    SplitPair(k, "", "");
    assert k + "=" + "" == k + "=";
  }

  /** `k=v`: the key is decoded as written, the value after turning `+` into `%20`. */
  lemma DecodePlainSegment(params: Dict, k: string, v: string, dec: string -> string)
    requires k != "" && '=' !in k && '=' !in v && !EndsWithBrackets(dec(k))
    ensures DecodeStep(params, k + "=" + v, dec) == Normal(params[dec(k) := Str(ValueText(v, dec))])
  {
    SegmentStep(params, k, v, dec);
  }

  /** Anything after a second `=` in a segment is dropped. */
  lemma DecodeDropsAfterSecondEquals(params: Dict, k: string, v: string, w: string, dec: string -> string)
    requires '=' !in k && '=' !in v
    ensures DecodeStep(params, k + "=" + v + "=" + w, dec) == DecodeStep(params, k + "=" + v, dec)
  {
    SplitPair(k, v, w);
  }

  /** Decoding a plain segment in front of others. */
  lemma DecodePartsPlain(params: Dict, k: string, v: string, rest: seq<string>, dec: string -> string)
    requires k != "" && '=' !in k && '=' !in v && !EndsWithBrackets(dec(k))
    ensures DecodeParts(params, [k + "=" + v] + rest, dec)
         == DecodeParts(params[dec(k) := Str(ValueText(v, dec))], rest, dec)
  {
    DecodePlainSegment(params, k, v, dec);
    DecodePartsCons(params, k + "=" + v, rest, dec);
  }

  /** Of two segments with the same plain key, the later one wins. */
  lemma DecodeLastWins(params: Dict, k: string, v1: string, v2: string, dec: string -> string)
    requires k != "" && '=' !in k && '=' !in v1 && '=' !in v2 && !EndsWithBrackets(dec(k))
    ensures DecodeParts(params, [k + "=" + v1, k + "=" + v2], dec)
         == Normal(params[dec(k) := Str(ValueText(v2, dec))])
  {
    var s1, s2 := k + "=" + v1, k + "=" + v2;
    var p1 := params[dec(k) := Str(ValueText(v1, dec))];
    DecodePartsPlain(params, k, v1, [s2], dec);
    DecodePartsPlain(p1, k, v2, [], dec);
    UpdateTwice(params, dec(k), Str(ValueText(v1, dec)), Str(ValueText(v2, dec)));
    assert [s1] + [s2] == [s1, s2] && [s2] + [] == [s2];
  }

  /** The segments `key=v` for each `v` of `vs`, in order. */
  function Segments(key: string, vs: seq<string>): (r: seq<string>)
    ensures |r| == |vs|
  {
    if vs == [] then [] else [key + "=" + vs[0]] + Segments(key, vs[1..])
  }

  /** The decoded values of `vs`, in order. */
  function Values(vs: seq<string>, dec: string -> string): (r: seq<Value>)
    ensures |r| == |vs|
  {
    if vs == [] then [] else [Str(ValueText(vs[0], dec))] + Values(vs[1..], dec)
  }

  /** A segment `k=v` whose key is non-empty and neither side holds `=`. */
  lemma SegmentStep(params: Dict, k: string, v: string, dec: string -> string)
    requires k != "" && '=' !in k && '=' !in v
    ensures DecodeStep(params, k + "=" + v, dec) == Assign(params, dec(k), ValueText(v, dec))
  {
    SplitPair(k, v, "");
  }

  /** `base[]` creates an array under `base` when nothing truthy is there,
      and appends to the array already there. */
  lemma AssignBrackets(params: Dict, base: string, val: string)
    ensures !Truthy(Get(params, base)) ==> Assign(params, base + "[]", val) == Normal(params[base := Arr([Str(val)])])
    ensures Get(params, base).Arr? ==>
              Assign(params, base + "[]", val) == Normal(params[base := Arr(Get(params, base).items + [Str(val)])])
  {
    var key := base + "[]";
    assert key[|key| - 2..] == "[]" && key[..|key| - 2] == base;
  }

  /** The first of a run of `key[]=v` segments, with `Get(params, base)` the
      array (or falsy value) found under `base`. */
  lemma BracketSegmentStep(params: Dict, key: string, base: string, vs: seq<string>, dec: string -> string)
    requires key != "" && '=' !in key && dec(key) == base + "[]"
    requires vs != [] && '=' !in vs[0]
    ensures !Truthy(Get(params, base)) ==>
              (DecodeParts(params, Segments(key, vs), dec)
               == DecodeParts(params[base := Arr([Str(ValueText(vs[0], dec))])], Segments(key, vs[1..]), dec))
    ensures Get(params, base).Arr? ==>
              (DecodeParts(params, Segments(key, vs), dec)
               == DecodeParts(params[base := Arr(Get(params, base).items + [Str(ValueText(vs[0], dec))])],
                              Segments(key, vs[1..]), dec))
  {
    SegmentStep(params, key, vs[0], dec);
    AssignBrackets(params, base, ValueText(vs[0], dec));
    DecodePartsCons(params, key + "=" + vs[0], Segments(key, vs[1..]), dec);
  }

  /** `key[]=v` segments append their values, in order, to the array already under `key`. */
  lemma {:induction false} DecodeAppends(params: Dict, key: string, base: string, vs: seq<string>, dec: string -> string)
    requires key != "" && '=' !in key && dec(key) == base + "[]"
    requires forall i :: 0 <= i < |vs| ==> '=' !in vs[i]
    requires Get(params, base).Arr?
    ensures DecodeParts(params, Segments(key, vs), dec)
         == Normal(params[base := Arr(Get(params, base).items + Values(vs, dec))])
    decreases |vs|
  {
    var items := Get(params, base).items;
    if vs == [] {
      assert items + [] == items;
      assert params[base := Arr(items)] == params;
    } else {
      var next := params[base := Arr(items + [Str(ValueText(vs[0], dec))])];
      BracketSegmentStep(params, key, base, vs, dec);
      DecodeAppends(next, key, base, vs[1..], dec);
      ValuesCons(items, vs, dec);
      UpdateTwice(params, base, Arr(items + [Str(ValueText(vs[0], dec))]), Arr(items + Values(vs, dec)));
    }
  }

  lemma ValuesCons(items: seq<Value>, vs: seq<string>, dec: string -> string)
    requires vs != []
    ensures items + [Str(ValueText(vs[0], dec))] + Values(vs[1..], dec) == items + Values(vs, dec)
  {
  }

  lemma UpdateTwice(m: Dict, k: string, a: Value, b: Value)
    ensures m[k := a][k := b] == m[k := b]
  {
  }

  /** `key[]=v1&key[]=v2…` on an object with nothing truthy under `key`
      yields the array of the values in order. */
  lemma DecodeCollects(params: Dict, key: string, base: string, vs: seq<string>, dec: string -> string)
    requires key != "" && '=' !in key && dec(key) == base + "[]"
    requires forall i :: 0 <= i < |vs| ==> '=' !in vs[i]
    requires vs != [] && !Truthy(Get(params, base))
    ensures DecodeParts(params, Segments(key, vs), dec) == Normal(params[base := Arr(Values(vs, dec))])
  {
    var first := Str(ValueText(vs[0], dec));
    var next := params[base := Arr([first])];
    BracketSegmentStep(params, key, base, vs, dec);
    DecodeAppends(next, key, base, vs[1..], dec);
    UpdateTwice(params, base, Arr([first]), Arr(Values(vs, dec)));
  }

  // ---------------------------------------------------------------------
  // Round trip

  /** The objects `decode(encode(m))` can give back: string values under
      non-empty keys that do not end in `[]`. */
  predicate FlatStringMap(m: Dict) {
    forall k :: k in m ==> k != "" && !EndsWithBrackets(k) && m[k].Str?
  }

  /** The key a segment decodes to. */
  function KeyOf(part: string, dec: string -> string): string {
    dec(SplitTwo(part, '=')[0])
  }

  /** The keys of a list of segments. */
  function KeysOf(parts: seq<string>, dec: string -> string): set<string> {
    if parts == [] then {} else {KeyOf(parts[0], dec)} + KeysOf(parts[1..], dec)
  }

  lemma {:induction false} KeysOfContains(parts: seq<string>, dec: string -> string, i: nat)
    requires i < |parts|
    ensures KeyOf(parts[i], dec) in KeysOf(parts, dec)
  {
    if i > 0 {
      KeysOfContains(parts[1..], dec, i - 1);
    }
  }

  /** One encoded property decodes back to itself. */
  lemma DecodeEncodedPair(acc: Dict, k: string, s: string, c: UriCodec)
    requires Inverse(c) && k != "" && !EndsWithBrackets(k)
    ensures DecodeStep(acc, PairText(k, Str(s), c.enc), c.dec) == Normal(acc[k := Str(s)])
    ensures KeyOf(PairText(k, Str(s), c.enc), c.dec) == k
  {
    var ek, es := c.enc(k), c.enc(s);
    assert PairText(k, Str(s), c.enc) == ek + "=" + es;
    assert c.dec(ek) == k && c.dec(es) == s && '=' !in ek && '=' !in es;
    SplitTwoAfter(ek, es, '=');
    assert PlusToPercent20(es) == es;
  }

  /** The property a pair of `PairList(m, f)` comes from. */
  lemma PairOrigin(m: Dict, f: string -> string, p: string) returns (k: string)
    requires p in PairList(m, f)
    ensures k in m && !IsNullish(m[k]) && p == PairText(k, m[k], f)
  {
    PairListMembers(m, f, p);
    k :| k in m && !IsNullish(m[k]) && p == PairText(k, m[k], f);
  }

  /** Decoding a list of encoded pairs of `m` adds their properties to `acc`. */
  lemma {:induction false} DecodeFold(m: Dict, acc: Dict, ps: seq<string>, c: UriCodec)
    requires Inverse(c) && FlatStringMap(m)
    requires forall i :: 0 <= i < |ps| ==> ps[i] in PairList(m, c.enc)
    ensures DecodeParts(acc, ps, c.dec) == Normal(acc + Restrict(m, KeysOf(ps, c.dec)))
    decreases |ps|
  {
    if ps == [] {
      RestrictNone(acc, m);
    } else {
      var k := FoldHead(m, acc, ps, c);
      DecodeFold(m, acc[k := m[k]], ps[1..], c);
      RestrictAdd(acc, m, k, KeysOf(ps[1..], c.dec));
    }
  }

  /** The first encoded pair of `ps` decodes to its property `k` of `m`. */
  lemma FoldHead(m: Dict, acc: Dict, ps: seq<string>, c: UriCodec) returns (k: string)
    requires Inverse(c) && FlatStringMap(m)
    requires ps != [] && ps[0] in PairList(m, c.enc)
    ensures k in m
    ensures DecodeParts(acc, ps, c.dec) == DecodeParts(acc[k := m[k]], ps[1..], c.dec)
    ensures KeysOf(ps, c.dec) == {k} + KeysOf(ps[1..], c.dec)
  {
    k := PairOrigin(m, c.enc, ps[0]);
    DecodeHeadPair(acc, ps, k, m[k].s, c);
  }

  /** A list of segments that starts with an encoded property. */
  lemma DecodeHeadPair(acc: Dict, ps: seq<string>, k: string, s: string, c: UriCodec)
    requires Inverse(c) && k != "" && !EndsWithBrackets(k)
    requires ps != [] && ps[0] == PairText(k, Str(s), c.enc)
    ensures DecodeParts(acc, ps, c.dec) == DecodeParts(acc[k := Str(s)], ps[1..], c.dec)
    ensures KeysOf(ps, c.dec) == {k} + KeysOf(ps[1..], c.dec)
  {
    DecodeEncodedPair(acc, k, s, c);
  }

  lemma RestrictUnion(acc: Dict, m: Dict, keys: set<string>)
    requires m.Keys <= keys
    ensures acc + Restrict(m, keys) == acc + m
  {
  }

  lemma EmptyUnion(m: Dict)
    ensures map[] + m == m
  {
  }

  lemma RestrictNone(acc: Dict, m: Dict)
    ensures acc + Restrict(m, {}) == acc
  {
  }

  lemma RestrictAdd(acc: Dict, m: Dict, k: string, keys: set<string>)
    requires k in m
    ensures acc[k := m[k]] + Restrict(m, keys) == acc + Restrict(m, {k} + keys)
  {
  }

  /** `decode(encode(m)) == m` for flat string maps, when the URI codec is a
      proper inverse pair. */
  lemma DecodeEncodeRoundTrip(m: Dict, c: UriCodec)
    requires Inverse(c) && FlatStringMap(m)
    ensures DecodeSpec(EncodeSpec(m, Undefined, Undefined, c), c) == Normal(m)
  {
    var ps := SortSeq(PairList(m, c.enc));
    assert EncodeSpec(m, Undefined, Undefined, c) == Join(ps, "&") by {
      assert EncoderFor(Undefined, c) == c.enc && SeparatorFor(Undefined) == "&";
    }
    EncodedPairsWellFormed(m, c, ps);
    DecodeFold(m, map[], ps, c);
    RestrictUnion(map[], m, KeysOf(ps, c.dec));
    EmptyUnion(m);
    if ps == [] {
      DecodeEmptyInputs(c);
    } else {
      SplitJoin(ps, '&');
    }
  }

  /** The sorted pairs of `m` come from `m`, hold no `&`, and name every key of `m`. */
  lemma EncodedPairsWellFormed(m: Dict, c: UriCodec, ps: seq<string>)
    requires Inverse(c) && FlatStringMap(m)
    requires ps == SortSeq(PairList(m, c.enc))
    ensures forall i :: 0 <= i < |ps| ==> ps[i] in PairList(m, c.enc) && '&' !in ps[i]
    ensures m.Keys <= KeysOf(ps, c.dec)
  {
    forall i | 0 <= i < |ps|
      ensures ps[i] in PairList(m, c.enc) && '&' !in ps[i]
    {
      assert ps[i] in multiset(ps);
      PairListMembers(m, c.enc, ps[i]);
    }
    forall k | k in m
      ensures k in KeysOf(ps, c.dec)
    {
      EncodedKeyListed(m, c, ps, k);
    }
  }

  lemma EncodedKeyListed(m: Dict, c: UriCodec, ps: seq<string>, k: string)
    requires Inverse(c) && FlatStringMap(m)
    requires ps == SortSeq(PairList(m, c.enc)) && k in m
    ensures k in KeysOf(ps, c.dec)
  {
    var p := PairText(k, m[k], c.enc);
    PairListMembers(m, c.enc, p);
    assert p in multiset(ps);
    var i :| 0 <= i < |ps| && ps[i] == p;
    KeysOfContains(ps, c.dec, i);
    DecodeEncodedPair(map[], k, m[k].s, c);
  }

  // ---------------------------------------------------------------------
  // What the cookie writer relies on

  /** A character that the URI encoder never produces, other than `=` and
      `&`, never appears in the encoded text. */
  lemma EncodeAvoids(m: Dict, c: UriCodec, ch: char)
    requires forall s :: ch !in c.enc(s)
    requires ch != '=' && ch != '&'
    ensures ch !in EncodeSpec(m, Undefined, Undefined, c)
  {
    var f := c.enc;
    var ps := SortSeq(PairList(m, f));
    forall i | 0 <= i < |ps|
      ensures ch !in ps[i]
    {
      assert ps[i] in multiset(PairList(m, f));
      PairListMembers(m, f, ps[i]);
    }
    JoinAvoids(ps, "&", ch);
  }

  /** An object with a property that is neither null nor undefined encodes
      to a non-empty text. */
  lemma EncodeNonEmpty(m: Dict, c: UriCodec, k: string)
    requires k in m && !IsNullish(m[k])
    ensures EncodeSpec(m, Undefined, Undefined, c) != ""
  {
    var f := c.enc;
    var p := PairText(k, m[k], f);
    PairListMembers(m, f, p);
    var ps := SortSeq(PairList(m, f));
    assert p in multiset(ps);
    var i :| 0 <= i < |ps| && ps[i] == p;
    assert p[|f(k)|] == '=';
    JoinKeeps(ps, "&", i, '=');
  }

  /** A number property encodes exactly like the string of its decimal digits. */
  lemma EncodeNumberAsText(m: Dict, k: string, n: int, c: UriCodec)
    requires k in m && m[k] == Num(n)
    ensures EncodeSpec(m, Undefined, Undefined, c) == EncodeSpec(m[k := Str(IntToDecimal(n))], Undefined, Undefined, c)
  {
    var f := c.enc;
    var m2 := m[k := Str(IntToDecimal(n))];
    NumberAsTextPairs(m, k, n, f);
    SortedUnique(SortSeq(PairList(m, f)), SortSeq(PairList(m2, f)));
  }

  lemma NumberAsTextPairs(m: Dict, k: string, n: int, f: string -> string)
    requires k in m && m[k] == Num(n)
    ensures multiset(PairList(m, f)) == multiset(PairList(m[k := Str(IntToDecimal(n))], f))
  {
    var m2 := m[k := Str(IntToDecimal(n))];
    assert m - {k} == m2 - {k};
    assert PairOf(k, m[k], f) == PairOf(k, m2[k], f);
    SamePairs(m, m2, k, f);
  }

  lemma SamePairs(m: Dict, m2: Dict, k: string, f: string -> string)
    requires k in m && k in m2 && m - {k} == m2 - {k}
    requires PairOf(k, m[k], f) == PairOf(k, m2[k], f)
    ensures multiset(PairList(m, f)) == multiset(PairList(m2, f))
  {
    PairListPick(m, f, k);
    PairListPick(m2, f, k);
  }
}
