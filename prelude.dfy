/**
 * The `DM` prelude: `copy`, the dotted-namespace helpers `create` and
 * `provide`, `parseBool` and `type`.
 *
 * Objects that `copy` and `create` write into live in a `Heap`: a map from
 * object identities to their properties. A `Value` `Ref(id, _)` names the
 * object `objects[id]`; the root of every namespace is `window.DM`.
 */
module Prelude {
  import opened JsValues

  // ---------------------------------------------------------------------
  // `DM.copy`

  /** `transform ? transform(v) : v`. */
  function Transformed(transform: Option<Value -> Value>, v: Value): Value {
    if transform.Some? then transform.value(v) else v
  }

  /** Whether `copy` writes `key`: when overwriting, or when `target[key]` is undefined. */
  predicate Writes(t: Dict, overwrite: bool, key: string) {
    overwrite || Get(t, key) == Undefined
  }

  /** The properties of `target` after `DM.copy(target, source, overwrite, transform)`. */
  function CopyInto(t: Dict, s: Dict, overwrite: bool, transform: Option<Value -> Value>): Dict {
    map k | k in t.Keys + s.Keys ::
      if k in s && Writes(t, overwrite, k) then Transformed(transform, s[k]) else t[k]
  }

  /** A key of the source is written, transformed, iff overwriting or the
      target had it undefined; every other property of the target keeps its
      value. */
  lemma CopyIntoWrites(t: Dict, s: Dict, overwrite: bool, transform: Option<Value -> Value>, k: string)
    ensures k in s && Writes(t, overwrite, k) ==> Get(CopyInto(t, s, overwrite, transform), k) == Transformed(transform, s[k])
    ensures !(k in s && Writes(t, overwrite, k)) ==> Get(CopyInto(t, s, overwrite, transform), k) == Get(t, k)
  {
  }

  /** Without `overwrite`, a property the target already defines is never replaced. */
  lemma CopyKeepsDefined(t: Dict, s: Dict, transform: Option<Value -> Value>, k: string)
    requires Get(t, k) != Undefined
    ensures Get(CopyInto(t, s, false, transform), k) == Get(t, k)
  {
  }

  /** Copying into an empty object without a transform yields the source. */
  lemma CopyIntoEmpty(s: Dict, overwrite: bool)
    ensures CopyInto(map[], s, overwrite, None) == s
  {
  }

  /** Copying the same source a second time changes nothing. */
  lemma CopyIdempotent(t: Dict, s: Dict, overwrite: bool)
    ensures CopyInto(CopyInto(t, s, overwrite, None), s, overwrite, None) == CopyInto(t, s, overwrite, None)
  {
    var once := CopyInto(t, s, overwrite, None);
    forall k | k in once.Keys + s.Keys
      ensures CopyInto(once, s, overwrite, None)[k] == once[k]
    {
      CopyIntoWrites(t, s, overwrite, None, k);
    }
  }

  /** One turn of the loop of `copy`: `key` of the source is written when `Writes` says so. */
  function Visit(t: Dict, overwrite: bool, transform: Option<Value -> Value>, key: string, v: Value): Dict {
    if Writes(t, overwrite, key) then t[key := Transformed(transform, v)] else t
  }

  /** Visiting the keys one at a time, in any order, builds `CopyInto`. */
  lemma CopyStep(t: Dict, s: Dict, overwrite: bool, transform: Option<Value -> Value>, done: set<string>, key: string)
    requires key in s && key !in done
    ensures CopyInto(t, Restrict(s, done + {key}), overwrite, transform)
         == Visit(CopyInto(t, Restrict(s, done), overwrite, transform), overwrite, transform, key, s[key])
  {
    var lhs := CopyInto(t, Restrict(s, done + {key}), overwrite, transform);
    var rhs := Visit(CopyInto(t, Restrict(s, done), overwrite, transform), overwrite, transform, key, s[key]);
    CopyStepKeys(t, s, overwrite, transform, done, key);
    forall k | k in lhs
      ensures lhs[k] == rhs[k]
    {
      CopyStepAt(t, s, overwrite, transform, done, key, k);
    }
  }

  lemma CopyStepKeys(t: Dict, s: Dict, overwrite: bool, transform: Option<Value -> Value>, done: set<string>, key: string)
    requires key in s && key !in done
    ensures CopyInto(t, Restrict(s, done + {key}), overwrite, transform).Keys
         == Visit(CopyInto(t, Restrict(s, done), overwrite, transform), overwrite, transform, key, s[key]).Keys
  {
    var cur := CopyInto(t, Restrict(s, done), overwrite, transform);
    assert Get(cur, key) == Get(t, key);
  }

  lemma CopyStepAt(t: Dict, s: Dict, overwrite: bool, transform: Option<Value -> Value>, done: set<string>, key: string, k: string)
    requires key in s && key !in done && k in CopyInto(t, Restrict(s, done + {key}), overwrite, transform)
    ensures k in Visit(CopyInto(t, Restrict(s, done), overwrite, transform), overwrite, transform, key, s[key])
    ensures CopyInto(t, Restrict(s, done + {key}), overwrite, transform)[k]
         == Visit(CopyInto(t, Restrict(s, done), overwrite, transform), overwrite, transform, key, s[key])[k]
  {
    var cur := CopyInto(t, Restrict(s, done), overwrite, transform);
    assert Get(cur, key) == Get(t, key);
  }

  /** The keys in `visited` handed to `Visit` in that order. */
  function VisitAll(t: Dict, s: Dict, overwrite: bool, transform: Option<Value -> Value>, visited: seq<string>): Dict
    requires forall i :: 0 <= i < |visited| ==> visited[i] in s
  {
    if visited == [] then t
    else
      var last := visited[|visited| - 1];
      Visit(VisitAll(t, s, overwrite, transform, visited[..|visited| - 1]), overwrite, transform, last, s[last])
  }

  lemma VisitAllSnoc(t: Dict, s: Dict, overwrite: bool, transform: Option<Value -> Value>, visited: seq<string>, key: string)
    requires forall i :: 0 <= i < |visited| ==> visited[i] in s
    requires key in s
    ensures VisitAll(t, s, overwrite, transform, visited + [key])
         == Visit(VisitAll(t, s, overwrite, transform, visited), overwrite, transform, key, s[key])
  {
    assert (visited + [key])[..|visited|] == visited;
  }

  /** Whatever order the keys `done` are visited in, each once, the result
      is `CopyInto` restricted to them. */
  lemma {:induction false} VisitAllIsCopy(t: Dict, s: Dict, overwrite: bool, transform: Option<Value -> Value>, visited: seq<string>, done: set<string>)
    requires forall i :: 0 <= i < |visited| ==> visited[i] in s
    requires forall i, j :: 0 <= i < j < |visited| ==> visited[i] != visited[j]
    requires forall k :: k in done <==> k in visited
    ensures VisitAll(t, s, overwrite, transform, visited) == CopyInto(t, Restrict(s, done), overwrite, transform)
  {
    if visited == [] {
      CopyNone(t, s, overwrite, transform);
      assert done == {};
    } else {
      var init := visited[..|visited| - 1];
      var last := visited[|visited| - 1];
      assert visited == init + [last];
      VisitAllIsCopy(t, s, overwrite, transform, init, done - {last});
      assert done == (done - {last}) + {last};
      CopyStep(t, s, overwrite, transform, done - {last}, last);
    }
  }

  lemma CopyNone(t: Dict, s: Dict, overwrite: bool, transform: Option<Value -> Value>)
    ensures CopyInto(t, Restrict(s, {}), overwrite, transform) == t
  {
  }

  lemma CopyAll(t: Dict, s: Dict, overwrite: bool, transform: Option<Value -> Value>)
    ensures CopyInto(t, Restrict(s, s.Keys), overwrite, transform) == CopyInto(t, s, overwrite, transform)
  {
    assert Restrict(s, s.Keys) == s;
  }

  // ---------------------------------------------------------------------
  // The objects `copy` and `create` write into

  /** All objects by identity, and the next unused identity. */
  datatype Store = Store(objects: map<nat, Dict>, next: nat)

  ghost predicate WellFormed(st: Store) {
    forall id :: id in st.objects ==> id < st.next
  }

  /** `node[part]`: a property of an object; anything else reads as undefined. */
  function Read(st: Store, node: Value, part: string): Value {
    if node.Ref? && node.id in st.objects then Get(st.objects[node.id], part) else Undefined
  }

  /** `node[part] = v`: ignored when `node` is not an object. */
  function Write(st: Store, node: Value, part: string, v: Value): (r: Store)
    ensures r.next == st.next && r.objects.Keys == st.objects.Keys
  {
    if node.Ref? && node.id in st.objects then
      st.(objects := st.objects[node.id := st.objects[node.id][part := v]])
    else st
  }

  /** A store and a value in it: what `create` leaves behind. */
  datatype Placed = Placed(store: Store, node: Value)

  /** `{}`: a fresh empty object. */
  function Alloc(st: Store): (r: Placed)
    ensures r.node.Ref? && r.node.id == st.next
    ensures r.store == Store(st.objects[st.next := map[]], st.next + 1)
  {
    Placed(Store(st.objects[st.next := map[]], st.next + 1), Ref(st.next, "Object"))
  }

  /** `name ? name.split('.') : []`. */
  function NameParts(name: string): seq<string> {
    if name == "" then [] else Split(name, '.')
  }

  /** One turn of the loop of `DM.create` at `node`: an existing truthy
      property `part` is followed; a missing (or falsy) one is set to `value`
      when this is the `last` part and `value` is truthy, and to a fresh `{}`
      otherwise. */
  function Step(st: Store, node: Value, part: string, value: Value, last: bool): Placed {
    var nso := Read(st, node, part);
    if Truthy(nso) then Placed(st, nso)
    else
      var created := if Truthy(value) && last then Placed(st, value) else Alloc(st);
      var written := if node.Ref? && node.id in st.objects then Write(created.store, node, part, created.node) else created.store;
      Placed(written, created.node)
  }

  /** The loop of `DM.create` from `node` over the remaining `parts`. */
  function Walk(st: Store, node: Value, parts: seq<string>, value: Value): Placed
    decreases |parts|
  {
    if parts == [] then Placed(st, node)
    else
      var s := Step(st, node, parts[0], value, |parts| == 1);
      Walk(s.store, s.node, parts[1..], value)
  }

  /** Following the properties named by `parts` from `node`. */
  function Resolve(objects: map<nat, Dict>, node: Value, parts: seq<string>): Value
    decreases |parts|
  {
    if parts == [] then node
    else if node.Ref? && node.id in objects then Resolve(objects, Get(objects[node.id], parts[0]), parts[1..])
    else Undefined
  }

  /** Every truthy property met on the way is an object whose properties
      `create` can read and write. */
  ghost predicate ObjectPath(objects: map<nat, Dict>, node: Value, parts: seq<string>)
    decreases |parts|
  {
    parts == [] ||
    (node.Ref? && node.id in objects &&
     (!Truthy(Get(objects[node.id], parts[0])) || ObjectPath(objects, Get(objects[node.id], parts[0]), parts[1..])))
  }

  /** One turn keeps the store well formed, keeps every object, and keeps
      every truthy property; a newly created node is a fresh empty object. */
  lemma StepFacts(st: Store, node: Value, part: string, value: Value, last: bool)
    requires WellFormed(st)
    ensures var s := Step(st, node, part, value, last);
            WellFormed(s.store) && st.objects.Keys <= s.store.objects.Keys
    ensures var s := Step(st, node, part, value, last);
            forall id, k :: id in st.objects && Truthy(Get(st.objects[id], k)) ==> Get(s.store.objects[id], k) == Get(st.objects[id], k)
    ensures var s := Step(st, node, part, value, last);
            !Truthy(Read(st, node, part)) && !(Truthy(value) && last) ==>
              s.node == Ref(st.next, "Object") && st.next !in st.objects && s.store.objects[st.next] == map[]
    ensures var s := Step(st, node, part, value, last);
            node.Ref? && node.id in st.objects ==> Read(s.store, node, part) == s.node
    ensures Truthy(Step(st, node, part, value, last).node)
  {
  }

  /** `create` keeps the store well formed, keeps every object and every
      truthy property it finds: it only writes properties that were missing
      (or falsy). */
  lemma {:induction false} WalkKeeps(st: Store, node: Value, parts: seq<string>, value: Value)
    requires WellFormed(st)
    ensures var after := Walk(st, node, parts, value).store;
            WellFormed(after) && st.objects.Keys <= after.objects.Keys
    ensures var after := Walk(st, node, parts, value).store;
            forall id, k :: id in st.objects && Truthy(Get(st.objects[id], k)) ==> Get(after.objects[id], k) == Get(st.objects[id], k)
    decreases |parts|
  {
    if parts != [] {
      var s := Step(st, node, parts[0], value, |parts| == 1);
      StepFacts(st, node, parts[0], value, |parts| == 1);
      WalkKeeps(s.store, s.node, parts[1..], value);
    }
  }

  /** An existing path is kept as it is: `create` changes nothing and
      returns the object found. */
  lemma {:induction false} WalkExisting(st: Store, node: Value, parts: seq<string>, value: Value)
    requires Truthy(Resolve(st.objects, node, parts))
    ensures Walk(st, node, parts, value) == Placed(st, Resolve(st.objects, node, parts))
    decreases |parts|
  {
    if parts != [] {
      WalkExisting(st, Read(st, node, parts[0]), parts[1..], value);
    }
  }

  /** Nothing can be reached from a missing property. */
  lemma ResolveUndefined(objects: map<nat, Dict>, parts: seq<string>)
    ensures !Truthy(Resolve(objects, Undefined, parts))
  {
  }

  /** From a fresh empty object, no path leads anywhere truthy. */
  lemma ResolveFromEmpty(objects: map<nat, Dict>, id: nat, parts: seq<string>)
    requires id in objects && objects[id] == map[] && parts != []
    ensures !Truthy(Resolve(objects, Ref(id, "Object"), parts))
  {
    ResolveUndefined(objects, parts[1..]);
  }

  /** A missing path ends at `value` when `value` is truthy. */
  lemma {:induction false} WalkPlacesValue(st: Store, node: Value, parts: seq<string>, value: Value)
    requires WellFormed(st) && parts != [] && Truthy(value)
    requires !Truthy(Resolve(st.objects, node, parts))
    ensures Walk(st, node, parts, value).node == value
    decreases |parts|
  {
    var s := Step(st, node, parts[0], value, |parts| == 1);
    StepFacts(st, node, parts[0], value, |parts| == 1);
    if |parts| > 1 {
      if !Truthy(Read(st, node, parts[0])) {
        ResolveFromEmpty(s.store.objects, st.next, parts[1..]);
      }
      WalkPlacesValue(s.store, s.node, parts[1..], value);
    }
  }

  /** A missing path ends at a fresh empty object when no truthy `value` is given. */
  lemma {:induction false} WalkCreatesEmpty(st: Store, node: Value, parts: seq<string>, value: Value)
    requires WellFormed(st) && parts != [] && !Truthy(value)
    requires !Truthy(Resolve(st.objects, node, parts))
    ensures var w := Walk(st, node, parts, value);
            w.node.Ref? && w.node.cls == "Object" && w.node.id !in st.objects &&
            w.node.id in w.store.objects && w.store.objects[w.node.id] == map[]
    decreases |parts|
  {
    var s := Step(st, node, parts[0], value, |parts| == 1);
    StepFacts(st, node, parts[0], value, |parts| == 1);
    if |parts| > 1 {
      if !Truthy(Read(st, node, parts[0])) {
        ResolveFromEmpty(s.store.objects, st.next, parts[1..]);
      }
      WalkCreatesEmpty(s.store, s.node, parts[1..], value);
    }
  }

  /** After `create`, the dotted name leads from the start node to the
      object `create` returned. */
  lemma {:induction false} WalkResolves(st: Store, node: Value, parts: seq<string>, value: Value)
    requires WellFormed(st) && ObjectPath(st.objects, node, parts)
    ensures var w := Walk(st, node, parts, value);
            Resolve(w.store.objects, node, parts) == w.node
    decreases |parts|
  {
    if parts != [] {
      var s := Step(st, node, parts[0], value, |parts| == 1);
      StepFacts(st, node, parts[0], value, |parts| == 1);
      if !Truthy(Read(st, node, parts[0])) && !(Truthy(value) && |parts| == 1) {
        assert ObjectPath(s.store.objects, s.node, parts[1..]) by {
          if |parts| > 1 {
            assert Get(s.store.objects[st.next], parts[1]) == Undefined;
          }
        }
      } else if !Truthy(Read(st, node, parts[0])) {
        assert parts[1..] == [];
      }
      WalkResolves(s.store, s.node, parts[1..], value);
      ResolveKept(st, node, parts, value);
    }
  }

  /** The first property of the path survives the rest of the walk. */
  lemma ResolveKept(st: Store, node: Value, parts: seq<string>, value: Value)
    requires WellFormed(st) && parts != [] && node.Ref? && node.id in st.objects
    ensures var s := Step(st, node, parts[0], value, |parts| == 1);
            var after := Walk(s.store, s.node, parts[1..], value).store;
            Resolve(after.objects, node, parts) == Resolve(after.objects, s.node, parts[1..])
  {
    var s := Step(st, node, parts[0], value, |parts| == 1);
    StepFacts(st, node, parts[0], value, |parts| == 1);
    WalkKeeps(s.store, s.node, parts[1..], value);
    var after := Walk(s.store, s.node, parts[1..], value).store;
    assert Get(after.objects[node.id], parts[0]) == s.node;
  }

  /** What `DM.copy` does to the store: the properties of an object target
      are updated by `CopyInto`; a null or undefined target throws as soon
      as the source has a key; any other target is left alone. */
  function CopyStore(st: Store, target: Value, source: Dict, overwrite: bool, transform: Option<Value -> Value>): (Store, Completion<Value>)
  {
    if target.Ref? && target.id in st.objects then
      (st.(objects := st.objects[target.id := CopyInto(st.objects[target.id], source, overwrite, transform)]), Normal(target))
    else if IsNullish(target) && source != map[] then
      (st, Throw("TypeError: cannot read properties of " + ToStr(target)))
    else (st, Normal(target))
  }

  lemma CopyStoreObject(st: Store, target: Value, source: Dict, overwrite: bool, transform: Option<Value -> Value>)
    requires target.Ref? && target.id in st.objects
    ensures CopyStore(st, target, source, overwrite, transform)
         == (Store(st.objects[target.id := CopyInto(st.objects[target.id], source, overwrite, transform)], st.next), Normal(target))
  {
  }

  /** What `DM.provide(target, source, overwrite)` does: a string target is
      first created as a namespace under `root`. */
  function ProvideStore(st: Store, root: Value, target: Value, source: Dict, overwrite: bool): (Store, Completion<Value>) {
    if target.Str? then
      var w := Walk(st, root, NameParts(target.s), Undefined);
      CopyStore(w.store, w.node, source, overwrite, None)
    else CopyStore(st, target, source, overwrite, None)
  }

  /** Filling an empty object with properties does not change where a path
      that ends at it leads. */
  lemma {:induction false} ResolveAfterFill(objects: map<nat, Dict>, node: Value, parts: seq<string>, id: nat, props: Dict)
    requires id in objects && objects[id] == map[]
    ensures Resolve(objects, node, parts) == Ref(id, "Object") ==> Resolve(objects[id := props], node, parts) == Ref(id, "Object")
    decreases |parts|
  {
    if parts != [] && node.Ref? && node.id in objects {
      var next := Get(objects[node.id], parts[0]);
      if node.id == id {
        ResolveUndefined(objects, parts[1..]);
      } else {
        ResolveAfterFill(objects, next, parts[1..], id, props);
      }
    }
  }

  /** `provide` of a namespace that does not exist yet creates it, fills it
      with exactly the properties of the source, and returns it. */
  lemma ProvideNew(st: Store, root: Value, name: string, source: Dict, overwrite: bool)
    requires WellFormed(st) && NameParts(name) != []
    requires ObjectPath(st.objects, root, NameParts(name)) && !Truthy(Resolve(st.objects, root, NameParts(name)))
    ensures var (after, r) := ProvideStore(st, root, Str(name), source, overwrite);
            r.Normal? && r.value.Ref? && r.value.id !in st.objects && r.value.id in after.objects &&
            Resolve(after.objects, root, NameParts(name)) == r.value && after.objects[r.value.id] == source
  {
    var parts := NameParts(name);
    var w := Walk(st, root, parts, Undefined);
    WalkCreatesEmpty(st, root, parts, Undefined);
    WalkResolves(st, root, parts, Undefined);
    CopyIntoEmpty(source, overwrite);
    ResolveAfterFill(w.store.objects, root, parts, w.node.id, source);
  }

  /** The loop of `DM.copy`: visits the keys of `source` one by one, in no
      particular order, writing each key the target lacks (or every key when
      overwriting). */
  method CopyProperties(t: Dict, source: Dict, overwrite: bool, transform: Option<Value -> Value>) returns (r: Dict)
    ensures r == CopyInto(t, source, overwrite, transform)
  {
    r := t;
    var todo := source.Keys;
    ghost var visited: seq<string> := [];
    while todo != {}
      invariant todo <= source.Keys
      invariant forall i :: 0 <= i < |visited| ==> visited[i] in source && visited[i] !in todo
      invariant forall i, j :: 0 <= i < j < |visited| ==> visited[i] != visited[j]
      invariant forall k :: k in source && k !in todo ==> k in visited
      invariant r == VisitAll(t, source, overwrite, transform, visited)
      decreases |todo|
    {
      var key :| key in todo;
      VisitAllSnoc(t, source, overwrite, transform, visited, key);
      if overwrite || Get(r, key) == Undefined {
        r := r[key := if transform.Some? then transform.value(source[key]) else source[key]];
      }
      todo := todo - {key};
      visited := visited + [key];
    }
    VisitAllIsCopy(t, source, overwrite, transform, visited, source.Keys);
    CopyAll(t, source, overwrite, transform);
  }

  lemma WalkUnfold(st: Store, node: Value, parts: seq<string>, value: Value)
    requires parts != []
    ensures Walk(st, node, parts, value)
         == Walk(Step(st, node, parts[0], value, |parts| == 1).store, Step(st, node, parts[0], value, |parts| == 1).node, parts[1..], value)
  {
  }

  // ---------------------------------------------------------------------
  // The heap itself

  class Heap {
    var objects: map<nat, Dict>
    var next: nat
    /** The identity of `window.DM`. */
    const root: nat

    function State(): Store
      reads this
    {
      Store(objects, next)
    }

    ghost predicate Valid()
      reads this
    {
      root in objects && WellFormed(State())
    }

    /** A page where `window.DM` is an empty object. */
    constructor ()
      ensures Valid() && objects == map[0 := map[]] && next == 1 && root == 0
    {
      objects := map[0 := map[]];
      next := 1;
      root := 0;
    }

    function Root(): Value {
      Ref(root, "Object")
    }

    /** `DM.copy(target, source, overwrite, transform)`: visits the keys of
        `source` one by one, writing each one the target lacks (or all of
        them when `overwrite` is truthy), and returns the target itself. */
    method Copy(target: Value, source: Dict, overwrite: Value, transform: Option<Value -> Value>) returns (r: Completion<Value>)
      requires Valid()
      modifies this
      ensures Valid()
      ensures (State(), r) == CopyStore(old(State()), target, source, Truthy(overwrite), transform)
    {
      if !(target.Ref? && target.id in objects) {
        if IsNullish(target) && source != map[] {
          return Throw("TypeError: cannot read properties of " + ToStr(target));
        }
        return Normal(target);
      }
      var props := CopyProperties(objects[target.id], source, Truthy(overwrite), transform);
      CopyStoreObject(old(State()), target, source, Truthy(overwrite), transform);
      objects := objects[target.id := props];
      return Normal(target);
    }

    /** One turn of the loop of `DM.create`: reads `node[part]` and, when
        it is falsy, sets it to `value` (on the last part, if truthy) or to a
        fresh `{}`; returns the node to continue from. */
    method CreateStep(node: Value, part: string, value: Value, last: bool) returns (nso: Value)
      requires Valid()
      modifies this
      ensures Valid()
      ensures Placed(State(), nso) == Step(old(State()), node, part, value, last)
    {
      StepFacts(State(), node, part, value, last);
      var isObject := node.Ref? && node.id in objects;
      nso := if isObject then Get(objects[node.id], part) else Undefined;
      if !Truthy(nso) {
        if Truthy(value) && last {
          nso := value;
        } else {
          nso := Ref(next, "Object");
          objects := objects[next := map[]];
          next := next + 1;
        }
        if isObject {
          objects := objects[node.id := objects[node.id][part := nso]];
        }
      }
    }

    /** `DM.create(name, value)`: walks the dotted `name` from `window.DM`,
        following existing properties and creating the missing ones. */
    method Create(name: string, value: Value) returns (node: Value)
      requires Valid()
      modifies this
      ensures Valid()
      ensures Placed(State(), node) == Walk(old(State()), Root(), NameParts(name), value)
    {
      var parts := NameParts(name);
      var c := |parts|;
      node := Root();
      var i := 0;
      while i < c
        invariant 0 <= i <= c
        invariant Valid()
        invariant Walk(State(), node, parts[i..], value) == Walk(old(State()), Root(), parts, value)
      {
        WalkUnfold(State(), node, parts[i..], value);
        assert parts[i..][1..] == parts[i + 1..];
        node := CreateStep(node, parts[i], value, i + 1 == c);
        i := i + 1;
      }
    }

    /** `DM.provide(target, source, overwrite)`: copies into `target`, or into
        the namespace it names when it is a string. */
    method Provide(target: Value, source: Dict, overwrite: Value) returns (r: Completion<Value>)
      requires Valid()
      modifies this
      ensures Valid()
      ensures (State(), r) == ProvideStore(old(State()), Root(), target, source, Truthy(overwrite))
    {
      var node := target;
      if target.Str? {
        node := Create(target.s, Undefined);
      }
      r := Copy(node, source, overwrite, None);
    }
  }

  // ---------------------------------------------------------------------
  // `DM.parseBool`

  /** `/^(?:|false|no|off|0)$/i`: the spellings of false, in any case. */
  predicate FalseWord(s: string) {
    Lower(s) in {"", "false", "no", "off", "0"}
  }

  /** `DM.parseBool(value)`. */
  function ParseBool(v: Value): bool {
    if v.Bool? then v.b
    else if v == Num(0) then false
    else if v.Str? then !FalseWord(v.s)
    else Truthy(v)
  }

  /** `parseBool` agrees with plain truthiness except on the non-empty
      strings that spell false, which it reads as false. */
  lemma ParseBoolVsTruthy(v: Value)
    ensures ParseBool(v) != Truthy(v) <==> v.Str? && v.s != "" && FalseWord(v.s)
    ensures ParseBool(v) ==> Truthy(v)
  {
  }

  // ---------------------------------------------------------------------
  // `DM.type`

  /** `'Boolean Number String Function Array Date RegExp Object'.split(' ')`. */
  const BuiltinClasses: seq<string> := ["Boolean", "Number", "String", "Function", "Array", "Date", "RegExp", "Object"]

  /** The tag `Object.prototype.toString.call(v)` puts inside `[object …]`. */
  function ClassOf(v: Value): string {
    match v
    case Undefined => "Undefined"
    case Null => "Null"
    case Bool(_) => "Boolean"
    case Num(_) => "Number"
    case NaN => "Number"
    case Str(_) => "String"
    case Arr(_) => "Array"
    case Ref(_, cls) => cls
  }

  function Tag(name: string): string {
    "[object " + name + "]"
  }

  /** The table entries for some class names. */
  function TableOf(names: seq<string>): map<string, string>
  {
    if names == [] then map[]
    else TableOf(names[..|names| - 1])[Tag(names[|names| - 1]) := Lower(names[|names| - 1])]
  }

  /** `DM._class2type` once built. */
  function ClassTable(): map<string, string> {
    TableOf(BuiltinClasses)[Tag("Undefined") := "undefined"]
  }

  /** `DM.type(obj)` given the table it consults. */
  function TypeName(table: map<string, string>, v: Value): string {
    if v.Null? then "null"
    else if Tag(ClassOf(v)) in table && table[Tag(ClassOf(v))] != "" then table[Tag(ClassOf(v))]
    else "object"
  }

  lemma TagInjective(a: string, b: string)
    requires Tag(a) == Tag(b)
    ensures a == b
  {
    assert a == Tag(a)[8..|Tag(a)| - 1];
    assert b == Tag(b)[8..|Tag(b)| - 1];
  }

  lemma {:induction false} TableOfLookup(names: seq<string>, name: string)
    ensures Tag(name) in TableOf(names) <==> name in names
    ensures name in names ==> TableOf(names)[Tag(name)] == Lower(name)
  {
    if names != [] {
      var last := names[|names| - 1];
      var init := names[..|names| - 1];
      TableOfLookup(init, name);
      assert names == init + [last];
      if Tag(name) == Tag(last) {
        TagInjective(name, last);
      }
    }
  }

  lemma BuiltinNames(name: string)
    requires name in BuiltinClasses
    ensures name != "Undefined" && name != ""
  {
  }

  /** The built table maps the tag of each built-in class to its lower-case
      name, the tag of `undefined` to 'undefined', and nothing else. */
  lemma ClassTableLookup(name: string)
    ensures Tag(name) in ClassTable() <==> name in BuiltinClasses || name == "Undefined"
    ensures name in BuiltinClasses ==> ClassTable()[Tag(name)] == Lower(name) != ""
    ensures name == "Undefined" ==> ClassTable()[Tag(name)] == "undefined"
  {
    TableOfLookup(BuiltinClasses, name);
    if Tag(name) == Tag("Undefined") {
      TagInjective(name, "Undefined");
    }
    if name in BuiltinClasses {
      BuiltinNames(name);
    }
  }

  /** With the built table: `null` is 'null', undefined is 'undefined', a
      value of one of the built-in classes is that class name in lower case,
      and everything else is 'object'. */
  lemma TypeNameBuiltins(v: Value)
    ensures v.Null? ==> TypeName(ClassTable(), v) == "null"
    ensures v.Undefined? ==> TypeName(ClassTable(), v) == "undefined"
    ensures !v.Null? && ClassOf(v) in BuiltinClasses ==> TypeName(ClassTable(), v) == Lower(ClassOf(v))
    ensures !v.Null? && ClassOf(v) !in BuiltinClasses && ClassOf(v) != "Undefined" ==> TypeName(ClassTable(), v) == "object"
  {
    ClassTableLookup(ClassOf(v));
  }

  /** What fills `DM._class2type` on the first call of `type`. */
  method BuildClassTable() returns (table: map<string, string>)
    ensures table == ClassTable()
  {
    table := FillTable(BuiltinClasses);
    table := table[Tag("Undefined") := "undefined"];
  }

  /** The loop over the class names: each tag maps to the lower-cased name,
      a later name overriding an earlier one with the same tag. */
  method FillTable(names: seq<string>) returns (table: map<string, string>)
    ensures table == TableOf(names)
  {
    table := map[];
    var i := 0;
    while i < |names|
      invariant 0 <= i <= |names|
      invariant table == TableOf(names[..i])
    {
      var name := names[i];
      assert names[..i + 1][..i] == names[..i];
      table := table[Tag(name) := Lower(name)];
      i := i + 1;
    }
    assert names[..i] == names;
  }

  /** The state `DM` keeps for the whole SDK. */
  class Globals {
    /** `DM._apiKey`. */
    var apiKey: Value
    /** `DM._logging`. */
    var logging: Value
    /** `DM._class2type`, built on the first call of `type`. */
    var class2type: Option<map<string, string>>

    /** The values the prelude starts `DM` with. */
    constructor ()
      ensures apiKey == Null && logging == Bool(true) && class2type == None
    {
      apiKey := Null;
      logging := Bool(true);
      class2type := None;
    }

    /** `DM.type(obj)`: builds the table on the first call only, then looks the class up in it. */
    method Type(obj: Value) returns (t: string)
      modifies this
      ensures apiKey == old(apiKey) && logging == old(logging)
      ensures class2type == if old(class2type).None? then Some(ClassTable()) else old(class2type)
      ensures t == TypeName(class2type.value, obj)
    {
      if class2type.None? {
        var table := BuildClassTable();
        class2type := Some(table);
      }
      var table := class2type.value;
      if obj.Null? {
        t := "null";
      } else if Tag(ClassOf(obj)) in table && table[Tag(ClassOf(obj))] != "" {
        t := table[Tag(ClassOf(obj))];
      } else {
        t := "object";
      }
    }
  }
}
