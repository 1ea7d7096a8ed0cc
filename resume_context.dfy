/**
 * The resume store of `ResumeContext.jsx`: the reducer over the seven actions, the
 * dot-path helpers `getNestedValue` / `setNestedValue`, and the per-section tips.
 *
 * The reducer's state is the resume as a JSON-like value, because its actions address
 * sections and fields by name. The clock (`new Date().toISOString()`) and the default
 * resume are parameters.
 */
module ResumeState {
  import opened Wrappers
  import opened Sequences
  import opened JsStrings

  /** A JSON value. Objects are maps from key to value. */
  datatype Value =
    | Null
    | Bool(b: bool)
    | Num(n: real)
    | Str(s: string)
    | Arr(items: seq<Value>)
    | Obj(fields: map<string, Value>)

  /** The resume store: a JSON object. */
  type State = map<string, Value>

  /** The exception `setNestedValue` raises when it has to step into a non-object. */
  const TypeError: string := "TypeError"

  datatype Action =
    | UpdateSection(sectionKey: string, payload: Value)
    | UpdateField(path: string, value: Value)
    | ResetResume
    | AddArrayItem(sectionKey: string, item: Value)
    | RemoveArrayItem(sectionKey: string, itemId: Option<Value>, index: Option<int>)
    | UpdateArrayItem(sectionKey: string, itemId: Option<Value>, updates: map<string, Value>)
    | SetResume(resume: State)
    | Unknown(actionType: string)

  /** `obj[key]`: `None` is `undefined`. */
  function Lookup(m: map<string, Value>, key: string): Option<Value> {
    if key in m then Some(m[key]) else None
  }

  /** `{ ...v }`: the fields of an object, no fields for anything else. */
  function Spread(v: Option<Value>): map<string, Value> {
    if v.Some? && v.value.Obj? then v.value.fields else map[]
  }

  /** `{ ...base, metadata: { ...metadata, lastUpdated: now } }` */
  function Stamped(base: State, metadata: Option<Value>, now: string): (s: State)
    ensures "metadata" in s && s["metadata"].Obj? && Lookup(s["metadata"].fields, "lastUpdated") == Some(Str(now))
    ensures forall k :: k != "metadata" ==> Lookup(s, k) == Lookup(base, k)
    ensures forall k :: k != "lastUpdated" ==> Lookup(s["metadata"].fields, k) == Lookup(Spread(metadata), k)
  {
    base["metadata" := Obj(Spread(metadata)["lastUpdated" := Str(now)])]
  }

  // ---------------------------------------------------------------------------
  // getNestedValue / setNestedValue
  // ---------------------------------------------------------------------------

  /** `current?.[key]` */
  function Step(current: Option<Value>, key: string): Option<Value> {
    if current.Some? && current.value.Obj? then Lookup(current.value.fields, key) else None
  }

  /** `keys.reduce((current, key) => current?.[key], start)` */
  function GetPath(current: Option<Value>, keys: seq<string>): Option<Value>
    decreases |keys|
  {
    if keys == [] then current else GetPath(Step(current, keys[0]), keys[1..])
  }

  /** A walk that has already failed stays failed. */
  lemma {:induction false} GetPathOfNone(keys: seq<string>)
    ensures GetPath(None, keys) == None
    decreases |keys|
  {
    if keys != [] {
      GetPathOfNone(keys[1..]);
    }
  }

  /**
   * `getNestedValue(obj, path)`: a path without a dot reads that key of the object, and
   * nothing is found below a value that is not an object.
   */
  function GetNestedValue(obj: Value, path: string): (r: Option<Value>)
    ensures '.' !in path ==> r == Step(Some(obj), path)
    ensures r.Some? ==> obj.Obj?
  {
    var keys := SplitOn(path, '.');
    GetPathOfNone(keys[1..]);
    if '.' !in path then
      SplitWithoutSeparator(path, '.');
      assert GetPath(Some(obj), [path]) == GetPath(Step(Some(obj), path), []);
      GetPath(Some(obj), keys)
    else GetPath(Some(obj), keys)
  }

  /** The child the loop of `setNestedValue` moves to: an absent key becomes `{}`. */
  function ChildOf(m: map<string, Value>, key: string): Value {
    if key in m then m[key] else Obj(map[])
  }

  /** The intermediate keys lead through objects (or absent keys) only. */
  predicate Navigable(m: map<string, Value>, keys: seq<string>)
    decreases |keys|
  {
    keys == [] || (ChildOf(m, keys[0]).Obj? && Navigable(ChildOf(m, keys[0]).fields, keys[1..]))
  }

  /** The object `m` with `value` stored at the path `keys` then `last`; `None` when the walk fails. */
  function SetAt(m: map<string, Value>, keys: seq<string>, last: string, value: Value): Option<map<string, Value>>
    decreases |keys|
  {
    if keys == [] then Some(m[last := value])
    else
      var child := ChildOf(m, keys[0]);
      if !child.Obj? then None
      else
        var inner := SetAt(child.fields, keys[1..], last, value);
        if inner.None? then None else Some(m[keys[0] := Obj(inner.value)])
  }

  /** The path's keys but the last, and the last key. */
  function ParentKeys(path: string): seq<string> {
    var parts := SplitOn(path, '.');
    parts[..|parts| - 1]
  }

  function LastKey(path: string): string {
    var parts := SplitOn(path, '.');
    parts[|parts| - 1]
  }

  /** `setNestedValue(obj, path, value)` as a value: `None` when it throws. */
  function SetNested(obj: State, path: string, value: Value): Option<State> {
    SetAt(obj, ParentKeys(path), LastKey(path), value)
  }

  /**
   * The objects on the way down, each stored back into its parent under its key:
   * `trail[0]` with `keys[0]` set to the rebuilt `trail[1]`, and so on down to `inner`.
   */
  function Rebuild(trail: seq<map<string, Value>>, keys: seq<string>, inner: map<string, Value>): map<string, Value>
    requires |trail| == |keys| + 1
    decreases |keys|
  {
    if keys == [] then inner else trail[0][keys[0] := Obj(Rebuild(trail[1..], keys[1..], inner))]
  }

  function RebuildOption(trail: seq<map<string, Value>>, keys: seq<string>, inner: Option<map<string, Value>>): Option<map<string, Value>>
    requires |trail| == |keys| + 1
  {
    if inner.None? then None else Some(Rebuild(trail, keys, inner.value))
  }

  /**
   * `setNestedValue(obj, path, value)`: walk down the parent keys, creating `{}` for absent
   * ones, then store the value under the last key. The clone is mutated in place in the
   * source; here the objects met on the way down are kept and stored back on the way up.
   */
  method SetNestedValue(obj: State, path: string, value: Value) returns (res: Option<State>)
    ensures res == SetNested(obj, path, value)
  {
    var keys, lastKey := ParentKeys(path), LastKey(path);
    var trail := WalkDown(obj, keys, lastKey, value);
    if trail.None? {
      return None;
    }
    var m := StoreBack(trail.value, keys, trail.value[|keys|][lastKey := value]);
    return Some(m);
  }

  /**
   * The loop of `setNestedValue` over the parent keys: the objects met on the way down,
   * `{}` for an absent key; `None` when a key holds something other than an object.
   */
  method WalkDown(obj: State, keys: seq<string>, lastKey: string, value: Value)
    returns (trail: Option<seq<map<string, Value>>>)
    ensures trail.None? <==> SetAt(obj, keys, lastKey, value).None?
    ensures trail.Some? ==> |trail.value| == |keys| + 1
    ensures trail.Some? ==>
      SetAt(obj, keys, lastKey, value) == Some(Rebuild(trail.value, keys, trail.value[|keys|][lastKey := value]))
  {
    var objects: seq<map<string, Value>> := [obj];
    var i := 0;
    while i < |keys|
      invariant 0 <= i <= |keys| && |objects| == i + 1 && objects[0] == obj
      invariant SetAt(obj, keys, lastKey, value) == RebuildOption(objects, keys[..i], SetAt(objects[i], keys[i..], lastKey, value))
    {
      var child := ChildOf(objects[i], keys[i]);
      if !child.Obj? {
        return None;
      }
      RebuildSnoc(objects, keys[..i], keys[i], child.fields, SetAt(child.fields, keys[i + 1..], lastKey, value));
      assert keys[..i + 1] == keys[..i] + [keys[i]];
      assert keys[i..][1..] == keys[i + 1..];
      objects := objects + [child.fields];
      i := i + 1;
    }
    assert keys[..i] == keys && keys[i..] == [];
    return Some(objects);
  }

  /** Storing each object back into its parent, from the innermost one up to the root. */
  method StoreBack(trail: seq<map<string, Value>>, keys: seq<string>, leaf: map<string, Value>)
    returns (m: map<string, Value>)
    requires |trail| == |keys| + 1
    ensures m == Rebuild(trail, keys, leaf)
  {
    m := leaf;
    var i := |keys|;
    assert keys[..i] == keys && trail[..i + 1] == trail;
    while i > 0
      invariant 0 <= i <= |keys|
      invariant Rebuild(trail, keys, leaf) == Rebuild(trail[..i + 1], keys[..i], m)
    {
      i := i - 1;
      RebuildSnocSome(trail[..i + 1], keys[..i], keys[i], trail[i + 1], m);
      assert trail[..i + 2] == trail[..i + 1] + [trail[i + 1]];
      assert keys[..i + 1] == keys[..i] + [keys[i]];
      m := trail[i][keys[i] := Obj(m)];
    }
  }

  /** Stepping one more object down: rebuilding through it equals storing it into the last parent. */
  lemma {:induction false} RebuildSnoc(trail: seq<map<string, Value>>, keys: seq<string>, key: string,
                                       child: map<string, Value>, inner: Option<map<string, Value>>)
    requires |trail| == |keys| + 1
    ensures RebuildOption(trail + [child], keys + [key], inner)
      == RebuildOption(trail, keys, if inner.None? then None else Some(trail[|keys|][key := Obj(inner.value)]))
    decreases |keys|
  {
    if inner.Some? {
      RebuildSnocSome(trail, keys, key, child, inner.value);
    }
  }

  lemma {:induction false} RebuildSnocSome(trail: seq<map<string, Value>>, keys: seq<string>, key: string,
                                           child: map<string, Value>, inner: map<string, Value>)
    requires |trail| == |keys| + 1
    ensures Rebuild(trail + [child], keys + [key], inner) == Rebuild(trail, keys, trail[|keys|][key := Obj(inner)])
    decreases |keys|
  {
    if keys == [] {
      assert (trail + [child])[1..] == [child];
    } else {
      assert (trail + [child])[1..] == trail[1..] + [child];
      assert (keys + [key])[1..] == keys[1..] + [key];
      RebuildSnocSome(trail[1..], keys[1..], key, child, inner);
    }
  }

  // ---------------------------------------------------------------------------
  // The reducer
  // ---------------------------------------------------------------------------

  /** `item.id` */
  function IdOf(item: Value): Option<Value> {
    if item.Obj? then Lookup(item.fields, "id") else None
  }

  /** `currentArray.filter((item) => item.id !== itemId)` */
  function RemoveWithId(items: seq<Value>, itemId: Value): (r: seq<Value>)
    ensures |r| <= |items|
    decreases |items|
  {
    if items == [] then []
    else
      var head := if IdOf(items[0]) != Some(itemId) then [items[0]] else [];
      head + RemoveWithId(items[1..], itemId)
  }

  /** `currentArray.filter((_, i) => i !== index)`, the positions counted from `offset`. */
  function RemovePosition(items: seq<Value>, index: int, offset: nat): (r: seq<Value>)
    ensures |r| <= |items|
    decreases |items|
  {
    if items == [] then []
    else
      var head := if offset != index then [items[0]] else [];
      head + RemovePosition(items[1..], index, offset + 1)
  }

  /** `{ ...item, ...updates }` */
  function Merge(item: Value, updates: map<string, Value>): Value {
    Obj(Spread(Some(item)) + updates)
  }

  /** `currentArray.map((item) => item.id === itemId ? { ...item, ...updates } : item)` */
  function UpdateWithId(items: seq<Value>, itemId: Option<Value>, updates: map<string, Value>): (r: seq<Value>)
    ensures |r| == |items|
    decreases |items|
  {
    if items == [] then []
    else
      var head := if IdOf(items[0]) == itemId then Merge(items[0], updates) else items[0];
      [head] + UpdateWithId(items[1..], itemId, updates)
  }

  /** `resumeReducer(state, action)`; `Err` when `setNestedValue` throws. */
  function Reduce(state: State, action: Action, now: string, defaultResume: State): (res: Result<State>)
    ensures res.Err? <==> action.UpdateField? && SetNested(state, action.path, action.value).None?
    ensures action.SetResume? ==> res.Ok? && forall k :: k != "metadata" ==> Lookup(res.value, k) == Lookup(action.resume, k)
    ensures action.ResetResume? ==> res.Ok? && forall k :: k != "metadata" ==> Lookup(res.value, k) == Lookup(defaultResume, k)
  {
    var metadata := Lookup(state, "metadata");
    match action
    case UpdateSection(sectionKey, payload) =>
      Ok(Stamped(state[sectionKey := payload], metadata, now))
    case UpdateField(path, value) =>
      var updated := SetNested(state, path, value);
      if updated.None? then Err(TypeError)
      else Ok(Stamped(updated.value, Lookup(updated.value, "metadata"), now))
    case AddArrayItem(sectionKey, item) =>
      if sectionKey in state && state[sectionKey].Arr? then
        Ok(Stamped(state[sectionKey := Arr(state[sectionKey].items + [item])], metadata, now))
      else Ok(state)
    case RemoveArrayItem(sectionKey, itemId, index) =>
      if sectionKey in state && state[sectionKey].Arr? then
        var items := state[sectionKey].items;
        if itemId.Some? then
          Ok(Stamped(state[sectionKey := Arr(RemoveWithId(items, itemId.value))], metadata, now))
        else if index.Some? then
          Ok(Stamped(state[sectionKey := Arr(RemovePosition(items, index.value, 0))], metadata, now))
        else Ok(state)
      else Ok(state)
    case UpdateArrayItem(sectionKey, itemId, updates) =>
      if sectionKey in state && state[sectionKey].Arr? then
        Ok(Stamped(state[sectionKey := Arr(UpdateWithId(state[sectionKey].items, itemId, updates))], metadata, now))
      else Ok(state)
    case SetResume(resume) =>
      Ok(Stamped(resume, Lookup(resume, "metadata"), now))
    case ResetResume =>
      Ok(Stamped(defaultResume, Lookup(defaultResume, "metadata"), now))
    case Unknown(_) =>
      Ok(state)
  }

  // ---------------------------------------------------------------------------
  // Properties of the path helpers
  // ---------------------------------------------------------------------------

  /** The walk succeeds exactly when every parent key is absent or holds an object. */
  lemma {:induction false} SetAtIff(m: map<string, Value>, keys: seq<string>, last: string, value: Value)
    ensures SetAt(m, keys, last, value).Some? <==> Navigable(m, keys)
    decreases |keys|
  {
    if keys != [] && ChildOf(m, keys[0]).Obj? {
      SetAtIff(ChildOf(m, keys[0]).fields, keys[1..], last, value);
    }
  }

  /** Reading back the path just written yields the value written. */
  lemma {:induction false} SetAtGetPath(m: map<string, Value>, keys: seq<string>, last: string, value: Value)
    requires SetAt(m, keys, last, value).Some?
    ensures GetPath(Some(Obj(SetAt(m, keys, last, value).value)), keys + [last]) == Some(value)
    decreases |keys|
  {
    var r := SetAt(m, keys, last, value).value;
    if keys == [] {
      assert GetPath(Some(Obj(r)), [last]) == GetPath(Step(Some(Obj(r)), last), []);
    } else {
      var child := ChildOf(m, keys[0]);
      var inner := SetAt(child.fields, keys[1..], last, value);
      SetAtGetPath(child.fields, keys[1..], last, value);
      assert (keys + [last])[1..] == keys[1..] + [last];
      assert Step(Some(Obj(r)), keys[0]) == Some(Obj(inner.value));
    }
  }

  /** Apart from the first key of the path, every key of the object keeps its value (or absence). */
  lemma SetAtOtherKeys(m: map<string, Value>, keys: seq<string>, last: string, value: Value, k: string)
    requires SetAt(m, keys, last, value).Some?
    requires k != (if keys == [] then last else keys[0])
    ensures Lookup(SetAt(m, keys, last, value).value, k) == Lookup(m, k)
  {
  }

  /** The round trip of the two helpers: `getNestedValue(setNestedValue(o, p, v), p) === v`. */
  lemma NestedRoundTrip(obj: State, path: string, value: Value)
    requires SetNested(obj, path, value).Some?
    ensures GetNestedValue(Obj(SetNested(obj, path, value).value), path) == Some(value)
  {
    var parts := SplitOn(path, '.');
    assert parts == ParentKeys(path) + [LastKey(path)];
    SetAtGetPath(obj, ParentKeys(path), LastKey(path), value);
  }

  /** Below an absent key every parent is created as `{}`, so the walk cannot fail there. */
  lemma {:induction false} FreshPathNavigable(keys: seq<string>)
    ensures Navigable(map[], keys)
    decreases |keys|
  {
    if keys != [] {
      assert ChildOf(map[], keys[0]) == Obj(map[]);
      FreshPathNavigable(keys[1..]);
    }
  }

  /** A path whose first parent key is absent is always written, under a new object. */
  lemma AbsentParentCreated(m: map<string, Value>, keys: seq<string>, last: string, value: Value)
    requires keys != [] && keys[0] !in m
    ensures SetAt(m, keys, last, value).Some?
    ensures SetAt(map[], keys[1..], last, value).Some?
    ensures SetAt(m, keys, last, value).value[keys[0]] == Obj(SetAt(map[], keys[1..], last, value).value)
  {
    FreshPathNavigable(keys[1..]);
    SetAtIff(map[], keys[1..], last, value);
  }

  // ---------------------------------------------------------------------------
  // Properties of the reducer
  // ---------------------------------------------------------------------------

  /** The last update time recorded in a state's metadata. */
  function LastUpdated(s: State): Option<Value> {
    if "metadata" in s && s["metadata"].Obj? then Lookup(s["metadata"].fields, "lastUpdated") else None
  }

  /** Every action that produces a new state records the time of the change. */
  lemma ChangesAreStamped(state: State, action: Action, now: string, defaultResume: State)
    requires Reduce(state, action, now, defaultResume).Ok?
    requires Reduce(state, action, now, defaultResume).value != state
    ensures LastUpdated(Reduce(state, action, now, defaultResume).value) == Some(Str(now))
  {
  }

  /** An unknown action type returns the state unchanged. */
  lemma UnknownActionKeepsState(state: State, t: string, now: string, defaultResume: State)
    ensures Reduce(state, Unknown(t), now, defaultResume) == Ok(state)
  {
  }

  /**
   * `UPDATE_SECTION` replaces exactly the named section; every other key but the metadata
   * keeps its value. Replacing the metadata itself is overridden by the stamp, which keeps
   * the old metadata's fields.
   */
  lemma UpdateSectionReplaces(state: State, key: string, payload: Value, now: string, defaultResume: State, other: string)
    requires other != key && other != "metadata"
    ensures Reduce(state, UpdateSection(key, payload), now, defaultResume).Ok?
    ensures var s := Reduce(state, UpdateSection(key, payload), now, defaultResume).value;
      && Lookup(s, other) == Lookup(state, other)
      && (key != "metadata" ==> Lookup(s, key) == Some(payload))
      && (key == "metadata" ==> s["metadata"] == Obj(Spread(Lookup(state, "metadata"))["lastUpdated" := Str(now)]))
  {
  }

  /**
   * `ADD_ARRAY_ITEM` appends the item at the end of an array section and leaves every other
   * key but the metadata unchanged; a section that is not an array leaves the state as it is.
   */
  lemma AddArrayItemAppends(state: State, key: string, item: Value, now: string, defaultResume: State, other: string)
    requires key != "metadata" && other != key && other != "metadata"
    ensures var res := Reduce(state, AddArrayItem(key, item), now, defaultResume);
      && res.Ok?
      && (key in state && state[key].Arr? ==>
            Lookup(res.value, key) == Some(Arr(state[key].items + [item]))
            && Lookup(res.value, other) == Lookup(state, other))
      && (!(key in state && state[key].Arr?) ==> res.value == state)
  {
  }

  /** Which items a removal by id keeps: those whose id is another one. */
  function KeepFlags(items: seq<Value>, itemId: Value): (keep: seq<bool>)
    ensures |keep| == |items|
  {
    seq(|items|, i requires 0 <= i < |items| => IdOf(items[i]) != Some(itemId))
  }

  /** `REMOVE_ARRAY_ITEM` with an id keeps exactly the items with another id, in their order. */
  lemma {:induction false} RemoveWithIdKeepsOthers(items: seq<Value>, itemId: Value)
    ensures RemoveWithId(items, itemId) == Select(items, KeepFlags(items, itemId))
    ensures IsSubsequence(RemoveWithId(items, itemId), items)
    ensures forall x :: x in RemoveWithId(items, itemId) <==> x in items && IdOf(x) != Some(itemId)
    decreases |items|
  {
    if items != [] {
      RemoveWithIdKeepsOthers(items[1..], itemId);
      var rest := RemoveWithId(items[1..], itemId);
      var r := RemoveWithId(items, itemId);
      assert KeepFlags(items, itemId)[1..] == KeepFlags(items[1..], itemId);
      if IdOf(items[0]) != Some(itemId) {
        assert r == [items[0]] + rest;
        assert r[0] == items[0] && r[1..] == rest;
        assert IsSubsequence(r, items);
      } else {
        assert r == rest;
        SubsequenceOfTail(rest, items);
      }
      assert items == [items[0]] + items[1..];
    }
  }

  /** Filtering by position drops exactly the position `index`, if it exists. */
  lemma {:induction false} RemovePositionSlices(items: seq<Value>, index: int, offset: nat)
    ensures RemovePosition(items, index, offset) ==
      if offset <= index < offset + |items| then items[..index - offset] + items[index - offset + 1..] else items
    decreases |items|
  {
    if items != [] {
      RemovePositionSlices(items[1..], index, offset + 1);
      if offset == index {
        assert items[1..] == items[..0] + items[1..];
      } else if offset < index < offset + |items| {
        DropInsideTail(items, index - offset);
      } else {
        assert items == [items[0]] + items[1..];
      }
    }
  }

  lemma DropInsideTail(items: seq<Value>, j: int)
    requires 0 < j < |items|
    ensures items[..j] + items[j + 1..] == [items[0]] + (items[1..][..j - 1] + items[1..][j..])
  {
    assert items[..j] == [items[0]] + items[1..][..j - 1];
    assert items[j + 1..] == items[1..][j..];
  }

  /**
   * `REMOVE_ARRAY_ITEM` with only an index removes that position; an index out of range
   * leaves the items as they are. An id, when given, takes precedence over the index, and
   * with neither the state is unchanged.
   */
  lemma RemoveArrayItemByIndex(state: State, key: string, index: int, now: string, defaultResume: State)
    requires key != "metadata" && key in state && state[key].Arr?
    ensures var items := state[key].items;
      var res := Reduce(state, RemoveArrayItem(key, None, Some(index)), now, defaultResume);
      && res.Ok?
      && (0 <= index < |items| ==> Lookup(res.value, key) == Some(Arr(items[..index] + items[index + 1..])))
      && (!(0 <= index < |items|) ==> Lookup(res.value, key) == Some(Arr(items)))
    ensures forall id, i, j ::
      Reduce(state, RemoveArrayItem(key, Some(id), i), now, defaultResume)
        == Reduce(state, RemoveArrayItem(key, Some(id), j), now, defaultResume)
    ensures Reduce(state, RemoveArrayItem(key, None, None), now, defaultResume) == Ok(state)
  {
    RemovePositionSlices(state[key].items, index, 0);
  }

  /**
   * `UPDATE_ARRAY_ITEM` keeps the length and the order: the items whose id is `itemId` are
   * merged with the updates and every other item stays as it was.
   */
  lemma {:induction false} UpdateWithIdPointwise(items: seq<Value>, itemId: Option<Value>, updates: map<string, Value>)
    ensures |UpdateWithId(items, itemId, updates)| == |items|
    ensures forall i :: 0 <= i < |items| ==>
      UpdateWithId(items, itemId, updates)[i] == (if IdOf(items[i]) == itemId then Merge(items[i], updates) else items[i])
    decreases |items|
  {
    if items != [] {
      UpdateWithIdPointwise(items[1..], itemId, updates);
      var r := UpdateWithId(items, itemId, updates);
      forall i | 0 < i < |items|
        ensures r[i] == if IdOf(items[i]) == itemId then Merge(items[i], updates) else items[i]
      {
        assert r[i] == UpdateWithId(items[1..], itemId, updates)[i - 1];
        assert items[i] == items[1..][i - 1];
      }
    }
  }

  /** A merged item takes each updated field from the updates and keeps every other field. */
  lemma MergeFields(item: Value, updates: map<string, Value>, key: string)
    requires item.Obj?
    ensures Lookup(Merge(item, updates).fields, key) ==
      if key in updates then Some(updates[key]) else Lookup(item.fields, key)
  {
  }

  /**
   * `UPDATE_FIELD` stores the value at the path whenever every parent on the path is absent
   * or an object, and throws otherwise; reading the path back gives the value, unless the
   * path starts at the metadata the stamp rewrites.
   */
  lemma UpdateFieldWrites(state: State, path: string, value: Value, now: string, defaultResume: State)
    requires SplitOn(path, '.')[0] != "metadata"
    ensures Reduce(state, UpdateField(path, value), now, defaultResume).Ok? <==> Navigable(state, ParentKeys(path))
    ensures Reduce(state, UpdateField(path, value), now, defaultResume).Ok? ==>
      GetNestedValue(Obj(Reduce(state, UpdateField(path, value), now, defaultResume).value), path) == Some(value)
  {
    SetAtIff(state, ParentKeys(path), LastKey(path), value);
    var updated := SetNested(state, path, value);
    if updated.Some? {
      NestedRoundTrip(state, path, value);
      var s := Stamped(updated.value, Lookup(updated.value, "metadata"), now);
      var parts := SplitOn(path, '.');
      assert Step(Some(Obj(s)), parts[0]) == Step(Some(Obj(updated.value)), parts[0]);
    }
  }
}
