/**
 * The `merge(...objects)` helper of CloneFormFields: a deep merge of option
 * objects into a fresh object, left to right, where a later value wins and
 * nested plain objects are merged key by key.
 */
module DeepMerge {

  /** The values an options object holds. */
  datatype Json =
    | Undefined
    | Str(s: string)
    | Arr(items: seq<Json>)
    | Obj(members: map<string, Json>)

  /** `target[k]` in JavaScript: a missing key reads as `undefined`. */
  function Get(target: map<string, Json>, k: string): Json {
    if k in target then target[k] else Undefined
  }

  /**
   * The own keys that `for...in` visits in a plain object: none for
   * `Undefined` or an empty string or array; `QuirkFree` and `MergeableArgs`
   * exclude the non-empty strings and arrays, whose indices it would visit.
   */
  function OwnKeys(v: Json): set<string> {
    if v.Obj? then v.members.Keys else {}
  }

  /**
   * A value whose `for...in` would enumerate index keys (a non-empty string
   * or array). The model excludes merging a plain object into such a value.
   */
  predicate Enumerable(v: Json) {
    (v.Str? && |v.s| > 0) || (v.Arr? && |v.items| > 0)
  }

  /** What `merge(target[k], ...)` copies first: the members of a plain object, or nothing. */
  function Base(target: map<string, Json>, k: string): map<string, Json> {
    if Get(target, k).Obj? then Get(target, k).members else map[]
  }

  /**
   * `merger(src)` run on `target`: every own key of `src` is written, a plain
   * object merged into what `target` holds there, any other value copied.
   */
  function MergeInto(target: map<string, Json>, src: Json): (r: map<string, Json>)
    ensures r.Keys == target.Keys + OwnKeys(src)
    decreases src, 1
  {
    if src.Obj? then
      map k | k in target.Keys + src.members.Keys ::
        if k in src.members then MergedValue(target, k, src.members[k]) else target[k]
    else target
  }

  /** The value `target[k]` takes when the source holds `v` under `k`. */
  function MergedValue(target: map<string, Json>, k: string, v: Json): Json
    decreases v, 2
  {
    if v.Obj? then Obj(MergeInto(Base(target, k), v)) else v
  }

  /** The object `merge(...objects)` returns. */
  function MergeAll(objects: seq<Json>): map<string, Json> {
    if objects == [] then map[]
    else MergeInto(MergeAll(objects[..|objects| - 1]), objects[|objects| - 1])
  }

  /**
   * Merging `src` into `target` never asks `for...in` to enumerate a string or
   * an array: wherever `src` holds a plain object, `target` holds a plain
   * object, nothing, or an empty string or array.
   */
  predicate QuirkFree(target: map<string, Json>, src: Json)
    decreases src
  {
    !Enumerable(src)
    && (src.Obj? ==>
          forall k | k in src.members && src.members[k].Obj? ::
            !Enumerable(Get(target, k)) && QuirkFree(Base(target, k), src.members[k]))
  }

  predicate MergeableArgs(objects: seq<Json>) {
    forall i | 0 <= i < |objects| :: QuirkFree(MergeAll(objects[..i]), objects[i])
  }

  // ------------------------------------------------------------ termination

  ghost function SetMax(s: set<nat>): (r: nat)
    ensures forall x | x in s :: x <= r
    ensures s == {} || r in s
  {
    if s == {} then 0
    else
      var x :| x in s;
      var m := SetMax(s - {x});
      assert forall y | y in s :: y == x || y in s - {x};
      if x > m then x else m
  }

  /** The nesting depth of plain objects in `v`. */
  ghost function Height(v: Json): nat {
    if v.Obj? then 1 + SetMax(set k | k in v.members :: Height(v.members[k])) else 0
  }

  ghost function SeqHeight(objects: seq<Json>): (h: nat)
    ensures forall i | 0 <= i < |objects| :: Height(objects[i]) <= h
  {
    if objects == [] then 0
    else
      var h := SeqHeight(objects[..|objects| - 1]);
      var last := Height(objects[|objects| - 1]);
      assert forall i | 0 <= i < |objects| - 1 :: objects[i] == objects[..|objects| - 1][i];
      if last > h then last else h
  }

  lemma MemberHeight(v: Json, k: string)
    requires v.Obj? && k in v.members
    ensures Height(v.members[k]) < Height(v)
  {
    var s := set k | k in v.members :: Height(v.members[k]);
    assert Height(v.members[k]) in s;
  }

  lemma ObjHeight(m: map<string, Json>, b: nat)
    requires b >= 1 && forall k | k in m :: Height(m[k]) < b
    ensures Height(Obj(m)) <= b
  {
    var s := set k | k in m :: Height(m[k]);
    assert forall x | x in s :: x < b;
  }

  /** Merging keeps every value below the height bound of its inputs. */
  lemma {:induction false} MergeIntoHeight(target: map<string, Json>, src: Json, h: nat)
    requires forall k | k in target :: Height(target[k]) < h
    requires Height(src) <= h
    ensures forall k | k in MergeInto(target, src) :: Height(MergeInto(target, src)[k]) < h
    decreases src
  {
    if src.Obj? {
      var r := MergeInto(target, src);
      forall k | k in r ensures Height(r[k]) < h {
        if k in src.members {
          var v := src.members[k];
          assert r[k] == MergedValue(target, k, v);
          MemberHeight(src, k);
          if v.Obj? {
            var base := Base(target, k);
            forall j | j in base ensures Height(base[j]) < h - 1 {
              MemberHeight(target[k], j);
            }
            MergeIntoHeight(base, v, h - 1);
            ObjHeight(MergeInto(base, v), h - 1);
          }
        }
      }
    }
  }

  lemma {:induction false} MergeAllHeight(objects: seq<Json>)
    ensures forall k | k in MergeAll(objects) :: Height(MergeAll(objects)[k]) < SeqHeight(objects)
  {
    if objects != [] {
      var prefix := objects[..|objects| - 1];
      MergeAllHeight(prefix);
      assert forall i | 0 <= i < |prefix| :: prefix[i] == objects[i];
      MergeIntoHeight(MergeAll(prefix), objects[|objects| - 1], SeqHeight(objects));
    }
  }

  // ------------------------------------------------------------------ method

  /** Merging into an empty target copies a plain object: the copy equals the original. */
  lemma {:induction false} MergeIntoEmpty(m: map<string, Json>)
    ensures MergeInto(map[], Obj(m)) == m
    decreases Obj(m)
  {
    var r := MergeInto(map[], Obj(m));
    forall k | k in m ensures r[k] == m[k] {
      if m[k].Obj? {
        MergeIntoEmpty(m[k].members);
      }
    }
  }

  lemma {:induction false} QuirkFreeEmpty(src: Json)
    requires !Enumerable(src)
    ensures QuirkFree(map[], src)
    decreases src
  {
    if src.Obj? {
      forall k | k in src.members && src.members[k].Obj?
        ensures QuirkFree(Base(map[], k), src.members[k])
      {
        QuirkFreeEmpty(src.members[k]);
      }
    }
  }

  /** The first pass of `merge(a, v)`: what copying `a` into a fresh object yields. */
  lemma CopyIsBase(target: map<string, Json>, k: string)
    requires !Enumerable(Get(target, k))
    ensures MergeAll([Get(target, k)]) == Base(target, k)
  {
    assert [Get(target, k)][..0] == [];
    if Get(target, k).Obj? {
      MergeIntoEmpty(Get(target, k).members);
    }
  }

  /** The deepest value in a target object. */
  ghost function MapHeight(target: map<string, Json>): (h: nat)
    ensures forall k | k in target :: Height(target[k]) <= h
  {
    var s := set k | k in target :: Height(target[k]);
    assert forall k | k in target :: Height(target[k]) in s;
    SetMax(s)
  }

  lemma MapHeightBelow(target: map<string, Json>, b: nat)
    requires b >= 1 && forall k | k in target :: Height(target[k]) < b
    ensures MapHeight(target) < b
  {
    var s := set k | k in target :: Height(target[k]);
    assert forall x | x in s :: x < b;
  }

  /** What bounds the recursion of `merger(obj)` on `target`. */
  ghost function MergerMeasure(target: map<string, Json>, obj: Json): nat {
    if 1 + MapHeight(target) < Height(obj) then Height(obj) else 1 + MapHeight(target)
  }

  /**
   * What the recursive `merge(target[prop], obj[prop])` needs and gives: its
   * arguments are mergeable, lower in height, and it merges into the copy.
   */
  lemma NestedCall(target: map<string, Json>, obj: Json, prop: string)
    requires obj.Obj? && QuirkFree(target, obj)
    requires prop in obj.members && obj.members[prop].Obj?
    ensures MergeableArgs([Get(target, prop), obj.members[prop]])
    ensures SeqHeight([Get(target, prop), obj.members[prop]]) < MergerMeasure(target, obj)
    ensures MergeAll([Get(target, prop), obj.members[prop]]) == MergeInto(Base(target, prop), obj.members[prop])
  {
    var a, v := Get(target, prop), obj.members[prop];
    CopyIsBase(target, prop);
    PairPrefixes(a, v);
    QuirkFreeEmpty(a);
    PairHeight(a, v);
    MemberHeight(obj, prop);
    assert Height(a) <= MapHeight(target);
  }

  lemma PairPrefixes(a: Json, v: Json)
    ensures [a, v][..1] == [a] && [a, v][..0] == [] && [a][..0] == []
  {
  }

  lemma PairHeight(a: Json, v: Json)
    ensures SeqHeight([a, v]) == if Height(a) < Height(v) then Height(v) else Height(a)
  {
    PairPrefixes(a, v);
    assert SeqHeight([a]) == Height(a);
  }

  /** Argument `i` of `merge` is merged into what the earlier ones gave. */
  lemma FoldStep(objects: seq<Json>, i: nat)
    requires i < |objects|
    ensures MergeAll(objects[..i + 1]) == MergeInto(MergeAll(objects[..i]), objects[i])
  {
    assert objects[..i + 1][..i] == objects[..i];
  }

  /** The recursion of `merger(objects[i])` stays within the height of all the arguments. */
  lemma FoldHeight(objects: seq<Json>, i: nat)
    requires i < |objects| && objects[i].Obj?
    ensures MergerMeasure(MergeAll(objects[..i]), objects[i]) <= SeqHeight(objects)
  {
    var prefix := objects[..i];
    MergeAllHeight(prefix);
    assert forall j | 0 <= j < i :: prefix[j] == objects[j];
    assert SeqHeight(prefix) <= SeqHeight(objects) by {
      SeqHeightPrefix(objects, i);
    }
    MapHeightBelow(MergeAll(prefix), SeqHeight(objects));
  }

  lemma {:induction false} SeqHeightPrefix(objects: seq<Json>, i: nat)
    requires i <= |objects|
    ensures SeqHeight(objects[..i]) <= SeqHeight(objects)
  {
    if i < |objects| {
      var prefix := objects[..|objects| - 1];
      assert objects[..i] == prefix[..i];
      SeqHeightPrefix(prefix, i);
    } else {
      assert objects[..i] == objects;
    }
  }

  /**
   * `merge(...objects)`: a fresh object into which every argument is merged
   * in turn.
   */
  method Merge(objects: seq<Json>) returns (target: map<string, Json>)
    requires MergeableArgs(objects)
    ensures target == MergeAll(objects)
    decreases SeqHeight(objects), 1
  {
    target := map[];
    for i := 0 to |objects|
      invariant target == MergeAll(objects[..i])
    {
      var obj := objects[i];
      FoldStep(objects, i);
      if obj.Obj? {
        FoldHeight(objects, i);
        target := Merger(target, obj);
      }
    }
    assert objects[..|objects|] == objects;
  }

  /**
   * The closure `merger(obj)`: every own key of `obj` is written into
   * `target`, a plain object through a recursive `merge(target[k], obj[k])`.
   */
  method Merger(target: map<string, Json>, obj: Json) returns (r: map<string, Json>)
    requires obj.Obj? && QuirkFree(target, obj)
    ensures r == MergeInto(target, obj)
    decreases MergerMeasure(target, obj), 0
  {
    r := target;
    var keys := obj.members.Keys;
    while keys != {}
      invariant MergerInv(target, obj, keys, r)
      decreases keys
    {
      var prop :| prop in keys;
      var v := obj.members[prop];
      var value: Json;
      if v.Obj? {
        var base := Get(r, prop);
        assert base == Get(target, prop);
        NestedCall(target, obj, prop);
        var sub := Merge([base, v]);
        value := Obj(sub);
      } else {
        value := v;
      }
      MergerStep(target, obj, keys, r, prop, value);
      r := r[prop := value];
      keys := keys - {prop};
    }
    MergerDone(target, obj, r);
  }

  /** What `merger(obj)` has written once the keys in `keys` are still to visit. */
  ghost predicate MergerInv(target: map<string, Json>, obj: Json, keys: set<string>, r: map<string, Json>)
    requires obj.Obj?
  {
    keys <= obj.members.Keys
    && r.Keys == target.Keys + (obj.members.Keys - keys)
    && (forall k | k in obj.members.Keys - keys :: r[k] == MergedValue(target, k, obj.members[k]))
    && (forall k | k in target && k !in obj.members.Keys - keys :: r[k] == target[k])
  }

  lemma MergerStep(target: map<string, Json>, obj: Json, keys: set<string>, r: map<string, Json>,
                   prop: string, value: Json)
    requires obj.Obj? && MergerInv(target, obj, keys, r) && prop in keys
    requires value == MergedValue(target, prop, obj.members[prop])
    ensures MergerInv(target, obj, keys - {prop}, r[prop := value])
  {
  }

  lemma MergerDone(target: map<string, Json>, obj: Json, r: map<string, Json>)
    requires obj.Obj? && MergerInv(target, obj, {}, r)
    ensures r == MergeInto(target, obj)
  {
  }

  // ------------------------------------------------------------------ lemmas

  /** The result holds exactly the own keys of all the arguments. */
  lemma {:induction false} MergeAllKeys(objects: seq<Json>, k: string)
    ensures k in MergeAll(objects) <==> exists i | 0 <= i < |objects| :: k in OwnKeys(objects[i])
  {
    if objects != [] {
      var prefix := objects[..|objects| - 1];
      MergeAllKeys(prefix, k);
      assert forall i | 0 <= i < |prefix| :: prefix[i] == objects[i];
    }
  }

  /**
   * A later value wins: the last argument that holds `k` decides it when what
   * it holds there is not a plain object (an array included).
   */
  lemma {:induction false} MergeAllLastWins(objects: seq<Json>, i: nat, k: string)
    requires i < |objects| && k in OwnKeys(objects[i]) && !objects[i].members[k].Obj?
    requires forall j | i < j < |objects| :: k !in OwnKeys(objects[j])
    ensures k in MergeAll(objects) && MergeAll(objects)[k] == objects[i].members[k]
  {
    var prefix := objects[..|objects| - 1];
    var last := objects[|objects| - 1];
    assert MergeAll(objects) == MergeInto(MergeAll(prefix), last);
    if i < |objects| - 1 {
      assert forall j | 0 <= j < |prefix| :: prefix[j] == objects[j];
      MergeAllLastWins(prefix, i, k);
      assert k !in OwnKeys(last);
    } else {
      assert MergeInto(MergeAll(prefix), last)[k] == MergedValue(MergeAll(prefix), k, last.members[k]);
    }
  }

  /** Merging the same source twice changes nothing the first merge did not. */
  lemma {:induction false} MergeIntoIdempotent(target: map<string, Json>, src: Json)
    ensures MergeInto(MergeInto(target, src), src) == MergeInto(target, src)
    decreases src
  {
    if src.Obj? {
      var once := MergeInto(target, src);
      var twice := MergeInto(once, src);
      forall k | k in twice ensures twice[k] == once[k] {
        if k in src.members {
          var v := src.members[k];
          assert once[k] == MergedValue(target, k, v);
          assert twice[k] == MergedValue(once, k, v);
          if v.Obj? {
            assert Base(once, k) == MergeInto(Base(target, k), v);
            MergeIntoIdempotent(Base(target, k), v);
          }
        }
      }
    }
  }

  /** A plain object under the same key in two arguments merges key by key: the keys of both survive. */
  lemma NestedMergeKeys(a: map<string, Json>, b: map<string, Json>, k: string)
    requires k in a && a[k].Obj? && k in b && b[k].Obj?
    ensures MergeAll([Obj(a), Obj(b)])[k] == Obj(MergeInto(a[k].members, b[k]))
    ensures MergeAll([Obj(a), Obj(b)])[k].members.Keys == a[k].members.Keys + b[k].members.Keys
  {
    assert [Obj(a), Obj(b)][..1] == [Obj(a)] && [Obj(a)][..0] == [];
    MergeIntoEmpty(a);
    assert MergeAll([Obj(a)]) == a;
    var r := MergeInto(a, Obj(b));
    assert MergeAll([Obj(a), Obj(b)]) == r;
    assert r[k] == MergedValue(a, k, b[k]);
  }
}
