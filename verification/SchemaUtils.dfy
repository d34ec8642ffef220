/** Prefab merging as the item service runs it, on JavaScript objects that are changed in
    place.  An object owns the objects below it: `Repr` holds them all. */
module SchemaUtils {
  import opened PrefabMerge

  datatype JsValue = NullValue | Text(text: string) | Object(ref: JsObject)

  class JsObject {
    var fields: map<Key, JsValue>
    ghost var Repr: set<JsObject>

    /** A tree: the objects at different keys share nothing. */
    ghost predicate Valid()
      reads this, Repr
      decreases Repr
    {
      && this in Repr
      && (forall k :: k in fields && fields[k].Object? ==>
            && fields[k].ref in Repr && fields[k].ref.Repr < Repr && this !in fields[k].ref.Repr
            && fields[k].ref.Valid())
      && (forall j, k :: j in fields && k in fields && j != k && fields[j].Object? && fields[k].Object? ==>
            fields[j].ref.Repr !! fields[k].ref.Repr)
    }

    ghost function AsTree(): (t: Tree)
      requires Valid()
      reads this, Repr
      ensures t.Obj? && t.fields.Keys == fields.Keys
      decreases Repr
    {
      Obj(map k | k in fields :: match fields[k]
                                 case NullValue => Null
                                 case Text(text) => Prim(text)
                                 case Object(c) => c.AsTree())
    }

    constructor ()
      ensures Valid() && fresh(Repr) && AsTree() == EMPTY
    {
      fields := map[];
      Repr := {this};
    }
  }

  // ----- one key

  method DeleteKey(w: JsObject, key: Key)
    requires w.Valid()
    modifies w
    ensures w.Valid() && w.Repr == old(w.Repr)
    ensures w.AsTree().fields == old(w.AsTree()).fields - {key}
  {
    w.fields := w.fields - {key};
  }

  method SetText(w: JsObject, key: Key, text: string)
    requires w.Valid()
    modifies w
    ensures w.Valid() && w.Repr == old(w.Repr)
    ensures w.AsTree().fields == old(w.AsTree()).fields[key := Prim(text)]
  {
    w.fields := w.fields[key := Text(text)];
  }

  /** Makes sure there is an object at a key.  A target that starts empty never holds a null
      (PrefabMerge.MergedIsClean), which JavaScript would take for an object here. */
  method EnsureObject(w: JsObject, key: Key)
    requires w.Valid()
    modifies w
    ensures w.Valid() && fresh(w.Repr - old(w.Repr))
    ensures key in w.fields && w.fields[key].Object?
    ensures w.AsTree().fields == old(w.AsTree()).fields[key := Under(old(w.AsTree()).fields, key)]
  {
    if key !in w.fields || !w.fields[key].Object? {
      var c := new JsObject();
      w.fields := w.fields[key := Object(c)];
      w.Repr := w.Repr + c.Repr;
    }
  }

  // ----- inheriting

  /** `recursiveInheritKeyValues` */
  method InheritKeyValues(w: JsObject, s: JsObject)
    requires w.Valid() && s.Valid() && w.Repr !! s.Repr
    modifies w.Repr
    ensures w.Valid() && fresh(w.Repr - old(w.Repr))
    ensures s.Valid()
    ensures w.AsTree() == Overlay(old(w.AsTree()), old(s.AsTree()))
    decreases s.AsTree(), 2
  {
    ghost var t, source := w.AsTree(), s.AsTree();
    OverlayNothing(t.fields, source);
    var rest := s.fields.Keys;
    assert source.fields.Keys - rest == {};
    while rest != {}
      invariant rest <= s.fields.Keys
      invariant w.Valid() && fresh(w.Repr - old(w.Repr)) && s.Valid() && w.Repr !! s.Repr
      invariant s.AsTree() == source && s.Repr == old(s.Repr)
      invariant w.AsTree().fields == OverlayOn(t.fields, source, source.fields.Keys - rest)
      decreases rest
    {
      var key :| key in rest;
      OverlayOneMore(t.fields, source, source.fields.Keys - rest, key);
      assert source.fields.Keys - rest + {key} == source.fields.Keys - (rest - {key});
      hide OverlayOn, Patch;
      InheritKey(w, s, key);
      rest := rest - {key};
    }
    assert source.fields.Keys - rest == source.fields.Keys;
  }

  method InheritKey(w: JsObject, s: JsObject, key: Key)
    requires w.Valid() && s.Valid() && w.Repr !! s.Repr && key in s.fields
    modifies w.Repr
    ensures w.Valid() && fresh(w.Repr - old(w.Repr))
    ensures s.Valid() && s.Repr == old(s.Repr) && s.AsTree() == old(s.AsTree())
    ensures w.AsTree().fields == Patch(old(w.AsTree()).fields, key, old(s.AsTree()).fields[key])
    decreases s.AsTree(), 1
  {
    At(s, key);
    Own(w);
    PatchIs(w.AsTree().fields, key, s.AsTree().fields[key]);
    hide *;
    if key == PREFAB {
      return;
    }
    match s.fields[key] {
      case NullValue =>
        DeleteKey(w, key);
      case Object(value) =>
        InheritObject(w, key, value);
      case Text(text) =>
        SetText(w, key, text);
    }
  }

  lemma PatchIs(w: map<Key, Tree>, key: Key, v: Tree)
    ensures key == PREFAB ==> Patch(w, key, v) == w
    ensures key != PREFAB && v.Null? ==> Patch(w, key, v) == w - {key}
    ensures key != PREFAB && v.Prim? ==> Patch(w, key, v) == w[key := v]
    ensures key != PREFAB && v.Obj? ==>
              Under(w, key).Obj? && Patch(w, key, v) == w[key := Overlay(Under(w, key), v)]
  {
  }

  lemma Own(o: JsObject)
    requires o.Valid()
    ensures o in o.Repr
  {
  }

  /** What is at a key of an object. */
  lemma At(o: JsObject, key: Key)
    requires o.Valid() && key in o.fields
    ensures o.fields[key].NullValue? ==> o.AsTree().fields[key] == Null
    ensures o.fields[key].Text? ==> o.AsTree().fields[key] == Prim(o.fields[key].text)
    ensures o.fields[key].Object? ==>
              && o.fields[key].ref in o.Repr && o.fields[key].ref.Repr < o.Repr && o !in o.fields[key].ref.Repr
              && o.fields[key].ref.Valid() && o.AsTree().fields[key] == o.fields[key].ref.AsTree()
  {
  }

  method InheritObject(w: JsObject, key: Key, value: JsObject)
    requires w.Valid() && value.Valid() && w.Repr !! value.Repr
    modifies w.Repr
    ensures w.Valid() && fresh(w.Repr - old(w.Repr))
    ensures w.AsTree().fields ==
      old(w.AsTree()).fields[key := Overlay(Under(old(w.AsTree()).fields, key), old(value.AsTree()))]
    decreases value.AsTree(), 4
  {
    Own(w);
    hide *;
    ghost var t, v := w.AsTree().fields, value.AsTree();
    EnsureObject(w, key);
    assert value.Valid() && value.AsTree() == v && w.Repr !! value.Repr;
    assert w.AsTree().fields[key] == Under(t, key);
    InheritInto(w, key, value);
  }

  method InheritInto(w: JsObject, key: Key, value: JsObject)
    requires w.Valid() && value.Valid() && w.Repr !! value.Repr && key in w.fields && w.fields[key].Object?
    modifies w.Repr
    ensures w.Valid() && fresh(w.Repr - old(w.Repr))
    ensures w.AsTree().fields ==
      old(w.AsTree()).fields[key := Overlay(old(w.AsTree()).fields[key], old(value.AsTree()))]
    decreases value.AsTree(), 3
  {
    hide Overlay;
    var c := w.fields[key].ref;
    InheritKeyValues(c, value);
    w.Repr := w.Repr + c.Repr;
    forall k | k in w.fields && k != key && w.fields[k].Object?
      ensures w.fields[k].ref.Repr == old(w.fields[k].ref.Repr) && w.fields[k].ref.Valid()
      ensures w.fields[k].ref.AsTree() == old(w.fields[k].ref.AsTree()) && w.fields[k].ref.Repr !! c.Repr
    {
      var d := w.fields[k].ref;
      assert old(d.Valid()) && old(d.Repr) !! old(c.Repr) && w !in old(d.Repr);
      assert unchanged(old(d.Repr));
    }
  }

  // ----- merging prefabs

  /** The objects `prefabs`, all within `shared`, have the values `trees`. */
  ghost predicate Loaded(prefabs: map<Key, JsObject>, trees: Prefabs, shared: set<JsObject>)
    reads shared
  {
    && prefabs.Keys == trees.Keys
    && forall p :: p in prefabs ==> IsWithin(prefabs[p], trees[p], shared)
  }

  ghost predicate IsWithin(o: JsObject, t: Tree, shared: set<JsObject>)
    reads shared
  {
    o in shared && o.Repr <= shared && o.Valid() && o.AsTree() == t
  }

  method PrefabsOf(s: JsObject) returns (names: seq<Key>)
    requires s.Valid()
    ensures names == PrefabNames(s.AsTree())
  {
    if PREFAB in s.fields && s.fields[PREFAB].Text? && s.fields[PREFAB].text != "" {
      names := Split(s.fields[PREFAB].text);
    } else {
      names := [];
    }
  }

  /** `mergeDefinitionPrefab`: the sources are laid over the target one after the other, and
      only the target's own objects change; the sources are exactly what they were. */
  method MergeDefinitionPrefab(w: JsObject, s: JsObject, prefabs: map<Key, JsObject>, ghost source: Tree,
                               ghost trees: Prefabs, ghost shared: set<JsObject>, ghost n: nat)
    requires w.Valid() && w.Repr !! shared && IsWithin(s, source, shared) && Loaded(prefabs, trees, shared)
    requires source.Obj? && Ends(source, trees, n)
    modifies w.Repr
    ensures w.Valid() && fresh(w.Repr - old(w.Repr))
    ensures IsWithin(s, source, shared) && Loaded(prefabs, trees, shared)
    ensures AllObjects(Sources(source, trees, n))
    ensures w.AsTree() == WithoutPrefab(OverlayAll(old(w.AsTree()), Sources(source, trees, n)))
    decreases n, 2
  {
    ghost var t := w.AsTree();
    MergePrefabs(w, s, prefabs, source, trees, shared, n);
    ghost var u := w.AsTree();
    LastSource(t, source, trees, n);
    OverlayThenDelete(u, source);
    OverlayThenDelete(OverlayAll(t, SourcesOfPrefabs(source, trees, n, 0)), source);
    hide Loaded, Sources, SourcesOfPrefabs, OverlayAll, Ends, Overlay;
    InheritKeyValues(w, s);
    DeleteKey(w, PREFAB);
  }

  lemma LastSource(t: Tree, source: Tree, trees: Prefabs, n: nat)
    requires t.Obj? && source.Obj? && Ends(source, trees, n)
    ensures var before := SourcesOfPrefabs(source, trees, n, 0);
      && AllObjects(before) && AllObjects(Sources(source, trees, n))
      && OverlayAll(t, Sources(source, trees, n)) == Overlay(OverlayAll(t, before), source)
  {
    SourcesAreObjects(source, trees, n);
    PrefabSourcesAreObjects(source, trees, n, 0);
    var ss := Sources(source, trees, n);
    assert ss[..|ss| - 1] == SourcesOfPrefabs(source, trees, n, 0) && ss[|ss| - 1] == source;
  }

  /** The loop over the prefabs, from the last to the first. */
  method MergePrefabs(w: JsObject, s: JsObject, prefabs: map<Key, JsObject>, ghost source: Tree, ghost trees: Prefabs,
                      ghost shared: set<JsObject>, ghost n: nat)
    requires w.Valid() && w.Repr !! shared && IsWithin(s, source, shared) && Loaded(prefabs, trees, shared)
    requires source.Obj? && Ends(source, trees, n)
    modifies w.Repr
    ensures w.Valid() && fresh(w.Repr - old(w.Repr))
    ensures IsWithin(s, source, shared) && Loaded(prefabs, trees, shared)
    ensures AllObjects(SourcesOfPrefabs(source, trees, n, 0))
    ensures WithoutPrefab(w.AsTree()) ==
      WithoutPrefab(OverlayAll(old(w.AsTree()), SourcesOfPrefabs(source, trees, n, 0)))
    decreases n, 1
  {
    ghost var t := w.AsTree();
    Within(s, source, shared);
    hide *;
    var names := PrefabsOf(s);
    MergedNothing(t, source, trees, n);
    var i := |names|;
    while i > 0
      invariant 0 <= i <= |names| && names == PrefabNames(source)
      invariant w.Valid() && fresh(w.Repr - old(w.Repr)) && w.Repr !! shared
      invariant IsWithin(s, source, shared) && Loaded(prefabs, trees, shared)
      invariant MergedFrom(t, w.AsTree(), source, trees, n, i)
    {
      i := i - 1;
      MergePrefab(w, s, names[i], i, prefabs, t, source, trees, shared, n);
    }
  }

  /** `u` is `t` with the prefabs from the `i`th on merged in, as far as `prefab` is not concerned. */
  ghost predicate MergedFrom(t: Tree, u: Tree, source: Tree, trees: Prefabs, n: nat, i: nat)
    requires t.Obj? && u.Obj? && source.Obj? && Ends(source, trees, n) && i <= |PrefabNames(source)|
  {
    && AllObjects(SourcesOfPrefabs(source, trees, n, i))
    && WithoutPrefab(u) == WithoutPrefab(OverlayAll(t, SourcesOfPrefabs(source, trees, n, i)))
  }

  lemma Within(o: JsObject, t: Tree, shared: set<JsObject>)
    requires IsWithin(o, t, shared)
    ensures o.Valid() && o.AsTree() == t && o.Repr <= shared
  {
  }

  lemma MergedNothing(t: Tree, source: Tree, trees: Prefabs, n: nat)
    requires t.Obj? && source.Obj? && Ends(source, trees, n)
    ensures MergedFrom(t, t, source, trees, n, |PrefabNames(source)|)
  {
  }

  method MergePrefab(w: JsObject, s: JsObject, p: Key, ghost i: nat, prefabs: map<Key, JsObject>, ghost t: Tree,
                     ghost source: Tree, ghost trees: Prefabs, ghost shared: set<JsObject>, ghost n: nat)
    requires w.Valid() && w.Repr !! shared && IsWithin(s, source, shared) && Loaded(prefabs, trees, shared)
    requires t.Obj? && source.Obj? && Ends(source, trees, n)
    requires i < |PrefabNames(source)| && p == PrefabNames(source)[i]
    requires MergedFrom(t, w.AsTree(), source, trees, n, i + 1)
    modifies w.Repr
    ensures w.Valid() && fresh(w.Repr - old(w.Repr))
    ensures IsWithin(s, source, shared) && Loaded(prefabs, trees, shared)
    ensures MergedFrom(t, w.AsTree(), source, trees, n, i)
    decreases n, 0
  {
    KnownPrefab(prefabs, trees, shared, p);
    hide *;
    NextSources(t, w.AsTree(), source, trees, n, i);
    if p in prefabs {
      MergeDefinitionPrefab(w, prefabs[p], prefabs, trees[p], trees, shared, n - 1);
    }
  }

  lemma KnownPrefab(prefabs: map<Key, JsObject>, trees: Prefabs, shared: set<JsObject>, p: Key)
    requires Loaded(prefabs, trees, shared)
    ensures p in prefabs <==> p in trees
    ensures p in prefabs ==> IsWithin(prefabs[p], trees[p], shared)
  {
  }

  lemma NextSources(t: Tree, u: Tree, source: Tree, trees: Prefabs, n: nat, i: nat)
    requires t.Obj? && u.Obj? && source.Obj? && Ends(source, trees, n) && i < |PrefabNames(source)|
    requires MergedFrom(t, u, source, trees, n, i + 1)
    ensures var p := PrefabNames(source)[i];
      if p in trees then
        && n > 0 && trees[p].Obj? && Ends(trees[p], trees, n - 1) && AllObjects(Sources(trees[p], trees, n - 1))
        && MergedFrom(t, WithoutPrefab(OverlayAll(u, Sources(trees[p], trees, n - 1))), source, trees, n, i)
      else MergedFrom(t, u, source, trees, n, i)
  {
    PrefabSourcesAreObjects(source, trees, n, i);
    var p := PrefabNames(source)[i];
    var before := SourcesOfPrefabs(source, trees, n, i + 1);
    if p in trees {
      var own := Sources(trees[p], trees, n - 1);
      SourcesAreObjects(trees[p], trees, n - 1);
      OverlayAllConcat(t, before, own);
      OverlayAllThenDelete(u, OverlayAll(t, before), own);
    } else {
      assert before + [] == before;
    }
  }
}
