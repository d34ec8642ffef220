/** Prefab merging on values: a definition inherits key values from its prefabs, then its
    own are laid over them.  Null deletes, objects merge, anything else replaces; the key
    `prefab` is never inherited, at any depth. */
module PrefabMerge {
  import opened Wrappers
  import opened Collections

  datatype Key = Key(name: string)

  datatype Tree = Null | Prim(text: string) | Obj(fields: map<Key, Tree>)

  const PREFAB := Key("prefab")
  const EMPTY := Obj(map[])

  /** What a key of a source makes of the same key of the target. */
  function Put(w: map<Key, Tree>, k: Key, v: Tree): Tree
    decreases v, 2
  {
    if v.Obj? then Overlay(Under(w, k), v) else v
  }

  /** Lays the keys `keys` of `s` over `w`. */
  function OverlayOn(w: map<Key, Tree>, s: Tree, keys: set<Key>): map<Key, Tree>
    requires s.Obj? && keys <= s.fields.Keys
    decreases s, 0
  {
    map k | k in w.Keys + (keys - {PREFAB}) && (k in keys - {PREFAB} ==> s.fields[k] != Null) ::
      if k in keys - {PREFAB} then Put(w, k, s.fields[k]) else w[k]
  }

  function Overlay(t: Tree, s: Tree): Tree
    requires t.Obj? && s.Obj?
    decreases s, 1
  {
    Obj(OverlayOn(t.fields, s, s.fields.Keys))
  }

  /** The object a source's object is laid over. */
  function Under(w: map<Key, Tree>, k: Key): Tree {
    if k in w && w[k].Obj? then w[k] else EMPTY
  }

  /** Where a key of the result comes from. */
  lemma OverlaidAt(t: Tree, s: Tree, k: Key)
    requires t.Obj? && s.Obj?
    ensures var r := Overlay(t, s).fields;
      if k in s.fields && k != PREFAB then
        (k in r <==> s.fields[k] != Null)
        && (k in r ==> r[k] == if s.fields[k].Obj? then Overlay(Under(t.fields, k), s.fields[k]) else s.fields[k])
      else (k in r <==> k in t.fields) && (k in r ==> r[k] == t.fields[k])
  {
    var r := Overlay(t, s).fields;
    assert r == OverlayOn(t.fields, s, s.fields.Keys);
    hide Overlay;
  }

  /** One key at a time gives the same, whatever the order. */
  function Patch(w: map<Key, Tree>, k: Key, v: Tree): map<Key, Tree> {
    if k == PREFAB then w else if v == Null then w - {k} else w[k := Put(w, k, v)]
  }

  lemma OverlayNothing(w: map<Key, Tree>, s: Tree)
    requires s.Obj?
    ensures OverlayOn(w, s, {}) == w
  {
  }

  lemma OverlayOneMore(w: map<Key, Tree>, s: Tree, keys: set<Key>, k: Key)
    requires s.Obj? && keys <= s.fields.Keys && k in s.fields && k !in keys
    ensures OverlayOn(w, s, keys + {k}) == Patch(OverlayOn(w, s, keys), k, s.fields[k])
  {
    var m, n := OverlayOn(w, s, keys), OverlayOn(w, s, keys + {k});
    assert k != PREFAB ==> Under(m, k) == Under(w, k);
    hide Overlay, Put;
    PutUnder(m, w, k, s.fields[k]);
    assert n == Patch(m, k, s.fields[k]);
  }

  lemma PutUnder(w: map<Key, Tree>, u: map<Key, Tree>, k: Key, v: Tree)
    ensures Under(w, k) == Under(u, k) ==> Put(w, k, v) == Put(u, k, v)
  {
  }

  // ----- merging

  function Split(text: string): seq<Key> {
    SplitFrom(text, "")
  }

  /** `split(' ')`, with the part read so far. */
  function SplitFrom(text: string, part: string): seq<Key> {
    if text == "" then [Key(part)]
    else if text[0] == ' ' then [Key(part)] + SplitFrom(text[1..], "")
    else SplitFrom(text[1..], part + [text[0]])
  }

  function Joined(parts: seq<Key>): string {
    if parts == [] then ""
    else if |parts| == 1 then parts[0].name
    else parts[0].name + " " + Joined(parts[1..])
  }

  /** Joined by spaces the parts are the text again, and no part has a space in it. */
  lemma {:induction false} SplitJoins(text: string)
    ensures Joined(Split(text)) == text && forall i :: 0 <= i < |Split(text)| ==> ' ' !in Split(text)[i].name
  {
    SplitFromJoins(text, "");
  }

  lemma {:induction false} SplitFromJoins(text: string, part: string)
    requires ' ' !in part
    ensures Joined(SplitFrom(text, part)) == part + text && SplitFrom(text, part) != []
    ensures forall i :: 0 <= i < |SplitFrom(text, part)| ==> ' ' !in SplitFrom(text, part)[i].name
    decreases |text|
  {
    if text != "" {
      if text[0] == ' ' {
        SplitFromJoins(text[1..], "");
        var rest := SplitFrom(text[1..], "");
        assert SplitFrom(text, part)[1..] == rest;
        assert part + " " + text[1..] == part + text;
      } else {
        SplitFromJoins(text[1..], part + [text[0]]);
        assert part + [text[0]] + text[1..] == part + text;
      }
    }
  }

  /** The names of a definition's prefabs; an empty string names none. */
  function PrefabNames(s: Tree): seq<Key>
    requires s.Obj?
  {
    if PREFAB in s.fields && s.fields[PREFAB].Prim? && s.fields[PREFAB].text != "" then Split(s.fields[PREFAB].text)
    else []
  }

  /** A definition names the prefabs that a text at `prefab` is split into, and none if there is no
      text there or an empty one. */
  lemma NamesExactly(s: Tree)
    requires s.Obj?
    ensures (exists text :: PREFAB in s.fields && s.fields[PREFAB] == Prim(text) && text != "") ==>
              PrefabNames(s) != [] && s.fields[PREFAB] == Prim(Joined(PrefabNames(s)))
    ensures !(exists text :: PREFAB in s.fields && s.fields[PREFAB] == Prim(text) && text != "") ==>
              PrefabNames(s) == []
  {
    if PREFAB in s.fields && s.fields[PREFAB].Prim? {
      SplitJoins(s.fields[PREFAB].text);
      SplitFromJoins(s.fields[PREFAB].text, "");
    }
  }

  type Prefabs = map<Key, Tree>

  /** Following prefabs from a definition, or from those it names, ends within `n` of them. */
  predicate Ends(s: Tree, prefabs: Prefabs, n: nat)
    requires s.Obj?
    decreases n
  {
    forall i :: 0 <= i < |PrefabNames(s)| && PrefabNames(s)[i] in prefabs ==>
      n > 0 && prefabs[PrefabNames(s)[i]].Obj? && Ends(prefabs[PrefabNames(s)[i]], prefabs, n - 1)
  }

  /** A chain of prefabs: the definition names the first, and each the next. */
  predicate Leads(s: Tree, prefabs: Prefabs, names: seq<Key>)
    requires s.Obj?
    decreases |names|
  {
    names != [] ==>
      && names[0] in PrefabNames(s) && names[0] in prefabs && prefabs[names[0]].Obj?
      && Leads(prefabs[names[0]], prefabs, names[1..])
  }

  lemma {:induction false} LeadsUpTo(s: Tree, prefabs: Prefabs, names: seq<Key>, j: nat)
    requires s.Obj? && Leads(s, prefabs, names) && j <= |names|
    ensures Leads(s, prefabs, names[..j])
    decreases j
  {
    if j > 0 {
      LeadsUpTo(prefabs[names[0]], prefabs, names[1..], j - 1);
      assert names[..j][1..] == names[1..][..j - 1];
    }
  }

  lemma {:induction false} LeadsFrom(s: Tree, prefabs: Prefabs, names: seq<Key>, i: nat)
    requires s.Obj? && Leads(s, prefabs, names) && i < |names|
    ensures names[i] in prefabs && prefabs[names[i]].Obj? && Leads(prefabs[names[i]], prefabs, names[i + 1..])
    decreases i
  {
    if i > 0 {
      LeadsFrom(prefabs[names[0]], prefabs, names[1..], i - 1);
      assert names[1..][i..] == names[i + 1..];
    }
  }

  lemma {:induction false} EndsAlong(s: Tree, prefabs: Prefabs, n: nat, names: seq<Key>)
    requires s.Obj? && Ends(s, prefabs, n) && Leads(s, prefabs, names) && names != []
    ensures var last := names[|names| - 1];
      |names| <= n && last in prefabs && prefabs[last].Obj? && Ends(prefabs[last], prefabs, n - |names|)
    decreases |names|
  {
    var i :| 0 <= i < |PrefabNames(s)| && PrefabNames(s)[i] == names[0];
    if |names| > 1 {
      EndsAlong(prefabs[names[0]], prefabs, n - 1, names[1..]);
    }
  }

  /** A prefab that inherits from itself. */
  lemma {:induction false} CycleNeverEnds(p: Key, prefabs: Prefabs, names: seq<Key>, n: nat)
    requires p in prefabs && prefabs[p].Obj? && Leads(prefabs[p], prefabs, names)
    requires names != [] && names[|names| - 1] == p
    ensures !Ends(prefabs[p], prefabs, n)
    decreases n
  {
    if Ends(prefabs[p], prefabs, n) {
      EndsAlong(prefabs[p], prefabs, n, names);
      CycleNeverEnds(p, prefabs, names, n - |names|);
    }
  }

  lemma {:induction false} LongChain(s: Tree, prefabs: Prefabs, n: nat) returns (names: seq<Key>)
    requires s.Obj? && !Ends(s, prefabs, n) && forall p :: p in prefabs ==> prefabs[p].Obj?
    ensures Leads(s, prefabs, names) && |names| == n + 1
    decreases n
  {
    var i :| 0 <= i < |PrefabNames(s)| && PrefabNames(s)[i] in prefabs
             && (n == 0 || !Ends(prefabs[PrefabNames(s)[i]], prefabs, n - 1));
    var rest := [];
    if n > 0 {
      rest := LongChain(prefabs[PrefabNames(s)[i]], prefabs, n - 1);
    }
    names := [PrefabNames(s)[i]] + rest;
    assert names[1..] == rest;
  }

  ghost predicate EndsAtAll(s: Tree, prefabs: Prefabs)
    requires s.Obj?
  {
    exists n: nat :: Ends(s, prefabs, n)
  }

  /** No prefab that the definition leads to inherits from itself. */
  ghost predicate NoCycle(s: Tree, prefabs: Prefabs)
    requires s.Obj?
  {
    forall names :: Leads(s, prefabs, names) ==> Distinct(names)
  }

  /** Following the prefabs of a definition ends exactly if it leads to no cycle, whatever there
      is among other prefabs. */
  lemma EndsExactlyWithoutCycle(s: Tree, prefabs: Prefabs)
    requires s.Obj? && forall p :: p in prefabs ==> prefabs[p].Obj?
    ensures EndsAtAll(s, prefabs) <==> NoCycle(s, prefabs)
  {
    if EndsAtAll(s, prefabs) {
      var n: nat :| Ends(s, prefabs, n);
      EndsWithoutRepeat(s, prefabs, n);
    } else {
      var most: nat := |prefabs|;
      assert !Ends(s, prefabs, most);
      var names := RepeatingChain(s, prefabs);
    }
  }

  lemma EndsWithoutRepeat(s: Tree, prefabs: Prefabs, n: nat)
    requires s.Obj? && Ends(s, prefabs, n)
    ensures NoCycle(s, prefabs)
  {
    forall names | Leads(s, prefabs, names) ensures Distinct(names) {
      forall i, j | 0 <= i < j < |names| ensures names[i] != names[j] {
        CycleShows(s, prefabs, n, names, i, j);
      }
    }
  }

  lemma RepeatingChain(s: Tree, prefabs: Prefabs) returns (names: seq<Key>)
    requires s.Obj? && (forall p :: p in prefabs ==> prefabs[p].Obj?) && !Ends(s, prefabs, |prefabs|)
    ensures Leads(s, prefabs, names) && !Distinct(names)
  {
    names := LongChain(s, prefabs, |prefabs|);
    forall i | 0 <= i < |names| ensures names[i] in prefabs.Keys { LeadsFrom(s, prefabs, names, i); }
    hide Ends, Leads, Distinct;
    assert |prefabs.Keys| == |prefabs|;
    if Distinct(names) {
      DistinctSize(names);
      SubsetSize((set p | p in names), prefabs.Keys);
    }
  }

  lemma CycleShows(s: Tree, prefabs: Prefabs, n: nat, names: seq<Key>, i: nat, j: nat)
    requires s.Obj? && Ends(s, prefabs, n) && Leads(s, prefabs, names) && i < j < |names|
    ensures names[i] != names[j]
  {
    hide Ends, Leads;
    if names[i] == names[j] {
      LeadsUpTo(s, prefabs, names, i + 1);
      EndsAlong(s, prefabs, n, names[..i + 1]);
      LeadsFrom(s, prefabs, names, i);
      LeadsUpTo(prefabs[names[i]], prefabs, names[i + 1..], j - i);
      CycleNeverEnds(names[i], prefabs, names[i + 1..][..j - i], n - (i + 1));
    }
  }

  /** What a definition inherits from, the most general first: its prefabs from last to first,
      each after its own, then the definition. */
  function Sources(s: Tree, prefabs: Prefabs, n: nat): seq<Tree>
    requires s.Obj? && Ends(s, prefabs, n)
    decreases n, |PrefabNames(s)| + 1
  {
    SourcesOfPrefabs(s, prefabs, n, 0) + [s]
  }

  /** Of the prefabs from the `i`th on. */
  function SourcesOfPrefabs(s: Tree, prefabs: Prefabs, n: nat, i: nat): seq<Tree>
    requires s.Obj? && Ends(s, prefabs, n) && i <= |PrefabNames(s)|
    decreases n, |PrefabNames(s)| - i
  {
    if i == |PrefabNames(s)| then []
    else
      var p := PrefabNames(s)[i];
      SourcesOfPrefabs(s, prefabs, n, i + 1) +
      (if p in prefabs then Sources(prefabs[p], prefabs, n - 1) else [])
  }

  ghost predicate AllObjects(ss: seq<Tree>) {
    forall i :: 0 <= i < |ss| ==> ss[i].Obj?
  }

  lemma {:induction false} SourcesAreObjects(s: Tree, prefabs: Prefabs, n: nat)
    requires s.Obj? && Ends(s, prefabs, n)
    ensures AllObjects(Sources(s, prefabs, n))
    decreases n, |PrefabNames(s)| + 1
  {
    PrefabSourcesAreObjects(s, prefabs, n, 0);
  }

  lemma {:induction false} PrefabSourcesAreObjects(s: Tree, prefabs: Prefabs, n: nat, i: nat)
    requires s.Obj? && Ends(s, prefabs, n) && i <= |PrefabNames(s)|
    ensures AllObjects(SourcesOfPrefabs(s, prefabs, n, i))
    decreases n, |PrefabNames(s)| - i
  {
    if i < |PrefabNames(s)| {
      PrefabSourcesAreObjects(s, prefabs, n, i + 1);
      var p := PrefabNames(s)[i];
      if p in prefabs { SourcesAreObjects(prefabs[p], prefabs, n - 1); }
    }
  }

  function OverlayAll(t: Tree, ss: seq<Tree>): Tree
    requires t.Obj? && AllObjects(ss)
  {
    if ss == [] then t else Overlay(OverlayAll(t, ss[..|ss| - 1]), ss[|ss| - 1])
  }

  lemma {:induction false} OverlayAllConcat(t: Tree, a: seq<Tree>, b: seq<Tree>)
    requires t.Obj? && AllObjects(a) && AllObjects(b)
    ensures OverlayAll(t, a + b) == OverlayAll(OverlayAll(t, a), b)
  {
    if b == [] {
      assert a + b == a;
    } else {
      assert (a + b)[..|a + b| - 1] == a + b[..|b| - 1];
      OverlayAllConcat(t, a, b[..|b| - 1]);
    }
  }

  function WithoutPrefab(t: Tree): Tree
    requires t.Obj?
  {
    Obj(t.fields - {PREFAB})
  }

  lemma OverlayThenDelete(t: Tree, s: Tree)
    requires t.Obj? && s.Obj?
    ensures Overlay(WithoutPrefab(t), s) == WithoutPrefab(Overlay(t, s))
  {
    var a, b := Overlay(WithoutPrefab(t), s), Overlay(t, s);
    forall k ensures k in a.fields <==> k in b.fields && k != PREFAB {
      OverlaidAt(t, s, k);
      OverlaidAt(WithoutPrefab(t), s, k);
    }
    forall k | k in a.fields ensures a.fields[k] == b.fields[k] {
      OverlaidAt(t, s, k);
      OverlaidAt(WithoutPrefab(t), s, k);
      assert Under(t.fields, k) == Under(WithoutPrefab(t).fields, k);
    }
    assert a.fields == b.fields - {PREFAB};
  }

  lemma {:induction false} OverlayAllThenDelete(t: Tree, u: Tree, ss: seq<Tree>)
    requires t.Obj? && u.Obj? && AllObjects(ss) && WithoutPrefab(t) == WithoutPrefab(u)
    ensures WithoutPrefab(OverlayAll(t, ss)) == WithoutPrefab(OverlayAll(u, ss))
  {
    if ss != [] {
      var front, last := ss[..|ss| - 1], ss[|ss| - 1];
      OverlayAllThenDelete(t, u, front);
      OverlayThenDelete(OverlayAll(t, front), last);
      OverlayThenDelete(OverlayAll(u, front), last);
    }
  }

  // ----- laws of overlaying

  /** No nulls, at any depth: what a target is. */
  predicate Clean(t: Tree) {
    match t
    case Null => false
    case Prim(_) => true
    case Obj(m) => forall k :: k in m ==> Clean(m[k])
  }

  /** What a tree holds below it. */
  function Below(t: Tree, path: seq<Key>): Option<Tree> {
    if path == [] then Some(t)
    else if t.Obj? && path[0] in t.fields then Below(t.fields[path[0]], path[1..])
    else None
  }

  ghost predicate HoldsNull(t: Tree) {
    exists path :: Below(t, path) == Some(Null)
  }

  /** A tree is clean exactly if no path leads to a null. */
  lemma {:induction false} CleanExactly(t: Tree)
    ensures Clean(t) <==> !HoldsNull(t)
    decreases t
  {
    match t
    case Null => assert Below(t, []) == Some(Null);
    case Prim(_) =>
    case Obj(m) =>
      forall k | k in m ensures Clean(m[k]) <==> !HoldsNull(m[k]) {
        CleanExactly(m[k]);
      }
      if k :| k in m && HoldsNull(m[k]) {
        var path :| Below(m[k], path) == Some(Null);
        assert ([k] + path)[1..] == path;
        assert Below(t, [k] + path) == Some(Null);
        assert HoldsNull(t);
      } else {
        forall path ensures Below(t, path) != Some(Null) {
          if path != [] && path[0] in m { assert !HoldsNull(m[path[0]]); }
        }
      }
  }

  /** Nulls of sources never reach the target. */
  lemma {:induction false} OverlayKeepsClean(t: Tree, s: Tree)
    requires t.Obj? && s.Obj? && Clean(t)
    ensures Clean(Overlay(t, s))
    decreases s
  {
    var r := Overlay(t, s).fields;
    forall k | k in r ensures Clean(r[k]) {
      OverlaidAt(t, s, k);
      if k in s.fields && k != PREFAB && s.fields[k].Obj? {
        OverlayKeepsClean(Under(t.fields, k), s.fields[k]);
      }
    }
    hide Overlay;
  }

  lemma {:induction false} MergedIsClean(ss: seq<Tree>)
    requires AllObjects(ss)
    ensures Clean(OverlayAll(EMPTY, ss))
  {
    if ss != [] {
      MergedIsClean(ss[..|ss| - 1]);
      OverlayKeepsClean(OverlayAll(EMPTY, ss[..|ss| - 1]), ss[|ss| - 1]);
    }
  }

  /** Laying one source over the result again changes nothing. */
  lemma {:induction false} OverlayTwice(t: Tree, s: Tree)
    requires t.Obj? && s.Obj?
    ensures Overlay(Overlay(t, s), s) == Overlay(t, s)
    decreases s
  {
    var once := Overlay(t, s);
    var twice := Overlay(once, s);
    forall k ensures k in twice.fields <==> k in once.fields {
      OverlaidAt(t, s, k);
      OverlaidAt(once, s, k);
    }
    forall k | k in once.fields ensures twice.fields[k] == once.fields[k] {
      OverlaidAt(t, s, k);
      OverlaidAt(once, s, k);
      if k in s.fields && k != PREFAB && s.fields[k].Obj? {
        OverlayTwice(Under(t.fields, k), s.fields[k]);
      }
      hide Overlay;
    }
    assert twice.fields == once.fields;
  }

  // ----- what stands at a path

  type Path = seq<Key>

  /** The value at a path, if it leads to one. */
  function At(t: Tree, path: Path): Option<string> {
    match t
    case Null => None
    case Prim(text) => if path == [] then Some(text) else None
    case Obj(m) => if path != [] && path[0] in m then At(m[path[0]], path[1..]) else None
  }

  /** What a source says about a path: nothing, that nothing stands there, or what does. */
  datatype Says = Silent | Clears | Sets(text: string)

  function Speaks(s: Tree, path: Path): Says {
    match s
    case Null => Clears
    case Prim(text) => if path == [] then Sets(text) else Clears
    case Obj(m) =>
      if path == [] then Clears
      else if path[0] == PREFAB || path[0] !in m then Silent
      else Speaks(m[path[0]], path[1..])
  }

  function Heard(before: Option<string>, says: Says): Option<string> {
    match says
    case Silent => before
    case Clears => None
    case Sets(text) => Some(text)
  }

  lemma {:induction false} AtOverlay(t: Tree, s: Tree, path: Path)
    requires t.Obj? && s.Obj?
    ensures At(Overlay(t, s), path) == Heard(At(t, path), Speaks(s, path))
    decreases s
  {
    if path != [] {
      var k := path[0];
      OverlaidAt(t, s, k);
      if k != PREFAB && k in s.fields && s.fields[k].Obj? {
        AtOverlay(Under(t.fields, k), s.fields[k], path[1..]);
        AtEmpty(path[1..]);
      }
      hide Overlay;
    }
  }

  lemma AtEmpty(path: Path)
    ensures At(EMPTY, path) == None
  {
  }

  /** What stands at a path after a list of sources: what the last one that speaks about it says. */
  function LastSays(ss: seq<Tree>, path: Path): Says {
    if ss == [] then Silent
    else if Speaks(ss[|ss| - 1], path) != Silent then Speaks(ss[|ss| - 1], path)
    else LastSays(ss[..|ss| - 1], path)
  }

  lemma {:induction false} LastSpeakerWins(t: Tree, ss: seq<Tree>, path: Path)
    requires t.Obj? && AllObjects(ss)
    ensures At(OverlayAll(t, ss), path) == Heard(At(t, path), LastSays(ss, path))
  {
    if ss != [] {
      LastSpeakerWins(t, ss[..|ss| - 1], path);
      AtOverlay(OverlayAll(t, ss[..|ss| - 1]), ss[|ss| - 1], path);
    }
  }

  lemma {:induction false} LastSaysConcat(a: seq<Tree>, b: seq<Tree>, path: Path)
    ensures LastSays(a + b, path) == if LastSays(b, path) != Silent then LastSays(b, path) else LastSays(a, path)
  {
    if b == [] {
      assert a + b == a;
    } else {
      assert (a + b)[..|a + b| - 1] == a + b[..|b| - 1];
      LastSaysConcat(a, b[..|b| - 1], path);
    }
  }

  /** What a definition says about a path when it is looked up: what it says itself, or else
      what the first of its prefabs says that, looked up likewise, says anything. */
  function LookUp(s: Tree, prefabs: Prefabs, n: nat, path: Path): Says
    requires s.Obj? && Ends(s, prefabs, n)
    decreases n, |PrefabNames(s)| + 1
  {
    if Speaks(s, path) != Silent then Speaks(s, path) else LookUpPrefabs(s, prefabs, n, 0, path)
  }

  /** In the prefabs from the `i`th on. */
  function LookUpPrefabs(s: Tree, prefabs: Prefabs, n: nat, i: nat, path: Path): Says
    requires s.Obj? && Ends(s, prefabs, n) && i <= |PrefabNames(s)|
    decreases n, |PrefabNames(s)| - i
  {
    if i == |PrefabNames(s)| then Silent
    else if SaysOfPrefab(s, prefabs, n, i, path) != Silent then SaysOfPrefab(s, prefabs, n, i, path)
    else LookUpPrefabs(s, prefabs, n, i + 1, path)
  }

  /** An unknown prefab says nothing. */
  function SaysOfPrefab(s: Tree, prefabs: Prefabs, n: nat, i: nat, path: Path): Says
    requires s.Obj? && Ends(s, prefabs, n) && i < |PrefabNames(s)|
    decreases n, 0
  {
    var p := PrefabNames(s)[i];
    if p in prefabs then LookUp(prefabs[p], prefabs, n - 1, path) else Silent
  }

  lemma {:induction false} LastOfSources(s: Tree, prefabs: Prefabs, n: nat, path: Path)
    requires s.Obj? && Ends(s, prefabs, n)
    ensures LastSays(Sources(s, prefabs, n), path) == LookUp(s, prefabs, n, path)
    decreases n, |PrefabNames(s)| + 1
  {
    LastOfPrefabs(s, prefabs, n, 0, path);
    LastSaysConcat(SourcesOfPrefabs(s, prefabs, n, 0), [s], path);
    assert LastSays([s], path) == Speaks(s, path) by { assert [s][..0] == []; }
  }

  lemma {:induction false} LastOfPrefabs(s: Tree, prefabs: Prefabs, n: nat, i: nat, path: Path)
    requires s.Obj? && Ends(s, prefabs, n) && i <= |PrefabNames(s)|
    ensures LastSays(SourcesOfPrefabs(s, prefabs, n, i), path) == LookUpPrefabs(s, prefabs, n, i, path)
    decreases n, |PrefabNames(s)| - i
  {
    if i < |PrefabNames(s)| {
      var p := PrefabNames(s)[i];
      LastOfPrefabs(s, prefabs, n, i + 1, path);
      if p in prefabs {
        LastOfSources(prefabs[p], prefabs, n - 1, path);
        LastSaysConcat(SourcesOfPrefabs(s, prefabs, n, i + 1), Sources(prefabs[p], prefabs, n - 1), path);
      } else {
        LastSaysConcat(SourcesOfPrefabs(s, prefabs, n, i + 1), [], path);
      }
    }
  }

  /** A definition merged into an empty object has at each path what looking it up says. */
  lemma {:induction false} MergingIsLookingUp(item: Tree, prefabs: Prefabs, n: nat, path: Path)
    requires item.Obj? && Ends(item, prefabs, n)
    requires path != [] && path[0] != PREFAB
    ensures AllObjects(Sources(item, prefabs, n))
    ensures At(WithoutPrefab(OverlayAll(EMPTY, Sources(item, prefabs, n))), path)
         == Heard(None, LookUp(item, prefabs, n, path))
  {
    var ss := Sources(item, prefabs, n);
    SourcesAreObjects(item, prefabs, n);
    LastSpeakerWins(EMPTY, ss, path);
    AtEmpty(path);
    LastOfSources(item, prefabs, n, path);
  }

  lemma {:induction false} FirstPrefabSays(s: Tree, prefabs: Prefabs, n: nat, i: nat, j: nat, path: Path)
    requires s.Obj? && Ends(s, prefabs, n) && i <= j < |PrefabNames(s)|
    requires forall k :: i <= k < j ==> SaysOfPrefab(s, prefabs, n, k, path) == Silent
    requires SaysOfPrefab(s, prefabs, n, j, path) != Silent
    ensures LookUpPrefabs(s, prefabs, n, i, path) == SaysOfPrefab(s, prefabs, n, j, path)
    decreases j - i
  {
    if i < j { FirstPrefabSays(s, prefabs, n, i + 1, j, path); }
  }

  /** The item decides where it speaks; where it does not, the first of its prefabs does that
      speaks or inherits something that does, whatever later prefabs say. */
  lemma {:induction false} MostSpecificWins(item: Tree, prefabs: Prefabs, n: nat, i: nat, path: Path)
    requires item.Obj? && Ends(item, prefabs, n)
    requires path != [] && path[0] != PREFAB && i < |PrefabNames(item)|
    ensures AllObjects(Sources(item, prefabs, n))
    ensures var merged := WithoutPrefab(OverlayAll(EMPTY, Sources(item, prefabs, n)));
      && (Speaks(item, path) != Silent ==> At(merged, path) == Heard(None, Speaks(item, path)))
      && (Speaks(item, path) == Silent && SaysOfPrefab(item, prefabs, n, i, path) != Silent
          && (forall k :: 0 <= k < i ==> SaysOfPrefab(item, prefabs, n, k, path) == Silent)
          ==> At(merged, path) == Heard(None, SaysOfPrefab(item, prefabs, n, i, path)))
  {
    MergingIsLookingUp(item, prefabs, n, path);
    if SaysOfPrefab(item, prefabs, n, i, path) != Silent
       && forall k :: 0 <= k < i ==> SaysOfPrefab(item, prefabs, n, k, path) == Silent {
      FirstPrefabSays(item, prefabs, n, 0, i, path);
    }
  }
}
