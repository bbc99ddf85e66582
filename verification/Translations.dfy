/**
 flattenTranslations of localization.test.ts, and what comparing two flattened key sets proves.

 A translation tree is the list of its entries, in the order Object.entries gives them.
 */
module Translations {
  import opened Delimited

  datatype Tree = Leaf(text: string) | Node(entries: seq<Entry>)

  datatype Entry = Entry(key: string, tree: Tree)

  // prefix ? `${prefix}.${key}` : key
  function PathTo(prefix: string, key: string): string {
    if prefix != "" then prefix + "." + key else key
  }

  function Flatten(entries: seq<Entry>, prefix: string): set<string>
    decreases entries
  {
    if entries == [] then {}
    else FlattenTree(entries[0].tree, PathTo(prefix, entries[0].key)) + Flatten(entries[1..], prefix)
  }

  function FlattenTree(tree: Tree, path: string): set<string>
    decreases tree
  {
    match tree
    case Leaf(_) => {path}
    case Node(entries) => Flatten(entries, path)
  }

  class PathSet {
    var paths: set<string>

    constructor ()
      ensures paths == {}
    {
      paths := {};
    }

    method Add(path: string)
      modifies this
      ensures paths == old(paths) + {path}
    {
      paths := paths + {path};
    }
  }

  method FlattenTranslations(entries: seq<Entry>, prefix: string, result: PathSet)
    modifies result
    ensures result.paths == old(result.paths) + Flatten(entries, prefix)
    decreases entries
  {
    assert entries[..0] == [];
    for i := 0 to |entries|
      invariant result.paths == old(result.paths) + Flatten(entries[..i], prefix)
    {
      FlattenSnoc(entries[..i], entries[i], prefix);
      assert entries[..i + 1] == entries[..i] + [entries[i]];
      var path := PathTo(prefix, entries[i].key);
      match entries[i].tree {
        case Leaf(_) => result.Add(path);
        case Node(inner) => FlattenTranslations(inner, path, result);
      }
    }
    assert entries[..|entries|] == entries;
  }

  lemma {:induction false} FlattenSnoc(entries: seq<Entry>, e: Entry, prefix: string)
    ensures Flatten(entries + [e], prefix) == Flatten(entries, prefix) + FlattenTree(e.tree, PathTo(prefix, e.key))
  {
    if entries == [] {
      assert [e][1..] == [];
    } else {
      assert (entries + [e])[1..] == entries[1..] + [e];
      FlattenSnoc(entries[1..], e, prefix);
    }
  }

  // ----- Shapes and key paths -----

  /** The same keys at this level, and below each of them the same shape. */
  ghost predicate SameShape(a: seq<Entry>, b: seq<Entry>)
    decreases a
  {
    && (forall i :: 0 <= i < |a| ==> Matches(a[i], b))
    && (forall j :: 0 <= j < |b| ==> IsMatched(a, b[j]))
  }

  ghost predicate Matches(e: Entry, b: seq<Entry>)
    decreases e, 1
  {
    exists j :: 0 <= j < |b| && SameEntry(e, b[j])
  }

  ghost predicate IsMatched(a: seq<Entry>, f: Entry)
    decreases a, 0
  {
    exists i :: 0 <= i < |a| && SameEntry(a[i], f)
  }

  ghost predicate SameEntry(e: Entry, f: Entry)
    decreases e, 0
  {
    && e.key == f.key
    && e.tree.Leaf? == f.tree.Leaf?
    && (e.tree.Node? ==> SameShape(e.tree.entries, f.tree.entries))
  }

  /** Keys are distinct, not empty and free of dots, and no subtree is empty. */
  ghost predicate WellKeyed(entries: seq<Entry>)
    decreases entries
  {
    && (forall i, j :: 0 <= i < j < |entries| ==> entries[i].key != entries[j].key)
    && (forall i :: 0 <= i < |entries| ==>
          && Plainly(entries[i].key)
          && (entries[i].tree.Node? ==> entries[i].tree.entries != [] && WellKeyed(entries[i].tree.entries)))
  }

  predicate Plainly(key: string) {
    key != "" && '.' !in key
  }

  // The lists of keys that lead to a leaf.
  ghost function KeyPaths(entries: seq<Entry>): iset<seq<string>>
    decreases entries
  {
    iset i: nat, p: seq<string> | i < |entries| && p in TreePaths(entries[i].tree) :: [entries[i].key] + p
  }

  ghost function TreePaths(tree: Tree): iset<seq<string>>
    decreases tree
  {
    match tree
    case Leaf(_) => iset{[]}
    case Node(entries) => KeyPaths(entries)
  }

  lemma PathsBelow(entries: seq<Entry>, i: nat, q: seq<string>)
    requires WellKeyed(entries) && i < |entries|
    ensures [entries[i].key] + q in KeyPaths(entries) <==> q in TreePaths(entries[i].tree)
  {
    if [entries[i].key] + q in KeyPaths(entries) {
      var j: nat, p: seq<string> :| j < |entries| && p in TreePaths(entries[j].tree) && [entries[j].key] + p == [entries[i].key] + q;
      assert ([entries[j].key] + p)[0] == entries[j].key && ([entries[i].key] + q)[0] == entries[i].key;
      assert ([entries[j].key] + p)[1..] == p && ([entries[i].key] + q)[1..] == q;
      assert j == i;
    }
  }

  lemma {:induction false} SomePath(tree: Tree) returns (p: seq<string>)
    requires tree.Node? ==> tree.entries != [] && WellKeyed(tree.entries)
    ensures p in TreePaths(tree)
    decreases tree
  {
    match tree
    case Leaf(_) => p := [];
    case Node(entries) =>
      var rest := SomePath(entries[0].tree);
      p := [entries[0].key] + rest;
  }

  lemma KeyPathsSplit(entries: seq<Entry>, p: seq<string>) returns (i: nat)
    requires p in KeyPaths(entries)
    ensures i < |entries| && p != [] && p[0] == entries[i].key && p[1..] in TreePaths(entries[i].tree)
  {
    var j: nat, q: seq<string> :| j < |entries| && q in TreePaths(entries[j].tree) && [entries[j].key] + q == p;
    i := j;
    assert ([entries[j].key] + q)[1..] == q;
  }

  lemma RootIsPathIff(tree: Tree)
    ensures [] in TreePaths(tree) <==> tree.Leaf?
  {
    assert forall key: string, p: seq<string> :: [key] + p != [];
  }

  lemma {:induction false} SamePathsSameShape(a: seq<Entry>, b: seq<Entry>)
    requires WellKeyed(a) && WellKeyed(b) && KeyPaths(a) == KeyPaths(b)
    ensures SameShape(a, b)
    decreases a
  {
    forall i | 0 <= i < |a| ensures Matches(a[i], b) {
      var e := a[i];
      var p := SomePath(e.tree);
      PathsBelow(a, i, p);
      var j := KeyPathsSplit(b, [e.key] + p);
      SameBelow(a, i, b, j);
      if e.tree.Node? {
        SamePathsSameShape(e.tree.entries, b[j].tree.entries);
      }
      assert SameEntry(e, b[j]);
    }
    forall j | 0 <= j < |b| ensures IsMatched(a, b[j]) {
      var f := b[j];
      var p := SomePath(f.tree);
      PathsBelow(b, j, p);
      var i := KeyPathsSplit(a, [f.key] + p);
      SameBelow(a, i, b, j);
      if f.tree.Node? {
        SamePathsSameShape(a[i].tree.entries, f.tree.entries);
      }
      assert SameEntry(a[i], f);
    }
  }

  lemma SameBelow(a: seq<Entry>, i: nat, b: seq<Entry>, j: nat)
    requires WellKeyed(a) && WellKeyed(b) && KeyPaths(a) == KeyPaths(b)
    requires i < |a| && j < |b| && a[i].key == b[j].key
    ensures TreePaths(a[i].tree) == TreePaths(b[j].tree)
    ensures a[i].tree.Leaf? == b[j].tree.Leaf?
  {
    RootIsPathIff(a[i].tree);
    RootIsPathIff(b[j].tree);
    forall q: seq<string> ensures q in TreePaths(a[i].tree) <==> q in TreePaths(b[j].tree) {
      PathsBelow(a, i, q);
      PathsBelow(b, j, q);
    }
  }

  // ----- Dotted paths determine key paths -----

  ghost predicate PlainPath(p: seq<string>) {
    forall i :: 0 <= i < |p| ==> Plainly(p[i])
  }

  lemma JoinHasDotIff(p: seq<string>)
    requires p != [] && Plainly(p[0])
    ensures '.' in Join(p, ".") <==> |p| > 1
  {
    if |p| > 1 {
      assert Join(p, ".")[|p[0]|] == '.';
    }
  }

  lemma {:induction false} JoinIsInjective(p: seq<string>, q: seq<string>)
    requires p != [] && q != [] && PlainPath(p) && PlainPath(q)
    requires Join(p, ".") == Join(q, ".")
    ensures p == q
  {
    var x, y := p[0], q[0];
    assert Plainly(x) && Plainly(y);
    JoinHasDotIff(p);
    JoinHasDotIff(q);
    assert p == [x] + p[1..] && q == [y] + q[1..];
    if |p| > 1 {
      var u, v := Join(p[1..], "."), Join(q[1..], ".");
      assert x + "." + u == y + "." + v;
      SameHead(x, u, y, v);
      JoinIsInjective(p[1..], q[1..]);
    }
  }

  lemma SameHead(x: string, u: string, y: string, v: string)
    requires '.' !in x && '.' !in y && x + "." + u == y + "." + v
    ensures x == y && u == v
  {
    var s := x + "." + u;
    assert s[|x|] == '.' && s[|y|] == '.';
    assert forall k :: 0 <= k < |x| ==> s[k] == x[k] && s[k] != '.';
    assert forall k :: 0 <= k < |y| ==> s[k] == y[k] && s[k] != '.';
    assert s[..|x|] == x && s[..|y|] == y && s[|x| + 1..] == u && s[|y| + 1..] == v;
  }

  lemma {:induction false} PathsArePlain(tree: Tree, p: seq<string>)
    requires tree.Node? ==> WellKeyed(tree.entries)
    requires p in TreePaths(tree)
    ensures PlainPath(p) && (tree.Node? ==> p != [])
    decreases tree
  {
    match tree
    case Leaf(_) =>
    case Node(entries) =>
      var i := KeyPathsSplit(entries, p);
      PathsArePlain(entries[i].tree, p[1..]);
      forall n | 0 <= n < |p| ensures Plainly(p[n]) {
        if n > 0 { assert p[n] == p[1..][n - 1]; }
      }
  }

  // A key path without the empty keys in front, which leave no trace.
  function Spelled(p: seq<string>): seq<string> {
    if p != [] && p[0] == "" then Spelled(p[1..]) else p
  }

  // The dotted form of a key path behind a prefix.
  function Dotted(prefix: string, p: seq<string>): string {
    if prefix == "" then Join(Spelled(p), ".") else if p == [] then prefix else prefix + "." + Join(p, ".")
  }

  lemma DottedStep(prefix: string, key: string, q: seq<string>)
    ensures Dotted(PathTo(prefix, key), q) == Dotted(prefix, [key] + q)
  {
    var p := [key] + q;
    assert p[1..] == q;
    if prefix != "" {
      if q != [] {
        assert PathTo(prefix, key) + "." + Join(q, ".") == prefix + "." + (key + "." + Join(q, "."));
      }
    } else if key != "" {
      assert Spelled(p) == p;
      JoinCons(key, q);
    }
  }

  lemma JoinCons(key: string, q: seq<string>)
    ensures Join([key] + q, ".") == if q == [] then key else key + "." + Join(q, ".")
  {
    assert ([key] + q)[1..] == q;
  }

  lemma {:induction false} FlattenHas(entries: seq<Entry>, prefix: string, i: nat)
    requires i < |entries|
    ensures FlattenTree(entries[i].tree, PathTo(prefix, entries[i].key)) <= Flatten(entries, prefix)
    decreases |entries|
  {
    if i > 0 {
      FlattenHas(entries[1..], prefix, i - 1);
    }
  }

  lemma {:induction false} FlattenFrom(entries: seq<Entry>, prefix: string, path: string) returns (i: nat)
    requires path in Flatten(entries, prefix)
    ensures i < |entries| && path in FlattenTree(entries[i].tree, PathTo(prefix, entries[i].key))
    decreases |entries|
  {
    if path in FlattenTree(entries[0].tree, PathTo(prefix, entries[0].key)) {
      i := 0;
    } else {
      var j := FlattenFrom(entries[1..], prefix, path);
      i := j + 1;
    }
  }

  /** For every tree, the flattened set holds exactly the dotted key paths. */
  lemma {:induction false} FlattenIsDotted(tree: Tree, prefix: string, path: string)
    ensures path in FlattenTree(tree, prefix) <==> exists p :: p in TreePaths(tree) && path == Dotted(prefix, p)
    decreases tree
  {
    match tree
    case Leaf(_) =>
      assert [] in TreePaths(tree);
      assert Dotted(prefix, []) == prefix;
    case Node(entries) =>
      hide Dotted;
      if path in Flatten(entries, prefix) {
        var i := FlattenFrom(entries, prefix, path);
        var e := entries[i];
        FlattenIsDotted(e.tree, PathTo(prefix, e.key), path);
        var q :| q in TreePaths(e.tree) && path == Dotted(PathTo(prefix, e.key), q);
        DottedStep(prefix, e.key, q);
        assert [e.key] + q in TreePaths(tree);
      }
      if p :| p in TreePaths(tree) && path == Dotted(prefix, p) {
        var i := KeyPathsSplit(entries, p);
        var e := entries[i];
        assert p == [e.key] + p[1..];
        DottedStep(prefix, e.key, p[1..]);
        FlattenIsDotted(e.tree, PathTo(prefix, e.key), path);
        FlattenHas(entries, prefix, i);
      }
  }

  lemma SameSetSamePaths(a: seq<Entry>, b: seq<Entry>)
    requires WellKeyed(a) && WellKeyed(b) && Flatten(a, "") <= Flatten(b, "")
    ensures KeyPaths(a) <= KeyPaths(b)
  {
    forall p | p in KeyPaths(a) ensures p in KeyPaths(b) {
      PathsArePlain(Node(a), p);
      var path := Dotted("", p);
      FlattenIsDotted(Node(a), "", path);
      assert p in TreePaths(Node(a));
      FlattenIsDotted(Node(b), "", path);
      var q :| q in TreePaths(Node(b)) && path == Dotted("", q);
      PathsArePlain(Node(b), q);
      assert Plainly(p[0]) && Plainly(q[0]);
      JoinIsInjective(p, q);
    }
  }

  lemma Partner(a: seq<Entry>, b: seq<Entry>, i: nat) returns (j: nat)
    requires SameShape(a, b) && i < |a|
    ensures j < |b| && SameEntry(a[i], b[j])
  {
    hide SameEntry, IsMatched;
    assert Matches(a[i], b);
    j :| 0 <= j < |b| && SameEntry(a[i], b[j]);
  }

  lemma PartnerBack(a: seq<Entry>, b: seq<Entry>, j: nat) returns (i: nat)
    requires SameShape(a, b) && j < |b|
    ensures i < |a| && SameEntry(a[i], b[j])
  {
    hide SameEntry, Matches;
    assert IsMatched(a, b[j]);
    i :| 0 <= i < |a| && SameEntry(a[i], b[j]);
  }

  lemma {:induction false} SameEntrySameSet(e: Entry, f: Entry, prefix: string)
    requires SameEntry(e, f)
    ensures e.key == f.key
    ensures FlattenTree(e.tree, PathTo(prefix, e.key)) == FlattenTree(f.tree, PathTo(prefix, f.key))
    decreases e
  {
    if e.tree.Node? {
      SameShapeSameSet(e.tree.entries, f.tree.entries, PathTo(prefix, e.key));
    }
  }

  lemma {:induction false} SameShapeSameSet(a: seq<Entry>, b: seq<Entry>, prefix: string)
    requires SameShape(a, b)
    ensures Flatten(a, prefix) == Flatten(b, prefix)
    decreases a
  {
    hide *;
    forall path | path in Flatten(a, prefix) ensures path in Flatten(b, prefix) {
      var i := FlattenFrom(a, prefix, path);
      var j := Partner(a, b, i);
      SameEntrySameSet(a[i], b[j], prefix);
      FlattenHas(b, prefix, j);
    }
    forall path | path in Flatten(b, prefix) ensures path in Flatten(a, prefix) {
      var j := FlattenFrom(b, prefix, path);
      var i := PartnerBack(a, b, j);
      SameEntrySameSet(a[i], b[j], prefix);
      FlattenHas(a, prefix, i);
    }
  }

  /** For well-keyed locales, equal key sets mean the same keys at every level, and conversely. */
  lemma AlignedIffSameShape(a: seq<Entry>, b: seq<Entry>)
    requires WellKeyed(a) && WellKeyed(b)
    ensures Flatten(a, "") == Flatten(b, "") <==> SameShape(a, b)
  {
    if Flatten(a, "") == Flatten(b, "") {
      SameSetSamePaths(a, b);
      SameSetSamePaths(b, a);
      SamePathsSameShape(a, b);
    }
    if SameShape(a, b) {
      SameShapeSameSet(a, b, "");
    }
  }

  /** What Object.entries guarantees: at every level the keys are distinct. */
  ghost predicate DistinctKeys(entries: seq<Entry>)
    decreases entries
  {
    && (forall i, j :: 0 <= i < j < |entries| ==> entries[i].key != entries[j].key)
    && (forall i :: 0 <= i < |entries| ==> (entries[i].tree.Node? ==> DistinctKeys(entries[i].tree.entries)))
  }

  lemma {:induction false} ShapeCarriesKeys(a: seq<Entry>, b: seq<Entry>)
    requires SameShape(a, b) && WellKeyed(b) && DistinctKeys(a)
    ensures WellKeyed(a) && (b != [] ==> a != [])
    decreases a
  {
    hide SameShape;
    forall i | 0 <= i < |a|
      ensures Plainly(a[i].key)
      ensures a[i].tree.Node? ==> a[i].tree.entries != [] && WellKeyed(a[i].tree.entries)
    {
      var j := Partner(a, b, i);
      if a[i].tree.Node? {
        ShapeCarriesKeys(a[i].tree.entries, b[j].tree.entries);
      }
    }
    if b != [] {
      var i := PartnerBack(a, b, 0);
    }
  }

  /**
   Against a well-keyed locale with the same key set, another one has the same structure exactly if it
   is well-keyed itself: no key of it is empty or has a dot, and no subtree of it is empty.
   */
  lemma SameKeysSameShapeIff(a: seq<Entry>, b: seq<Entry>)
    requires DistinctKeys(a) && WellKeyed(b) && Flatten(a, "") == Flatten(b, "")
    ensures SameShape(a, b) <==> WellKeyed(a)
  {
    hide SameShape, WellKeyed, DistinctKeys, Flatten;
    if SameShape(a, b) {
      ShapeCarriesKeys(a, b);
    }
    if WellKeyed(a) {
      AlignedIffSameShape(a, b);
    }
  }

  lemma FlattenOne(e: Entry, prefix: string)
    ensures Flatten([e], prefix) == FlattenTree(e.tree, PathTo(prefix, e.key))
  {
    assert [e][1..] == [];
  }

  lemma OneShape(e: Entry, f: Entry)
    requires SameShape([e], [f])
    ensures e.key == f.key
  {
    hide *;
    var j := Partner([e], [f], 0);
    SameEntrySameSet([e][0], [f][j], "");
  }

  /** An empty subtree leaves no trace in the key set. */
  lemma EmptySubtreeIsInvisible()
    ensures Flatten([Entry("x", Node([]))], "") == Flatten([], "")
    ensures !SameShape([Entry("x", Node([]))], [])
  {
    FlattenOne(Entry("x", Node([])), "");
    assert Entry("x", Node([])) in [Entry("x", Node([]))];
  }

  /** A dot in a key looks like nesting. */
  lemma DottedKeyLooksNested(text: string)
    ensures Flatten([Entry("x.y", Leaf(text))], "") == Flatten([Entry("x", Node([Entry("y", Leaf(text))]))], "")
    ensures !SameShape([Entry("x.y", Leaf(text))], [Entry("x", Node([Entry("y", Leaf(text))]))])
  {
    FlattenOne(Entry("x.y", Leaf(text)), "");
    FlattenOne(Entry("x", Node([Entry("y", Leaf(text))])), "");
    FlattenOne(Entry("y", Leaf(text)), "x");
    assert "x" + "." + "y" == "x.y";
    if SameShape([Entry("x.y", Leaf(text))], [Entry("x", Node([Entry("y", Leaf(text))]))]) {
      OneShape(Entry("x.y", Leaf(text)), Entry("x", Node([Entry("y", Leaf(text))])));
    }
  }

  /** An empty key leaves its level out. */
  lemma EmptyKeyLooksFlat(text: string)
    ensures Flatten([Entry("", Node([Entry("y", Leaf(text))]))], "") == Flatten([Entry("y", Leaf(text))], "")
    ensures !SameShape([Entry("", Node([Entry("y", Leaf(text))]))], [Entry("y", Leaf(text))])
  {
    FlattenOne(Entry("", Node([Entry("y", Leaf(text))])), "");
    if SameShape([Entry("", Node([Entry("y", Leaf(text))]))], [Entry("y", Leaf(text))]) {
      OneShape(Entry("", Node([Entry("y", Leaf(text))])), Entry("y", Leaf(text)));
    }
  }
}
