/** Duplicate clustering (`_transitive_clusters` in backend/grooming.py): a
    union-find with path halving, proved to compute the transitive closure of
    the similarity pairs. */
module Clusters {
  import opened Collections

  // ---- What a cluster means: a chain of similarity pairs ----

  ghost predicate Linked(pairs: seq<(int, int)>, a: int, b: int) {
    (a, b) in pairs || (b, a) in pairs
  }

  ghost predicate Chain(pairs: seq<(int, int)>, path: seq<int>) {
    && path != []
    && forall i :: 0 <= i < |path| - 1 ==> Linked(pairs, path[i], path[i + 1])
  }

  ghost predicate ChainFrom(pairs: seq<(int, int)>, path: seq<int>, a: int, b: int) {
    Chain(pairs, path) && path[0] == a && path[|path| - 1] == b
  }

  ghost predicate Connected(pairs: seq<(int, int)>, a: int, b: int) {
    exists path :: ChainFrom(pairs, path, a, b)
  }

  ghost predicate Mentioned(pairs: seq<(int, int)>, id: int) {
    exists k :: 0 <= k < |pairs| && (pairs[k].0 == id || pairs[k].1 == id)
  }

  /** The answer the service promises for a list of pairs. */
  ghost predicate IsClustering(pairs: seq<(int, int)>, clusters: seq<seq<int>>) {
    && (forall i :: 0 <= i < |clusters| ==> clusters[i] != [] && StrictlyAscending(clusters[i]))
    && (forall i, j :: 0 <= i < j < |clusters| && clusters[i] != [] && clusters[j] != [] ==>
          clusters[i][0] < clusters[j][0])
    && (forall id :: Mentioned(pairs, id) <==> InSome(clusters, id))
    && (forall i, j, a, b :: 0 <= i < |clusters| && 0 <= j < |clusters| && a in clusters[i] && b in clusters[j] ==>
          (i == j <==> Connected(pairs, a, b)))
  }

  ghost predicate InSome(clusters: seq<seq<int>>, id: int) {
    exists i :: 0 <= i < |clusters| && id in clusters[i]
  }

  lemma ConnectedRefl(pairs: seq<(int, int)>, a: int)
    ensures Connected(pairs, a, a)
  {
    assert ChainFrom(pairs, [a], a, a);
  }

  lemma ConnectedSym(pairs: seq<(int, int)>, a: int, b: int)
    requires Connected(pairs, a, b)
    ensures Connected(pairs, b, a)
  {
    var path :| ChainFrom(pairs, path, a, b);
    var back := seq(|path|, i requires 0 <= i < |path| => path[|path| - 1 - i]);
    forall i | 0 <= i < |back| - 1 ensures Linked(pairs, back[i], back[i + 1]) {
      assert Linked(pairs, path[|path| - 2 - i], path[|path| - 2 - i + 1]);
    }
    assert ChainFrom(pairs, back, b, a);
  }

  lemma ConnectedTrans(pairs: seq<(int, int)>, a: int, b: int, c: int)
    requires Connected(pairs, a, b) && Connected(pairs, b, c)
    ensures Connected(pairs, a, c)
  {
    var p :| ChainFrom(pairs, p, a, b);
    var q :| ChainFrom(pairs, q, b, c);
    var path := p + q[1..];
    forall i | 0 <= i < |path| - 1 ensures Linked(pairs, path[i], path[i + 1]) {
      if i >= |p| - 1 {
        assert Linked(pairs, q[i - |p| + 1], q[i - |p| + 2]);
      }
    }
    assert ChainFrom(pairs, path, a, c);
  }

  lemma ConnectedGrows(pairs: seq<(int, int)>, more: seq<(int, int)>, a: int, b: int)
    requires Connected(pairs, a, b)
    requires forall p :: p in pairs ==> p in more
    ensures Connected(more, a, b)
  {
    var path :| ChainFrom(pairs, path, a, b);
    forall i | 0 <= i < |path| - 1 ensures Linked(more, path[i], path[i + 1]) {
      assert Linked(pairs, path[i], path[i + 1]);
    }
    assert ChainFrom(more, path, a, b);
  }

  lemma PairConnects(pairs: seq<(int, int)>, a: int, b: int)
    requires (a, b) in pairs
    ensures Connected(pairs, a, b)
  {
    assert Linked(pairs, a, b);
    assert ChainFrom(pairs, [a, b], a, b);
  }

  /** A labelling that agrees on every pair is constant along chains. */
  lemma {:induction false} LabelsFollowChains(pairs: seq<(int, int)>, root: int -> int, path: seq<int>)
    requires forall k :: 0 <= k < |pairs| ==> root(pairs[k].0) == root(pairs[k].1)
    requires Chain(pairs, path)
    ensures root(path[0]) == root(path[|path| - 1])
  {
    if |path| > 1 {
      assert Linked(pairs, path[0], path[0 + 1]);
      assert root(path[0]) == root(path[1]);
      forall i | 0 <= i < |path[1..]| - 1 ensures Linked(pairs, path[1..][i], path[1..][i + 1]) {
        assert Linked(pairs, path[i + 1], path[i + 1 + 1]);
      }
      LabelsFollowChains(pairs, root, path[1..]);
    }
  }

  // ---- The parent dictionary ----

  /** `parent.get(x, x)` */
  function ParentIn(parent: map<int, int>, x: int): int {
    if x in parent then parent[x] else x
  }

  /** `root` names the end of every parent chain; `rank` grows along the links
      and stays below `top`, so chains are finite. */
  ghost predicate SoundAt(parent: map<int, int>, root: int -> int, rank: int -> nat, top: nat, x: int) {
    && root(ParentIn(parent, x)) == root(x)
    && (ParentIn(parent, x) == x <==> root(x) == x)
    && (ParentIn(parent, x) != x ==> rank(x) < rank(ParentIn(parent, x)))
    && root(root(x)) == root(x)
    && rank(x) <= top
  }

  ghost predicate Sound(parent: map<int, int>, root: int -> int, rank: int -> nat, top: nat) {
    forall x :: SoundAt(parent, root, rank, top, x)
  }

  ghost function Merged(root: int -> int, x: int, y: int): int -> int {
    z => if root(z) == root(x) then root(y) else root(z)
  }

  ghost function Raised(rank: int -> nat, rx: int, ry: int): int -> nat {
    z => if z == ry && rx != ry then rank(ry) + rank(rx) + 1 else rank(z)
  }

  lemma HalvingKeepsSound(parent: map<int, int>, root: int -> int, rank: int -> nat, top: nat, x: int)
    requires Sound(parent, root, rank, top)
    requires ParentIn(parent, x) != x
    ensures x in parent
    ensures var grand := ParentIn(parent, parent[x]);
            && Sound(parent[x := grand], root, rank, top)
            && root(grand) == root(x) && rank(x) < rank(grand) <= top
  {
    assert SoundAt(parent, root, rank, top, x);
    assert SoundAt(parent, root, rank, top, parent[x]);
    assert SoundAt(parent, root, rank, top, ParentIn(parent, parent[x]));
    var halved := parent[x := ParentIn(parent, parent[x])];
    forall z ensures SoundAt(halved, root, rank, top, z) {
      assert SoundAt(parent, root, rank, top, z);
    }
  }

  lemma LinkKeepsSound(parent: map<int, int>, root: int -> int, rank: int -> nat, top: nat, x: int, y: int)
    requires Sound(parent, root, rank, top)
    ensures var rx, ry := root(x), root(y);
            var linked := parent[rx := ry];
            Sound(linked, Merged(root, x, y), Raised(rank, rx, ry), 2 * top + 1)
  {
    var rx, ry := root(x), root(y);
    var linked, merged, raised := parent[rx := ry], Merged(root, x, y), Raised(rank, rx, ry);
    assert SoundAt(parent, root, rank, top, rx) && SoundAt(parent, root, rank, top, ry);
    assert SoundAt(parent, root, rank, top, x) && SoundAt(parent, root, rank, top, y);
    var higher := 2 * top + 1;
    forall z ensures SoundAt(linked, merged, raised, higher, z)
    {
      assert SoundAt(parent, root, rank, top, z);
    }
  }

  class Forest {
    var parent: map<int, int>
    // The root of every id, and a rank that grows along parent links.
    ghost var root: int -> int
    ghost var rank: int -> nat
    ghost var top: nat

    function Parent(x: int): int
      reads this`parent
    {
      ParentIn(parent, x)
    }

    ghost predicate Valid()
      reads this
    {
      Sound(parent, root, rank, top)
    }

    constructor ()
      ensures Valid() && parent == map[]
      ensures root == (x => x)
    {
      parent := map[];
      root := x => x;
      rank := x => 0;
      top := 0;
    }

    /** Path halving. Roots, and so membership, are untouched. */
    method Find(x0: int) returns (x: int)
      requires Valid()
      modifies this`parent
      ensures Valid()
      ensures x == root(x0) && Parent(x) == x
      ensures parent.Keys == old(parent.Keys)
    {
      x := x0;
      assert SoundAt(parent, root, rank, top, x);
      while Parent(x) != x
        invariant Valid() && SoundAt(parent, root, rank, top, x)
        invariant root(x) == root(x0)
        invariant parent.Keys == old(parent.Keys)
        decreases top - rank(x)
      {
        HalvingKeepsSound(parent, root, rank, top, x);
        parent := parent[x := Parent(parent[x])];
        x := parent[x];
        assert SoundAt(parent, root, rank, top, x);
      }
    }

    /** `parent[find(x)] = find(y)`; Python evaluates the right side first. */
    method Union(x: int, y: int)
      requires Valid()
      modifies this
      ensures Valid()
      ensures root == Merged(old(root), x, y)
    {
      var ry := Find(y);
      var rx := Find(x);
      LinkKeepsSound(parent, root, rank, top, x, y);
      parent := parent[rx := ry];
      rank := Raised(rank, rx, ry);
      root := Merged(root, x, y);
      top := 2 * top + 1;
    }
  }

  /** Roots are exactly the connected classes of `pairs`. */
  ghost predicate RootsAreClasses(pairs: seq<(int, int)>, root: int -> int) {
    && (forall k :: 0 <= k < |pairs| ==> root(pairs[k].0) == root(pairs[k].1))
    && (forall x :: Connected(pairs, x, root(x)))
  }

  lemma SameRootIffConnected(pairs: seq<(int, int)>, root: int -> int, a: int, b: int)
    requires RootsAreClasses(pairs, root)
    ensures root(a) == root(b) <==> Connected(pairs, a, b)
  {
    if root(a) == root(b) {
      ConnectedSym(pairs, b, root(b));
      ConnectedTrans(pairs, a, root(a), b);
    }
    if Connected(pairs, a, b) {
      var path :| ChainFrom(pairs, path, a, b);
      LabelsFollowChains(pairs, root, path);
    }
  }

  lemma UnionKeepsClasses(pairs: seq<(int, int)>, a: int, b: int, root: int -> int)
    requires RootsAreClasses(pairs, root)
    ensures RootsAreClasses(pairs + [(a, b)], Merged(root, a, b))
  {
    var more := pairs + [(a, b)];
    forall x ensures Connected(more, x, Merged(root, a, b)(x)) {
      ConnectedGrows(pairs, more, x, root(x));
      if root(x) == root(a) {
        ConnectedGrows(pairs, more, a, root(a));
        ConnectedSym(more, a, root(a));
        ConnectedTrans(more, x, root(x), a);
        PairConnects(more, a, b);
        ConnectedTrans(more, x, a, b);
        ConnectedGrows(pairs, more, b, root(b));
        ConnectedTrans(more, x, b, root(b));
      }
    }
  }

  // ---- Grouping the sorted ids by root ----

  ghost function Head(groups: map<int, seq<int>>, r: int): int {
    if r in groups && groups[r] != [] then groups[r][0] else 0
  }

  /** `groups` holds the ids by root; `keys` is the dictionary's key order. */
  ghost predicate Grouped(ids: seq<int>, root: int -> int, keys: seq<int>, groups: map<int, seq<int>>) {
    && (forall i :: 0 <= i < |keys| ==> keys[i] in groups)
    && (forall id :: id in ids ==> root(id) in keys && root(id) in groups && id in groups[root(id)])
    && (forall r :: r in groups ==> r in keys && groups[r] != [] && StrictlyAscending(groups[r]))
    && (forall r, x :: r in groups && x in groups[r] ==> root(x) == r && x in ids)
    && (forall i, j :: 0 <= i < j < |keys| ==> Head(groups, keys[i]) < Head(groups, keys[j]))
  }

  lemma GroupAppend(ids: seq<int>, id: int, root: int -> int, keys: seq<int>, groups: map<int, seq<int>>)
    requires Grouped(ids, root, keys, groups)
    requires forall x :: x in ids ==> x < id
    requires root(id) in groups
    ensures Grouped(ids + [id], root, keys, groups[root(id) := groups[root(id)] + [id]])
  {
    var r := root(id);
    var longer := groups[r] + [id];
    var groups' := groups[r := longer];
    forall i, j | 0 <= i < j < |longer| ensures longer[i] < longer[j] {
      assert groups[r][i] in groups[r];
      assert longer[i] in ids;
    }
    forall q ensures Head(groups', q) == Head(groups, q) {}
    forall q, x | q in groups' && x in groups'[q] ensures root(x) == q && x in ids + [id] {
      assert x in groups[q] || x == id;
    }
    forall x | x in ids + [id] ensures root(x) in keys && root(x) in groups' && x in groups'[root(x)] {
      assert x in ids || x == id;
      if x == id {
        assert longer[|longer| - 1] == id;
      } else {
        assert x in groups[root(x)];
      }
    }
  }

  lemma HeadIsEarlier(ids: seq<int>, id: int, root: int -> int, keys: seq<int>, groups: map<int, seq<int>>, q: int)
    requires Grouped(ids, root, keys, groups)
    requires forall x :: x in ids ==> x < id
    requires q in groups
    ensures Head(groups, q) < id
  {
    var group := groups[q];
    assert group != [] && group[0] in group;
    assert group[0] in groups[q];
    assert root(group[0]) == q && group[0] in ids;
  }

  lemma GroupOpen(ids: seq<int>, id: int, root: int -> int, keys: seq<int>, groups: map<int, seq<int>>)
    requires Grouped(ids, root, keys, groups)
    requires forall x :: x in ids ==> x < id
    requires root(id) !in groups
    ensures Grouped(ids + [id], root, keys + [root(id)], groups[root(id) := [id]])
  {
    var r := root(id);
    var keys', groups' := keys + [r], groups[r := [id]];
    forall i | 0 <= i < |keys| ensures keys[i] != r && Head(groups', keys[i]) == Head(groups, keys[i]) < id {
      HeadIsEarlier(ids, id, root, keys, groups, keys[i]);
    }
    forall q, x | q in groups' && x in groups'[q] ensures root(x) == q && x in ids + [id] {
      assert q == r ==> x == id;
    }
    forall x | x in ids + [id] ensures root(x) in keys' && root(x) in groups' && x in groups'[root(x)] {
      assert x in ids || x == id;
      assert keys'[|keys|] == r;
    }
    forall q | q in groups' ensures q in keys' && groups'[q] != [] && StrictlyAscending(groups'[q]) {
      assert keys'[|keys|] == r;
    }
  }

  /** `for eid in sorted(all_ids): clusters.setdefault(find(eid), []).append(eid)` */
  method GroupByRoot(forest: Forest, ids: seq<int>) returns (keys: seq<int>, groups: map<int, seq<int>>)
    requires forest.Valid() && StrictlyAscending(ids)
    modifies forest`parent
    ensures forest.Valid()
    ensures Grouped(ids, forest.root, keys, groups)
  {
    keys, groups := [], map[];
    for k := 0 to |ids|
      invariant forest.Valid()
      invariant Grouped(ids[..k], forest.root, keys, groups)
    {
      assert ids[..k + 1] == ids[..k] + [ids[k]];
      var r := forest.Find(ids[k]);
      if r in groups {
        GroupAppend(ids[..k], ids[k], forest.root, keys, groups);
        groups := groups[r := groups[r] + [ids[k]]];
      } else {
        GroupOpen(ids[..k], ids[k], forest.root, keys, groups);
        keys := keys + [r];
        groups := groups[r := [ids[k]]];
      }
    }
    assert ids[..|ids|] == ids;
  }

  method TransitiveClusters(pairs: seq<(int, int)>) returns (clusters: seq<seq<int>>)
    ensures IsClustering(pairs, clusters)
  {
    var forest := new Forest();
    var allIds: set<int> := {};
    NoPairsNoClasses(forest.root);
    for k := 0 to |pairs|
      invariant forest.Valid() && fresh(forest)
      invariant RootsAreClasses(pairs[..k], forest.root)
      invariant forall id :: id in allIds <==> Mentioned(pairs[..k], id)
    {
      var (a, b) := pairs[k];
      assert pairs[..k + 1] == pairs[..k] + [(a, b)];
      MentionedNext(pairs[..k], a, b);
      UnionKeepsClasses(pairs[..k], a, b, forest.root);
      allIds := allIds + {a, b};
      forest.Union(a, b);
    }
    assert pairs[..|pairs|] == pairs;
    var ids := Sorted(allIds);
    var keys, groups := GroupByRoot(forest, ids);
    clusters := [];
    for i := 0 to |keys|
      invariant |clusters| == i && forall j :: 0 <= j < i ==> keys[j] in groups && clusters[j] == groups[keys[j]]
    {
      clusters := clusters + [groups[keys[i]]];
    }
    GroupedIsClustering(pairs, forest.root, ids, keys, groups, clusters);
  }

  lemma NoPairsNoClasses(root: int -> int)
    requires root == (x => x)
    ensures RootsAreClasses([], root)
  {
    forall x ensures Connected([], x, root(x)) {
      ConnectedRefl([], x);
    }
  }

  lemma MentionedNext(pairs: seq<(int, int)>, a: int, b: int)
    ensures forall id :: Mentioned(pairs + [(a, b)], id) <==> Mentioned(pairs, id) || id == a || id == b
  {
    var more := pairs + [(a, b)];
    forall id ensures Mentioned(more, id) <==> Mentioned(pairs, id) || id == a || id == b {
      if Mentioned(pairs, id) {
        var i :| 0 <= i < |pairs| && (pairs[i].0 == id || pairs[i].1 == id);
        assert more[i] == pairs[i];
      }
      assert more[|pairs|] == (a, b);
    }
  }

  lemma GroupedIsClustering(pairs: seq<(int, int)>, root: int -> int, ids: seq<int>, keys: seq<int>,
                            groups: map<int, seq<int>>, clusters: seq<seq<int>>)
    requires RootsAreClasses(pairs, root)
    requires forall id :: id in ids <==> Mentioned(pairs, id)
    requires Grouped(ids, root, keys, groups)
    requires |clusters| == |keys|
    requires forall i :: 0 <= i < |keys| ==> keys[i] in groups && clusters[i] == groups[keys[i]]
    ensures IsClustering(pairs, clusters)
  {
    forall i | 0 <= i < |clusters| ensures clusters[i] != [] && StrictlyAscending(clusters[i])
      ensures Head(groups, keys[i]) == clusters[i][0]
    {
      assert keys[i] in groups;
    }
    forall id ensures Mentioned(pairs, id) <==> InSome(clusters, id) {
      if Mentioned(pairs, id) {
        assert root(id) in keys;
        var i :| 0 <= i < |keys| && keys[i] == root(id);
        assert id in clusters[i];
      }
      if InSome(clusters, id) {
        var i :| 0 <= i < |clusters| && id in clusters[i];
        assert keys[i] in groups && id in groups[keys[i]];
      }
    }
    forall i, j, a, b | 0 <= i < |clusters| && 0 <= j < |clusters| && a in clusters[i] && b in clusters[j]
      ensures i == j <==> Connected(pairs, a, b)
    {
      SameRootIffConnected(pairs, root, a, b);
      assert a in groups[keys[i]] && b in groups[keys[j]];
      assert root(a) == keys[i] && root(b) == keys[j];
      if i < j { assert Head(groups, keys[i]) < Head(groups, keys[j]); }
      if j < i { assert Head(groups, keys[j]) < Head(groups, keys[i]); }
    }
  }

  // ---- The answer depends on the similarity relation alone ----

  lemma {:induction false} AscendingIsUnique(s: seq<int>, t: seq<int>)
    requires StrictlyAscending(s) && StrictlyAscending(t)
    requires forall x :: x in s <==> x in t
    ensures s == t
  {
    if t != [] {
      assert t[0] in t;
    }
    if s != [] {
      assert s[0] in s && s[0] in t;
      assert t[0] in t && t[0] in s;
      var s', t' := s[1..], t[1..];
      forall x ensures x in s' <==> x in t' {
        assert x in s' ==> x in t && x != t[0];
        assert x in t' ==> x in s && x != s[0];
      }
      AscendingIsUnique(s', t');
      assert s == [s[0]] + s' && t == [t[0]] + t';
    }
  }

  ghost predicate SameRelation(p: seq<(int, int)>, q: seq<(int, int)>) {
    && (forall id :: Mentioned(p, id) <==> Mentioned(q, id))
    && (forall a, b :: Connected(p, a, b) <==> Connected(q, a, b))
  }

  ghost function Heads(clusters: seq<seq<int>>): (r: seq<int>)
    requires forall i :: 0 <= i < |clusters| ==> clusters[i] != []
    ensures |r| == |clusters| && forall i :: 0 <= i < |r| ==> r[i] == clusters[i][0]
  {
    seq(|clusters|, i requires 0 <= i < |clusters| => clusters[i][0])
  }

  lemma HeadIsShared(p: seq<(int, int)>, q: seq<(int, int)>, cs: seq<seq<int>>, ds: seq<seq<int>>, i: nat)
    returns (j: nat)
    requires IsClustering(p, cs) && IsClustering(q, ds) && SameRelation(p, q)
    requires i < |cs|
    ensures j < |ds| && ds[j][0] == cs[i][0]
    ensures forall x :: x in cs[i] <==> x in ds[j]
  {
    var head := cs[i][0];
    assert InSome(cs, head) && Mentioned(p, head);
    assert InSome(ds, head);
    j :| 0 <= j < |ds| && head in ds[j];
    forall x ensures x in cs[i] <==> x in ds[j] {
      if x in cs[i] {
        assert InSome(cs, x) && Connected(p, head, x) && Mentioned(p, x);
        assert InSome(ds, x);
        var k :| 0 <= k < |ds| && x in ds[k];
        assert Connected(q, head, x) && j == k;
      }
      if x in ds[j] {
        assert InSome(ds, x) && Connected(q, head, x) && Mentioned(q, x);
        assert InSome(cs, x);
        var k :| 0 <= k < |cs| && x in cs[k];
        assert Connected(p, head, x) && i == k;
      }
    }
    assert ds[j][0] in cs[i] && head in ds[j];
  }

  /** Pair order, duplicates and orientation never change the clusters. */
  lemma ClusteringIsUnique(p: seq<(int, int)>, q: seq<(int, int)>, cs: seq<seq<int>>, ds: seq<seq<int>>)
    requires IsClustering(p, cs) && IsClustering(q, ds) && SameRelation(p, q)
    ensures cs == ds
  {
    forall h ensures h in Heads(cs) <==> h in Heads(ds) {
      if h in Heads(cs) {
        var i :| 0 <= i < |cs| && Heads(cs)[i] == h;
        var j := HeadIsShared(p, q, cs, ds, i);
        assert Heads(ds)[j] == h;
      }
      if h in Heads(ds) {
        var i :| 0 <= i < |ds| && Heads(ds)[i] == h;
        var j := HeadIsShared(q, p, ds, cs, i);
        assert Heads(cs)[j] == h;
      }
    }
    AscendingIsUnique(Heads(cs), Heads(ds));
    forall i | 0 <= i < |cs| ensures cs[i] == ds[i] {
      var j := HeadIsShared(p, q, cs, ds, i);
      assert Heads(ds)[i] == Heads(ds)[j];
      AscendingIsUnique(cs[i], ds[i]);
    }
  }

  /** Dismissing a pair removes the pair, not the chain around it: here 1 and 3
      are connected, and so clustered, without a pair of their own. */
  lemma DismissedPairMayStillShare()
    ensures Connected([(1, 2), (2, 3)], 1, 3)
    ensures !Linked([(1, 2), (2, 3)], 1, 3)
  {
    var pairs := [(1, 2), (2, 3)];
    assert pairs[0] == (1, 2) && pairs[1] == (2, 3);
    PairConnects(pairs, 1, 2);
    PairConnects(pairs, 2, 3);
    ConnectedTrans(pairs, 1, 2, 3);
  }
}
