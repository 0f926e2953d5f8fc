// Runs of the page-table B-tree: every delete-free sequence of inserts from the empty
// tree, and one that leads to a tree in which inserting a stored key again loses others.
module BTreeRun {
  import opened Bytes
  import opened BTree

  datatype Insertion = Insertion(key: Key, value: Key)

  // tree is what the inserts make of the empty tree.
  ghost predicate Reaches(puts: seq<Insertion>, tree: Tree) {
    if puts == [] then tree == Empty()
    else
      var n := |puts| - 1;
      exists before: Tree :: Reaches(puts[..n], before) && Adds(before, puts[n], tree)
  }

  ghost predicate Adds(before: Tree, put: Insertion, tree: Tree) {
    Whole(before) && Room(before) && tree == Inserted(before, put.key, put.value)
  }

  // The same, with no insert that loses keys.
  ghost predicate Spares(puts: seq<Insertion>, tree: Tree) {
    if puts == [] then tree == Empty()
    else
      var n := |puts| - 1;
      exists before: Tree ::
        Spares(puts[..n], before) && Adds(before, puts[n], tree) && TreeLoss(before, puts[n].key).None?
  }

  function Written(puts: seq<Insertion>): map<Key, Key> {
    if puts == [] then map[]
    else
      var n := |puts| - 1;
      Written(puts[..n])[puts[n].key := puts[n].value]
  }

  predicate Distinct(puts: seq<Insertion>) {
    forall i, j :: 0 <= i < j < |puts| ==> puts[i].key != puts[j].key
  }

  predicate Has(puts: seq<Insertion>, key: Key, value: Key) {
    Insertion(key, value) in puts
  }

  lemma EmptySound()
    ensures Sound(Empty()) && Empty().t.contents == map[]
  {
  }

  // A key that is not stored loses nothing and separates nowhere.
  lemma FreshKey(tree: Tree, key: Key)
    requires Sound(tree) && key !in tree.t.contents
    ensures TreeLoss(tree, key).None? && !RoutesBy(tree, key)
  {
    hide Shape, Seeded, Matches, Inv, LossBelow, Rank, RoutesBy;
    if RoutesBy(tree, key) { RoutesStored(tree, key); }
    if tree.root != 0 && TreeLoss(tree, key).Some? {
      RootFits(tree.t, tree.root);
      RankInRange(key);
      LossNeedsKey(tree.t.pages, tree.t.span, tree.t.contents, tree.root, key);
    }
  }

  lemma {:induction false} LossNeedsKey(pages: Pages, span: Spans, contents: map<Key, Key>, id: PageId, key: Key)
    requires Holds(pages, span, contents) && id in pages && span[id].lo < Rank(key) <= span[id].hi
    requires LossBelow(pages, id, span[id].depth, key).Some?
    ensures key in contents
    decreases span[id].depth
  {
    hide Rank;
    var c := Descend(pages, span, id, key);
    if SharedFull(pages, c, key) {
      assert PageMatches(pages[c], span[c], contents) && pages[c].keys[MAX_KEYS / 2 - 1] in pages[c].keys;
    } else {
      LossNeedsKey(pages, span, contents, c, key);
    }
  }

  // As long as no insert meets the guard, a tree holds exactly the keys that were
  // inserted, each with a value that was inserted for it.
  lemma {:induction false} SparedRun(puts: seq<Insertion>, tree: Tree)
    requires Spares(puts, tree)
    ensures Sound(tree)
    ensures forall k :: k in tree.t.contents ==> Has(puts, k, tree.t.contents[k])
    ensures forall i :: 0 <= i < |puts| ==> puts[i].key in tree.t.contents
  {
    hide Sound, Whole, Room, Inserted, TreeLoss, RoutesBy;
    if puts == [] {
      EmptySound();
    } else {
      var n := |puts| - 1;
      var before :| Spares(puts[..n], before) && Adds(before, puts[n], tree) && TreeLoss(before, puts[n].key).None?;
      SparedRun(puts[..n], before);
      InsertedSound(before, puts[n].key, puts[n].value);
      if RoutesBy(before, puts[n].key) { RoutesStored(before, puts[n].key); }
      forall i | 0 <= i < |puts| ensures puts[i].key in tree.t.contents {
        if i < n { assert puts[..n][i] == puts[i]; }
      }
    }
  }

  // Inserting each key once is a map update every time.
  lemma {:induction false} DistinctRun(puts: seq<Insertion>, tree: Tree)
    requires Reaches(puts, tree) && Distinct(puts)
    ensures Sound(tree) && tree.t.contents == Written(puts)
    ensures forall k :: FoundIn(tree, k) == if k in Written(puts) then Some(Written(puts)[k]) else None
  {
    hide Sound, Whole, Room, Inserted, TreeLoss, RoutesBy, FoundIn;
    if puts == [] {
      EmptySound();
    } else {
      var n := |puts| - 1;
      var before :| Reaches(puts[..n], before) && Adds(before, puts[n], tree);
      DistinctRun(puts[..n], before);
      WrittenKeys(puts[..n]);
      FreshKey(before, puts[n].key);
      InsertedSound(before, puts[n].key, puts[n].value);
    }
    ReadsTree(tree);
  }

  lemma {:induction false} WrittenKeys(puts: seq<Insertion>)
    ensures forall k :: k in Written(puts) ==> exists i :: 0 <= i < |puts| && puts[i].key == k
  {
    if puts != [] {
      var n := |puts| - 1;
      WrittenKeys(puts[..n]);
      forall k | k in Written(puts) ensures exists i :: 0 <= i < |puts| && puts[i].key == k {
        if k == puts[n].key {
          assert puts[n].key == k;
        } else {
          assert k in Written(puts[..n]);
          var i :| 0 <= i < |puts[..n]| && puts[..n][i].key == k;
          assert puts[i].key == k;
        }
      }
    }
  }

  // ---------------------------------------------------------------- one step of a run

  const STEPS := 40_000

  // A run of different keys with room for more inserts.
  ghost predicate Live(puts: seq<Insertion>, tree: Tree) {
    && Reaches(puts, tree) && Sound(tree) && |puts| <= STEPS && tree.t.nextID <= 1 + 8 * |puts|
    && Distinct(puts) && forall i :: 0 <= i < |puts| ==> puts[i].key in tree.t.contents
  }

  lemma LiveRoom(puts: seq<Insertion>, tree: Tree)
    requires Live(puts, tree)
    ensures Whole(tree) && Room(tree) && TreeHeight(tree) <= 5
  {
    hide Rank, Reaches, Shape, Seeded, Matches, Inv;
    if tree.root != 0 {
      RootFits(tree.t, tree.root);
      TreeIsShallow(tree.t.pages, tree.t.span, tree.root);
    }
  }

  // A fresh key is inserted.
  lemma Go(puts: seq<Insertion>, tree: Tree, key: Key) returns (puts': seq<Insertion>, tree': Tree)
    requires Live(puts, tree) && |puts| < STEPS && key !in tree.t.contents
    ensures puts' == puts + [Insertion(key, [])] && Live(puts', tree')
    ensures Whole(tree) && Room(tree) && tree' == Inserted(tree, key, [])
    ensures tree'.t.contents == tree.t.contents[key := []] && tree'.root != 0
  {
    hide Rank, Shape, Seeded, Holds, Sound, Whole, Room, TreeLoss, RoutesBy, Inserted;
    LiveRoom(puts, tree);
    puts', tree' := puts + [Insertion(key, [])], Inserted(tree, key, []);
    FreshKey(tree, key);
    InsertedSound(tree, key, []);
    InsertedWhole(tree, key, []);
    IdsGrow(tree, key, []);
    assert puts'[..|puts|] == puts;
    assert Adds(tree, Insertion(key, []), tree');
  }

  ghost predicate Short(puts: seq<Insertion>) {
    forall i :: 0 <= i < |puts| ==> |puts[i].key| == 2
  }

  lemma IdsGrow(tree: Tree, key: Key, value: Key)
    requires Sound(tree) && Room(tree) && TreeHeight(tree) <= 5
    ensures Inserted(tree, key, value).t.nextID <= tree.t.nextID + 8 || tree.root == 0
    ensures tree.root == 0 ==> Inserted(tree, key, value).t.nextID == 2
  {
    hide Rank, Shape, Seeded, Holds, InsertAt;
    if tree.root != 0 {
      GrownFits(tree);
      RootFits(tree.t, tree.root);
      if |tree.t.pages[tree.root].keys| >= MAX_KEYS {
        GrowRootTop(tree.t, tree.root);
        GrowRootBounds(tree.t, tree.root);
      }
      InsertFramed(Grown(tree).t, Grown(tree).root, key, value, Own);
    }
  }

  // ---------------------------------------------------------------- runs of the object

  // One insert makes any tree at most one level higher and takes few ids.
  lemma GrowsLittle(tree: Tree, key: Key, value: Key)
    requires Whole(tree) && Room(tree)
    ensures var tree' := Inserted(tree, key, value);
            && Whole(tree') && TreeHeight(tree') <= TreeHeight(tree) + 1
            && (tree'.t.nextID <= tree.t.nextID + TreeHeight(tree) + 3 || tree'.t.nextID == 2)
  {
    hide Rank, Shape, Seeded, InsertAt, GrownRoot;
    InsertedWhole(tree, key, value);
    if tree.root == 0 {
      FirstInserted(tree, key, value);
    } else {
      GrownFits(tree);
      RootFits(tree.t, tree.root);
      InsertFramed(Grown(tree).t, Grown(tree).root, key, value, Own);
      if |tree.t.pages[tree.root].keys| >= MAX_KEYS {
        GrowRootTop(tree.t, tree.root);
        GrowRootBounds(tree.t, tree.root);
      }
    }
  }

  // What Insert does, called on a new tree for one key after the other, is the run.
  method Build(puts: seq<Insertion>) returns (tree: BTree)
    requires |puts| <= STEPS
    ensures tree.Readable() && Reaches(puts, tree.This())
  {
    hide Whole, TreeHeight, Inserted, Sound;
    tree := new BTree();
    assert tree.Readable() && TreeHeight(Empty()) == 0 by { EmptyWhole(); }
    for i := 0 to |puts|
      invariant fresh(tree) && tree.Readable() && !tree.closed && Reaches(puts[..i], tree.This())
      invariant TreeHeight(tree.This()) <= i && tree.This().t.nextID <= 2 + i * (STEPS + 3)
    {
      ghost var before := tree.This();
      GrowsLittle(before, puts[i].key, puts[i].value);
      var _ := tree.Insert(puts[i].key, puts[i].value);
      assert puts[..i + 1][..i] == puts[..i];
      assert Adds(before, puts[..i + 1][i], tree.This());
    }
    assert puts[..|puts|] == puts;
  }

  lemma EmptyWhole()
    ensures Whole(Empty()) && TreeHeight(Empty()) == 0
  {
  }

  // ---------------------------------------------------------------- ascending keys

  function K(x: nat): (key: Key)
    ensures |key| == 2
  {
    [x / 256 % 256, x % 256]
  }

  function Ks(a: nat, m: nat): (keys: seq<Key>)
    ensures |keys| == m
  {
    seq(m, i requires 0 <= i < m => K(a + i))
  }

  lemma AscendingKeys(x: nat, y: nat)
    requires x < y < 65536
    ensures Rank(K(x)) < Rank(K(y))
  {
    hide Rank;
    var u, v := K(x), K(y);
    CompareIsRankOrder(u, v);
    assert u[1..] == [x % 256] && v[1..] == [y % 256];
    assert x / 256 <= y / 256 < 256 && (x / 256 == y / 256 ==> x % 256 < y % 256);
    assert Compare(u, v) < 0;
  }

  // A third byte puts a key between two of them.
  lemma BetweenKeys(x: nat, d: nat)
    requires x + 1 < 65536 && d < 256
    ensures Rank(K(x)) < Rank(K(x) + [d]) < Rank(K(x + 1))
  {
    hide Rank;
    var u, v, w := K(x), K(x) + [d], K(x + 1);
    CompareIsRankOrder(u, v);
    CompareIsRankOrder(v, w);
    assert u[1..] == [x % 256] && v[1..] == [x % 256, d] && w[1..] == [(x + 1) % 256];
    assert u[1..][1..] == [] && v[1..][1..] == [d];
    assert Compare(u[1..][1..], v[1..][1..]) == -1;
    assert Compare(u[1..], v[1..]) == -1;
    assert Compare(u, v) == -1;
    assert (x + 1) / 256 >= x / 256 && ((x + 1) / 256 == x / 256 ==> (x + 1) % 256 > x % 256);
    assert Compare(v, w) < 0;
  }

  lemma PastAll(keys: seq<Key>, key: Key)
    requires forall i :: 0 <= i < |keys| ==> Rank(keys[i]) < Rank(key)
    ensures Past(keys, key) == |keys| && ChildIndex(keys, key) == |keys|
    ensures key !in keys
  {
    hide Rank;
    PastTurns(keys, key);
    TurnsOnce(keys, Past(keys, key), |keys|, key);
    ChildIndexIs(keys, key, |keys|);
  }

  // ---------------------------------------------------------------- one step of an insert

  // The child is not full.
  lemma Down(t: State, id: PageId, i: nat, key: Key, value: Key, way: Way)
    requires Fits(t, id) && !t.pages[id].leaf && Past(t.pages[id].keys, key) == i && i < |t.pages[id].childs|
    requires t.pages[id].childs[i] in t.pages && |t.pages[t.pages[id].childs[i]].keys| < MAX_KEYS
    ensures var c := t.pages[id].childs[i];
            Fits(t, c) && InsertAt(t, id, key, value, way) == InsertAt(t, c, key, value, NextWay(t, id, i, key, way))
  {
    hide Rank, Shape, Seeded;
    FitsSteps(t, id);
    NextFits(t, id, i, key);
  }

  // The child is full, and its upper half is the one to go on with.
  lemma DownSplit(t: State, id: PageId, i: nat, key: Key, value: Key, way: Way)
    requires Fits(t, id) && !t.pages[id].leaf && Past(t.pages[id].keys, key) == i && i < |t.pages[id].childs|
    requires var c := t.pages[id].childs[i]; c in t.pages && Full(t.pages[c]) && Rank(Cut(t.pages[c])) < Rank(key)
    ensures CanStep(t, id, i) && CanCut(t.pages, id, i, t.nextID)
    ensures var t1 := Stepped(t, id, i);
            && t1.pages == Split(t.pages, id, i, t.nextID) && Fits(t1, t.nextID)
            && InsertAt(t, id, key, value, way) == InsertAt(t1, t.nextID, key, value, NextWay(t, id, i, key, way))
  {
    hide Rank, Seeded;
    FitsSteps(t, id);
    StepFits(t, id, i);
    hide Shape;
    CompareIsRankOrder(key, Cut(t.pages[t.pages[id].childs[i]]));
    NextFits(t, id, i, key);
  }

  // A leaf takes the key at its end.
  lemma AtEnd(t: State, id: PageId, key: Key, value: Key, way: Way)
    requires Fits(t, id) && t.pages[id].leaf
    requires forall i :: 0 <= i < |t.pages[id].keys| ==> Rank(t.pages[id].keys[i]) < Rank(key)
    ensures var p, t' := t.pages[id], InsertAt(t, id, key, value, way);
            t'.pages == t.pages[id := p.(keys := p.keys + [key], vals := p.vals + [value])]
  {
    hide Rank, Seeded, Shape;
    FitsSteps(t, id);
    var p := t.pages[id];
    PastAll(p.keys, key);
    assert p.keys[..|p.keys|] + [key] + p.keys[|p.keys|..] == p.keys + [key];
    assert p.vals[..|p.keys|] + [value] + p.vals[|p.keys|..] == p.vals + [value];
  }

  // ---------------------------------------------------------------- the right flank

  // The keys of the last leaf w are consecutive and the greatest of all; r is its parent,
  // and the root or the second child of the root.
  ghost predicate Flank(t: State, root: PageId, r: PageId, w: PageId, n: nat, a: nat, m: nat) {
    && RootOk(t, root) && r in t.pages && r in t.span && w in t.pages && w in t.span && w != r && w != root
    && !t.pages[r].leaf && |t.pages[r].keys| == n && |t.pages[r].childs| == n + 1 && t.pages[r].childs[n] == w
    && t.pages[w].leaf && t.pages[w].keys == Ks(a, m) && 0 < m <= MAX_KEYS && a + m < 65536
    && |t.pages[w].vals| == m
    && (forall k :: k in t.contents ==> Rank(k) <= Rank(K(a + m - 1)))
    && t.span[r].depth == 1 && OnTop(t, root, r)
  }

  ghost predicate OnTop(t: State, root: PageId, r: PageId)
    requires root in t.pages && root in t.span
  {
    r != root ==>
      && t.span[root].depth == 2 && !t.pages[root].leaf && |t.pages[root].keys| == 1
      && |t.pages[root].childs| == 2 && t.pages[root].childs[1] == r
  }

  // The next key is greater than all separators.
  lemma NextIsPast(t: State, id: PageId, x: nat)
    requires Matches(t.pages, t.span, t.contents) && id in t.pages && !t.pages[id].leaf && x + 1 < 65536
    requires forall k :: k in t.contents ==> Rank(k) <= Rank(K(x))
    ensures Past(t.pages[id].keys, K(x + 1)) == |t.pages[id].keys| && K(x + 1) !in t.contents
  {
    hide Rank, K;
    var keys := t.pages[id].keys;
    assert PageMatches(t.pages[id], t.span[id], t.contents);
    AscendingKeys(x, x + 1);
    forall i | 0 <= i < |keys| ensures Rank(keys[i]) < Rank(K(x + 1)) { assert keys[i] in t.contents; }
    PastAll(keys, K(x + 1));
  }

  // From the root down to r.
  lemma ToFlank(t: State, root: PageId, r: PageId, w: PageId, n: nat, a: nat, m: nat) returns (way: Way)
    requires Flank(t, root, r, w, n, a, m) && Fits(t, root) && n < MAX_KEYS
    ensures Fits(t, r) && Past(t.pages[r].keys, K(a + m)) == n && K(a + m) !in t.contents
    ensures InsertAt(t, root, K(a + m), [], Own) == InsertAt(t, r, K(a + m), [], way)
  {
    hide Rank, K, Shape, Seeded, Inv, Fits, InsertAt;
    NextIsPast(t, r, a + m - 1);
    way := Own;
    if r != root {
      NextIsPast(t, root, a + m - 1);
      Down(t, root, 1, K(a + m), [], Own);
      way := NextWay(t, root, 1, K(a + m), Own);
    }
  }

  // The last leaf takes the next key.
  lemma FlankAppend(t: State, root: PageId, r: PageId, w: PageId, n: nat, a: nat, m: nat)
    requires Flank(t, root, r, w, n, a, m) && Fits(t, root) && n < MAX_KEYS && m < MAX_KEYS && a + m + 1 < 65536
    ensures var p := t.pages[w];
            InsertAt(t, root, K(a + m), [], Own).pages ==
            t.pages[w := p.(keys := Ks(a, m + 1), vals := p.vals + [[]])]
    ensures K(a + m) !in t.contents
  {
    hide Rank, K, Shape, Seeded, Inv, Fits, InsertAt, RootOk, Matches;
    var way := ToFlank(t, root, r, w, n, a, m);
    Down(t, r, n, K(a + m), [], way);
    LastLeaf(t.pages[w].keys, a, m);
    AtEnd(t, w, K(a + m), [], NextWay(t, r, n, K(a + m), way));
  }

  lemma LastLeaf(keys: seq<Key>, a: nat, m: nat)
    requires keys == Ks(a, m) && a + m < 65536
    ensures forall i :: 0 <= i < m ==> Rank(keys[i]) < Rank(K(a + m))
    ensures keys + [K(a + m)] == Ks(a, m + 1)
  {
    hide Rank, K;
    forall i | 0 <= i < m ensures Rank(keys[i]) < Rank(K(a + m)) { AscendingKeys(a + i, a + m); }
  }

  // The full last leaf w has been split, and v has taken one more key.
  ghost predicate LastSplit(t: State, pages': Pages, r: PageId, w: PageId, v: PageId, a: nat) {
    && r in t.pages && r in pages' && w in pages' && v in pages' && pages'.Keys == t.pages.Keys + {v}
    && (var p := t.pages[r]; pages'[r] == p.(keys := p.keys + [K(a + 99)], childs := p.childs + [v]))
    && pages'[w].leaf && pages'[w].keys == Ks(a, 100)
    && pages'[v].leaf && pages'[v].keys == Ks(a + 100, 101) && |pages'[v].vals| == 101
    && (forall q :: q in t.pages && q != r && q != w ==> pages'[q] == t.pages[q])
  }

  // The last leaf is full: it is split, and its upper half takes the key.
  lemma FlankSplit(t: State, root: PageId, r: PageId, w: PageId, n: nat, a: nat)
    requires Flank(t, root, r, w, n, a, MAX_KEYS) && Fits(t, root) && n < MAX_KEYS && a + MAX_KEYS + 1 < 65536
    ensures K(a + MAX_KEYS) !in t.contents && t.nextID !in t.pages && 0 < t.nextID < PAGE_IDS
    ensures LastSplit(t, InsertAt(t, root, K(a + MAX_KEYS), [], Own).pages, r, w, t.nextID, a)
  {
    hide Rank, K, Shape, Seeded, Inv, Fits, InsertAt, RootOk, Matches;
    var way := ToFlank(t, root, r, w, n, a, MAX_KEYS);
    var key, p := K(a + MAX_KEYS), t.pages[w];
    LastLeaf(p.keys, a, MAX_KEYS);
    assert Cut(p) == K(a + 99);
    DownSplit(t, r, n, key, [], way);
    var t1, v := Stepped(t, r, n), t.nextID;
    var h := RightHalf(p);
    assert h.keys == Ks(a + 100, 100);
    LastLeaf(h.keys, a + 100, 100);
    assert t1.pages[v] == h && LeftHalf(p).keys == Ks(a, 100);
    AtEnd(t1, v, key, [], NextWay(t, r, n, key, way));
    assert t.pages[r].keys[..n] + [K(a + 99)] + t.pages[r].keys[n..] == t.pages[r].keys + [K(a + 99)];
    assert t.pages[r].childs[..n + 1] + [v] + t.pages[r].childs[n + 1..] == t.pages[r].childs + [v];
  }

  // ---------------------------------------------------------------- trees along the run

  ghost predicate FlankTree(tree: Tree, r: PageId, w: PageId, n: nat, a: nat, m: nat) {
    tree.root != 0 && Flank(tree.t, tree.root, r, w, n, a, m)
  }

  // The greatest key that is stored moves on.
  lemma MaxMoves(contents: map<Key, Key>, contents': map<Key, Key>, x: nat)
    requires contents' == contents[K(x + 1) := []] && x + 1 < 65536
    requires forall k :: k in contents ==> Rank(k) <= Rank(K(x))
    ensures forall k :: k in contents' ==> Rank(k) <= Rank(K(x + 1))
  {
    hide Rank, K;
    AscendingKeys(x, x + 1);
  }

  // The page table after an insert into a tree whose root is not full.
  lemma InsertedTable(tree: Tree, key: Key)
    requires Whole(tree) && Room(tree) && tree.root != 0 && |tree.t.pages[tree.root].keys| < MAX_KEYS
    ensures Fits(tree.t, tree.root) && Inserted(tree, key, []).root == tree.root
    ensures Inserted(tree, key, []).t == InsertAt(tree.t, tree.root, key, [], Own)
    ensures var t, t' := tree.t, Inserted(tree, key, []).t;
            && t'.pages.Keys == t'.span.Keys && t.pages.Keys == t.span.Keys
            && forall q :: q in t.span ==> q in t'.span && t'.span[q].depth == t.span[q].depth
  {
    hide Rank, Shape, Seeded, InsertAt;
    GrownFits(tree);
    InsertFramed(tree.t, tree.root, key, [], Own);
    InsertedWhole(tree, key, []);
    RootFits(Inserted(tree, key, []).t, tree.root);
    RootFits(tree.t, tree.root);
  }

  lemma RootNotFull(tree: Tree, r: PageId, w: PageId, n: nat, a: nat, m: nat)
    requires FlankTree(tree, r, w, n, a, m) && n < MAX_KEYS
    ensures tree.root in tree.t.pages && |tree.t.pages[tree.root].keys| < MAX_KEYS
  {
    hide Rank, Shape, Seeded, Holds, K;
  }

  // Nothing else changes.
  ghost predicate OthersStay(t: State, t': State, r: PageId, w: PageId) {
    forall q :: q in t.pages && q != r && q != w ==> q in t'.pages && t'.pages[q] == t.pages[q]
  }

  lemma Append(puts: seq<Insertion>, tree: Tree, r: PageId, w: PageId, n: nat, a: nat, m: nat)
    returns (puts': seq<Insertion>, tree': Tree)
    requires Live(puts, tree) && |puts| < STEPS && FlankTree(tree, r, w, n, a, m)
    requires n < MAX_KEYS && m < MAX_KEYS && a + m + 1 < 65536
    ensures Short(puts) ==> Short(puts')
    ensures Live(puts', tree') && |puts'| == |puts| + 1 && FlankTree(tree', r, w, n, a, m + 1)
    ensures tree'.root == tree.root && r in tree'.t.pages && r in tree.t.pages && tree'.t.pages[r] == tree.t.pages[r]
    ensures OthersStay(tree.t, tree'.t, r, w)
  {
    hide Rank, K, Shape, Seeded, Holds, Live, InsertAt, Sound, Inserted;
    RootNotFull(tree, r, w, n, a, m);
    LiveRoom(puts, tree);
    InsertedTable(tree, K(a + m));
    FlankAppend(tree.t, tree.root, r, w, n, a, m);
    puts', tree' := Go(puts, tree, K(a + m));
    MaxMoves(tree.t.contents, tree'.t.contents, a + m - 1);
    assert RootOk(tree'.t, tree'.root) by { LiveRootOk(puts', tree'); }
  }

  lemma LiveRootOk(puts: seq<Insertion>, tree: Tree)
    requires Live(puts, tree) && tree.root != 0
    ensures RootOk(tree.t, tree.root)
  {
    hide Reaches;
  }

  lemma SplitLast(puts: seq<Insertion>, tree: Tree, r: PageId, w: PageId, n: nat, a: nat)
    returns (puts': seq<Insertion>, tree': Tree, v: PageId)
    requires Live(puts, tree) && |puts| < STEPS && FlankTree(tree, r, w, n, a, MAX_KEYS)
    requires n < MAX_KEYS && a + MAX_KEYS + 1 < 65536
    ensures Short(puts) ==> Short(puts')
    ensures Live(puts', tree') && |puts'| == |puts| + 1 && FlankTree(tree', r, v, n + 1, a + 100, 101)
    ensures tree'.root == tree.root && r in tree'.t.pages && r in tree.t.pages && w in tree'.t.pages
    ensures tree'.t.pages[r] ==
            var p := tree.t.pages[r]; p.(keys := p.keys + [K(a + 99)], childs := p.childs + [v])
    ensures tree'.t.pages[w].leaf && tree'.t.pages[w].keys == Ks(a, 100)
    ensures OthersStay(tree.t, tree'.t, r, w) && v !in tree.t.pages
  {
    hide Rank, K, Shape, Seeded, Holds, Live, InsertAt, Sound, Inserted;
    RootNotFull(tree, r, w, n, a, MAX_KEYS);
    LiveRoom(puts, tree);
    InsertedTable(tree, K(a + MAX_KEYS));
    FlankSplit(tree.t, tree.root, r, w, n, a);
    v := tree.t.nextID;
    puts', tree' := Go(puts, tree, K(a + MAX_KEYS));
    MaxMoves(tree.t.contents, tree'.t.contents, a + MAX_KEYS - 1);
    assert RootOk(tree'.t, tree'.root) by { LiveRootOk(puts', tree'); }
  }

  // ---------------------------------------------------------------- the first page

  ghost predicate FirstTree(tree: Tree, m: nat) {
    && tree.root != 0 && RootOk(tree.t, tree.root)
    && var p := tree.t.pages[tree.root];
    && p.leaf && p.keys == Ks(0, m) && |p.vals| == m && 0 < m <= MAX_KEYS && tree.t.span[tree.root].depth == 0
    && forall k :: k in tree.t.contents ==> Rank(k) <= Rank(K(m - 1))
  }

  lemma EmptyLive()
    ensures Live([], Empty()) && Whole(Empty()) && Empty().root == 0 && Empty().t.contents == map[]
  {
    EmptySound();
  }

  lemma FirstInsert() returns (puts: seq<Insertion>, tree: Tree)
    ensures Short(puts)
    ensures Live(puts, tree) && |puts| == 1 && FirstTree(tree, 1)
  {
    hide Rank, K, Shape, Seeded, Matches, Inv, Sound, Inserted, Live, Empty;
    EmptyLive();
    puts, tree := Go([], Empty(), K(0));
    FirstInserted(Empty(), K(0), []);
    assert [K(0)] == Ks(0, 1);
    FirstPage(K(0), []);
  }

  lemma FirstAppend(puts: seq<Insertion>, tree: Tree, m: nat) returns (puts': seq<Insertion>, tree': Tree)
    requires Live(puts, tree) && |puts| < STEPS && FirstTree(tree, m) && m < MAX_KEYS
    ensures Short(puts) ==> Short(puts')
    ensures Live(puts', tree') && |puts'| == |puts| + 1 && FirstTree(tree', m + 1)
  {
    hide Rank, K, Shape, Seeded, Matches, Inv, Live, InsertAt, Sound, Inserted;
    LiveRoom(puts, tree);
    InsertedTable(tree, K(m));
    LastLeaf(tree.t.pages[tree.root].keys, 0, m);
    AtEnd(tree.t, tree.root, K(m), [], Own);
    FreshNext(tree.t.contents, m - 1);
    puts', tree' := Go(puts, tree, K(m));
    MaxMoves(tree.t.contents, tree'.t.contents, m - 1);
    LiveRootOk(puts', tree');
  }

  lemma FreshNext(contents: map<Key, Key>, x: nat)
    requires x + 1 < 65536 && forall k :: k in contents ==> Rank(k) <= Rank(K(x))
    ensures K(x + 1) !in contents
  {
    hide Rank, K;
    AscendingKeys(x, x + 1);
  }

  // The first page is split; the new root takes the key in its second child.
  lemma FirstSplit(puts: seq<Insertion>, tree: Tree) returns (puts': seq<Insertion>, tree': Tree, w: PageId)
    requires Live(puts, tree) && |puts| < STEPS && FirstTree(tree, MAX_KEYS)
    ensures Short(puts) ==> Short(puts')
    ensures Live(puts', tree') && |puts'| == |puts| + 1 && FlankTree(tree', tree'.root, w, 1, 100, 101)
  {
    hide Rank, K, Shape, Seeded, Matches, Inv, Live, InsertAt, Sound, GrownRoot, Rooted;
    LiveRoom(puts, tree);
    FreshNext(tree.t.contents, MAX_KEYS - 1);
    puts', tree' := Go(puts, tree, K(MAX_KEYS));
    MaxMoves(tree.t.contents, tree'.t.contents, MAX_KEYS - 1);
    LiveRootOk(puts', tree');
    NextInserted(tree, K(MAX_KEYS), []);
    w := tree.t.nextID + 1;
    FirstGrown(tree);
    GrownFrame(tree, K(MAX_KEYS));
  }

  // What the insert into a tree with a full root keeps of the grown tree.
  lemma GrownFrame(tree: Tree, key: Key)
    requires Whole(tree) && Room(tree) && tree.root != 0 && |tree.t.pages[tree.root].keys| >= MAX_KEYS
    ensures Fits(Grown(tree).t, Grown(tree).root)
    ensures var t, t' := Grown(tree).t, InsertAt(Grown(tree).t, Grown(tree).root, key, [], Own);
            && t'.pages.Keys == t'.span.Keys && t.pages.Keys == t.span.Keys
            && forall q :: q in t.span ==> q in t'.span && t'.span[q].depth == t.span[q].depth
  {
    hide Rank, Shape, Seeded, InsertAt, Grown;
    GrownFits(tree);
    InsertFramed(Grown(tree).t, Grown(tree).root, key, [], Own);
    InsertedWhole(tree, key, []);
    NextInserted(tree, key, []);
    RootFits(Inserted(tree, key, []).t, Grown(tree).root);
  }

  lemma FirstGrown(tree: Tree)
    requires FirstTree(tree, MAX_KEYS) && Whole(tree) && Room(tree)
    ensures Fits(Grown(tree).t, Grown(tree).root)
    ensures var t1, N, v := Grown(tree).t, Grown(tree).root, tree.t.nextID + 1;
            && N == tree.t.nextID && v < PAGE_IDS && N in t1.pages && N in t1.span && v in t1.span
            && t1.span[N].depth == 1
            && var t' := InsertAt(t1, N, K(MAX_KEYS), [], Own);
            && N in t'.pages && v in t'.pages && !t'.pages[N].leaf && |t'.pages[N].keys| == 1
            && t'.pages[N].childs == [tree.root, v] && v != tree.root && v != N
            && t'.pages[v].leaf && t'.pages[v].keys == Ks(100, 101) && |t'.pages[v].vals| == 101
  {
    hide Rank, K, Shape, Seeded, Matches, Inv, InsertAt, GrownRoot;
    GrownFits(tree);
    GrowRootTop(tree.t, tree.root);
    GrowRootSpan(tree.t, tree.root);
    var t1, N, v := Grown(tree).t, Grown(tree).root, tree.t.nextID + 1;
    var p := tree.t.pages[tree.root];
    assert Cut(p) == K(99) && RightHalf(p).keys == Ks(100, 100);
    AscendingKeys(99, MAX_KEYS);
    PastAll([K(99)], K(MAX_KEYS));
    Down(t1, N, 1, K(MAX_KEYS), [], Own);
    LastLeaf(Ks(100, 100), 100, 100);
    AtEnd(t1, v, K(MAX_KEYS), [], NextWay(t1, N, 1, K(MAX_KEYS), Own));
  }

  // ---------------------------------------------------------------- the second root split

  // The full root is split; the last leaf stays where it is, below the right half.
  lemma GrownFlank(tree: Tree, w: PageId, a: nat, m: nat)
    requires FlankTree(tree, tree.root, w, MAX_KEYS, a, m) && Whole(tree) && Room(tree)
    ensures tree.t.nextID + 1 < PAGE_IDS
    ensures Fits(Grown(tree).t, Grown(tree).root)
    ensures Flank(Grown(tree).t, Grown(tree).root, tree.t.nextID + 1, w, 100, a, m)
    ensures Grown(tree).root != tree.t.nextID + 1 && Grown(tree).t.contents == tree.t.contents
  {
    hide Rank, K, Shape, Seeded, Holds, InsertAt, GrownRoot, Rooted;
    GrownFits(tree);
    GrownHolds(tree.t, tree.root);
    GrowRootTop(tree.t, tree.root);
    GrowRootSpan(tree.t, tree.root);
    var p := tree.t.pages[tree.root];
    assert RightHalf(p).childs[100] == p.childs[MAX_KEYS];
    assert GrownRoot(tree.t, tree.root).contents == tree.t.contents by { GrownSame(tree, []); }
  }

  lemma SplitRootFlank(puts: seq<Insertion>, tree: Tree, w: PageId, a: nat, m: nat)
    returns (puts': seq<Insertion>, tree': Tree, r: PageId)
    requires Live(puts, tree) && |puts| < STEPS && FlankTree(tree, tree.root, w, MAX_KEYS, a, m)
    requires m < MAX_KEYS && a + m + 1 < 65536
    ensures Short(puts) ==> Short(puts')
    ensures Live(puts', tree') && |puts'| == |puts| + 1
    ensures FlankTree(tree', r, w, 100, a, m + 1) && r != tree'.root
  {
    hide Rank, K, Shape, Seeded, Matches, Inv, Live, InsertAt, Sound, Rooted, Grown;
    LiveRoom(puts, tree);
    GrownFlank(tree, w, a, m);
    r := tree.t.nextID + 1;
    FlankAppend(Grown(tree).t, Grown(tree).root, r, w, 100, a, m);
    puts', tree' := Go(puts, tree, K(a + m));
    MaxMoves(tree.t.contents, tree'.t.contents, a + m - 1);
    LiveRootOk(puts', tree');
    NextInserted(tree, K(a + m), []);
    GrownFrame(tree, K(a + m));
  }

  // ---------------------------------------------------------------- filling a leaf in the middle

  // x is the leaf at the middle of r; its range begins before K(b) and ends with K(b + 99).
  ghost predicate Middle(t: State, r: PageId, x: PageId, b: nat, c: nat) {
    && r in t.pages && x in t.pages && |t.pages[r].keys| > 100 && |t.pages[r].childs| == |t.pages[r].keys| + 1
    && t.pages[r].childs[100] == x && t.pages[x].leaf && |t.pages[x].keys| == c && b + 100 < 65536
    && Rank(t.pages[r].keys[99]) <= Rank(K(b)) && t.pages[r].keys[100] == K(b + 99)
  }

  lemma SetMiddle(tree: Tree, r: PageId, w: PageId, x: PageId, n: nat, a: nat, m: nat, b: nat)
    requires FlankTree(tree, r, w, n, a, m) && n > 100 && x in tree.t.pages && tree.t.pages[r].childs[100] == x
    requires tree.t.pages[x].leaf && tree.t.pages[x].keys == Ks(b, 100) && b + 100 < 65536
    requires tree.t.pages[r].keys[100] == K(b + 99)
    ensures Middle(tree.t, r, x, b, 100)
  {
    hide Rank, K, Shape, Seeded, Matches;
    var t := tree.t;
    assert LinksOk(t.pages[r], t.span[r], t.span) && LinkOk(t.pages[r], t.span[r], t.span, 100);
    assert PageOk(t.pages[r], t.span[r]) && PageOk(t.pages[x], t.span[x]);
    assert Rank(t.pages[r].keys[99]) < Rank(t.pages[r].keys[100]);
    assert t.pages[x].keys[0] == K(b);
  }

  // The ranges of the middle leaf and of the last one, and the separator above.
  lemma MiddleRange(tree: Tree, r: PageId, w: PageId, n: nat, a: nat, m: nat)
    requires FlankTree(tree, r, w, n, a, m) && n > 100 && r != tree.root
    ensures var t, p := tree.t, tree.t.pages[r];
            && p.childs[100] in t.span && p.childs[100] != w && p.childs[100] != r && p.childs[100] != tree.root
            && t.span[p.childs[100]].lo == Rank(p.keys[99])
            && Rank(t.pages[tree.root].keys[0]) < Rank(p.keys[99]) && Sorted(p.keys)
  {
    hide Rank, K, Shape, Seeded, Matches;
    var t, p := tree.t, tree.t.pages[r];
    var s := t.span[r];
    assert LinksOk(p, s, t.span) && LinkOk(p, s, t.span, 100) && LinkOk(p, s, t.span, n);
    assert PageOk(p, s) && PageOk(t.pages[tree.root], t.span[tree.root]);
    assert LinksOk(t.pages[tree.root], t.span[tree.root], t.span);
    assert LinkOk(t.pages[tree.root], t.span[tree.root], t.span, 1);
    SortedAt(p.keys, 99, 100);
    if n > 101 { SortedAt(p.keys, 100, n - 1); }
  }

  // A key of the middle leaf's range goes there.
  lemma MiddleTable(tree: Tree, r: PageId, w: PageId, x: PageId, n: nat, a: nat, m: nat, b: nat, c: nat, key: Key)
    requires FlankTree(tree, r, w, n, a, m) && 100 < n < MAX_KEYS && r != tree.root && Middle(tree.t, r, x, b, c)
    requires c < MAX_KEYS && Fits(tree.t, tree.root) && key !in tree.t.contents
    requires Rank(K(b)) < Rank(key) < Rank(K(b + 99))
    ensures x != w && x != r && x != tree.root
    ensures var t' := InsertAt(tree.t, tree.root, key, [], Own);
            && t'.pages.Keys == tree.t.pages.Keys && t'.pages[x].leaf && |t'.pages[x].keys| == c + 1
            && forall q :: q in tree.t.pages && q != x ==> t'.pages[q] == tree.t.pages[q]
  {
    hide Rank, K, Shape, Seeded, Inv, Fits, InsertAt, Rooted, Sorted;
    var t := tree.t;
    MiddleRange(tree, r, w, n, a, m);
    RootFits(t, tree.root);
    var top := t.pages[tree.root].keys;
    assert top == [top[0]];
    PastAll(top, key);
    Down(t, tree.root, 1, key, [], Own);
    PastMiddle(t.pages[r].keys, key);
    var way := NextWay(t, tree.root, 1, key, Own);
    Down(t, r, 100, key, [], way);
    FreshPut(t, x, key, NextWay(t, r, 100, key, way));
  }

  lemma PastMiddle(keys: seq<Key>, key: Key)
    requires Sorted(keys) && |keys| > 100 && Rank(keys[99]) < Rank(key) < Rank(keys[100])
    ensures Past(keys, key) == 100
  {
    hide Rank, Sorted;
    forall i | 0 <= i < 100 ensures Rank(keys[i]) <= Rank(key) {
      if i < 99 { SortedAt(keys, i, 99); }
    }
    PastTurns(keys, key);
    TurnsOnce(keys, Past(keys, key), 100, key);
  }

  // A leaf grows by one key.
  lemma FreshPut(t: State, x: PageId, key: Key, way: Way)
    requires Fits(t, x) && t.pages[x].leaf && Matches(t.pages, t.span, t.contents)
    requires x in t.span && t.span[x].lo < Rank(key) && key !in t.contents
    ensures var t' := InsertAt(t, x, key, [], way);
            && t'.pages.Keys == t.pages.Keys && t'.pages[x].leaf && |t'.pages[x].keys| == |t.pages[x].keys| + 1
            && forall q :: q in t.pages && q != x ==> t'.pages[q] == t.pages[q]
  {
    hide Rank, Seeded, Shape;
    FitsSteps(t, x);
    assert PageMatches(t.pages[x], t.span[x], t.contents);
  }

  lemma FillMiddle(puts: seq<Insertion>, tree: Tree, r: PageId, w: PageId, x: PageId,
                   n: nat, a: nat, m: nat, b: nat, c: nat, key: Key)
    returns (puts': seq<Insertion>, tree': Tree)
    requires Live(puts, tree) && |puts| < STEPS && FlankTree(tree, r, w, n, a, m) && r != tree.root
    requires 100 < n < MAX_KEYS && Middle(tree.t, r, x, b, c) && c < MAX_KEYS && key !in tree.t.contents
    requires Rank(K(b)) < Rank(key) < Rank(K(b + 99))
    ensures Live(puts', tree') && |puts'| == |puts| + 1 && FlankTree(tree', r, w, n, a, m) && tree'.root == tree.root
    ensures Middle(tree'.t, r, x, b, c + 1) && tree'.t.contents == tree.t.contents[key := []]
  {
    hide Rank, K, Shape, Seeded, Inv, Live, InsertAt, Sound, Inserted, Rooted;
    RootNotFull(tree, r, w, n, a, m);
    LiveRoom(puts, tree);
    InsertedTable(tree, key);
    MiddleTable(tree, r, w, x, n, a, m, b, c, key);
    puts', tree' := Go(puts, tree, key);
    assert K(b + 99) in tree.t.contents by {
      assert PageMatches(tree.t.pages[r], tree.t.span[r], tree.t.contents);
    }
    LiveRootOk(puts', tree');
  }

  // ---------------------------------------------------------------- the guard is met

  lemma FullMiddle(tree: Tree, r: PageId, w: PageId, x: PageId, a: nat, m: nat, b: nat)
    requires FlankTree(tree, r, w, MAX_KEYS, a, m) && r != tree.root && Middle(tree.t, r, x, b, MAX_KEYS)
    ensures var key := tree.t.pages[r].keys[99];
            TreeLoss(tree, key) == Some(LossAt(tree.t.pages, r, 1, key)) && SharedFull(tree.t.pages, r, key)
            && key in tree.t.contents
  {
    hide Rank, K, Shape, Seeded, Inv, Rooted, Sorted;
    MiddleRange(tree, r, w, MAX_KEYS, a, m);
    var t, key := tree.t, tree.t.pages[r].keys[99];
    RootFits(t, tree.root);
    var top := t.pages[tree.root].keys;
    assert top == [top[0]];
    PastAll(top, key);
    assert PageMatches(t.pages[r], t.span[r], t.contents) && key in t.pages[r].keys;
    assert SharedFull(t.pages, r, key);
  }

  // The first page is filled and split.
  lemma RunFirst() returns (puts: seq<Insertion>, tree: Tree, w: PageId)
    ensures Live(puts, tree) && |puts| == 201 && Short(puts) && FlankTree(tree, tree.root, w, 1, 100, 101)
  {
    hide Live, FirstTree, FlankTree;
    puts, tree := FirstInsert();
    for m := 1 to MAX_KEYS
      invariant Live(puts, tree) && |puts| == m && Short(puts) && FirstTree(tree, m)
    {
      puts, tree := FirstAppend(puts, tree, m);
    }
    puts, tree, w := FirstSplit(puts, tree);
  }

  // The last leaf is filled and split once.
  lemma RunLeaf(puts: seq<Insertion>, tree: Tree, r: PageId, w: PageId, n: nat, a: nat, m: nat)
    returns (puts': seq<Insertion>, tree': Tree, v: PageId)
    requires Live(puts, tree) && |puts| + 201 - m <= STEPS && FlankTree(tree, r, w, n, a, m)
    requires n < MAX_KEYS && a + MAX_KEYS + 1 < 65536
    ensures Live(puts', tree') && |puts'| == |puts| + 201 - m && FlankTree(tree', r, v, n + 1, a + 100, 101)
    ensures tree'.root == tree.root && r in tree.t.pages && r in tree'.t.pages && w in tree'.t.pages
    ensures tree'.t.pages[r] == var p := tree.t.pages[r]; p.(keys := p.keys + [K(a + 99)], childs := p.childs + [v])
    ensures tree'.t.pages[w].leaf && tree'.t.pages[w].keys == Ks(a, 100)
    ensures OthersStay(tree.t, tree'.t, r, w) && (Short(puts) ==> Short(puts'))
  {
    hide Live, FlankTree, K;
    puts', tree' := puts, tree;
    InFlank(tree, r, w, n, a, m);
    for i := m to MAX_KEYS
      invariant Live(puts', tree') && |puts'| == |puts| + i - m && FlankTree(tree', r, w, n, a, i)
      invariant tree'.root == tree.root && r in tree'.t.pages && tree'.t.pages[r] == tree.t.pages[r]
      invariant OthersStay(tree.t, tree'.t, r, w) && (Short(puts) ==> Short(puts'))
    {
      puts', tree' := Append(puts', tree', r, w, n, a, i);
    }
    puts', tree', v := SplitLast(puts', tree', r, w, n, a);
  }

  lemma InFlank(tree: Tree, r: PageId, w: PageId, n: nat, a: nat, m: nat)
    requires FlankTree(tree, r, w, n, a, m)
    ensures r in tree.t.pages && w in tree.t.pages && m <= MAX_KEYS && w != r && tree.root != 0
    ensures !tree.t.pages[r].leaf && |tree.t.pages[r].keys| == n
    ensures |tree.t.pages[r].childs| == n + 1 && tree.t.pages[r].childs[n] == w
    ensures r in tree.t.span && tree.t.span[r].depth == 1
    ensures tree.t.pages[w].leaf && |tree.t.pages[w].keys| == m
  {
    hide Rank, Shape, Seeded, Holds;
  }

  // The root is filled with separators and split.
  lemma RunRoot() returns (puts: seq<Insertion>, tree: Tree, r: PageId, w: PageId)
    ensures Live(puts, tree) && |puts| == 20_102 && Short(puts)
    ensures FlankTree(tree, r, w, 100, 20_000, 102) && r != tree.root
  {
    hide Live, FlankTree, K;
    puts, tree, w := RunFirst();
    for n := 1 to MAX_KEYS
      invariant Live(puts, tree) && |puts| == 100 * n + 101 && Short(puts)
      invariant FlankTree(tree, tree.root, w, n, 100 * n, 101)
    {
      puts, tree, w := RunLeaf(puts, tree, tree.root, w, n, 100 * n, 101);
    }
    puts, tree, r := SplitRootFlank(puts, tree, w, 20_000, 101);
  }

  // One more leaf: the last one becomes the middle one, and takes 100 keys more.
  lemma RunMiddle() returns (puts: seq<Insertion>, tree: Tree, r: PageId, w: PageId, x: PageId)
    ensures Live(puts, tree) && |puts| == 20_301 && FlankTree(tree, r, w, 101, 20_100, 101) && r != tree.root
    ensures Middle(tree.t, r, x, 20_000, MAX_KEYS)
  {
    hide Live, FlankTree, K, Middle, Rank;
    puts, tree, r, x := RunRoot();
    InFlank(tree, r, x, 100, 20_000, 102);
    puts, tree, w := RunLeaf(puts, tree, r, x, 100, 20_000, 102);
    SetMiddle(tree, r, w, x, 101, 20_100, 101, 20_000);
    NothingLonger(puts, tree);
    for d := 0 to 100
      invariant Live(puts, tree) && |puts| == 20_201 + d && FlankTree(tree, r, w, 101, 20_100, 101) && r != tree.root
      invariant Middle(tree.t, r, x, 20_000, 100 + d)
      invariant forall k :: k in tree.t.contents ==> |k| == 2 || (|k| == 3 && k[2] < d)
    {
      BetweenKeys(20_050, d);
      AscendingKeys(20_000, 20_050);
      AscendingKeys(20_051, 20_099);
      puts, tree := FillMiddle(puts, tree, r, w, x, 101, 20_100, 101, 20_000, 100 + d, K(20_050) + [d]);
    }
  }

  lemma NothingLonger(puts: seq<Insertion>, tree: Tree)
    requires Live(puts, tree) && Short(puts)
    ensures forall k :: k in tree.t.contents ==> |k| == 2
  {
    hide Sound, Reaches;
    DistinctRun(puts, tree);
    WrittenKeys(puts);
  }

  // The right half is filled as well.
  lemma RunToGuard() returns (puts: seq<Insertion>, tree: Tree, r: PageId, w: PageId, x: PageId)
    ensures Live(puts, tree) && |puts| == 30_201 && FlankTree(tree, r, w, MAX_KEYS, 30_000, 101) && r != tree.root
    ensures Middle(tree.t, r, x, 20_000, MAX_KEYS)
  {
    hide Live, FlankTree, K, Middle, Rank;
    puts, tree, r, w, x := RunMiddle();
    for n := 101 to MAX_KEYS
      invariant Live(puts, tree) && |puts| == 100 * n + 10_201 && FlankTree(tree, r, w, n, 100 * n + 10_000, 101)
      invariant r != tree.root && Middle(tree.t, r, x, 20_000, MAX_KEYS)
    {
      var before, last := tree, w;
      InFlank(tree, r, w, n, 100 * n + 10_000, 101);
      puts, tree, w := RunLeaf(puts, tree, r, w, n, 100 * n + 10_000, 101);
      MiddleStays(before.t, tree.t, r, last, w, x, n, 20_000, 100 * n + 10_099);
    }
  }

  lemma MiddleStays(t: State, t': State, r: PageId, w: PageId, v: PageId, x: PageId, n: nat, b: nat, y: nat)
    requires Middle(t, r, x, b, MAX_KEYS) && OthersStay(t, t', r, w) && r in t'.pages && |t.pages[r].keys| == n
    requires w in t.pages && t.pages[w].leaf && |t.pages[w].keys| < MAX_KEYS && !t.pages[r].leaf
    requires t'.pages[r] == var p := t.pages[r]; p.(keys := p.keys + [K(y)], childs := p.childs + [v])
    ensures Middle(t', r, x, b, MAX_KEYS)
  {
    hide Rank, K;
  }

  // When the shared child is a leaf, exactly the keys of its upper half are lost.
  lemma HalfIsLost(tree: Tree, c: PageId, d: nat, key: Key, value: Key, k: Key)
    requires Sound(tree) && Room(tree) && SharedFull(tree.t.pages, c, key)
    requires c in tree.t.span && tree.t.span[c].depth == d
    requires TreeLoss(tree, key) == Some(LossAt(tree.t.pages, c, d, key))
    requires tree.t.pages[tree.t.pages[c].childs[MAX_KEYS / 2]].leaf
    ensures FoundIn(Inserted(tree, key, value), k) ==
            var x := tree.t.pages[c].childs[MAX_KEYS / 2];
            if k in tree.t.pages[x].keys[MAX_KEYS / 2..] then None else FoundIn(tree, k)
  {
    hide Rank, Shape, Seeded, Holds, TreeLoss, Inserted, FoundIn, Takes, LossAt, Room;
    RootFits(tree.t, tree.root);
    InsertedSound(tree, key, value);
    LeafLoss(tree.t.pages, tree.t.span, tree.t.contents, c, key, k);
    ReadsTree(tree);
  }

  // 30,201 inserts of different keys lead to a tree that holds all of them, and in which
  // inserting one of them again loses 100 others, whatever the value.
  lemma RunLoses() returns (puts: seq<Insertion>, tree: Tree, key: Key, lost: seq<Key>)
    ensures |puts| == 30_201 && Distinct(puts) && Reaches(puts, tree) && Sound(tree) && Whole(tree) && Room(tree)
    ensures key in tree.t.contents && TreeLoss(tree, key).Some?
    ensures |lost| == 100 && Sorted(lost) && key !in lost && forall k :: k in lost ==> k in tree.t.contents
    ensures forall value, k :: FoundIn(Inserted(tree, key, value), k) == if k in lost then None else FoundIn(tree, k)
  {
    hide Rank, K, Shape, Seeded, Holds, Sound, Room, TreeLoss, Inserted, FoundIn, StillFound, Reaches, FlankTree;
    var r, w, x;
    puts, tree, r, w, x := RunToGuard();
    LiveRoom(puts, tree);
    InFlank(tree, r, w, MAX_KEYS, 30_000, 101);
    FullMiddle(tree, r, w, x, 30_000, 101, 20_000);
    key, lost := tree.t.pages[r].keys[99], tree.t.pages[x].keys[100..];
    assert Holds(tree.t.pages, tree.t.span, tree.t.contents) by { SoundHolds(tree); }
    LostStored(tree.t.pages, tree.t.span, tree.t.contents, r, key);
    forall value, k
      ensures FoundIn(Inserted(tree, key, value), k) == if k in lost then None else FoundIn(tree, k)
    {
      HalfIsLost(tree, r, 1, key, value, k);
    }
  }

  lemma SoundHolds(tree: Tree)
    requires Sound(tree) && tree.root != 0
    ensures Holds(tree.t.pages, tree.t.span, tree.t.contents)
  {
  }

  // The keys of a full shared leaf are stored, in order, and all past the separator.
  lemma LostStored(pages: Pages, span: Spans, contents: map<Key, Key>, c: PageId, key: Key)
    requires Holds(pages, span, contents) && SharedFull(pages, c, key) && pages[pages[c].childs[MAX_KEYS / 2]].leaf
    ensures var lost := pages[pages[c].childs[MAX_KEYS / 2]].keys[MAX_KEYS / 2..];
            |lost| == 100 && Sorted(lost) && key !in lost && forall k :: k in lost ==> k in contents
  {
    hide Rank, Inv, Matches;
    SharedKeys(pages, span, c, key);
    SharedPage(pages, span, c, key);
    var x := pages[c].childs[MAX_KEYS / 2];
    var keys := pages[x].keys;
    assert |keys| == MAX_KEYS && Sorted(keys) by { LeafOfShared(pages, span, c, key); }
    forall k | k in keys[MAX_KEYS / 2..] ensures k in contents && k != key {
      UpperHalf(keys, k);
      LeafKeys(pages, span, contents, x, k);
    }
  }

  lemma LeafOfShared(pages: Pages, span: Spans, c: PageId, key: Key)
    requires Inv(pages, span) && SharedFull(pages, c, key)
    ensures var keys := pages[pages[c].childs[MAX_KEYS / 2]].keys; |keys| == MAX_KEYS && Sorted(keys)
  {
    hide Rank;
    SharedPage(pages, span, c, key);
  }
}
