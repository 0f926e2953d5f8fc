// The page-table B-tree behind secondary indexes (internal/ENG/ID/id.go).
//
// The tree lives in a table from page id to page.  An internal split leaves the
// child id at the cut in both halves, so the pages form a graph, not a tree.
// The invariant is therefore flat: a ghost map gives every page a depth and a
// half-open key range (lo, hi], and every child position whose range is not
// empty names the one page that owns exactly that range.
module BTree {
  import opened Bytes

  const MAX_KEYS := 200
  const PAGE_IDS := 0x1_0000_0000

  type PageId = i: int | 0 <= i < 0x1_0000_0000

  datatype Option<T> = None | Some(value: T)
  datatype Result = Value(value: Key) | NotFound | Closed

  datatype Page = Page(leaf: bool, keys: seq<Key>, vals: seq<Key>, childs: seq<PageId>)
  datatype Span = Span(depth: nat, lo: real, hi: real)

  type Pages = map<PageId, Page>
  type Spans = map<PageId, Span>

  // ---------------------------------------------------------------- ranges

  // Child position i of page p covers (Lo, Hi].
  ghost function Lo(p: Page, s: Span, i: nat): real
    requires i <= |p.keys|
  {
    if i == 0 then s.lo else Rank(p.keys[i - 1])
  }

  ghost function Hi(p: Page, s: Span, i: nat): real
    requires i <= |p.keys|
  {
    if i == |p.keys| then s.hi else Rank(p.keys[i])
  }

  // A leaf may begin with one entry at the very start of its range, which belongs to
  // the leaf before it: inserting a separator again leaves such a stray entry.
  ghost predicate PageOk(p: Page, s: Span) {
    && s.lo < s.hi
    && |p.keys| <= MAX_KEYS
    && Sorted(p.keys)
    && (forall i :: 0 <= i < |p.keys| ==> s.lo <= Rank(p.keys[i]) <= s.hi)
    && (!p.leaf ==> forall i :: 0 <= i < |p.keys| ==> s.lo < Rank(p.keys[i]))
    && (p.leaf <==> s.depth == 0)
    && (if p.leaf then |p.vals| == |p.keys| else |p.childs| == |p.keys| + 1)
  }

  // A position with a non-empty range names the owner of that range.  A position
  // with an empty range (the left edge an internal split leaves behind) names a
  // page whose range starts where this page ends.
  ghost predicate LinkOk(p: Page, s: Span, span: Spans, i: nat)
    requires i < |p.childs| == |p.keys| + 1
  {
    var c := p.childs[i];
    && c in span
    && span[c].depth + 1 == s.depth
    && if Lo(p, s, i) < Hi(p, s, i)
       then span[c].lo == Lo(p, s, i) && span[c].hi == Hi(p, s, i)
       else span[c].lo == s.hi
  }

  ghost predicate LinksOk(p: Page, s: Span, span: Spans) {
    !p.leaf ==> |p.childs| == |p.keys| + 1 && forall i :: 0 <= i < |p.childs| ==> LinkOk(p, s, span, i)
  }

  ghost predicate Apart(s: Span, t: Span) {
    s.depth == t.depth ==> s.hi <= t.lo || t.hi <= s.lo
  }

  ghost predicate Inv(pages: Pages, span: Spans) {
    && pages.Keys == span.Keys
    && (forall id :: id in pages ==> PageOk(pages[id], span[id]))
    && (forall id :: id in pages ==> LinksOk(pages[id], span[id], span))
    && (forall a, b :: a in span && b in span && a != b ==> Apart(span[a], span[b]))
  }

  // ---------------------------------------------------------------- contents

  ghost predicate StoredAt(pages: Pages, span: Spans, id: PageId, k: Key) {
    id in pages && id in span && pages[id].leaf && k in pages[id].keys && span[id].lo < Rank(k)
  }

  // The entries of a leaf, without a stray one, are in the contents.
  ghost predicate LeafMatches(p: Page, s: Span, contents: map<Key, Key>)
    requires |p.vals| == |p.keys|
  {
    forall i :: 0 <= i < |p.keys| && s.lo < Rank(p.keys[i]) ==>
      p.keys[i] in contents && contents[p.keys[i]] == p.vals[i]
  }

  ghost predicate PageMatches(p: Page, s: Span, contents: map<Key, Key>) {
    if p.leaf then |p.vals| == |p.keys| && LeafMatches(p, s, contents)
    else forall k :: k in p.keys ==> k in contents
  }

  // Leaf entries and contents agree, and every separator is a stored key.
  ghost predicate Matches(pages: Pages, span: Spans, contents: map<Key, Key>) {
    && (forall id :: id in pages ==> id in span && PageMatches(pages[id], span[id], contents))
    && (forall k :: k in contents ==> exists id :: StoredAt(pages, span, id, k))
  }

  ghost predicate Holds(pages: Pages, span: Spans, contents: map<Key, Key>) {
    Inv(pages, span) && Matches(pages, span, contents)
  }

  // k is a separator in an internal page no deeper in the file than depth d.
  ghost predicate Separates(pages: Pages, span: Spans, d: nat, k: Key) {
    exists id :: SeparatesIn(pages, span, d, k, id)
  }

  ghost predicate SeparatesIn(pages: Pages, span: Spans, d: nat, k: Key, id: PageId) {
    id in pages && id in span && !pages[id].leaf && span[id].depth <= d && k in pages[id].keys
  }

  // ---------------------------------------------------------------- search

  // findChild: the first position whose separator is not below the key.
  function ChildIndex(keys: seq<Key>, key: Key): (i: nat)
    ensures i <= |keys|
  {
    if keys == [] || Compare(key, keys[0]) <= 0 then 0 else 1 + ChildIndex(keys[1..], key)
  }

  function Lookup(keys: seq<Key>, vals: seq<Key>, key: Key): Option<Key>
    requires |keys| == |vals|
  {
    if keys == [] then None
    else if keys[0] == key then Some(vals[0])
    else Lookup(keys[1..], vals[1..], key)
  }

  ghost function Search(pages: Pages, id: PageId, d: nat, key: Key): Option<Key>
    decreases d
  {
    if id !in pages then None
    else
      var p := pages[id];
      if p.leaf then (if |p.keys| == |p.vals| then Lookup(p.keys, p.vals, key) else None)
      else if d == 0 || ChildIndex(p.keys, key) >= |p.childs| then None
      else Search(pages, p.childs[ChildIndex(p.keys, key)], d - 1, key)
  }

  lemma {:induction false} ChildIndexSplits(keys: seq<Key>, key: Key)
    ensures forall j :: 0 <= j < ChildIndex(keys, key) ==> Rank(keys[j]) < Rank(key)
    ensures ChildIndex(keys, key) < |keys| ==> Rank(key) <= Rank(keys[ChildIndex(keys, key)])
  {
    if keys != [] {
      CompareIsRankOrder(key, keys[0]);
      if Compare(key, keys[0]) > 0 {
        ChildIndexSplits(keys[1..], key);
      }
    }
  }

  lemma {:induction false} LookupFinds(keys: seq<Key>, vals: seq<Key>, key: Key)
    requires |keys| == |vals| && Sorted(keys)
    ensures key !in keys ==> Lookup(keys, vals, key) == None
    ensures forall i :: 0 <= i < |keys| && keys[i] == key ==> Lookup(keys, vals, key) == Some(vals[i])
  {
    if keys != [] && keys[0] != key {
      LookupFinds(keys[1..], vals[1..], key);
    }
  }

  // Only the leaf that owns a key can hold it.
  lemma OneHome(pages: Pages, span: Spans, id: PageId, home: PageId, key: Key)
    requires Inv(pages, span) && id in pages && pages[id].leaf && StoredAt(pages, span, home, key)
    requires span[id].lo < Rank(key) <= span[id].hi
    ensures home == id
  {
    assert PageOk(pages[home], span[home]) && PageOk(pages[id], span[id]);
  }

  lemma LeafReadsContents(pages: Pages, span: Spans, contents: map<Key, Key>, id: PageId, key: Key)
    requires Holds(pages, span, contents) && id in pages && pages[id].leaf && |pages[id].keys| == |pages[id].vals|
    requires span[id].lo < Rank(key) <= span[id].hi
    ensures Lookup(pages[id].keys, pages[id].vals, key) == if key in contents then Some(contents[key]) else None
  {
    assert PageOk(pages[id], span[id]) && PageMatches(pages[id], span[id], contents);
    LookupFinds(pages[id].keys, pages[id].vals, key);
    if key in contents {
      var home :| StoredAt(pages, span, home, key);
      OneHome(pages, span, id, home, key);
    }
  }

  // The page a search for key visits next owns the key one level further down.
  lemma Descend(pages: Pages, span: Spans, id: PageId, key: Key) returns (child: PageId)
    requires Inv(pages, span) && id in pages && !pages[id].leaf && span[id].lo < Rank(key) <= span[id].hi
    ensures ChildIndex(pages[id].keys, key) < |pages[id].childs|
    ensures child == pages[id].childs[ChildIndex(pages[id].keys, key)] && child in pages
    ensures span[child].depth + 1 == span[id].depth && span[child].lo < Rank(key) <= span[child].hi
  {
    var p, i := pages[id], ChildIndex(pages[id].keys, key);
    assert PageOk(p, span[id]) && LinksOk(p, span[id], span);
    ChildIndexSplits(p.keys, key);
    child := p.childs[i];
    assert LinkOk(p, span[id], span, i);
  }

  // The search reads the contents: every stored key is found with its value and
  // every other key is reported missing.
  lemma {:induction false} SearchReadsContents(pages: Pages, span: Spans, contents: map<Key, Key>, id: PageId, key: Key)
    requires Holds(pages, span, contents) && id in pages
    requires span[id].lo < Rank(key) <= span[id].hi
    ensures Search(pages, id, span[id].depth, key) == if key in contents then Some(contents[key]) else None
    decreases span[id].depth
  {
    assert PageOk(pages[id], span[id]);
    if pages[id].leaf {
      LeafReadsContents(pages, span, contents, id, key);
    } else {
      var child := Descend(pages, span, id, key);
      SearchReadsContents(pages, span, contents, child, key);
    }
  }

  // ---------------------------------------------------------------- split

  ghost predicate Full(p: Page) {
    |p.keys| == MAX_KEYS && (if p.leaf then |p.vals| == MAX_KEYS else |p.childs| == MAX_KEYS + 1)
  }

  // The half that keeps the page id ...
  ghost function LeftHalf(p: Page): Page
    requires Full(p)
  {
    if p.leaf then p.(keys := p.keys[..MAX_KEYS / 2], vals := p.vals[..MAX_KEYS / 2])
    else p.(keys := p.keys[..MAX_KEYS / 2], childs := p.childs[..MAX_KEYS / 2 + 1])
  }

  // ... and the half that gets a new id.  The child id at the cut is in both.
  ghost function RightHalf(p: Page): Page
    requires Full(p)
  {
    if p.leaf then Page(true, p.keys[MAX_KEYS / 2..], p.vals[MAX_KEYS / 2..], [])
    else Page(false, p.keys[MAX_KEYS / 2..], [], p.childs[MAX_KEYS / 2..])
  }

  ghost function Cut(p: Page): Key
    requires Full(p)
  {
    p.keys[MAX_KEYS / 2 - 1]
  }

  // The parent after the cut key and the new id are shifted in at idx.
  ghost function Linked(p: Page, idx: nat, cut: Key, newId: PageId): Page
    requires idx < |p.childs| && idx <= |p.keys|
  {
    p.(keys := p.keys[..idx] + [cut] + p.keys[idx..],
       childs := p.childs[..idx + 1] + [newId] + p.childs[idx + 1..])
  }

  // splitChild as a function of the page table.
  ghost function Split(pages: Pages, parentId: PageId, idx: nat, newId: PageId): Pages
    requires parentId in pages && idx < |pages[parentId].childs| && idx <= |pages[parentId].keys|
    requires pages[parentId].childs[idx] in pages && Full(pages[pages[parentId].childs[idx]])
  {
    var childId := pages[parentId].childs[idx];
    var child := pages[childId];
    pages[newId := RightHalf(child)][childId := LeftHalf(child)]
         [parentId := Linked(pages[parentId], idx, Cut(child), newId)]
  }

  ghost function SplitSpan(span: Spans, childId: PageId, cut: real, newId: PageId): Spans
    requires childId in span
  {
    var s := span[childId];
    span[newId := Span(s.depth, cut, s.hi)][childId := Span(s.depth, s.lo, cut)]
  }

  lemma HalvesOk(p: Page, s: Span)
    requires PageOk(p, s) && Full(p)
    ensures var cut := Rank(Cut(p));
            PageOk(LeftHalf(p), Span(s.depth, s.lo, cut)) && PageOk(RightHalf(p), Span(s.depth, cut, s.hi))
  {
    hide Rank;
    assert s.lo <= Rank(p.keys[0]) < Rank(Cut(p)) < Rank(p.keys[MAX_KEYS / 2]) <= s.hi;
    LeftHalfOk(p, s);
    RightHalfOk(p, s);
  }

  lemma LeftHalfOk(p: Page, s: Span)
    requires PageOk(p, s) && Full(p) && s.lo < Rank(Cut(p))
    ensures PageOk(LeftHalf(p), Span(s.depth, s.lo, Rank(Cut(p))))
  {
    hide Rank;
  }

  lemma RightHalfOk(p: Page, s: Span)
    requires PageOk(p, s) && Full(p) && Rank(Cut(p)) < s.hi
    ensures PageOk(RightHalf(p), Span(s.depth, Rank(Cut(p)), s.hi))
  {
    hide Rank;
  }

  lemma LeftLinks(p: Page, s: Span, span: Spans)
    requires PageOk(p, s) && LinksOk(p, s, span) && Full(p)
    ensures LinksOk(LeftHalf(p), Span(s.depth, s.lo, Rank(Cut(p))), span)
  {
    var left, ls := LeftHalf(p), Span(s.depth, s.lo, Rank(Cut(p)));
    if !p.leaf {
      forall j | 0 <= j < |left.childs| ensures LinkOk(left, ls, span, j) {
        assert LinkOk(p, s, span, j);
      }
    }
  }

  lemma RightLinks(p: Page, s: Span, span: Spans)
    requires PageOk(p, s) && LinksOk(p, s, span) && Full(p)
    ensures LinksOk(RightHalf(p), Span(s.depth, Rank(Cut(p)), s.hi), span)
  {
    var right, rs := RightHalf(p), Span(s.depth, Rank(Cut(p)), s.hi);
    if !p.leaf {
      forall j | 0 <= j < |right.childs| ensures LinkOk(right, rs, span, j) {
        assert LinkOk(p, s, span, MAX_KEYS / 2 + j);
      }
    }
  }

  lemma LinkedSorted(p: Page, s: Span, idx: nat, cut: Key, newId: PageId)
    requires PageOk(p, s) && !p.leaf && |p.keys| < MAX_KEYS && idx <= |p.keys|
    requires Lo(p, s, idx) < Rank(cut) < Hi(p, s, idx)
    ensures PageOk(Linked(p, idx, cut, newId), s)
  {
    hide Rank;
  }

  lemma LinkedLinks(p: Page, s: Span, span: Spans, idx: nat, cut: Key, newId: PageId)
    requires PageOk(p, s) && LinksOk(p, s, span) && !p.leaf && idx <= |p.keys| && newId !in span
    requires Lo(p, s, idx) < Rank(cut) < Hi(p, s, idx)
    ensures p.childs[idx] in span
    ensures LinksOk(Linked(p, idx, cut, newId), s, SplitSpan(span, p.childs[idx], Rank(cut), newId))
  {
    hide Rank, PageOk;
    assert LinkOk(p, s, span, idx);
    hide LinkOk;
    var p', span' := Linked(p, idx, cut, newId), SplitSpan(span, p.childs[idx], Rank(cut), newId);
    forall j | 0 <= j < |p'.childs| ensures LinkOk(p', s, span', j) { LinkedLink(p, s, span, idx, cut, newId, j); }
  }

  lemma LinkedLink(p: Page, s: Span, span: Spans, idx: nat, cut: Key, newId: PageId, j: nat)
    requires PageOk(p, s) && LinksOk(p, s, span) && !p.leaf && idx <= |p.keys| && newId !in span
             && p.childs[idx] in span
    requires Lo(p, s, idx) < Rank(cut) < Hi(p, s, idx) && j <= |p.childs|
    ensures LinkOk(Linked(p, idx, cut, newId), s, SplitSpan(span, p.childs[idx], Rank(cut), newId), j)
  {
    hide Rank, Linked;
    assert LinkOk(p, s, span, idx);
    LinkedBounds(p, s, idx, cut, newId, j);
    if j < idx {
      assert LinkOk(p, s, span, j);
    } else if j > idx + 1 {
      assert LinkOk(p, s, span, j - 1);
    }
  }

  lemma LinkedBounds(p: Page, s: Span, idx: nat, cut: Key, newId: PageId, j: nat)
    requires idx <= |p.keys| && |p.childs| == |p.keys| + 1 && j <= |p.childs|
    ensures var p' := Linked(p, idx, cut, newId);
            && |p'.childs| == |p'.keys| + 1 == |p.childs| + 1
            && Lo(p', s, j) == (if j <= idx then Lo(p, s, j) else if j == idx + 1 then Rank(cut) else Lo(p, s, j - 1))
            && Hi(p', s, j) == (if j < idx then Hi(p, s, j) else if j == idx then Rank(cut) else Hi(p, s, j - 1))
            && p'.childs[j] == (if j <= idx then p.childs[j] else if j == idx + 1 then newId else p.childs[j - 1])
  {
    hide Rank;
  }

  // A split of another page's child leaves this page's links in order.
  lemma LinksFrame(p: Page, s: Span, span: Spans, childId: PageId, cut: real, newId: PageId)
    requires PageOk(p, s) && LinksOk(p, s, span) && childId in span && newId !in span
    requires span[childId].depth + 1 == s.depth ==> s.hi <= span[childId].lo || span[childId].hi <= s.lo
    requires span[childId].lo < span[childId].hi
    ensures LinksOk(p, s, SplitSpan(span, childId, cut, newId))
  {
    if !p.leaf {
      var span' := SplitSpan(span, childId, cut, newId);
      forall j | 0 <= j < |p.childs| ensures LinkOk(p, s, span', j) {
        assert LinkOk(p, s, span, j);
      }
    }
  }

  ghost predicate CanSplit(pages: Pages, span: Spans, parentId: PageId, idx: nat, newId: PageId) {
    && Inv(pages, span)
    && parentId in pages && newId !in pages
    && !pages[parentId].leaf && idx <= |pages[parentId].keys| < MAX_KEYS
    && idx < |pages[parentId].childs|
    && Lo(pages[parentId], span[parentId], idx) < Hi(pages[parentId], span[parentId], idx)
    && pages[parentId].childs[idx] in pages
    && Full(pages[pages[parentId].childs[idx]])
  }

  // The pages that a split touches.
  lemma SplitTouched(pages: Pages, span: Spans, parentId: PageId, idx: nat, newId: PageId)
    requires CanSplit(pages, span, parentId, idx, newId)
    ensures var childId := pages[parentId].childs[idx];
            && childId in span && childId != parentId
            && span[parentId].lo <= span[childId].lo < span[childId].hi <= span[parentId].hi
            && span[childId].depth + 1 == span[parentId].depth
            && var cut := Rank(Cut(pages[childId]));
            && span[childId].lo < cut < span[childId].hi
            && var pages', span' := Split(pages, parentId, idx, newId), SplitSpan(span, childId, cut, newId);
            && PageOk(pages'[parentId], span'[parentId]) && LinksOk(pages'[parentId], span'[parentId], span')
            && PageOk(pages'[childId], span'[childId]) && LinksOk(pages'[childId], span'[childId], span')
            && PageOk(pages'[newId], span'[newId]) && LinksOk(pages'[newId], span'[newId], span')
  {
    hide Rank;
    var parent, s, childId := pages[parentId], span[parentId], pages[parentId].childs[idx];
    var child, cut := pages[childId], Cut(pages[childId]);
    var span' := SplitSpan(span, childId, Rank(cut), newId);
    assert PageOk(parent, s) && LinksOk(parent, s, span) && LinkOk(parent, s, span, idx);
    assert PageOk(child, span[childId]) && LinksOk(child, span[childId], span);
    HalvesOk(child, span[childId]);
    hide PageOk, LinkOk, LinksOk;
    LeftLinks(child, span[childId], span);
    RightLinks(child, span[childId], span);
    LinkedSorted(parent, s, idx, cut, newId);
    LinkedLinks(parent, s, span, idx, cut, newId);
    LinksFrame(LeftHalf(child), span'[childId], span, childId, Rank(cut), newId);
    LinksFrame(RightHalf(child), span'[newId], span, childId, Rank(cut), newId);
  }

  // A split keeps the invariant.
  lemma SplitKeepsInv(pages: Pages, span: Spans, parentId: PageId, idx: nat, newId: PageId)
    requires CanSplit(pages, span, parentId, idx, newId)
    ensures var childId := pages[parentId].childs[idx];
            Inv(Split(pages, parentId, idx, newId), SplitSpan(span, childId, Rank(Cut(pages[childId])), newId))
  {
    hide Rank, PageOk, LinksOk;
    SplitTouched(pages, span, parentId, idx, newId);
    var childId := pages[parentId].childs[idx];
    var cut := Rank(Cut(pages[childId]));
    var span' := SplitSpan(span, childId, cut, newId);
    forall id | id in pages && id != parentId && id != childId
      ensures LinksOk(pages[id], span[id], span')
    {
      assert PageOk(pages[id], span[id]) && LinksOk(pages[id], span[id], span);
      assert Apart(span[id], span[parentId]);
      OtherLinks(pages[id], span[id], span, span[parentId], childId, cut, newId);
    }
    SpansApart(span, childId, cut, newId);
  }

  lemma OtherLinks(p: Page, s: Span, span: Spans, above: Span, childId: PageId, cut: real, newId: PageId)
    requires PageOk(p, s) && LinksOk(p, s, span) && childId in span && newId !in span && Apart(s, above)
    requires span[childId].lo < span[childId].hi && span[childId].depth + 1 == above.depth
    requires above.lo <= span[childId].lo && span[childId].hi <= above.hi
    ensures LinksOk(p, s, SplitSpan(span, childId, cut, newId))
  {
    LinksFrame(p, s, span, childId, cut, newId);
  }

  lemma SpansApart(span: Spans, childId: PageId, cut: real, newId: PageId)
    requires forall a, b :: a in span && b in span && a != b ==> Apart(span[a], span[b])
    requires childId in span && newId !in span && span[childId].lo <= cut <= span[childId].hi
    ensures var span' := SplitSpan(span, childId, cut, newId);
            forall a, b :: a in span' && b in span' && a != b ==> Apart(span'[a], span'[b])
  {
    var span' := SplitSpan(span, childId, cut, newId);
    forall a, b | a in span' && b in span' && a != b ensures Apart(span'[a], span'[b]) {
      var a0, b0 := if a == newId then childId else a, if b == newId then childId else b;
      if a0 != b0 { assert Apart(span[a0], span[b0]); }
    }
  }

  lemma HalvesMatch(p: Page, s: Span, contents: map<Key, Key>)
    requires Full(p) && PageOk(p, s) && PageMatches(p, s, contents)
    ensures PageMatches(LeftHalf(p), Span(s.depth, s.lo, Rank(Cut(p))), contents)
    ensures PageMatches(RightHalf(p), Span(s.depth, Rank(Cut(p)), s.hi), contents)
    ensures Cut(p) in contents
  {
    hide Rank;
    var left, right := LeftHalf(p), RightHalf(p);
    assert p.keys == left.keys + right.keys;
    assert p.leaf ==> p.vals == left.vals + right.vals;
    assert Cut(p) in p.keys && Rank(p.keys[0]) < Rank(Cut(p));
    if p.leaf {
      forall j | 0 <= j < |right.keys|
        ensures right.keys[j] in contents && contents[right.keys[j]] == right.vals[j]
      {
        assert right.keys[j] == p.keys[MAX_KEYS / 2 + j] && Rank(p.keys[0]) < Rank(p.keys[MAX_KEYS / 2 + j]);
      }
    }
  }

  lemma LinkedMatches(p: Page, s: Span, idx: nat, cut: Key, newId: PageId, contents: map<Key, Key>)
    requires idx < |p.childs| && idx <= |p.keys| && !p.leaf && PageMatches(p, s, contents) && cut in contents
    ensures PageMatches(Linked(p, idx, cut, newId), s, contents)
  {
    assert p.keys == p.keys[..idx] + p.keys[idx..];
  }

  ghost predicate CanCut(pages: Pages, parentId: PageId, idx: nat, newId: PageId) {
    && parentId in pages && newId !in pages && !pages[parentId].leaf
    && idx < |pages[parentId].childs| && idx <= |pages[parentId].keys|
    && pages[parentId].childs[idx] in pages && Full(pages[pages[parentId].childs[idx]])
    && pages[parentId].childs[idx] != parentId
  }

  lemma SplitFits(pages: Pages, span: Spans, parentId: PageId, idx: nat, newId: PageId)
    requires CanSplit(pages, span, parentId, idx, newId)
    ensures CanCut(pages, parentId, idx, newId)
    ensures var childId := pages[parentId].childs[idx];
            && childId in span && PageOk(pages[childId], span[childId])
            && span[childId].depth + 1 == span[parentId].depth
            && span[childId].lo == Lo(pages[parentId], span[parentId], idx)
            && span[childId].hi == Hi(pages[parentId], span[parentId], idx)
  {
    assert LinksOk(pages[parentId], span[parentId], span) && LinkOk(pages[parentId], span[parentId], span, idx);
  }

  lemma SplitKeepsStored(pages: Pages, span: Spans, parentId: PageId, idx: nat, newId: PageId, home: PageId, k: Key)
    requires CanSplit(pages, span, parentId, idx, newId) && StoredAt(pages, span, home, k)
    ensures var pages', childId := Split(pages, parentId, idx, newId), pages[parentId].childs[idx];
            var span' := SplitSpan(span, childId, Rank(Cut(pages[childId])), newId);
            StoredAt(pages', span', home, k) || StoredAt(pages', span', newId, k)
  {
    hide Rank, Inv;
    SplitFits(pages, span, parentId, idx, newId);
    var child := pages[pages[parentId].childs[idx]];
    assert child.keys == LeftHalf(child).keys + RightHalf(child).keys;
    assert forall j :: MAX_KEYS / 2 <= j < MAX_KEYS ==> Rank(Cut(child)) < Rank(child.keys[j]);
  }

  lemma SplitMatches(pages: Pages, span: Spans, contents: map<Key, Key>, parentId: PageId, idx: nat, newId: PageId)
    requires CanSplit(pages, span, parentId, idx, newId) && Matches(pages, span, contents)
    ensures var pages', childId := Split(pages, parentId, idx, newId), pages[parentId].childs[idx];
            var span' := SplitSpan(span, childId, Rank(Cut(pages[childId])), newId);
            forall id :: id in pages' ==> id in span' && PageMatches(pages'[id], span'[id], contents)
  {
    hide Rank, Inv, PageMatches;
    SplitFits(pages, span, parentId, idx, newId);
    var childId := pages[parentId].childs[idx];
    HalvesMatch(pages[childId], span[childId], contents);
    LinkedMatches(pages[parentId], span[parentId], idx, Cut(pages[childId]), newId, contents);
  }

  // A split keeps the contents.
  lemma SplitKeepsContents(pages: Pages, span: Spans, contents: map<Key, Key>, parentId: PageId, idx: nat,
                           newId: PageId)
    requires CanSplit(pages, span, parentId, idx, newId) && Matches(pages, span, contents)
    ensures var childId := pages[parentId].childs[idx];
            Matches(Split(pages, parentId, idx, newId), SplitSpan(span, childId, Rank(Cut(pages[childId])), newId),
                    contents)
  {
    var pages', childId := Split(pages, parentId, idx, newId), pages[parentId].childs[idx];
    var span' := SplitSpan(span, childId, Rank(Cut(pages[childId])), newId);
    SplitMatches(pages, span, contents, parentId, idx, newId);
    forall k | k in contents ensures exists id :: StoredAt(pages', span', id, k) {
      var home :| StoredAt(pages, span, home, k);
      SplitKeepsStored(pages, span, parentId, idx, newId, home, k);
    }
  }

  // ---------------------------------------------------------------- leaf update

  // The leaf after key is written at its place i.
  ghost function Put(p: Page, i: nat, key: Key, value: Key): Page
    requires i <= |p.keys| == |p.vals|
  {
    if i < |p.keys| && p.keys[i] == key then p.(vals := p.vals[i := value])
    else p.(keys := p.keys[..i] + [key] + p.keys[i..], vals := p.vals[..i] + [value] + p.vals[i..])
  }

  ghost predicate PlaceOf(keys: seq<Key>, i: nat, key: Key) {
    && i <= |keys|
    && (forall j :: 0 <= j < i ==> Rank(keys[j]) < Rank(key))
    && (i < |keys| ==> Rank(key) <= Rank(keys[i]))
  }

  // The contents after key is written into a leaf of range s: a key at the very
  // start of the range becomes a stray entry.
  ghost function Wrote(contents: map<Key, Key>, s: Span, key: Key, value: Key): map<Key, Key> {
    if s.lo < Rank(key) then contents[key := value] else contents
  }

  lemma SortedInsert(keys: seq<Key>, i: nat, key: Key)
    requires Sorted(keys) && PlaceOf(keys, i, key) && (i < |keys| ==> keys[i] != key)
    ensures Sorted(keys[..i] + [key] + keys[i..])
  {
    if i < |keys| { RankInjective(keys[i], key); }
    var out := keys[..i] + [key] + keys[i..];
    forall a, b | 0 <= a < b < |out| ensures Rank(out[a]) < Rank(out[b]) {
      var a0, b0 := if a < i then a else a - 1, if b < i then b else b - 1;
      if a != i { assert out[a] == keys[a0]; }
      if b != i { assert out[b] == keys[b0]; }
      if a != i && b != i { assert Rank(keys[a0]) < Rank(keys[b0]); }
    }
  }

  lemma RangeInsert(keys: seq<Key>, i: nat, key: Key, lo: real, hi: real)
    requires i <= |keys| && lo <= Rank(key) <= hi
    requires forall j :: 0 <= j < |keys| ==> lo <= Rank(keys[j]) <= hi
    ensures var out := keys[..i] + [key] + keys[i..];
            |out| == |keys| + 1 && forall j :: 0 <= j < |out| ==> lo <= Rank(out[j]) <= hi
  {
  }

  lemma PutOk(p: Page, s: Span, i: nat, key: Key, value: Key)
    requires PageOk(p, s) && p.leaf && |p.keys| < MAX_KEYS && PlaceOf(p.keys, i, key)
    requires s.lo <= Rank(key) <= s.hi
    ensures PageOk(Put(p, i, key, value), s)
  {
    if i < |p.keys| && p.keys[i] == key {
    } else {
      SortedInsert(p.keys, i, key);
      RangeInsert(p.keys, i, key, s.lo, s.hi);
      var p' := Put(p, i, key, value);
      assert p'.keys == p.keys[..i] + [key] + p.keys[i..];
      assert |p'.vals| == |p'.keys|;
    }
  }

  lemma PutFresh(p: Page, s: Span, i: nat, key: Key, value: Key, contents: map<Key, Key>)
    requires p.leaf && i <= |p.keys| == |p.vals| && LeafMatches(p, s, contents)
    requires PlaceOf(p.keys, i, key) && Sorted(p.keys) && (i < |p.keys| ==> p.keys[i] != key)
    ensures var q := Put(p, i, key, value); |q.vals| == |q.keys| && LeafMatches(q, s, Wrote(contents, s, key, value))
  {
    var q := Put(p, i, key, value);
    assert q.keys[i] == key;
    forall j | 0 <= j < |q.keys| && j != i && s.lo < Rank(q.keys[j])
      ensures q.keys[j] != key && q.keys[j] in contents && contents[q.keys[j]] == q.vals[j]
    {
      var j0 := if j < i then j else j - 1;
      assert q.keys[j] == p.keys[j0] && q.vals[j] == p.vals[j0];
      if j > i && i < j0 { assert Rank(p.keys[i]) < Rank(p.keys[j0]); }
    }
  }

  lemma PutAgain(p: Page, s: Span, i: nat, key: Key, value: Key, contents: map<Key, Key>)
    requires p.leaf && i < |p.keys| == |p.vals| && LeafMatches(p, s, contents) && Sorted(p.keys) && p.keys[i] == key
    ensures LeafMatches(Put(p, i, key, value), s, Wrote(contents, s, key, value))
  {
  }

  lemma PutMatches(p: Page, s: Span, i: nat, key: Key, value: Key, contents: map<Key, Key>)
    requires PageOk(p, s) && p.leaf && PlaceOf(p.keys, i, key) && PageMatches(p, s, contents)
    ensures PageMatches(Put(p, i, key, value), s, Wrote(contents, s, key, value))
  {
    if i < |p.keys| && p.keys[i] == key {
      PutAgain(p, s, i, key, value, contents);
    } else {
      PutFresh(p, s, i, key, value, contents);
    }
  }

  lemma PutKeys(p: Page, i: nat, key: Key, value: Key)
    requires i <= |p.keys| == |p.vals|
    ensures forall k :: k in Put(p, i, key, value).keys <==> k == key || k in p.keys
  {
    var q := Put(p, i, key, value);
    assert p.keys == p.keys[..i] + p.keys[i..];
    assert q.keys[i] == key;
  }

  lemma PutKeepsInv(pages: Pages, span: Spans, id: PageId, i: nat, key: Key, value: Key)
    requires Inv(pages, span) && id in pages && pages[id].leaf && |pages[id].keys| < MAX_KEYS
    requires span[id].lo <= Rank(key) <= span[id].hi && PlaceOf(pages[id].keys, i, key)
    requires |pages[id].keys| == |pages[id].vals|
    ensures Inv(pages[id := Put(pages[id], i, key, value)], span)
  {
    assert PageOk(pages[id], span[id]);
    PutOk(pages[id], span[id], i, key, value);
  }

  lemma OtherMatches(p: Page, s: Span, contents: map<Key, Key>, at: Span, key: Key, value: Key)
    requires PageMatches(p, s, contents)
    requires p.leaf && at.lo < Rank(key) && s.lo < Rank(key) ==> key !in p.keys
    ensures PageMatches(p, s, Wrote(contents, at, key, value))
  {
    hide Rank;
  }

  lemma PutKeepsMatches(pages: Pages, span: Spans, contents: map<Key, Key>, id: PageId, p: Page, key: Key, value: Key)
    requires Matches(pages, span, contents) && id in pages && pages[id].leaf && p.leaf
    requires id in span && PageMatches(p, span[id], Wrote(contents, span[id], key, value))
    requires forall k :: k in p.keys <==> k == key || k in pages[id].keys
    requires span[id].lo < Rank(key) ==> forall q :: q != id ==> !StoredAt(pages, span, q, key)
    ensures Matches(pages[id := p], span, Wrote(contents, span[id], key, value))
  {
    hide Rank, PageMatches;
    var pages', contents' := pages[id := p], Wrote(contents, span[id], key, value);
    forall q | q in pages && q != id ensures PageMatches(pages[q], span[q], contents') {
      if pages[q].leaf && span[id].lo < Rank(key) { assert !StoredAt(pages, span, q, key); }
      OtherMatches(pages[q], span[q], contents, span[id], key, value);
    }
    forall k | k in contents' ensures exists q :: StoredAt(pages', span, q, k) {
      PutKeepsHome(pages, span, contents, id, p, key, value, k);
    }
  }

  lemma PutKeepsHome(pages: Pages, span: Spans, contents: map<Key, Key>, id: PageId, p: Page, key: Key, value: Key,
                     k: Key)
    requires Matches(pages, span, contents) && id in pages && pages[id].leaf && p.leaf && id in span
    requires forall k :: k in p.keys <==> k == key || k in pages[id].keys
    requires k in Wrote(contents, span[id], key, value)
    ensures var pages' := pages[id := p]; exists q :: StoredAt(pages', span, q, k)
  {
    hide Rank, PageMatches;
    var pages' := pages[id := p];
    if k == key && span[id].lo < Rank(key) {
      assert StoredAt(pages', span, id, k);
    } else {
      var home :| StoredAt(pages, span, home, k);
      assert StoredAt(pages', span, home, k);
    }
  }

  // Writing a key into the leaf that owns it is a map update; writing it at the
  // very start of a leaf's range changes nothing.
  lemma PutKeepsHolds(pages: Pages, span: Spans, contents: map<Key, Key>, id: PageId, i: nat, key: Key, value: Key)
    requires Holds(pages, span, contents) && id in pages && pages[id].leaf && |pages[id].keys| < MAX_KEYS
    requires id in span && span[id].lo <= Rank(key) <= span[id].hi && PlaceOf(pages[id].keys, i, key)
    requires |pages[id].keys| == |pages[id].vals|
    ensures Holds(pages[id := Put(pages[id], i, key, value)], span, Wrote(contents, span[id], key, value))
  {
    hide Rank;
    PutKeepsInv(pages, span, id, i, key, value);
    assert PageOk(pages[id], span[id]) && PageMatches(pages[id], span[id], contents);
    PutMatches(pages[id], span[id], i, key, value, contents);
    PutKeys(pages[id], i, key, value);
    if span[id].lo < Rank(key) {
      forall q | q != id ensures !StoredAt(pages, span, q, key) {
        if StoredAt(pages, span, q, key) { OneHome(pages, span, id, q, key); }
      }
    }
    PutKeepsMatches(pages, span, contents, id, Put(pages[id], i, key, value), key, value);
  }

  // ---------------------------------------------------------------- separators

  lemma {:induction false} ChildIndexIs(keys: seq<Key>, key: Key, i: nat)
    requires PlaceOf(keys, i, key)
    ensures ChildIndex(keys, key) == i
  {
    if keys != [] {
      CompareIsRankOrder(key, keys[0]);
      if i > 0 { ChildIndexIs(keys[1..], key, i - 1); }
    }
  }

  lemma ChildIndexPlace(keys: seq<Key>, key: Key)
    ensures PlaceOf(keys, ChildIndex(keys, key), key)
  {
    ChildIndexSplits(keys, key);
  }

  // A separator above the search path cannot exist: if key separates at or below
  // depth d, it does so in the page of that depth that owns key, or further down.
  lemma SeparatesBelow(pages: Pages, span: Spans, id: PageId, key: Key)
    requires Inv(pages, span) && id in pages && !pages[id].leaf && span[id].depth > 0
    requires span[id].lo < Rank(key) <= span[id].hi
    ensures Separates(pages, span, span[id].depth, key) <==>
            key in pages[id].keys || Separates(pages, span, span[id].depth - 1, key)
  {
    var d := span[id].depth;
    if Separates(pages, span, d, key) {
      var q :| SeparatesIn(pages, span, d, key, q);
      assert PageOk(pages[q], span[q]) && PageOk(pages[id], span[id]);
      if span[q].depth < d {
        assert SeparatesIn(pages, span, d - 1, key, q);
      }
    }
    if Separates(pages, span, d - 1, key) {
      var q :| SeparatesIn(pages, span, d - 1, key, q);
      assert SeparatesIn(pages, span, d, key, q);
    }
    if key in pages[id].keys { assert SeparatesIn(pages, span, d, key, id); }
  }

  lemma SplitSeparates(pages: Pages, span: Spans, parentId: PageId, idx: nat, newId: PageId, key: Key)
    requires CanCut(pages, parentId, idx, newId) && pages.Keys == span.Keys && span[parentId].depth > 0
    requires span[pages[parentId].childs[idx]].depth == span[parentId].depth - 1
    ensures var childId := pages[parentId].childs[idx];
            var span' := SplitSpan(span, childId, Rank(Cut(pages[childId])), newId);
            Separates(Split(pages, parentId, idx, newId), span', span[parentId].depth - 1, key) <==>
            Separates(pages, span, span[parentId].depth - 1, key)
  {
    var childId, d := pages[parentId].childs[idx], span[parentId].depth - 1;
    var child := pages[childId];
    var pages', span' := Split(pages, parentId, idx, newId), SplitSpan(span, childId, Rank(Cut(child)), newId);
    assert child.keys == LeftHalf(child).keys + RightHalf(child).keys;
    if Separates(pages, span, d, key) {
      var q :| SeparatesIn(pages, span, d, key, q);
      assert SeparatesIn(pages', span', d, key, q) || SeparatesIn(pages', span', d, key, newId);
    }
    if Separates(pages', span', d, key) {
      var q :| SeparatesIn(pages', span', d, key, q);
      assert SeparatesIn(pages, span, d, key, if q == newId then childId else q);
    }
  }

  // ---------------------------------------------------------------- shape

  // The part of the invariant that does not mention the order of keys.
  ghost predicate ShapeOk(p: Page, s: Span, span: Spans) {
    && |p.keys| <= MAX_KEYS
    && (p.leaf <==> s.depth == 0)
    && (if p.leaf then |p.vals| == |p.keys| else |p.childs| == |p.keys| + 1)
    && (!p.leaf ==> forall i :: 0 <= i < |p.childs| ==> p.childs[i] in span && span[p.childs[i]].depth + 1 == s.depth)
  }

  ghost predicate Shape(pages: Pages, span: Spans) {
    pages.Keys == span.Keys && forall id :: id in pages ==> ShapeOk(pages[id], span[id], span)
  }

  lemma InvShape(pages: Pages, span: Spans)
    requires Inv(pages, span)
    ensures Shape(pages, span)
  {
    forall id | id in pages ensures ShapeOk(pages[id], span[id], span) {
      assert PageOk(pages[id], span[id]) && LinksOk(pages[id], span[id], span);
      if !pages[id].leaf {
        forall i | 0 <= i < |pages[id].childs|
          ensures pages[id].childs[i] in span && span[pages[id].childs[i]].depth + 1 == span[id].depth
        {
          assert LinkOk(pages[id], span[id], span, i);
        }
      }
    }
  }

  lemma SplitKeepsShape(pages: Pages, span: Spans, parentId: PageId, idx: nat, newId: PageId, cut: real)
    requires Shape(pages, span) && CanCut(pages, parentId, idx, newId) && |pages[parentId].keys| < MAX_KEYS
    ensures Shape(Split(pages, parentId, idx, newId), SplitSpan(span, pages[parentId].childs[idx], cut, newId))
  {
    assert ShapeOk(pages[parentId], span[parentId], span);
    var childId := pages[parentId].childs[idx];
    assert ShapeOk(pages[childId], span[childId], span);
  }

  ghost predicate Path(pages: Pages, path: seq<PageId>) {
    && |path| > 0 && (forall i :: 0 <= i < |path| ==> path[i] in pages)
    && (forall i :: 0 <= i < |path| - 1 ==> !pages[path[i]].leaf && path[i + 1] in pages[path[i]].childs)
  }

  // Every way down to a leaf has the same length, whatever child ids are shared.
  lemma {:induction false} LeavesAtOneDepth(pages: Pages, span: Spans, path: seq<PageId>)
    requires Inv(pages, span) && Path(pages, path)
    ensures span[path[|path| - 1]].depth + |path| - 1 == span[path[0]].depth
    ensures pages[path[|path| - 1]].leaf ==> |path| == span[path[0]].depth + 1
  {
    var last := path[|path| - 1];
    InvShape(pages, span);
    assert ShapeOk(pages[last], span[last], span);
    if |path| > 1 {
      assert ShapeOk(pages[path[|path| - 2]], span[path[|path| - 2]], span);
      LeavesAtOneDepth(pages, span, path[..|path| - 1]);
    }
  }

  // Every internal page has at least two positions that own keys, and every page below
  // the top level at least half of the keys that fit.
  ghost predicate Seeded(pages: Pages, span: Spans) {
    && (forall id :: id in pages && id in span && !pages[id].leaf ==> SeededPage(pages[id], span[id]))
    && HalfFull(pages, span)
  }

  ghost predicate HalfFull(pages: Pages, span: Spans) {
    forall id, q :: id in pages && id in span && q in span && span[id].depth < span[q].depth ==>
      |pages[id].keys| >= MAX_KEYS / 2
  }

  ghost predicate SeededPage(p: Page, s: Span) {
    |p.keys| > 1 || (|p.keys| == 1 && Rank(p.keys[0]) < s.hi)
  }

  // ---------------------------------------------------------------- height

  // As many children as a half full page has, n levels down.
  function Fan(n: nat): (r: nat)
    ensures r > 0
  {
    if n == 0 then 1 else MAX_KEYS / 2 * Fan(n - 1)
  }

  ghost function Inside(span: Spans, lo: real, hi: real): set<PageId> {
    set id | id in span && lo <= span[id].lo && span[id].hi <= hi
  }

  lemma FirstTwo(pages: Pages, span: Spans, id: PageId)
    requires Inv(pages, span) && Seeded(pages, span) && id in pages && span[id].depth > 0
    ensures !pages[id].leaf && |pages[id].childs| > 1 && pages[id].childs[0] in pages && pages[id].childs[1] in pages
    ensures var a, b := pages[id].childs[0], pages[id].childs[1];
            && span[a].depth == span[b].depth == span[id].depth - 1
            && span[id].lo == span[a].lo < span[a].hi == span[b].lo < span[b].hi <= span[id].hi
  {
    assert PageOk(pages[id], span[id]) && LinksOk(pages[id], span[id], span) && SeededPage(pages[id], span[id]);
    assert LinkOk(pages[id], span[id], span, 0) && LinkOk(pages[id], span[id], span, 1);
  }

  lemma NoPageTwice(pages: Pages, span: Spans, lo: real, cut: real, hi: real)
    requires Inv(pages, span) && lo < cut < hi
    ensures |Inside(span, lo, hi)| >= |Inside(span, lo, cut)| + |Inside(span, cut, hi)|
  {
    var all, left, right := Inside(span, lo, hi), Inside(span, lo, cut), Inside(span, cut, hi);
    forall q | q in left ensures q !in right {
      assert PageOk(pages[q], span[q]);
    }
    assert left * right == {} && left + right <= all;
    assert |left + right| == |left| + |right|;
    SubsetSize(left + right, all);
  }

  lemma {:induction false} SubsetSize<T>(a: set<T>, b: set<T>)
    requires a <= b
    ensures |a| <= |b|
  {
    if a != {} {
      var x :| x in a;
      SubsetSize(a - {x}, b - {x});
    }
  }

  // The first positions of an internal page own keys, each the range of its child.
  lemma OwnedChild(pages: Pages, span: Spans, id: PageId, j: nat)
    requires Inv(pages, span) && id in pages && !pages[id].leaf && j < |pages[id].keys|
    ensures var p, s := pages[id], span[id];
            && j < |p.childs| && p.childs[j] in pages && span[p.childs[j]].depth + 1 == s.depth
            && span[p.childs[j]].lo == Lo(p, s, j) < Hi(p, s, j) == span[p.childs[j]].hi
            && Lo(p, s, j + 1) == Hi(p, s, j) && s.lo <= Lo(p, s, j) && (Lo(p, s, j) == s.lo ==> j == 0)
  {
    hide Rank;
    var p, s := pages[id], span[id];
    assert PageOk(p, s) && LinksOk(p, s, span) && LinkOk(p, s, span, j);
  }

  // A page below the top level has at least Fan(depth) pages inside its range.
  lemma {:induction false} ManyInside(pages: Pages, span: Spans, id: PageId, top: PageId)
    requires Inv(pages, span) && Seeded(pages, span) && id in pages && top in span && span[id].depth < span[top].depth
    ensures |Inside(span, span[id].lo, span[id].hi)| >= Fan(span[id].depth)
    decreases span[id].depth, 0
  {
    hide Rank;
    var p, s := pages[id], span[id];
    assert PageOk(p, s) && |p.keys| >= MAX_KEYS / 2;
    if s.depth == 0 {
      assert id in Inside(span, s.lo, s.hi);
    } else {
      ChildrenInside(pages, span, id, top, MAX_KEYS / 2);
      assert Lo(p, s, MAX_KEYS / 2) <= s.hi;
      SubsetSize(Inside(span, s.lo, Lo(p, s, MAX_KEYS / 2)), Inside(span, s.lo, s.hi));
    }
  }

  lemma {:induction false} ChildrenInside(pages: Pages, span: Spans, id: PageId, top: PageId, j: nat)
    requires Inv(pages, span) && Seeded(pages, span) && id in pages && top in span && span[id].depth < span[top].depth
    requires id in span && span[id].depth > 0 && !pages[id].leaf && j <= |pages[id].keys|
    ensures |Inside(span, span[id].lo, Lo(pages[id], span[id], j))| >= j * Fan(span[id].depth - 1)
    decreases span[id].depth - 1, 1, j
  {
    hide Rank, Seeded, PageOk, Fan, LinksOk, Inv, Lo, Hi;
    if j > 0 {
      var p, s := pages[id], span[id];
      OwnedChild(pages, span, id, j - 1);
      ChildrenInside(pages, span, id, top, j - 1);
      ManyInside(pages, span, p.childs[j - 1], top);
      var lo, cut, hi := s.lo, Lo(p, s, j - 1), Lo(p, s, j);
      if lo < cut { NoPageTwice(pages, span, lo, cut, hi); }
      MoreTimes(j, Fan(s.depth - 1));
    } else {
      assert 0 * Fan(span[id].depth - 1) == 0;
    }
  }

  lemma MoreTimes(j: nat, n: nat)
    requires j > 0
    ensures j * n == (j - 1) * n + n
  {
  }

  lemma {:induction false} IdCount(ids: set<PageId>, n: nat)
    requires forall id :: id in ids ==> id < n
    ensures |ids| <= n
  {
    if n == 0 {
      assert ids == {};
    } else if n <= PAGE_IDS {
      IdCount(ids - {n - 1}, n - 1);
    } else {
      IdCount(ids, n - 1);
    }
  }

  lemma {:induction false} FanGrows(a: nat, b: nat)
    requires a <= b
    ensures Fan(a) <= Fan(b)
  {
    if a < b { FanGrows(a, b - 1); }
  }

  lemma FanOf5()
    ensures Fan(5) == 10_000_000_000
  {
    assert Fan(1) == 100 && Fan(2) == 10_000 && Fan(3) == 1_000_000 && Fan(4) == 100_000_000;
  }

  // With 32-bit page ids no tree has more than five levels above its leaves.
  lemma TreeIsShallow(pages: Pages, span: Spans, id: PageId)
    requires Inv(pages, span) && Seeded(pages, span) && id in pages
    ensures span[id].depth <= 5
  {
    hide Fan, Rank;
    if span[id].depth > 5 {
      FirstTwo(pages, span, id);
      var a := pages[id].childs[0];
      ManyInside(pages, span, a, id);
      IdCount(Inside(span, span[a].lo, span[a].hi), PAGE_IDS);
      FanOf5();
      FanGrows(5, span[a].depth);
    }
  }

  // ---------------------------------------------------------------- keys an insert loses

  // The insert of a key that splits an internal child c exactly at that key goes
  // left, to the right edge of the left half, and so to the page that both halves
  // name.  If that page is full too, its upper half is linked into the left half
  // only, where no search for it arrives.
  ghost predicate SharedFull(pages: Pages, c: PageId, key: Key) {
    && c in pages && !pages[c].leaf && |pages[c].keys| >= MAX_KEYS && pages[c].keys[MAX_KEYS / 2 - 1] == key
    && |pages[c].childs| > MAX_KEYS / 2 && pages[c].childs[MAX_KEYS / 2] in pages
    && |pages[pages[c].childs[MAX_KEYS / 2]].keys| >= MAX_KEYS
  }

  // What an insert loses: of the keys past `from` up to `to`, which are those of the upper
  // half of a page, only those are found afterwards that a search from page `edge` finds,
  // and the key `last` is not.
  datatype Loss = Loss(from: Key, to: Key, last: Key, edge: Option<PageId>, level: nat)

  ghost predicate Takes(loss: Loss, k: Key) {
    Rank(loss.from) < Rank(k) <= Rank(loss.to)
  }

  ghost function Astray(pages: Pages, loss: Loss, k: Key): Option<Key> {
    match loss.edge
    case None => None
    case Some(e) => Search(pages, e, loss.level, k)
  }

  ghost function LossAt(pages: Pages, c: PageId, d: nat, key: Key): Loss
    requires SharedFull(pages, c, key)
  {
    var x := pages[pages[c].childs[MAX_KEYS / 2]];
    Loss(x.keys[MAX_KEYS / 2 - 1], pages[c].keys[MAX_KEYS / 2], x.keys[MAX_KEYS - 1],
         if x.leaf || |x.childs| <= MAX_KEYS / 2 then None else Some(x.childs[MAX_KEYS / 2]),
         if d < 2 then 0 else d - 2)
  }

  // What inserting `key` below page id loses.  The guard is met at the topmost page on
  // the way that routes by the key.
  ghost function LossBelow(pages: Pages, id: PageId, d: nat, key: Key): Option<Loss>
    decreases d, 0
  {
    if id !in pages || pages[id].leaf || d == 0 || key in pages[id].keys then None
    else if ChildIndex(pages[id].keys, key) >= |pages[id].childs| then None
    else LossIn(pages, pages[id].childs[ChildIndex(pages[id].keys, key)], d - 1, key)
  }

  ghost function LossIn(pages: Pages, c: PageId, d: nat, key: Key): Option<Loss>
    decreases d, 1
  {
    if SharedFull(pages, c, key) then Some(LossAt(pages, c, d, key)) else LossBelow(pages, c, d, key)
  }

  // A full page's last key is stored and lies past its first one.
  lemma LastKeyStored(pages: Pages, span: Spans, contents: map<Key, Key>, id: PageId)
    requires Holds(pages, span, contents) && id in pages && |pages[id].keys| >= MAX_KEYS
    ensures var k := pages[id].keys[MAX_KEYS - 1]; k in contents && span[id].lo < Rank(k) <= span[id].hi
  {
    hide Rank;
    var p := pages[id];
    assert PageOk(p, span[id]) && PageMatches(p, span[id], contents);
    assert Rank(p.keys[0]) < Rank(p.keys[MAX_KEYS - 1]);
    assert p.keys[MAX_KEYS - 1] in p.keys;
  }

  // The page at the right edge of the cut owns the range from the cut on.
  lemma SharedPage(pages: Pages, span: Spans, c: PageId, key: Key)
    requires Inv(pages, span) && SharedFull(pages, c, key)
    ensures Full(pages[c]) && c in span && span[c].lo < Rank(key)
    ensures var d := pages[c].childs[MAX_KEYS / 2];
            && d in span && span[d].depth + 1 == span[c].depth && span[d].lo == Rank(key)
            && span[d].hi == Rank(pages[c].keys[MAX_KEYS / 2]) && Rank(key) < span[d].hi <= span[c].hi
            && PageOk(pages[d], span[d])
  {
    hide Rank;
    var p := pages[c];
    assert PageOk(p, span[c]) && LinksOk(p, span[c], span) && LinkOk(p, span[c], span, MAX_KEYS / 2);
    assert Rank(p.keys[MAX_KEYS / 2 - 1]) < Rank(p.keys[MAX_KEYS / 2]);
    assert PageOk(pages[p.childs[MAX_KEYS / 2]], span[p.childs[MAX_KEYS / 2]]);
  }

  // The keys at stake lie past the inserted one and below the page that the insert
  // passes; the last of them is stored.
  lemma {:induction false} LossStored(pages: Pages, span: Spans, contents: map<Key, Key>, id: PageId, key: Key)
    requires Holds(pages, span, contents) && id in pages && span[id].lo < Rank(key) <= span[id].hi
    requires LossBelow(pages, id, span[id].depth, key).Some?
    ensures var loss := LossBelow(pages, id, span[id].depth, key).value;
            && loss.last in contents && loss.last != key && Takes(loss, loss.last)
            && Rank(key) < Rank(loss.from) && Rank(loss.to) <= span[id].hi
    decreases span[id].depth
  {
    hide Rank;
    var p := pages[id];
    var c := Descend(pages, span, id, key);
    assert PageOk(p, span[id]) && LinksOk(p, span[id], span) && LinkOk(p, span[id], span, ChildIndex(p.keys, key));
    assert span[id].lo <= span[c].lo && span[c].hi <= span[id].hi;
    if SharedFull(pages, c, key) {
      SharedPage(pages, span, c, key);
      LastKeyStored(pages, span, contents, pages[c].childs[MAX_KEYS / 2]);
      SharedKeys(pages, span, c, key);
    } else {
      LossStored(pages, span, contents, c, key);
    }
  }

  // The keys of the shared page lie past its beginning.
  lemma SharedKeys(pages: Pages, span: Spans, c: PageId, key: Key)
    requires Inv(pages, span) && SharedFull(pages, c, key)
    ensures var x := pages[pages[c].childs[MAX_KEYS / 2]];
            && Rank(key) < Rank(x.keys[MAX_KEYS / 2 - 1]) < Rank(x.keys[MAX_KEYS - 1])
            && Rank(x.keys[MAX_KEYS - 1]) <= Rank(pages[c].keys[MAX_KEYS / 2])
  {
    hide Rank;
    SharedPage(pages, span, c, key);
    var x := pages[pages[c].childs[MAX_KEYS / 2]];
    assert Rank(key) <= Rank(x.keys[0]) < Rank(x.keys[MAX_KEYS / 2 - 1]);
  }

  // The page at the edge, from which the rest is found, lies below.
  lemma {:induction false} LossEdge(pages: Pages, span: Spans, id: PageId, key: Key)
    requires Shape(pages, span) && id in pages && LossBelow(pages, id, span[id].depth, key).Some?
    ensures var loss := LossBelow(pages, id, span[id].depth, key).value;
            loss.edge.Some? ==>
              loss.edge.value in pages && span[loss.edge.value].depth == loss.level < span[id].depth
    decreases span[id].depth
  {
    hide Rank;
    assert ShapeOk(pages[id], span[id], span);
    var c := pages[id].childs[ChildIndex(pages[id].keys, key)];
    if SharedFull(pages, c, key) { SharedEdge(pages, span, c, key); } else { LossEdge(pages, span, c, key); }
  }

  lemma SharedEdge(pages: Pages, span: Spans, c: PageId, key: Key)
    requires Shape(pages, span) && c in pages && SharedFull(pages, c, key)
    ensures var loss := LossAt(pages, c, span[c].depth, key);
            loss.edge.Some? ==>
              loss.edge.value in pages && span[loss.edge.value].depth == loss.level < span[c].depth
  {
    assert ShapeOk(pages[c], span[c], span);
    var x := pages[c].childs[MAX_KEYS / 2];
    assert ShapeOk(pages[x], span[x], span);
  }

  // A search depends on the pages below its start only.
  lemma {:induction false} SearchFrame(pages: Pages, span: Spans, pages': Pages, id: PageId, k: Key)
    requires Shape(pages, span) && id in pages
    requires forall q :: q in pages && span[q].depth <= span[id].depth ==> q in pages' && pages'[q] == pages[q]
    ensures Search(pages', id, span[id].depth, k) == Search(pages, id, span[id].depth, k)
    decreases span[id].depth
  {
    hide Rank;
    assert ShapeOk(pages[id], span[id], span);
    var p := pages[id];
    if !p.leaf && ChildIndex(p.keys, k) < |p.childs| {
      var c := p.childs[ChildIndex(p.keys, k)];
      assert ShapeOk(pages[c], span[c], span);
      SearchFrame(pages, span, pages', c, k);
    }
  }

  lemma AstrayFrame(pages: Pages, span: Spans, pages': Pages, id: PageId, key: Key, k: Key)
    requires Shape(pages, span) && id in pages && LossBelow(pages, id, span[id].depth, key).Some?
    requires forall q :: q in pages && span[q].depth < span[id].depth ==> q in pages' && pages'[q] == pages[q]
    ensures var loss := LossBelow(pages, id, span[id].depth, key).value;
            Astray(pages', loss, k) == Astray(pages, loss, k)
  {
    hide Rank, Search, LossBelow;
    assert id in span;
    hide Shape;
    var loss := LossBelow(pages, id, span[id].depth, key).value;
    LossEdge(pages, span, id, key);
    if loss.edge.Some? { SearchFrame(pages, span, pages', loss.edge.value, k); }
  }

  lemma SharedFrame(pages: Pages, pages': Pages, span: Spans, id: PageId, key: Key)
    requires Shape(pages, span) && id in pages
    requires forall q :: q in pages && span[q].depth <= span[id].depth ==> q in pages' && pages'[q] == pages[q]
    ensures SharedFull(pages', id, key) == SharedFull(pages, id, key)
    ensures SharedFull(pages, id, key) ==>
              var d := pages[id].childs[MAX_KEYS / 2]; d in pages' && pages'[d] == pages[d]
  {
    assert ShapeOk(pages[id], span[id], span);
    if !pages[id].leaf && |pages[id].childs| > MAX_KEYS / 2 {
      var d := pages[id].childs[MAX_KEYS / 2];
      assert ShapeOk(pages[d], span[d], span);
    }
  }

  // What the descent below a page loses depends on the pages below it only.
  lemma {:induction false} LossFrame(pages: Pages, pages': Pages, span: Spans, id: PageId, key: Key)
    requires Shape(pages, span) && id in pages
    requires forall q :: q in pages && span[q].depth <= span[id].depth ==> q in pages' && pages'[q] == pages[q]
    ensures LossBelow(pages', id, span[id].depth, key) == LossBelow(pages, id, span[id].depth, key)
    ensures LossIn(pages', id, span[id].depth, key) == LossIn(pages, id, span[id].depth, key)
    decreases span[id].depth
  {
    hide Rank;
    assert ShapeOk(pages[id], span[id], span);
    var p := pages[id];
    SharedFrame(pages, pages', span, id, key);
    if !p.leaf && ChildIndex(p.keys, key) < |p.childs| {
      var c := p.childs[ChildIndex(p.keys, key)];
      assert ShapeOk(pages[c], span[c], span);
      LossFrame(pages, pages', span, c, key);
    }
  }

  // Splitting page c leaves the half that the descent goes on to with the same loss.
  lemma {:induction false} LossHalf(pages: Pages, span: Spans, pages': Pages, c: PageId, n: PageId, key: Key)
    requires Shape(pages, span) && c in pages && PageOk(pages[c], span[c]) && Full(pages[c])
    requires n in pages' && pages'[n] ==
             if Rank(key) > Rank(Cut(pages[c])) then RightHalf(pages[c]) else LeftHalf(pages[c])
    requires forall q :: q in pages && span[q].depth < span[c].depth ==> q in pages' && pages'[q] == pages[q]
    ensures LossBelow(pages', n, span[c].depth, key) == LossBelow(pages, c, span[c].depth, key)
  {

    hide Rank, LossIn;
    var p, h := pages[c], pages'[n];
    assert ShapeOk(p, span[c], span);
    if !p.leaf {
      ChildIndexPlace(p.keys, key);
      var i := ChildIndex(p.keys, key);
      HalfIndex(p, key, i);
      HalfKeys(p, key);
      if key !in p.keys {
        var g := p.childs[i];
        assert ShapeOk(pages[g], span[g], span);
        LossFrame(pages, pages', span, g, key);
      }
    }
  }

  lemma HalfKeys(p: Page, key: Key)
    requires Full(p) && Sorted(p.keys)
    ensures var h := if Rank(key) > Rank(Cut(p)) then RightHalf(p) else LeftHalf(p); key in h.keys <==> key in p.keys
  {
    hide Rank;
    assert p.keys == LeftHalf(p).keys + RightHalf(p).keys;
    assert forall m :: 0 <= m < MAX_KEYS / 2 ==> Rank(p.keys[m]) <= Rank(Cut(p));
    assert forall m :: MAX_KEYS / 2 <= m < MAX_KEYS ==> Rank(Cut(p)) < Rank(p.keys[m]);
  }

  // Where the search for a key goes on in the half that owns it.
  lemma HalfIndex(p: Page, key: Key, i: nat)
    requires Full(p) && !p.leaf && Sorted(p.keys) && PlaceOf(p.keys, i, key)
    ensures var h := if Rank(key) > Rank(Cut(p)) then RightHalf(p) else LeftHalf(p);
            && i < |p.childs| && ChildIndex(h.keys, key) < |h.childs|
            && h.childs[ChildIndex(h.keys, key)] == p.childs[i]
  {
    hide Rank, RightHalf, LeftHalf, ChildIndex;
    if Rank(key) > Rank(Cut(p)) { RightIndex(p, key, i); } else { LeftIndex(p, key, i); }
  }

  lemma RightIndex(p: Page, key: Key, i: nat)
    requires Full(p) && !p.leaf && Sorted(p.keys) && PlaceOf(p.keys, i, key) && Rank(key) > Rank(Cut(p))
    ensures var h := RightHalf(p);
            i < |p.childs| && ChildIndex(h.keys, key) < |h.childs| && h.childs[ChildIndex(h.keys, key)] == p.childs[i]
  {
    hide Rank, ChildIndex;
    assert i >= MAX_KEYS / 2;
    ChildIndexIs(RightHalf(p).keys, key, i - MAX_KEYS / 2);
  }

  lemma LeftIndex(p: Page, key: Key, i: nat)
    requires Full(p) && !p.leaf && Sorted(p.keys) && PlaceOf(p.keys, i, key) && Rank(key) <= Rank(Cut(p))
    ensures var h := LeftHalf(p);
            i < |p.childs| && ChildIndex(h.keys, key) < |h.childs| && h.childs[ChildIndex(h.keys, key)] == p.childs[i]
  {
    hide Rank, ChildIndex;
    assert i <= MAX_KEYS / 2 - 1;
    ChildIndexIs(LeftHalf(p).keys, key, i);
  }

  // ---------------------------------------------------------------- searches past an edge

  // Below a page some page of each depth ends at a given separator of it.
  lemma {:induction false} EndsAt(pages: Pages, span: Spans, id: PageId, k: Key, d: nat) returns (z: PageId)
    requires Inv(pages, span) && id in pages && d <= span[id].depth && span[id].lo < Rank(k) <= span[id].hi
    requires Rank(k) == span[id].hi || (d < span[id].depth && k in pages[id].keys)
    ensures z in pages && span[z].depth == d && span[z].lo < Rank(k) == span[z].hi
    decreases span[id].depth
  {
    hide Rank;
    if d == span[id].depth {
      z := id;
    } else {
      var p, i := pages[id], ChildIndex(pages[id].keys, k);
      assert PageOk(p, span[id]) && LinksOk(p, span[id], span);
      var c := Descend(pages, span, id, k);
      ChildIndexPlace(p.keys, k);
      assert LinkOk(p, span[id], span, i);
      if k in p.keys {
        var m :| 0 <= m < |p.keys| && p.keys[m] == k;
        assert m == i;
      }
      z := EndsAt(pages, span, c, k, d);
    }
  }

  // A page that starts before a separator of a higher page does not reach past it.
  lemma NoStraddle(pages: Pages, span: Spans, id: PageId, i: nat, y: PageId)
    requires Inv(pages, span) && id in pages && y in pages && span[y].depth < span[id].depth && i < |pages[id].keys|
    requires !pages[id].leaf && span[y].lo < Rank(pages[id].keys[i])
    ensures span[y].hi <= Rank(pages[id].keys[i])
  {
    hide Rank;
    assert PageOk(pages[id], span[id]);
    var z := EndsAt(pages, span, id, pages[id].keys[i], span[y].depth);
    if z != y { assert Apart(span[z], span[y]); }
  }

  // A search that leaves the range of a page at its right end moves on by at most
  // one separator of page d a level, and so does not find the last key of d.
  lemma {:induction false} BeyondEdge(pages: Pages, span: Spans, pages': Pages, d: PageId, x: PageId, m: nat)
    requires Inv(pages, span) && Seeded(pages, span)
    requires d in pages && !pages[d].leaf && |pages[d].keys| == MAX_KEYS
    requires x in pages && span[x].depth < span[d].depth && m + span[x].depth < MAX_KEYS - 1
    requires span[x].hi <= Rank(pages[d].keys[m])
    requires forall q :: q in pages && span[q].lo >= span[x].lo && span[q].depth <= span[x].depth ==>
               q in pages' && pages'[q] == pages[q]
    ensures Search(pages', x, span[x].depth, pages[d].keys[MAX_KEYS - 1]) == None
    decreases span[x].depth
  {
    hide Rank, Seeded;
    var k, p := pages[d].keys[MAX_KEYS - 1], pages[x];
    assert PageOk(p, span[x]) && PageOk(pages[d], span[d]);
    assert Rank(pages[d].keys[m]) < Rank(k);
    if p.leaf {
      assert k !in p.keys;
      LookupMisses(p.keys, p.vals, k);
    } else {
      var last := |p.keys|;
      ChildIndexIs(p.keys, k, last);
      assert LinksOk(p, span[x], span) && LinkOk(p, span[x], span, last);
      var y := p.childs[last];
      assert Rank(pages[d].keys[m]) < Rank(pages[d].keys[m + 1]);
      assert span[y].lo >= span[x].lo;
      assert span[y].lo < Rank(pages[d].keys[m + 1]) by { assert PageOk(pages[y], span[y]); }
      NoStraddle(pages, span, d, m + 1, y);
      BeyondEdge(pages, span, pages', d, y, m + 1);
    }
  }

  lemma {:induction false} LookupMisses(keys: seq<Key>, vals: seq<Key>, key: Key)
    requires |keys| == |vals| && key !in keys
    ensures Lookup(keys, vals, key) == None
  {
    if keys != [] { LookupMisses(keys[1..], vals[1..], key); }
  }

  // ---------------------------------------------------------------- one descent step

  // The mutable part of the tree.
  datatype State = State(pages: Pages, span: Spans, contents: map<Key, Key>, nextID: int)

  // How the insert came to a page: as the owner of the key, or right of a
  // separator equal to it, along pages that begin at the key.
  datatype Way = Own | Stray(ids: set<PageId>)

  // Ids already given out are below nextID, and `levels` more can be given out.
  ghost predicate IdsOk(t: State, levels: nat) {
    0 < t.nextID && t.nextID + levels < PAGE_IDS - 1 && forall id :: id in t.pages ==> 0 < id < t.nextID
  }

  // A set of pages that holds the first child of each of its pages, and whose keys
  // are greater than the given one, but for the first of a leaf.
  ghost predicate Spine(pages: Pages, ids: set<PageId>, key: Key) {
    forall id :: id in ids && id in pages ==> SpinePage(pages[id], ids, key)
  }

  ghost predicate SpinePage(p: Page, ids: set<PageId>, key: Key) {
    && (!p.leaf ==> |p.childs| > 0 && p.childs[0] in ids)
    && (forall m :: 0 <= m < |p.keys| ==> Rank(key) <= Rank(p.keys[m]))
    && (forall m :: 0 <= m < |p.keys| && (m > 0 || !p.leaf) ==> Rank(key) < Rank(p.keys[m]))
  }

  ghost function StartingAt(span: Spans, key: Key): set<PageId> {
    set id | id in span && span[id].lo == Rank(key)
  }

  // The left half of a split at the key: the key is its last separator.
  ghost predicate AtEdge(t: State, id: PageId, key: Key)
    requires id in t.pages && id in t.span
  {
    !t.pages[id].leaf && t.span[id].hi == Rank(key)
  }

  // What insertNonFull needs of page id.
  ghost predicate Fits(t: State, id: PageId) {
    && Shape(t.pages, t.span) && Seeded(t.pages, t.span)
    && id in t.pages && |t.pages[id].keys| < MAX_KEYS && IdsOk(t, t.span[id].depth)
  }

  // What it needs to keep the contents.
  ghost predicate Ready(t: State, id: PageId, key: Key, way: Way) {
    && Fits(t, id)
    && match way
       case Own =>
         && Holds(t.pages, t.span, t.contents) && t.span[id].lo < Rank(key) <= t.span[id].hi
         && (AtEdge(t, id, key) ==>
               && |t.pages[id].keys| > 0 && t.pages[id].keys[|t.pages[id].keys| - 1] == key
               && !EdgeFull(t, id))
       case Stray(ids) => id in ids && Spine(t.pages, ids, key)
  }

  // What insertNonFull leaves alone: the other pages at or above the level of id.
  ghost predicate Framed(t: State, t': State, id: PageId)
    requires t.pages.Keys == t.span.Keys && id in t.span
  {
    && Shape(t'.pages, t'.span) && Seeded(t'.pages, t'.span) && IdsOk(t', 0) && t'.nextID <= t.nextID + t.span[id].depth
    && (forall q :: q in t.span ==> q in t'.span && t'.span[q].depth == t.span[q].depth)
    && (forall q :: q in t.span && t.span[q].depth >= t.span[id].depth ==> t'.span[q] == t.span[q])
    && (forall q :: q in t.span && t.span[q].depth >= t.span[id].depth && q != id ==>
          q in t'.pages && t'.pages[q] == t.pages[q])
    && (forall q :: q in t'.span && q !in t.span ==> t'.span[q].depth < t.span[id].depth)
  }

  ghost predicate HoldsAs(t: State, contents: map<Key, Key>) {
    Holds(t.pages, t.span, t.contents) && t.contents == contents
  }

  // The page that the edge names, when it has to be split.
  ghost predicate EdgeFull(t: State, id: PageId)
    requires id in t.pages
  {
    var p := t.pages[id];
    |p.childs| > 0 && p.childs[|p.childs| - 1] in t.pages && |t.pages[p.childs[|p.childs| - 1]].keys| >= MAX_KEYS
  }

  ghost predicate Within(s: Span, r: Span) {
    r.lo <= s.lo && s.hi <= r.hi
  }

  // Every key of the range of id is found as before, but for those that the loss takes,
  // and outside of that range nothing changes.
  ghost predicate LossDone(t: State, t': State, id: PageId, loss: Loss)
    requires t.pages.Keys == t.span.Keys && id in t.span
  {
    && t'.contents == t.contents
    && (forall q :: q in t.span && q != id && !Within(t.span[q], t.span[id]) ==>
          q in t'.pages && t'.pages[q] == t.pages[q])
    && forall k :: t.span[id].lo < Rank(k) <= t.span[id].hi ==>
         Search(t'.pages, id, t.span[id].depth, k) == AfterLoss(t.pages, id, t.span[id].depth, loss, k)
  }

  ghost function AfterLoss(pages: Pages, id: PageId, d: nat, loss: Loss, k: Key): Option<Key> {
    if Takes(loss, k) then Astray(pages, loss, k) else Search(pages, id, d, k)
  }

  // What insertNonFull does for a page that owns the key: it updates the map unless
  // the key separates, or it loses keys.
  ghost predicate OwnDone(t: State, t': State, id: PageId, key: Key, value: Key)
    requires t.pages.Keys == t.span.Keys && id in t.span
  {
    var d := t.span[id].depth;
    match LossBelow(t.pages, id, d, key)
    case Some(loss) => LossDone(t, t', id, loss)
    case None => HoldsAs(t', if Separates(t.pages, t.span, d, key) then t.contents else t.contents[key := value])
  }

  // Keys that may stand in page id afterwards.
  ghost predicate KeyKnown(pages: Pages, id: PageId, key: Key, k: Key)
    requires id in pages
  {
    var p := pages[id];
    || k in p.keys
    || (p.leaf && k == key)
    || (!p.leaf && |p.childs| > 0 && p.childs[0] in pages && k in pages[p.childs[0]].keys)
  }

  ghost predicate SameLast(a: seq<PageId>, b: seq<PageId>) {
    |a| > 1 && |b| > 1 && b[|b| - 1] == a[|a| - 1]
  }

  // What it does along pages that begin at the key: nothing for the contents.
  ghost predicate StrayDone(t: State, t': State, id: PageId, key: Key, ids: set<PageId>)
    requires t.pages.Keys == t.span.Keys && id in t.pages
  {
    && t'.contents == t.contents
    && (forall q :: q in t.pages && q !in ids ==> q in t'.pages && t'.pages[q] == t.pages[q])
    && (Holds(t.pages, t.span, t.contents) && t.span[id].lo == Rank(key) ==> Holds(t'.pages, t'.span, t'.contents))
    && id in t'.pages && t'.pages[id].leaf == t.pages[id].leaf
    && (forall k :: k in t'.pages[id].keys ==> KeyKnown(t.pages, id, key, k))
    && (|t.pages[id].childs| > 1 ==> SameLast(t.pages[id].childs, t'.pages[id].childs))
  }

  ghost predicate Done(t: State, t': State, id: PageId, key: Key, value: Key, way: Way)
    requires t.pages.Keys == t.span.Keys && id in t.span
  {
    match way
    case Own => OwnDone(t, t', id, key, value)
    case Stray(ids) => StrayDone(t, t', id, key, ids)
  }

  ghost predicate CanStep(t: State, id: PageId, i: nat)
  {
    && Shape(t.pages, t.span) && id in t.pages && !t.pages[id].leaf && i < |t.pages[id].childs|
    && |t.pages[id].keys| < MAX_KEYS && IdsOk(t, t.span[id].depth) && t.span[id].depth > 0
  }

  // The child at position i is split first when it is full.
  ghost function Stepped(t: State, id: PageId, i: nat): State
    requires CanStep(t, id, i)
  {
    assert ShapeOk(t.pages[id], t.span[id], t.span);
    var c := t.pages[id].childs[i];
    assert ShapeOk(t.pages[c], t.span[c], t.span);
    if |t.pages[c].keys| < MAX_KEYS then t
    else
      State(Split(t.pages, id, i, t.nextID), SplitSpan(t.span, c, Rank(Cut(t.pages[c])), t.nextID),
            t.contents, t.nextID + 1)
  }

  lemma StepFits(t: State, id: PageId, i: nat)
    requires CanStep(t, id, i)
    ensures var c := t.pages[id].childs[i];
            && c in t.pages && c in t.span && t.span[c].depth + 1 == t.span[id].depth
            && (|t.pages[c].keys| >= MAX_KEYS ==> CanCut(t.pages, id, i, t.nextID))
    ensures t.pages.Keys == t.span.Keys && |t.pages[id].childs| == |t.pages[id].keys| + 1
    ensures var t1, c := Stepped(t, id, i), t.pages[id].childs[i];
            id in t1.pages && (|t.pages[c].keys| >= MAX_KEYS && i <= |t.pages[id].keys| ==> i < |t1.pages[id].keys|)
  {
    assert ShapeOk(t.pages[id], t.span[id], t.span);
    var c := t.pages[id].childs[i];
    assert ShapeOk(t.pages[c], t.span[c], t.span);
  }

  // Shape and ids after the step, and the page the descent goes on to.
  lemma StepShape(t: State, id: PageId, i: nat, j: nat)
    requires CanStep(t, id, i)
    requires var c := t.pages[id].childs[i];
             j == i || (j == i + 1 && c in t.pages && |t.pages[c].keys| >= MAX_KEYS)
    ensures var t1 := Stepped(t, id, i);
            && Shape(t1.pages, t1.span) && IdsOk(t1, t.span[id].depth - 1) && t1.nextID <= t.nextID + 1
            && t1.contents == t.contents
            && id in t1.pages && j < |t1.pages[id].childs| && t1.span[id] == t.span[id]
            && var n := t1.pages[id].childs[j];
               n in t1.pages && |t1.pages[n].keys| < MAX_KEYS && t1.span[n].depth + 1 == t.span[id].depth
  {
    StepFits(t, id, i);
    var c := t.pages[id].childs[i];
    assert ShapeOk(t.pages[c], t.span[c], t.span) && ShapeOk(t.pages[id], t.span[id], t.span);
    if |t.pages[c].keys| >= MAX_KEYS {
      SplitKeepsShape(t.pages, t.span, id, i, t.nextID, Rank(Cut(t.pages[c])));
    }
  }

  ghost predicate StepKeeps(t: State, t1: State, id: PageId)
    requires t.pages.Keys == t.span.Keys && id in t.span
  {
    && t1.pages.Keys == t1.span.Keys && t1.nextID <= t.nextID + 1
    && (forall q :: q in t.span ==> q in t1.span && t1.span[q].depth == t.span[q].depth)
    && (forall q :: q in t.span && t.span[q].depth >= t.span[id].depth ==> t1.span[q] == t.span[q])
    && (forall q :: q in t.span && t.span[q].depth >= t.span[id].depth && q != id ==> t1.pages[q] == t.pages[q])
    && (forall q :: q in t1.span && q !in t.span ==> t1.span[q].depth < t.span[id].depth)
  }

  lemma StepSeeded(t: State, id: PageId, i: nat)
    requires CanStep(t, id, i) && Seeded(t.pages, t.span)
    ensures Seeded(Stepped(t, id, i).pages, Stepped(t, id, i).span)
  {
    hide HalfFull;
    StepFits(t, id, i);
    var t1, c := Stepped(t, id, i), t.pages[id].childs[i];
    forall q | q in t1.pages && q in t1.span && !t1.pages[q].leaf ensures SeededPage(t1.pages[q], t1.span[q]) {
      if q in t.pages && q != c { assert SeededPage(t.pages[q], t.span[q]); }
    }
    StepHalfFull(t, id, i);
  }

  // A split leaves half of the keys on both sides.
  lemma StepHalfFull(t: State, id: PageId, i: nat)
    requires CanStep(t, id, i) && HalfFull(t.pages, t.span)
    ensures HalfFull(Stepped(t, id, i).pages, Stepped(t, id, i).span)
  {
    hide Rank, Shape;
    StepFits(t, id, i);
    var t1, c := Stepped(t, id, i), t.pages[id].childs[i];
    if |t.pages[c].keys| >= MAX_KEYS {
      forall q, r | q in t1.pages && q in t1.span && r in t1.span && t1.span[q].depth < t1.span[r].depth
        ensures |t1.pages[q].keys| >= MAX_KEYS / 2
      {
        var r' := if r == t.nextID then c else r;
        if q != c && q != t.nextID { assert |t.pages[q].keys| >= MAX_KEYS / 2; }
      }
    }
  }

  lemma StepIsSmall(t: State, id: PageId, i: nat)
    requires CanStep(t, id, i)
    ensures StepKeeps(t, Stepped(t, id, i), id)
  {
    hide Rank, Seeded;
    StepFits(t, id, i);
  }

  // Framing composes along the descent.
  lemma FramedUp(t: State, t1: State, t': State, id: PageId, n: PageId)
    requires t.pages.Keys == t.span.Keys && id in t.span
    requires StepKeeps(t, t1, id) && n in t1.span && t1.span[n].depth + 1 == t.span[id].depth
    requires Framed(t1, t', n)
    ensures Framed(t, t', id)
    ensures id in t'.pages && id in t1.pages && t'.pages[id] == t1.pages[id]
  {
    hide Shape, Seeded, IdsOk;
  }

  // A step at a position that owns keys keeps everything.
  lemma HealthyStep(t: State, id: PageId, i: nat)
    requires CanStep(t, id, i) && Holds(t.pages, t.span, t.contents)
    requires i <= |t.pages[id].keys| && Lo(t.pages[id], t.span[id], i) < Hi(t.pages[id], t.span[id], i)
    ensures HoldsAs(Stepped(t, id, i), t.contents)
    ensures var c := t.pages[id].childs[i];
            && c in t.pages && c in t.span && PageOk(t.pages[c], t.span[c])
            && t.span[c].lo == Lo(t.pages[id], t.span[id], i) && t.span[c].hi == Hi(t.pages[id], t.span[id], i)
            && (|t.pages[c].keys| >= MAX_KEYS ==> CanSplit(t.pages, t.span, id, i, t.nextID))
  {
    hide Rank, Shape, Matches, Split, SplitSpan;
    StepFits(t, id, i);
    var c := t.pages[id].childs[i];
    assert LinksOk(t.pages[id], t.span[id], t.span) && LinkOk(t.pages[id], t.span[id], t.span, i);
    assert PageOk(t.pages[c], t.span[c]);
    if |t.pages[c].keys| >= MAX_KEYS {
      SplitKeepsInv(t.pages, t.span, id, i, t.nextID);
      SplitKeepsContents(t.pages, t.span, t.contents, id, i, t.nextID);
    }
  }

  // ---------------------------------------------------------------- stray steps

  lemma SpineStarts(pages: Pages, span: Spans, key: Key)
    requires Inv(pages, span) && Seeded(pages, span)
    ensures Spine(pages, StartingAt(span, key), key)
  {
    hide Rank;
    var ids := StartingAt(span, key);
    forall id | id in ids && id in pages ensures SpinePage(pages[id], ids, key) {
      var p := pages[id];
      assert PageOk(p, span[id]) && LinksOk(p, span[id], span);
      if p.leaf {
        assert forall m :: 0 < m < |p.keys| ==> Rank(p.keys[0]) < Rank(p.keys[m]);
      } else {
        assert SeededPage(p, span[id]) && LinkOk(p, span[id], span, 0);
      }
    }
  }

  lemma StepSpine(t: State, id: PageId, i: nat, ids: set<PageId>, key: Key)
    requires CanStep(t, id, i) && Spine(t.pages, ids, key) && t.pages[id].childs[i] in ids && t.nextID !in ids
    requires id in ids ==> i == 0
    ensures var t1, c := Stepped(t, id, i), t.pages[id].childs[i];
            && Spine(t1.pages, ids, key) && c in t1.pages && id in t1.pages && i < |t1.pages[id].childs|
            && t1.pages[id].childs[i] == c
            && (c in t.pages && |t.pages[c].keys| >= MAX_KEYS ==>
                  i < |t1.pages[id].keys| && Rank(key) < Rank(t1.pages[id].keys[i]))
            && (forall q :: q in t.pages && q !in ids && q != id ==> q in t1.pages && t1.pages[q] == t.pages[q])
  {
    hide Rank, SpinePage, Spine;
    StepFits(t, id, i);
    var c := t.pages[id].childs[i];
    if |t.pages[c].keys| >= MAX_KEYS { SplitSpine(t.pages, id, i, t.nextID, ids, key); }
  }

  lemma SplitSpine(pages: Pages, id: PageId, i: nat, newId: PageId, ids: set<PageId>, key: Key)
    requires CanCut(pages, id, i, newId) && Spine(pages, ids, key) && pages[id].childs[i] in ids && newId !in ids
    requires id in ids ==> i == 0
    ensures Spine(Split(pages, id, i, newId), ids, key) && Rank(key) < Rank(Cut(pages[pages[id].childs[i]]))
  {
    hide Rank, SpinePage;
    var c := pages[id].childs[i];
    assert SpinePage(pages[c], ids, key);
    LeftSpine(pages[c], ids, key);
    if id in ids {
      assert SpinePage(pages[id], ids, key);
      LinkedSpine(pages[id], Cut(pages[c]), newId, ids, key);
    }
    forall q | q in ids && q in pages && q != c && q != id ensures SpinePage(pages[q], ids, key) {
    }
  }

  lemma LeftSpine(p: Page, ids: set<PageId>, key: Key)
    requires SpinePage(p, ids, key) && Full(p)
    ensures SpinePage(LeftHalf(p), ids, key) && Rank(key) < Rank(Cut(p))
  {
    hide Rank;
  }

  lemma LinkedSpine(p: Page, cut: Key, newId: PageId, ids: set<PageId>, key: Key)
    requires SpinePage(p, ids, key) && !p.leaf && Rank(key) < Rank(cut)
    ensures SpinePage(Linked(p, 0, cut, newId), ids, key)
  {
    hide Rank;
    assert forall m :: 0 <= m < |p.keys| ==> Rank(key) < Rank(p.keys[m]);
    AllAbove(p.keys, cut, key);
    assert Linked(p, 0, cut, newId).childs[0] == p.childs[0];
  }

  lemma AllAbove(keys: seq<Key>, cut: Key, key: Key)
    requires Rank(key) < Rank(cut) && forall m :: 0 <= m < |keys| ==> Rank(key) < Rank(keys[m])
    ensures var keys' := keys[..0] + [cut] + keys[0..]; forall m :: 0 <= m < |keys'| ==> Rank(key) < Rank(keys'[m])
  {
    hide Rank;
  }

  // The keys and the last child of the page after a step at its first position.
  lemma StepFirst(t: State, id: PageId, key: Key)
    requires CanStep(t, id, 0) && Seeded(t.pages, t.span)
    ensures var t1 := Stepped(t, id, 0);
            && id in t1.pages && !t1.pages[id].leaf
            && (forall k :: k in t1.pages[id].keys ==> KeyKnown(t.pages, id, key, k))
            && SameLast(t.pages[id].childs, t1.pages[id].childs)
  {
    StepFits(t, id, 0);
    assert ShapeOk(t.pages[id], t.span[id], t.span) && SeededPage(t.pages[id], t.span[id]);
    var c := t.pages[id].childs[0];
    if |t.pages[c].keys| >= MAX_KEYS {
      assert Cut(t.pages[c]) in t.pages[c].keys;
      assert Stepped(t, id, 0).pages[id].keys == [Cut(t.pages[c])] + t.pages[id].keys;
    }
  }

  lemma StrayHealthy(t: State, id: PageId, key: Key)
    requires CanStep(t, id, 0) && Seeded(t.pages, t.span)
    requires Holds(t.pages, t.span, t.contents) && t.span[id].lo == Rank(key)
    ensures var t1, c := Stepped(t, id, 0), t.pages[id].childs[0];
            HoldsAs(t1, t.contents) && c in t1.span && t1.span[c].lo == Rank(key)
  {
    hide Rank, Matches, Shape;
    assert PageOk(t.pages[id], t.span[id]) && SeededPage(t.pages[id], t.span[id]);
    HealthyStep(t, id, 0);
  }

  lemma BackStray(t: State, t': State, id: PageId, key: Key, ids: set<PageId>)
    requires CanStep(t, id, 0) && Seeded(t.pages, t.span) && Spine(t.pages, ids, key) && id in ids && t.nextID !in ids
    requires t.pages[id].childs[0] in ids
    requires var t1, c := Stepped(t, id, 0), t.pages[id].childs[0];
             && t1.pages.Keys == t1.span.Keys && c in t1.pages && StrayDone(t1, t', c, key, ids)
             && id in t'.pages && id in t1.pages && t'.pages[id] == t1.pages[id]
    ensures t.pages.Keys == t.span.Keys && StrayDone(t, t', id, key, ids)
  {
    hide Rank, Holds, Shape, Stepped, Spine;
    StepFits(t, id, 0);
    StepSpine(t, id, 0, ids, key);
    StepFirst(t, id, key);
    if Holds(t.pages, t.span, t.contents) && t.span[id].lo == Rank(key) { StrayHealthy(t, id, key); }
    assert Stepped(t, id, 0).contents == t.contents by { StepShape(t, id, 0, 0); }
  }

  // ---------------------------------------------------------------- steps of the owner

  // Where insertNonFull stops in an internal page: past every separator not above the key.
  ghost predicate TurnsAt(keys: seq<Key>, i: nat, key: Key) {
    && i <= |keys|
    && (forall m :: 0 <= m < i ==> Rank(keys[m]) <= Rank(key))
    && (i < |keys| ==> Rank(key) < Rank(keys[i]))
  }

  ghost predicate Turned(p: Page, i: nat, key: Key) {
    0 < i <= |p.keys| && p.keys[i - 1] == key
  }

  // The position the descent takes after the step.
  ghost predicate GoesTo(t: State, id: PageId, i: nat, j: nat, key: Key)
    requires CanStep(t, id, i)
  {
    var t1, c := Stepped(t, id, i), t.pages[id].childs[i];
    if c in t.pages && |t.pages[c].keys| >= MAX_KEYS
    then id in t1.pages && i < |t1.pages[id].keys| && j == if Rank(key) > Rank(t1.pages[id].keys[i]) then i + 1 else i
    else j == i
  }

  lemma TurnPlace(p: Page, i: nat, key: Key)
    requires Sorted(p.keys) && TurnsAt(p.keys, i, key) && !Turned(p, i, key)
    ensures PlaceOf(p.keys, i, key) && key !in p.keys && (i < |p.keys| ==> Rank(key) < Rank(p.keys[i]))
  {
    hide Rank, Sorted, TurnsAt, Turned;
    assert i <= |p.keys| && (i < |p.keys| ==> Rank(key) < Rank(p.keys[i])) by { KeyTurns(p, i, key); }
    forall m | 0 <= m < |p.keys| ensures Rank(p.keys[m]) != Rank(key) && (m < i ==> Rank(p.keys[m]) < Rank(key)) {
      KeyPasses(p, i, key, m);
    }
  }

  lemma KeyTurns(p: Page, i: nat, key: Key)
    requires TurnsAt(p.keys, i, key)
    ensures i <= |p.keys| && (i < |p.keys| ==> Rank(key) < Rank(p.keys[i]))
  {
    hide Rank;
  }

  lemma KeyPasses(p: Page, i: nat, key: Key, m: nat)
    requires Sorted(p.keys) && TurnsAt(p.keys, i, key) && !Turned(p, i, key) && m < |p.keys|
    ensures Rank(p.keys[m]) != Rank(key) && (m < i ==> Rank(p.keys[m]) < Rank(key))
  {
    hide Rank, Sorted;
    if m + 1 < i {
      SortedAt(p.keys, m, i - 1);
    } else if m + 1 == i {
      RankInjective(p.keys[m], key);
    } else if m > i {
      SortedAt(p.keys, i, m);
    }
  }

  lemma SortedAt(keys: seq<Key>, i: nat, j: nat)
    requires Sorted(keys) && i < j < |keys|
    ensures Rank(keys[i]) < Rank(keys[j])
  {
    hide Rank;
  }

  lemma OwnPlace(t: State, id: PageId, i: nat, key: Key)
    requires Ready(t, id, key, Own) && !t.pages[id].leaf
    requires TurnsAt(t.pages[id].keys, i, key) && !Turned(t.pages[id], i, key)
    ensures PlaceOf(t.pages[id].keys, i, key) && key !in t.pages[id].keys && i <= |t.pages[id].keys|
    ensures Lo(t.pages[id], t.span[id], i) < Rank(key) < Hi(t.pages[id], t.span[id], i)
  {
    hide Rank, Shape, Matches, Seeded, Turned;
    var p := t.pages[id];
    assert PageOk(p, t.span[id]);
    TurnPlace(p, i, key);
    assert AtEdge(t, id, key) ==> key in p.keys;
  }

  lemma LinkedPlace(keys: seq<Key>, i: nat, cut: Key, key: Key, j: nat)
    requires i <= |keys| && PlaceOf(keys, i, key) && j == if Rank(key) > Rank(cut) then i + 1 else i
    ensures PlaceOf(keys[..i] + [cut] + keys[i..], j, key)
  {
    hide Rank, PlaceOf;
    var keys' := keys[..i] + [cut] + keys[i..];
    assert forall m :: 0 <= m < i ==> keys'[m] == keys[m];
    PlaceShifts(keys, keys', i, cut, key, j);
  }

  lemma PlaceShifts(keys: seq<Key>, keys': seq<Key>, i: nat, cut: Key, key: Key, j: nat)
    requires PlaceOf(keys, i, key) && j == if Rank(key) > Rank(cut) then i + 1 else i
    requires |keys'| == |keys| + 1 && (forall m :: 0 <= m < i ==> keys'[m] == keys[m]) && keys'[i] == cut
    requires i < |keys| ==> keys'[i + 1] == keys[i]
    ensures PlaceOf(keys', j, key)
  {
    hide Rank;
  }

  // The page the descent goes on to when the key is no separator here.
  ghost predicate OwnNext(t: State, t1: State, id: PageId, i: nat, j: nat, n: PageId, key: Key) {
    && id in t.pages && id in t1.pages && i < |t.pages[id].childs| && t.pages[id].childs[i] in t.pages
    && j < |t1.pages[id].childs| && t1.pages[id].childs[j] == n && PlaceOf(t1.pages[id].keys, j, key)
    && n in t1.pages && n in t1.span && t1.span[n].lo < Rank(key) <= t1.span[n].hi
    && var p := t.pages[t.pages[id].childs[i]];
    && (if |p.keys| < MAX_KEYS then t1 == t && n == t.pages[id].childs[i] && Rank(key) < t1.span[n].hi
        else
          && Full(p)
          && (if Rank(key) > Rank(Cut(p)) then n == t.nextID && t1.pages[n] == RightHalf(p) && Rank(key) < t1.span[n].hi
              else n == t.pages[id].childs[i] && t1.pages[n] == LeftHalf(p) && t1.span[n].hi == Rank(Cut(p))))
  }

  lemma OwnStep(t: State, id: PageId, i: nat, j: nat, key: Key)
    requires Ready(t, id, key, Own) && CanStep(t, id, i)
    requires TurnsAt(t.pages[id].keys, i, key) && !Turned(t.pages[id], i, key) && GoesTo(t, id, i, j, key)
    ensures var t1 := Stepped(t, id, i);
            && HoldsAs(t1, t.contents) && id in t1.pages && j < |t1.pages[id].childs|
            && OwnNext(t, t1, id, i, j, t1.pages[id].childs[j], key)
  {
    hide Rank, Shape, Holds, Seeded, PlaceOf;
    OwnPlace(t, id, i, key);
    HealthyStep(t, id, i);
    StepFits(t, id, i);
    var p, c := t.pages[id], t.pages[id].childs[i];
    if |t.pages[c].keys| >= MAX_KEYS {
      SteppedFull(t, id, i);
      LinkedPlace(p.keys, i, Cut(t.pages[c]), key, j);
      hide Split, SplitSpan;
    }
  }

  // The pages and ranges that the step changes.
  lemma SteppedFull(t: State, id: PageId, i: nat)
    requires CanStep(t, id, i) && t.pages[id].childs[i] in t.pages && CanCut(t.pages, id, i, t.nextID)
    requires t.pages[id].childs[i] in t.span && id != t.nextID
    ensures var t1, c := Stepped(t, id, i), t.pages[id].childs[i];
            var cut := Cut(t.pages[c]);
            && id in t1.pages && c in t1.pages && t.nextID in t1.pages && c in t1.span && t.nextID in t1.span
            && t1.pages[id] == Linked(t.pages[id], i, cut, t.nextID)
            && t1.pages[c] == LeftHalf(t.pages[c]) && t1.pages[t.nextID] == RightHalf(t.pages[c])
            && t1.span[c].lo == t.span[c].lo && t1.span[c].hi == Rank(cut)
            && t1.span[t.nextID].lo == Rank(cut) && t1.span[t.nextID].hi == t.span[c].hi
  {
    hide Rank, Shape;
  }

  // At the left half of a split the key is the last separator.
  lemma EdgeOnlyAfterCut(t: State, t1: State, id: PageId, i: nat, j: nat, n: PageId, key: Key)
    requires OwnNext(t, t1, id, i, j, n, key) && AtEdge(t1, n, key)
    ensures var c := t.pages[id].childs[i];
            && n == c && Full(t.pages[c]) && !t.pages[c].leaf && Cut(t.pages[c]) == key
            && t1.pages[n] == LeftHalf(t.pages[c])
  {
    hide Rank, PlaceOf;
    var p := t.pages[t.pages[id].childs[i]];
    if |p.keys| >= MAX_KEYS { RankInjective(Cut(p), key); }
  }

  // ---------------------------------------------------------------- the loss

  ghost predicate SameFor(p: Page, p': Page, k: Key) {
    p' == p || (!p.leaf && !p'.leaf && ChildIndex(p.keys, k) < |p.childs| && ChildIndex(p'.keys, k) < |p'.childs|
                && p'.childs[ChildIndex(p'.keys, k)] == p.childs[ChildIndex(p.keys, k)])
  }

  // A search goes the same way if the pages that own the key do.
  lemma {:induction false} SearchSame(pages: Pages, span: Spans, pages': Pages, id: PageId, k: Key)
    requires Inv(pages, span) && id in pages && span[id].lo < Rank(k) <= span[id].hi
    requires forall q :: q in pages && span[q].depth <= span[id].depth && span[q].lo < Rank(k) <= span[q].hi ==>
               q in pages' && SameFor(pages[q], pages'[q], k)
    ensures Search(pages', id, span[id].depth, k) == Search(pages, id, span[id].depth, k)
    decreases span[id].depth
  {
    hide Rank;
    assert SameFor(pages[id], pages'[id], k);
    if !pages[id].leaf {
      var c := Descend(pages, span, id, k);
      SearchSame(pages, span, pages', c, k);
    }
  }

  // So does any search, if all pages from its start on are the same.
  lemma {:induction false} SearchOnward(pages: Pages, span: Spans, pages': Pages, id: PageId, k: Key)
    requires Inv(pages, span) && id in pages
    requires forall q :: q in pages && span[q].depth <= span[id].depth && span[q].lo >= span[id].lo ==>
               q in pages' && pages'[q] == pages[q]
    ensures Search(pages', id, span[id].depth, k) == Search(pages, id, span[id].depth, k)
    decreases span[id].depth
  {
    hide Rank;
    var p, i := pages[id], ChildIndex(pages[id].keys, k);
    if !p.leaf && i < |p.childs| {
      assert PageOk(p, span[id]) && LinksOk(p, span[id], span) && LinkOk(p, span[id], span, i);
      SearchOnward(pages, span, pages', p.childs[i], k);
    }
  }

  lemma SearchStep(pages: Pages, id: PageId, d: nat, key: Key, j: nat)
    requires id in pages && !pages[id].leaf && d > 0 && PlaceOf(pages[id].keys, j, key) && j < |pages[id].childs|
    ensures Search(pages, id, d, key) == Search(pages, pages[id].childs[j], d - 1, key)
  {
    hide Rank;
    ChildIndexIs(pages[id].keys, key, j);
  }

  // The step keeps the loss of the descent, unless it meets the guard here.
  lemma StepLoses(t: State, id: PageId, i: nat, j: nat, key: Key)
    requires Ready(t, id, key, Own) && CanStep(t, id, i)
    requires TurnsAt(t.pages[id].keys, i, key) && !Turned(t.pages[id], i, key) && GoesTo(t, id, i, j, key)
    ensures var c, d := t.pages[id].childs[i], t.span[id].depth;
            && LossBelow(t.pages, id, d, key) == LossIn(t.pages, c, d - 1, key)
            && var t1 := Stepped(t, id, i);
               && id in t1.pages && j < |t1.pages[id].childs|
               && LossBelow(t1.pages, t1.pages[id].childs[j], d - 1, key) == LossBelow(t.pages, c, d - 1, key)
  {
    hide Rank, Holds, Seeded, LossIn, ChildIndex, PageOk;
    OwnPlace(t, id, i, key);
    OwnStep(t, id, i, j, key);
    ChildIndexIs(t.pages[id].keys, key, i);
    StepFits(t, id, i);
    var t1, c := Stepped(t, id, i), t.pages[id].childs[i];
    if |t.pages[c].keys| >= MAX_KEYS {
      assert PageOk(t.pages[c], t.span[c]) by { HealthyStep(t, id, i); }
      LossHalf(t.pages, t.span, t1.pages, c, t1.pages[id].childs[j], key);
    }
  }

  lemma OwnSeparates(t: State, id: PageId, i: nat, key: Key)
    requires Ready(t, id, key, Own) && CanStep(t, id, i) && key !in t.pages[id].keys
    ensures var t1, d := Stepped(t, id, i), t.span[id].depth;
            Separates(t.pages, t.span, d, key) <==> Separates(t1.pages, t1.span, d - 1, key)
  {
    hide Rank, Shape, Separates, Seeded, Split, SplitSpan, Matches;
    StepFits(t, id, i);
    SeparatesBelow(t.pages, t.span, id, key);
    if |t.pages[t.pages[id].childs[i]].keys| >= MAX_KEYS {
      SplitSeparates(t.pages, t.span, id, i, t.nextID, key);
    }
  }

  // ---------------------------------------------------------------- the descent

  ghost function NextWay(t: State, id: PageId, i: nat, key: Key, way: Way): Way
    requires id in t.pages
  {
    if way.Own? && Turned(t.pages[id], i, key) then Stray(StartingAt(t.span, key)) else way
  }

  lemma FitsSteps(t: State, id: PageId)
    requires Fits(t, id)
    ensures t.pages.Keys == t.span.Keys && id in t.pages && IdsOk(t, t.span[id].depth)
    ensures var p := t.pages[id];
            if p.leaf then |p.keys| == |p.vals|
            else |p.childs| == |p.keys| + 1 && forall i: nat :: i < |p.childs| ==> CanStep(t, id, i)
  {
    assert ShapeOk(t.pages[id], t.span[id], t.span);
  }

  // Right of a separator equal to the key begins a page that starts at the key.
  lemma TurnRight(t: State, id: PageId, i: nat, key: Key)
    requires Ready(t, id, key, Own) && !t.pages[id].leaf && i < |t.pages[id].childs|
    requires TurnsAt(t.pages[id].keys, i, key) && Turned(t.pages[id], i, key)
    ensures t.pages[id].childs[i] in t.span && t.span[t.pages[id].childs[i]].lo == Rank(key)
    ensures t.span[id].lo < Rank(key) && t.nextID !in t.span
    ensures if AtEdge(t, id, key) then i == |t.pages[id].keys| && i == |t.pages[id].childs| - 1
            else Lo(t.pages[id], t.span[id], i) < Hi(t.pages[id], t.span[id], i)
  {
    hide Rank, Shape, Matches, Seeded;
    var p := t.pages[id];
    assert PageOk(p, t.span[id]) && LinksOk(p, t.span[id], t.span) && LinkOk(p, t.span[id], t.span, i);
    assert t.nextID !in t.pages;
  }

  lemma TurnedSpine(t: State, id: PageId, i: nat, key: Key)
    requires Ready(t, id, key, Own) && CanStep(t, id, i)
    requires TurnsAt(t.pages[id].keys, i, key) && Turned(t.pages[id], i, key)
    ensures var t1, c, ids := Stepped(t, id, i), t.pages[id].childs[i], StartingAt(t.span, key);
            && c in ids && id !in ids && t.nextID !in ids && Spine(t1.pages, ids, key) && id in t1.pages
            && i < |t1.pages[id].childs| && t1.pages[id].childs[i] == c
            && (c in t.pages && |t.pages[c].keys| >= MAX_KEYS ==>
                  i < |t1.pages[id].keys| && Rank(key) < Rank(t1.pages[id].keys[i]))
  {
    hide Rank, Shape, Matches, Inv, Stepped, Seeded, Spine;
    TurnRight(t, id, i, key);
    SpineStarts(t.pages, t.span, key);
    StepSpine(t, id, i, StartingAt(t.span, key), key);
  }

  lemma StrayTurns(t: State, id: PageId, i: nat, key: Key, ids: set<PageId>)
    requires Ready(t, id, key, Stray(ids)) && !t.pages[id].leaf && t.nextID !in ids
    requires TurnsAt(t.pages[id].keys, i, key)
    ensures i == 0 && |t.pages[id].childs| > 0 && t.pages[id].childs[0] in ids
  {
    hide Rank;
    assert SpinePage(t.pages[id], ids, key);
    assert |t.pages[id].keys| > 0 ==> Rank(key) < Rank(t.pages[id].keys[0]);
  }

  ghost predicate WayOk(t: State, way: Way) {
    way.Stray? ==> forall q :: q in way.ids ==> q < t.nextID
  }

  // One step down keeps what the rest of the insert needs.
  lemma Onward(t: State, id: PageId, i: nat, j: nat, key: Key, way: Way)
    requires Ready(t, id, key, way) && CanStep(t, id, i) && WayOk(t, way)
    requires TurnsAt(t.pages[id].keys, i, key) && GoesTo(t, id, i, j, key)
    requires way.Own? && !Turned(t.pages[id], i, key) ==> !SharedFull(t.pages, t.pages[id].childs[i], key)
    ensures var t1 := Stepped(t, id, i);
            && id in t1.pages && j < |t1.pages[id].childs|
            && Ready(t1, t1.pages[id].childs[j], key, NextWay(t, id, i, key, way))
            && t1.pages.Keys == t1.span.Keys && t1.pages[id].childs[j] in t1.span
            && t1.span[t1.pages[id].childs[j]].depth < t.span[id].depth
  {
    hide Rank, Shape, Seeded, Holds, Spine, Stepped, OwnNext, TurnsAt, Turned;
    StepFits(t, id, i);
    StepShape(t, id, i, j);
    StepSeeded(t, id, i);
    match way
    case Stray(ids) =>
      StrayTurns(t, id, i, key, ids);
      StepSpine(t, id, 0, ids, key);
    case Own =>
      if Turned(t.pages[id], i, key) {
        TurnedSpine(t, id, i, key);
      } else {
        OwnStep(t, id, i, j, key);
        NotAtFullEdge(t, id, i, j, key);
        OwnReady(t, Stepped(t, id, i), id, i, j, Stepped(t, id, i).pages[id].childs[j], key);
      }
  }

  lemma OwnReady(t: State, t1: State, id: PageId, i: nat, j: nat, n: PageId, key: Key)
    requires OwnNext(t, t1, id, i, j, n, key)
    ensures t1.span[n].lo < Rank(key) <= t1.span[n].hi
    ensures AtEdge(t1, n, key) ==> |t1.pages[n].keys| > 0 && t1.pages[n].keys[|t1.pages[n].keys| - 1] == key
  {
    hide Rank, PlaceOf;
    if AtEdge(t1, n, key) { EdgeOnlyAfterCut(t, t1, id, i, j, n, key); }
  }

  // New ids are not on the way.
  lemma NextWayOk(t: State, id: PageId, i: nat, key: Key, way: Way)
    requires Ready(t, id, key, way) && CanStep(t, id, i) && WayOk(t, way)
    ensures WayOk(Stepped(t, id, i), NextWay(t, id, i, key, way))
  {
    hide Rank, Seeded, Holds;
  }

  // ---------------------------------------------------------------- the way back

  // The recursive call has come back to the page: its own step is all that shows.
  ghost predicate CameBack(t: State, t': State, id: PageId, i: nat, j: nat, key: Key, value: Key, way: Way)
    requires CanStep(t, id, i)
  {
    var t1 := Stepped(t, id, i);
    && t1.pages.Keys == t1.span.Keys && id in t1.pages && j < |t1.pages[id].childs|
    && t1.pages[id].childs[j] in t1.span
    && Framed(t1, t', t1.pages[id].childs[j])
    && Done(t1, t', t1.pages[id].childs[j], key, value, NextWay(t, id, i, key, way))
  }

  lemma TurnedUp(t: State, t': State, id: PageId, i: nat, j: nat, key: Key, value: Key)
    requires Ready(t, id, key, Own) && CanStep(t, id, i) && t.pages.Keys == t.span.Keys
    requires TurnsAt(t.pages[id].keys, i, key) && Turned(t.pages[id], i, key) && GoesTo(t, id, i, j, key)
    requires CameBack(t, t', id, i, j, key, value, Own)
    ensures OwnDone(t, t', id, key, value)
  {
    hide Rank, Shape, Seeded, Holds, Stepped, Spine, Separates, StrayDone, Search, TurnsAt;
    TurnRight(t, id, i, key);
    TurnedSpine(t, id, i, key);
    StepShape(t, id, i, i);
    var t1, c := Stepped(t, id, i), t.pages[id].childs[i];
    assert key in t.pages[id].keys;
    assert SeparatesIn(t.pages, t.span, t.span[id].depth, key, id);
    StepFits(t, id, i);
    TurnedHolds(t, id, i, key);
    StrayContents(t1, t', c, key, StartingAt(t.span, key));
    assert Separates(t.pages, t.span, t.span[id].depth, key) by { SeparatorThere(t, id, key); }
  }

  lemma SeparatorThere(t: State, id: PageId, key: Key)
    requires id in t.pages && id in t.span && !t.pages[id].leaf && key in t.pages[id].keys
    ensures Separates(t.pages, t.span, t.span[id].depth, key)
  {
    assert SeparatesIn(t.pages, t.span, t.span[id].depth, key, id);
  }

  lemma StrayContents(t: State, t': State, id: PageId, key: Key, ids: set<PageId>)
    requires t.pages.Keys == t.span.Keys && id in t.pages && StrayDone(t, t', id, key, ids)
    ensures t'.contents == t.contents
    ensures Holds(t.pages, t.span, t.contents) && t.span[id].lo == Rank(key) ==> HoldsAs(t', t.contents)
  {
    hide Rank, Holds;
  }

  // Turning right keeps everything, unless the page at the edge has to be split.
  lemma TurnedHolds(t: State, id: PageId, i: nat, key: Key)
    requires Ready(t, id, key, Own) && CanStep(t, id, i)
    requires TurnsAt(t.pages[id].keys, i, key) && Turned(t.pages[id], i, key)
    ensures var t1, c := Stepped(t, id, i), t.pages[id].childs[i];
            HoldsAs(t1, t.contents) && c in t1.span && t1.span[c].lo == Rank(key)
  {
    hide Rank, Shape, Seeded, Holds, TurnsAt, Turned;
    TurnRight(t, id, i, key);
    StepFits(t, id, i);
    if !AtEdge(t, id, key) { HealthyStep(t, id, i); }
  }

  // The descent goes on to the page below that owns the key.
  ghost predicate OwnWay(t: State, id: PageId, i: nat, j: nat, key: Key) {
    && Ready(t, id, key, Own) && CanStep(t, id, i)
    && TurnsAt(t.pages[id].keys, i, key) && !Turned(t.pages[id], i, key) && GoesTo(t, id, i, j, key)
  }

  // The split at the key shows below as the edge.
  lemma SharedIsEdge(t: State, id: PageId, i: nat, j: nat, key: Key)
    requires OwnWay(t, id, i, j, key) && SharedFull(t.pages, t.pages[id].childs[i], key)
    ensures var t1, c := Stepped(t, id, i), t.pages[id].childs[i];
            && Full(t.pages[c]) && c in t1.pages && c in t1.span && id in t1.pages && j < |t1.pages[id].childs|
            && t1.pages[id].childs[j] == c && AtEdge(t1, c, key) && EdgeFull(t1, c) && t.span[id].depth > 1
            && t.nextID in t1.pages && t1.pages[t.nextID] == RightHalf(t.pages[c])
            && t.nextID in t1.span && t1.span[t.nextID].depth == t1.span[c].depth == t.span[id].depth - 1
            && t.nextID != c
            && var e := t.pages[c].childs[MAX_KEYS / 2];
               t1.pages[c].childs[|t1.pages[c].childs| - 1] == e && t1.pages[e].keys == t.pages[e].keys
  {
    hide Rank, Matches, Seeded;
    var c := t.pages[id].childs[i];
    StepFits(t, id, i);
    SharedPage(t.pages, t.span, c, key);
    assert t.nextID !in t.pages;
    assert ShapeOk(t.pages[c], t.span[c], t.span);
  }

  lemma OwnedPlace(t: State, id: PageId, j: nat, key: Key, k: Key)
    requires Inv(t.pages, t.span) && id in t.pages && id in t.span && !t.pages[id].leaf
    requires t.span[id].lo < Rank(key) <= t.span[id].hi && PlaceOf(t.pages[id].keys, j, key)
    requires j < |t.pages[id].childs| && t.pages[id].childs[j] in t.span
    requires var n := t.pages[id].childs[j]; t.span[n].lo < Rank(k) <= t.span[n].hi
    ensures PlaceOf(t.pages[id].keys, j, k)
  {
    hide Rank, PageOk, LinkOk, PlaceOf;
    var p := t.pages[id];
    assert PageOk(p, t.span[id]) && LinksOk(p, t.span[id], t.span);
    assert j < |p.childs| == |p.keys| + 1 && LinkOk(p, t.span[id], t.span, j) by { assert PlaceOf(p.keys, j, key); }
    SamePlace(p, t.span[id], t.span, j, key, k);
  }

  lemma SamePlace(p: Page, s: Span, span: Spans, j: nat, key: Key, k: Key)
    requires PageOk(p, s) && j < |p.childs| == |p.keys| + 1 && LinkOk(p, s, span, j)
    requires s.lo < Rank(key) <= s.hi && PlaceOf(p.keys, j, key)
    requires span[p.childs[j]].lo < Rank(k) <= span[p.childs[j]].hi
    ensures PlaceOf(p.keys, j, k)
  {
    hide Rank;
    assert forall m :: 0 <= m < j - 1 ==> Rank(p.keys[m]) < Rank(p.keys[j - 1]);
  }

  lemma OwnUp(t: State, t': State, id: PageId, i: nat, j: nat, key: Key, value: Key)
    requires OwnWay(t, id, i, j, key) && CameBack(t, t', id, i, j, key, value, Own)
    requires !SharedFull(t.pages, t.pages[id].childs[i], key) && t.pages.Keys == t.span.Keys
    requires id in t'.pages && t'.pages[id] == Stepped(t, id, i).pages[id]
    ensures OwnDone(t, t', id, key, value)
  {
    hide Rank, Shape, Seeded, Matches, Inv, Stepped, Search, TurnsAt, Turned, GoesTo, LossBelow, SharedFull, EdgeFull,
      AtEdge, Framed, LossDone;
    hide Separates;
    OwnPlace(t, id, i, key);
    OwnStep(t, id, i, j, key);
    StepLoses(t, id, i, j, key);
    StepDepth(t, id, i, j, key);
    match LossBelow(t.pages, id, t.span[id].depth, key)
    case None => OwnSeparates(t, id, i, key);
    case Some(loss) => LossUp(t, t', id, i, j, key, loss);
  }

  // The child below that page id goes on with has lost keys.
  ghost predicate LostOnce(t: State, t': State, id: PageId, i: nat, j: nat, key: Key, loss: Loss) {
    && OwnWay(t, id, i, j, key) && t.pages.Keys == t.span.Keys
    && LossBelow(t.pages, id, t.span[id].depth, key) == Some(loss)
    && var t1 := Stepped(t, id, i);
    && t1.pages.Keys == t1.span.Keys && id in t1.pages && j < |t1.pages[id].childs|
    && id in t'.pages && t'.pages[id] == t1.pages[id]
    && var n := t1.pages[id].childs[j];
    && n in t1.span && Framed(t1, t', n) && LossDone(t1, t', n, loss)
    && LossBelow(t1.pages, n, t.span[id].depth - 1, key) == Some(loss)
  }

  lemma LossUp(t: State, t': State, id: PageId, i: nat, j: nat, key: Key, loss: Loss)
    requires LostOnce(t, t', id, i, j, key, loss)
    ensures LossDone(t, t', id, loss)
  {
    hide Rank, LostOnce, AfterLoss, Search;
    LossUpContents(t, t', id, i, j, key, loss);
    forall q | q in t.span && q != id && !Within(t.span[q], t.span[id])
      ensures q in t'.pages && q in t.pages && t'.pages[q] == t.pages[q]
    {
      LossUpFrame(t, t', id, i, j, key, loss, q);
    }
    forall k | t.span[id].lo < Rank(k) <= t.span[id].hi
      ensures Search(t'.pages, id, t.span[id].depth, k) == AfterLoss(t.pages, id, t.span[id].depth, loss, k)
    {
      LossUpSearch(t, t', id, i, j, key, loss, k);
    }
  }

  lemma LossUpContents(t: State, t': State, id: PageId, i: nat, j: nat, key: Key, loss: Loss)
    requires LostOnce(t, t', id, i, j, key, loss)
    ensures t.pages.Keys == t.span.Keys && id in t.span && t'.contents == t.contents
  {
    hide Rank, Shape, Seeded, Holds, Stepped, Search, TurnsAt, Turned, GoesTo, LossBelow, Framed;
    StepDepth(t, id, i, j, key);
  }

  // The range of the child lies within that of the page.
  lemma ChildWithin(t: State, id: PageId, i: nat, j: nat, key: Key)
    requires OwnWay(t, id, i, j, key)
    ensures var t1, c := Stepped(t, id, i), t.pages[id].childs[i];
            && id in t.span && c in t.span && Within(t.span[c], t.span[id])
            && id in t1.pages && j < |t1.pages[id].childs|
            && t1.pages[id].childs[j] in t1.span && Within(t1.span[t1.pages[id].childs[j]], t.span[id])
  {
    hide Rank, Shape, Seeded, Matches, TurnsAt, Turned, GoesTo, Stepped;
    StepFits(t, id, i);
    OwnPlace(t, id, i, key);
    OwnStep(t, id, i, j, key);
    HealthyStep(t, id, i);
    assert PageOk(t.pages[id], t.span[id]);
    if |t.pages[t.pages[id].childs[i]].keys| >= MAX_KEYS {
      SteppedFull(t, id, i);
      HalvesOk(t.pages[t.pages[id].childs[i]], t.span[t.pages[id].childs[i]]);
    }
  }

  // The step changes the page, its child and the new page only.
  lemma StepBeside(t: State, id: PageId, i: nat)
    requires CanStep(t, id, i)
    ensures var t1, c := Stepped(t, id, i), t.pages[id].childs[i];
            && c in t.span && c != id && t.pages.Keys == t.span.Keys && t1.pages.Keys == t1.span.Keys
            && id in t.span && t1.span[id] == t.span[id] && c in t1.span && t1.span[c].depth == t.span[c].depth
            && (forall q :: q in t.span && q != c ==> q in t1.span && t1.span[q] == t.span[q])
            && (forall q :: q in t.span && q != c && q != id ==> t1.pages[q] == t.pages[q])
            && (forall q :: q in t1.span && q !in t.span ==> t1.span[q].depth == t.span[c].depth)
            && t.span[c].depth + 1 == t.span[id].depth
  {
    hide Rank;
    StepFits(t, id, i);
  }

  lemma LossUpFrame(t: State, t': State, id: PageId, i: nat, j: nat, key: Key, loss: Loss, q: PageId)
    requires LostOnce(t, t', id, i, j, key, loss)
    requires q in t.span && id in t.span && q != id && !Within(t.span[q], t.span[id])
    ensures q in t'.pages && q in t.pages && t'.pages[q] == t.pages[q]
  {
    hide Rank, Shape, Seeded, Holds, Stepped, Search, TurnsAt, Turned, GoesTo, LossBelow, Framed;
    ChildWithin(t, id, i, j, key);
    StepBeside(t, id, i);
  }

  lemma LossUpSearch(t: State, t': State, id: PageId, i: nat, j: nat, key: Key, loss: Loss, k: Key)
    requires LostOnce(t, t', id, i, j, key, loss) && id in t.span && t.span[id].lo < Rank(k) <= t.span[id].hi
    ensures Search(t'.pages, id, t.span[id].depth, k) == AfterLoss(t.pages, id, t.span[id].depth, loss, k)
  {
    hide Rank, Shape, Seeded, Matches, Inv, Stepped, Search, TurnsAt, Turned, GoesTo, LossBelow, Framed, Takes;
    var t1, d := Stepped(t, id, i), t.span[id].depth;
    var n := t1.pages[id].childs[j];
    OwnPlace(t, id, i, key);
    OwnStep(t, id, i, j, key);
    StepDepth(t, id, i, j, key);
    SearchReadsContents(t.pages, t.span, t.contents, id, k);
    SearchReadsContents(t1.pages, t1.span, t1.contents, id, k);
    LossStored(t1.pages, t1.span, t1.contents, n, key);
    if t1.span[n].lo < Rank(k) <= t1.span[n].hi {
      OwnedPlace(t1, id, j, key, k);
      SearchStep(t'.pages, id, d, k, j);
      SearchStep(t1.pages, id, d, k, j);
      LossUpAstray(t, id, i, j, key, k);
    } else {
      assert !Takes(loss, k) by { TakesInside(loss, key, k, t1.span[n]); }
      LossUpElsewhere(t, t', id, i, j, key, loss, k);
    }
  }

  lemma TakesInside(loss: Loss, key: Key, k: Key, s: Span)
    requires Rank(key) < Rank(loss.from) && Rank(loss.to) <= s.hi && s.lo < Rank(key)
    ensures Takes(loss, k) ==> s.lo < Rank(k) <= s.hi
  {
    hide Rank;
  }

  lemma LossUpAstray(t: State, id: PageId, i: nat, j: nat, key: Key, k: Key)
    requires OwnWay(t, id, i, j, key) && t.pages.Keys == t.span.Keys
    requires var t1 := Stepped(t, id, i);
             && id in t1.pages && j < |t1.pages[id].childs|
             && LossBelow(t1.pages, t1.pages[id].childs[j], t.span[id].depth - 1, key).Some?
    ensures var t1 := Stepped(t, id, i);
            var loss := LossBelow(t1.pages, t1.pages[id].childs[j], t.span[id].depth - 1, key).value;
            Astray(t1.pages, loss, k) == Astray(t.pages, loss, k)
  {
    hide Rank, Seeded, Holds, Stepped, Search, TurnsAt, Turned, GoesTo, LossBelow, Astray;
    StepBeside(t, id, i);
    StepDepth(t, id, i, j, key);
    StepShape(t, id, i, j) by { GoesNear(t, id, i, j, key); }
    hide Shape;
    var t1 := Stepped(t, id, i);
    AstrayFrame(t1.pages, t1.span, t.pages, t1.pages[id].childs[j], key, k);
  }

  lemma GoesNear(t: State, id: PageId, i: nat, j: nat, key: Key)
    requires CanStep(t, id, i) && GoesTo(t, id, i, j, key)
    ensures var c := t.pages[id].childs[i]; j == i || (j == i + 1 && c in t.pages && |t.pages[c].keys| >= MAX_KEYS)
  {
  }

  // Beside the child nothing has changed.
  lemma LossUpElsewhere(t: State, t': State, id: PageId, i: nat, j: nat, key: Key, loss: Loss, k: Key)
    requires LostOnce(t, t', id, i, j, key, loss) && id in t.span && t.span[id].lo < Rank(k) <= t.span[id].hi
    requires var t1 := Stepped(t, id, i);
             var n := t1.pages[id].childs[j];
             HoldsAs(t1, t.contents) && !(t1.span[n].lo < Rank(k) <= t1.span[n].hi)
    ensures Search(t'.pages, id, t.span[id].depth, k) == Search(Stepped(t, id, i).pages, id, t.span[id].depth, k)
  {
    hide Rank, Shape, Seeded, Matches, Inv, Stepped, Search, TurnsAt, Turned, GoesTo, LossBelow;
    var t1 := Stepped(t, id, i);
    var n := t1.pages[id].childs[j];
    StepDepth(t, id, i, j, key);
    forall q | q in t1.pages && t1.span[q].depth <= t1.span[id].depth && t1.span[q].lo < Rank(k) <= t1.span[q].hi
      ensures q in t'.pages && SameFor(t1.pages[q], t'.pages[q], k)
    {
      if q != id && q != n { assert !Within(t1.span[q], t1.span[n]); }
    }
    SearchSame(t1.pages, t1.span, t'.pages, id, k);
  }

  lemma StepDepth(t: State, id: PageId, i: nat, j: nat, key: Key)
    requires OwnWay(t, id, i, j, key)
    ensures var t1 := Stepped(t, id, i);
            && id in t1.pages && id in t1.span && !t1.pages[id].leaf && t1.span[id] == t.span[id]
            && t1.contents == t.contents
            && j < |t1.pages[id].childs| && t1.pages[id].childs[j] in t1.span
            && t1.span[t1.pages[id].childs[j]].depth + 1 == t.span[id].depth
  {
    hide Rank, Seeded, Holds;
    StepShape(t, id, i, j);
    assert ShapeOk(Stepped(t, id, i).pages[id], Stepped(t, id, i).span[id], Stepped(t, id, i).span);
  }

  lemma NotAtFullEdge(t: State, id: PageId, i: nat, j: nat, key: Key)
    requires OwnWay(t, id, i, j, key) && !SharedFull(t.pages, t.pages[id].childs[i], key)
    requires var t1 := Stepped(t, id, i);
             && id in t1.pages && j < |t1.pages[id].childs|
             && OwnNext(t, t1, id, i, j, t1.pages[id].childs[j], key)
    ensures var t1 := Stepped(t, id, i);
            var n := t1.pages[id].childs[j];
            !(AtEdge(t1, n, key) && EdgeFull(t1, n))
  {
    hide Rank, Shape, Seeded, Holds, TurnsAt, Turned, GoesTo;
    var t1 := Stepped(t, id, i);
    var n := t1.pages[id].childs[j];
    if AtEdge(t1, n, key) {
      EdgeOnlyAfterCut(t, t1, id, i, j, n, key);
      EdgeBelow(t, id, i);
    }
  }

  // Below the child that is split the step changes nothing.
  lemma EdgeBelow(t: State, id: PageId, i: nat)
    requires CanStep(t, id, i)
    requires var c := t.pages[id].childs[i]; c in t.pages && Full(t.pages[c]) && !t.pages[c].leaf
    ensures var c, t1 := t.pages[id].childs[i], Stepped(t, id, i);
            var e := t.pages[c].childs[MAX_KEYS / 2];
            e in t.pages && e in t1.pages && t1.pages[e] == t.pages[e]
  {
    StepFits(t, id, i);
    var c := t.pages[id].childs[i];
    assert ShapeOk(t.pages[c], t.span[c], t.span);
  }

  // What the recursive call did is what the page's caller expects.
  lemma Back(t: State, t': State, id: PageId, i: nat, j: nat, key: Key, value: Key, way: Way)
    requires Ready(t, id, key, way) && CanStep(t, id, i) && WayOk(t, way)
    requires TurnsAt(t.pages[id].keys, i, key) && GoesTo(t, id, i, j, key)
    requires CameBack(t, t', id, i, j, key, value, way)
    requires way.Own? && !Turned(t.pages[id], i, key) ==> !SharedFull(t.pages, t.pages[id].childs[i], key)
    ensures t.pages.Keys == t.span.Keys && Framed(t, t', id) && Done(t, t', id, key, value, way)
  {
    hide Rank, Shape, Seeded, Holds, Stepped, Framed, TurnsAt, Turned, StepKeeps, OwnDone, StrayDone, Spine;
    StepFits(t, id, i);
    StepIsSmall(t, id, i);
    StepShape(t, id, i, j);
    FramedUp(t, Stepped(t, id, i), t', id, Stepped(t, id, i).pages[id].childs[j]);
    match way
    case Stray(ids) =>
      StrayTurns(t, id, i, key, ids);
      StepSpine(t, id, 0, ids, key);
      BackStray(t, t', id, key, ids);
    case Own =>
      if Turned(t.pages[id], i, key) {
        TurnedUp(t, t', id, i, j, key, value);
      } else {
        OwnUp(t, t', id, i, j, key, value);
      }
  }

  // ---------------------------------------------------------------- the leaf

  ghost function AfterPut(t: State, id: PageId, i: nat, key: Key, value: Key, way: Way): State
    requires id in t.pages && i <= |t.pages[id].keys| == |t.pages[id].vals|
  {
    State(t.pages[id := Put(t.pages[id], i, key, value)], t.span,
          if way.Own? then t.contents[key := value] else t.contents, t.nextID)
  }

  lemma PutFramed(t: State, id: PageId, i: nat, key: Key, value: Key, way: Way)
    requires Fits(t, id) && t.pages[id].leaf && i <= |t.pages[id].keys| == |t.pages[id].vals|
    ensures t.pages.Keys == t.span.Keys && Framed(t, AfterPut(t, id, i, key, value, way), id)
  {
    hide Rank, HalfFull;
    PutShape(t, id, i, key, value, way);
    PutHalfFull(t, id, i, key, value, way);
    hide Shape;
    var t' := AfterPut(t, id, i, key, value, way);
    forall q | q in t'.pages && q in t'.span && !t'.pages[q].leaf ensures SeededPage(t'.pages[q], t'.span[q]) {
      assert SeededPage(t.pages[q], t.span[q]);
    }
  }

  lemma PutShape(t: State, id: PageId, i: nat, key: Key, value: Key, way: Way)
    requires Fits(t, id) && t.pages[id].leaf && i <= |t.pages[id].keys| == |t.pages[id].vals|
    ensures Shape(AfterPut(t, id, i, key, value, way).pages, t.span)
  {
    hide Rank, Seeded;
    var t' := AfterPut(t, id, i, key, value, way);
    forall q | q in t'.pages ensures ShapeOk(t'.pages[q], t'.span[q], t'.span) {
      assert ShapeOk(t.pages[q], t.span[q], t.span);
    }
  }

  lemma PutHalfFull(t: State, id: PageId, i: nat, key: Key, value: Key, way: Way)
    requires HalfFull(t.pages, t.span) && id in t.pages && i <= |t.pages[id].keys| == |t.pages[id].vals|
    ensures HalfFull(AfterPut(t, id, i, key, value, way).pages, t.span)
  {
    var pages' := AfterPut(t, id, i, key, value, way).pages;
    forall q, r | q in pages' && q in t.span && r in t.span && t.span[q].depth < t.span[r].depth
      ensures |pages'[q].keys| >= MAX_KEYS / 2
    {
      assert |t.pages[q].keys| >= MAX_KEYS / 2;
    }
  }

  // In a leaf nothing separates, and a key at its very start belongs elsewhere.
  lemma PutDone(t: State, id: PageId, i: nat, key: Key, value: Key, way: Way)
    requires Ready(t, id, key, way) && t.pages[id].leaf && PlaceOf(t.pages[id].keys, i, key)
    requires |t.pages[id].keys| == |t.pages[id].vals|
    ensures t.pages.Keys == t.span.Keys && Done(t, AfterPut(t, id, i, key, value, way), id, key, value, way)
  {
    hide Rank, Seeded, Spine, Inv, Matches, Separates;
    match way
    case Own =>
      PutKeepsHolds(t.pages, t.span, t.contents, id, i, key, value);
      LeafSeparates(t, id, key);
    case Stray(ids) =>
      PutKeys(t.pages[id], i, key, value);
      if Holds(t.pages, t.span, t.contents) && t.span[id].lo == Rank(key) {
        LeafRange(t, id);
        PutKeepsHolds(t.pages, t.span, t.contents, id, i, key, value);
      }
  }

  lemma LeafRange(t: State, id: PageId)
    requires Inv(t.pages, t.span) && id in t.pages
    ensures id in t.span && t.span[id].lo < t.span[id].hi
  {
    assert PageOk(t.pages[id], t.span[id]);
  }

  lemma LeafSeparates(t: State, id: PageId, key: Key)
    requires Inv(t.pages, t.span) && id in t.pages && t.pages[id].leaf
    ensures t.span[id].depth == 0 && !Separates(t.pages, t.span, 0, key)
  {
    hide Rank;
    assert PageOk(t.pages[id], t.span[id]);
    forall q | q in t.pages ensures !SeparatesIn(t.pages, t.span, 0, key, q) {
      assert PageOk(t.pages[q], t.span[q]);
    }
  }

  // ---------------------------------------------------------------- the insert as a function

  // Where insertNonFull stops in an internal page.
  function Past(keys: seq<Key>, key: Key): (i: nat)
    ensures i <= |keys|
  {
    if keys == [] || Compare(keys[0], key) > 0 then 0 else 1 + Past(keys[1..], key)
  }

  lemma {:induction false} PastTurns(keys: seq<Key>, key: Key)
    ensures TurnsAt(keys, Past(keys, key), key)
  {
    hide Rank;
    if keys != [] {
      CompareIsRankOrder(keys[0], key);
      PastTurns(keys[1..], key);
    }
  }

  lemma TurnsOnce(keys: seq<Key>, i: nat, j: nat, key: Key)
    requires TurnsAt(keys, i, key) && TurnsAt(keys, j, key)
    ensures i == j
  {
    hide Rank;
  }

  // The position after the split of a full child.
  ghost function NextAt(t: State, id: PageId, i: nat, key: Key): nat
    requires CanStep(t, id, i) && i <= |t.pages[id].keys|
  {
    StepFits(t, id, i);
    if |t.pages[t.pages[id].childs[i]].keys| >= MAX_KEYS && Compare(key, Stepped(t, id, i).pages[id].keys[i]) > 0
    then i + 1 else i
  }

  lemma NextGoes(t: State, id: PageId, i: nat, key: Key)
    requires CanStep(t, id, i) && i <= |t.pages[id].keys|
    ensures GoesTo(t, id, i, NextAt(t, id, i, key), key)
  {
    hide Rank, Shape, Stepped;
    StepFits(t, id, i);
    if |t.pages[t.pages[id].childs[i]].keys| >= MAX_KEYS {
      CompareIsRankOrder(key, Stepped(t, id, i).pages[id].keys[i]);
    }
  }

  lemma NextFits(t: State, id: PageId, i: nat, key: Key)
    requires Fits(t, id) && !t.pages[id].leaf && i <= |t.pages[id].keys|
    ensures CanStep(t, id, i)
    ensures var t1, j := Stepped(t, id, i), NextAt(t, id, i, key);
            && id in t1.pages && j < |t1.pages[id].childs| && Fits(t1, t1.pages[id].childs[j])
            && t1.pages[id].childs[j] in t1.span && t1.span[t1.pages[id].childs[j]].depth + 1 == t.span[id].depth
  {
    hide Rank, Shape, Seeded, Stepped, HalfFull;
    FitsSteps(t, id);
    StepFits(t, id, i);
    StepSeeded(t, id, i);
    StepShape(t, id, i, NextAt(t, id, i, key));
  }

  // insertNonFull as a function of the table, whatever the table holds.
  ghost function InsertAt(t: State, id: PageId, key: Key, value: Key, way: Way): State
    requires Fits(t, id)
    decreases t.span[id].depth
  {
    FitsSteps(t, id);
    if t.pages[id].leaf then AfterPut(t, id, ChildIndex(t.pages[id].keys, key), key, value, way)
    else
      var i := Past(t.pages[id].keys, key);
      NextFits(t, id, i, key);
      var t1 := Stepped(t, id, i);
      InsertAt(t1, t1.pages[id].childs[NextAt(t, id, i, key)], key, value, NextWay(t, id, i, key, way))
  }

  lemma {:induction false} InsertFramed(t: State, id: PageId, key: Key, value: Key, way: Way)
    requires Fits(t, id)
    ensures t.pages.Keys == t.span.Keys && Framed(t, InsertAt(t, id, key, value, way), id)
    decreases t.span[id].depth
  {
    hide Rank, Shape, Seeded, Stepped, AfterPut, StepKeeps, Framed;
    FitsSteps(t, id);
    if t.pages[id].leaf {
      PutFramed(t, id, ChildIndex(t.pages[id].keys, key), key, value, way);
    } else {
      var i := Past(t.pages[id].keys, key);
      NextFits(t, id, i, key);
      var t1, j := Stepped(t, id, i), NextAt(t, id, i, key);
      InsertFramed(t1, t1.pages[id].childs[j], key, value, NextWay(t, id, i, key, way));
      StepIsSmall(t, id, i);
      FramedUp(t, t1, InsertAt(t, id, key, value, way), id, t1.pages[id].childs[j]);
    }
  }

  // Two tables with the same pages up to some level.
  ghost predicate Twin(t: State, u: State, d: int) {
    && t.span == u.span && t.contents == u.contents && t.nextID == u.nextID && t.pages.Keys == u.pages.Keys
    && forall q :: q in t.pages && q in t.span && t.span[q].depth <= d ==> t.pages[q] == u.pages[q]
  }

  lemma StepTwin(t: State, u: State, id: PageId, i: nat, key: Key)
    requires Fits(t, id) && Fits(u, id) && Twin(t, u, t.span[id].depth) && !t.pages[id].leaf && i <= |t.pages[id].keys|
    ensures CanStep(t, id, i) && CanStep(u, id, i) && u.pages[id] == t.pages[id]
    ensures Twin(Stepped(t, id, i), Stepped(u, id, i), t.span[id].depth)
    ensures NextAt(t, id, i, key) == NextAt(u, id, i, key)
  {
    hide Rank, Seeded, Shape;
    FitsSteps(t, id);
    FitsSteps(u, id);
    StepFits(t, id, i);
    StepFits(u, id, i);
  }

  // The insert below a page depends on the pages below it only.
  lemma {:induction false} InsertTwin(t: State, u: State, id: PageId, key: Key, value: Key, way: Way)
    requires Fits(t, id) && Fits(u, id) && Twin(t, u, t.span[id].depth)
    ensures Twin(InsertAt(t, id, key, value, way), InsertAt(u, id, key, value, way), t.span[id].depth)
    decreases t.span[id].depth
  {
    hide Rank, Seeded, Shape, Stepped, NextAt, Framed, Twin;
    FitsSteps(t, id);
    FitsSteps(u, id);
    SamePage(t, u, id);
    if t.pages[id].leaf {
      PutTwin(t, u, id, ChildIndex(t.pages[id].keys, key), key, value, way);
    } else {
      var i := Past(t.pages[id].keys, key);
      StepTwin(t, u, id, i, key);
      NextFits(t, id, i, key);
      NextFits(u, id, i, key);
      var t1, u1, j := Stepped(t, id, i), Stepped(u, id, i), NextAt(t, id, i, key);
      var n := t1.pages[id].childs[j];
      StepFits(t, id, i);
      assert t1.span[id] == t.span[id] by { StepIsSmall(t, id, i); }
      SamePage(t1, u1, id);
      TwinBelow(t1, u1, t.span[id].depth, t1.span[n].depth);
      var next := NextWay(t, id, i, key, way);
      InsertTwin(t1, u1, n, key, value, next);
      InsertFramed(t1, n, key, value, next);
      InsertFramed(u1, n, key, value, next);
      var t', u' := InsertAt(t1, n, key, value, next), InsertAt(u1, n, key, value, next);
      TwinUp(t1, u1, t', u', n, t.span[id].depth);
    }
  }

  lemma SamePage(t: State, u: State, id: PageId)
    requires Twin(t, u, if id in t.span then t.span[id].depth else 0) && id in t.pages && id in t.span
    ensures id in u.pages && u.pages[id] == t.pages[id] && u.span == t.span
  {
  }

  lemma TwinBelow(t: State, u: State, d: int, e: int)
    requires Twin(t, u, d) && e <= d
    ensures Twin(t, u, e)
  {
  }

  lemma PutTwin(t: State, u: State, id: PageId, i: nat, key: Key, value: Key, way: Way)
    requires Twin(t, u, if id in t.span then t.span[id].depth else 0) && id in t.pages && id in t.span
    requires id in u.pages && u.pages[id] == t.pages[id] && i <= |t.pages[id].keys| == |t.pages[id].vals|
    ensures Twin(AfterPut(t, id, i, key, value, way), AfterPut(u, id, i, key, value, way), t.span[id].depth)
  {
  }

  // At and above the level of the page the insert changes no other page.
  lemma TwinUp(t: State, u: State, t': State, u': State, n: PageId, d: int)
    requires t.pages.Keys == t.span.Keys && u.pages.Keys == u.span.Keys && n in t.span && n in u.span
    requires Twin(t, u, d) && Framed(t, t', n) && Framed(u, u', n) && Twin(t', u', t.span[n].depth)
    ensures Twin(t', u', d)
  {
    hide Shape, Seeded, IdsOk;
    forall q | q in t'.pages && q in t'.span && t'.span[q].depth <= d ensures t'.pages[q] == u'.pages[q] {
      if t'.span[q].depth > t.span[n].depth {
        assert q in t.span && t.span[q].depth == t'.span[q].depth;
        assert t'.pages[q] == t.pages[q] && u'.pages[q] == u.pages[q];
      }
    }
  }

  // ---------------------------------------------------------------- the loss

  // The split of a full page c at the key: page id has c and its right half n, whose
  // first child x is also the last one of c, and is full.
  ghost predicate EdgeScene(t: State, id: PageId, i: nat, c: PageId, n: PageId, x: PageId, key: Key) {
    && Fits(t, c) && Fits(t, n) && Holds(t.pages, t.span, t.contents)
    && id in t.pages && x in t.pages && !t.pages[id].leaf && i < |t.pages[id].keys|
    && |t.pages[id].childs| == |t.pages[id].keys| + 1
    && t.pages[id].keys[i] == key && t.pages[id].childs[i] == c && t.pages[id].childs[i + 1] == n
    && !t.pages[c].leaf && |t.pages[c].keys| > 0 && |t.pages[c].childs| == |t.pages[c].keys| + 1
    && t.pages[c].keys[|t.pages[c].keys| - 1] == key && t.pages[c].childs[|t.pages[c].keys|] == x
    && !t.pages[n].leaf && |t.pages[n].keys| > 0 && |t.pages[n].childs| == |t.pages[n].keys| + 1
    && t.pages[n].childs[0] == x && Full(t.pages[x]) && c != n && c != id && n != id
    && t.span[id].depth == t.span[c].depth + 1 && t.span[n].depth == t.span[c].depth
    && t.span[c].depth == t.span[x].depth + 1
    && t.span[c].hi == t.span[n].lo == t.span[x].lo == Rank(key) && t.span[x].hi == Rank(t.pages[n].keys[0])
    && t.span[id].lo < Rank(key) <= t.span[id].hi && Rank(key) < Rank(Cut(t.pages[x]))
    && t.nextID !in t.pages && t.pages.Keys == t.span.Keys
  }

  // The two splits of x: as a child of c, which is what happens, and as a child of n.
  ghost function EdgeCut(t: State, c: PageId): State
    requires c in t.pages && CanStep(t, c, |t.pages[c].keys|)
  {
    Stepped(t, c, |t.pages[c].keys|)
  }

  lemma SceneSteps(t: State, id: PageId, i: nat, c: PageId, n: PageId, x: PageId, key: Key)
    requires EdgeScene(t, id, i, c, n, x, key)
    ensures CanStep(t, c, |t.pages[c].keys|) && CanStep(t, n, 0)
    ensures var t2, u, cut := EdgeCut(t, c), Stepped(t, n, 0), Cut(t.pages[x]);
            && t2.pages == t.pages[t.nextID := RightHalf(t.pages[x])][x := LeftHalf(t.pages[x])]
                             [c := Linked(t.pages[c], |t.pages[c].keys|, cut, t.nextID)]
            && u.pages == t.pages[t.nextID := RightHalf(t.pages[x])][x := LeftHalf(t.pages[x])]
                            [n := Linked(t.pages[n], 0, cut, t.nextID)]
            && t2.span == u.span == SplitSpan(t.span, x, Rank(cut), t.nextID)
            && t2.nextID == u.nextID == t.nextID + 1 && t2.contents == u.contents == t.contents
    ensures c != x && n != x && id != x
  {
    hide Rank, Seeded, Shape, Holds;
    FitsSteps(t, c);
    FitsSteps(t, n);
  }

  lemma SceneTwin(t: State, id: PageId, i: nat, c: PageId, n: PageId, x: PageId, key: Key)
    requires EdgeScene(t, id, i, c, n, x, key)
    ensures CanStep(t, c, |t.pages[c].keys|) && CanStep(t, n, 0)
    ensures Twin(EdgeCut(t, c), Stepped(t, n, 0), t.span[x].depth)
  {
    hide Rank, Seeded, Shape, Holds, EdgeCut, Stepped;
    SceneSteps(t, id, i, c, n, x, key);
  }

  // The insert goes on to x along either of them, right of the key.
  lemma SceneUnfolds(t: State, id: PageId, i: nat, c: PageId, n: PageId, x: PageId, key: Key, value: Key)
    requires EdgeScene(t, id, i, c, n, x, key)
    ensures CanStep(t, c, |t.pages[c].keys|) && Fits(EdgeCut(t, c), x)
    ensures InsertAt(t, c, key, value, Own) ==
            InsertAt(EdgeCut(t, c), x, key, value, Stray(StartingAt(t.span, key)))
  {
    hide Rank, Seeded, Shape, Holds, EdgeCut, Stepped, NextAt;
    var m := |t.pages[c].keys|;
    SceneTurns(t, id, i, c, n, x, key);
    SceneSteps(t, id, i, c, n, x, key);
    SceneNext(t, id, i, c, n, x, key);
    FitsSteps(t, c);
    NextFits(t, c, m, key);
    assert EdgeCut(t, c) == Stepped(t, c, m) by { CutIs(t, c); }
  }

  lemma CutIs(t: State, c: PageId)
    requires c in t.pages && CanStep(t, c, |t.pages[c].keys|)
    ensures EdgeCut(t, c) == Stepped(t, c, |t.pages[c].keys|)
  {
  }

  lemma SceneTurns(t: State, id: PageId, i: nat, c: PageId, n: PageId, x: PageId, key: Key)
    requires EdgeScene(t, id, i, c, n, x, key)
    ensures Past(t.pages[c].keys, key) == |t.pages[c].keys| && TurnsAt(t.pages[c].keys, |t.pages[c].keys|, key)
    ensures Turned(t.pages[c], |t.pages[c].keys|, key)
  {
    hide Rank, Seeded, Shape, Matches;
    var keys := t.pages[c].keys;
    assert PageOk(t.pages[c], t.span[c]);
    forall m | 0 <= m < |keys| ensures Rank(keys[m]) <= Rank(key) {
      if m < |keys| - 1 { SortedAt(keys, m, |keys| - 1); }
    }
    PastTurns(keys, key);
    TurnsOnce(keys, Past(keys, key), |keys|, key);
  }

  lemma SceneNext(t: State, id: PageId, i: nat, c: PageId, n: PageId, x: PageId, key: Key)
    requires EdgeScene(t, id, i, c, n, x, key)
    ensures var m := |t.pages[c].keys|; CanStep(t, c, m) && NextAt(t, c, m, key) == m
    ensures NextAt(t, n, 0, key) == 0 && CanStep(t, n, 0)
  {
    hide Rank, Seeded, Shape, Holds;
    SceneSteps(t, id, i, c, n, x, key);
    CompareIsRankOrder(key, Cut(t.pages[x]));
  }

  // What the insert below x needs and does, in the table as it is ...
  lemma SceneStray(t: State, id: PageId, i: nat, c: PageId, n: PageId, x: PageId, key: Key)
    requires EdgeScene(t, id, i, c, n, x, key)
    ensures CanStep(t, c, |t.pages[c].keys|) && CanStep(t, n, 0)
    ensures var ids := StartingAt(t.span, key);
            && Ready(EdgeCut(t, c), x, key, Stray(ids)) && WayOk(EdgeCut(t, c), Stray(ids))
            && Ready(Stepped(t, n, 0), x, key, Stray(ids)) && WayOk(Stepped(t, n, 0), Stray(ids))
            && HoldsAs(Stepped(t, n, 0), t.contents)
  {
    hide Rank, Seeded, Shape, Matches, Spine, Stepped, NextAt;
    var ids, m := StartingAt(t.span, key), |t.pages[c].keys|;
    SceneSteps(t, id, i, c, n, x, key);
    SceneNext(t, id, i, c, n, x, key);
    SpineStarts(t.pages, t.span, key);
    NextFits(t, c, m, key);
    NextFits(t, n, 0, key);
    assert c !in ids by { assert PageOk(t.pages[c], t.span[c]); }
    StepSpine(t, c, m, ids, key);
    StepSpine(t, n, 0, ids, key);
    assert Lo(t.pages[n], t.span[n], 0) < Hi(t.pages[n], t.span[n], 0) by { assert PageOk(t.pages[x], t.span[x]); }
    HealthyStep(t, n, 0);
  }

  lemma SceneDepth(t: State, id: PageId, i: nat, c: PageId, n: PageId, x: PageId, key: Key)
    requires EdgeScene(t, id, i, c, n, x, key)
    ensures CanStep(t, c, |t.pages[c].keys|) && CanStep(t, n, 0)
    ensures x in EdgeCut(t, c).span && EdgeCut(t, c).span[x] == Span(t.span[x].depth, Rank(key), Rank(Cut(t.pages[x])))
    ensures EdgeCut(t, c).span == Stepped(t, n, 0).span && t.span[x].depth < t.span[id].depth
    ensures EdgeCut(t, c).pages.Keys == EdgeCut(t, c).span.Keys
    ensures Stepped(t, n, 0).pages.Keys == Stepped(t, n, 0).span.Keys
  {
    hide Rank, Shape, Seeded, Holds, EdgeCut, Stepped;
    SceneSteps(t, id, i, c, n, x, key);
  }

  // The tables after the two splits of x, and after the insert along either of them.
  ghost predicate Gone(t: State, id: PageId, i: nat, c: PageId, n: PageId, x: PageId, key: Key, t': State, u': State) {
    && EdgeScene(t, id, i, c, n, x, key) && CanStep(t, c, |t.pages[c].keys|) && CanStep(t, n, 0)
    && var t2, u, ids := EdgeCut(t, c), Stepped(t, n, 0), StartingAt(t.span, key);
    && t2.pages.Keys == t2.span.Keys && u.pages.Keys == u.span.Keys && x in t2.span && x in u.span
    && Framed(t2, t', x) && StrayDone(t2, t', x, key, ids)
    && Framed(u, u', x) && StrayDone(u, u', x, key, ids) && HoldsAs(u, t.contents)
    && Twin(t', u', t.span[x].depth)
  }

  // Pages that the insert leaves alone.
  lemma GoneFar(t: State, id: PageId, i: nat, c: PageId, n: PageId, x: PageId, key: Key, t': State, u': State,
                q: PageId)
    requires Gone(t, id, i, c, n, x, key, t', u') && q in t.span && q != c && q != x
    requires t.span[q].lo == Rank(key) ==> t.span[q].depth >= t.span[x].depth
    ensures q in t.pages && q in t'.pages && t'.pages[q] == t.pages[q]
  {
    hide Rank, Shape, Seeded, Holds, EdgeCut, Stepped, IdsOk, Twin;
    SceneSteps(t, id, i, c, n, x, key);
  }

  // What starts at the key below x ends no later than x.
  lemma GoneLow(t: State, id: PageId, i: nat, c: PageId, n: PageId, x: PageId, key: Key, q: PageId)
    requires EdgeScene(t, id, i, c, n, x, key) && q in t.span
    requires t.span[q].lo == Rank(key) && t.span[q].depth < t.span[n].depth
    ensures Within(t.span[q], t.span[x])
  {
    hide Rank, Shape, Seeded, Matches;
    assert t.span[x].lo < t.span[x].hi by { assert PageOk(t.pages[x], t.span[x]); }
    NoStraddle(t.pages, t.span, n, 0, q);
  }

  lemma GoneEdge(t: State, id: PageId, i: nat, c: PageId, n: PageId, x: PageId, key: Key, t': State, u': State, k: Key)
    requires Gone(t, id, i, c, n, x, key, t', u') && Rank(k) <= Rank(key)
    ensures c in t'.pages && SameFor(t.pages[c], t'.pages[c], k)
  {
    hide Rank, Shape, Seeded, Holds, EdgeCut, Stepped, Twin, StrayDone, SameFor;
    SceneSteps(t, id, i, c, n, x, key);
    LinkedSame(t.pages[c], key, Cut(t.pages[x]), t.nextID, k);
  }

  // A key added past the last one does not matter for those before.
  lemma LinkedSame(p: Page, key: Key, cut: Key, newId: PageId, k: Key)
    requires !p.leaf && |p.keys| > 0 && |p.childs| == |p.keys| + 1 && p.keys[|p.keys| - 1] == key
    requires Rank(k) <= Rank(key)
    ensures SameFor(p, Linked(p, |p.keys|, cut, newId), k)
  {
    hide Rank;
    var m, p' := |p.keys|, Linked(p, |p.keys|, cut, newId);
    ChildIndexPlace(p.keys, k);
    var a := ChildIndex(p.keys, k);
    assert a < m;
    assert p'.keys[a] == p.keys[a] && p'.childs[a] == p.childs[a];
    assert forall b :: 0 <= b < a ==> p'.keys[b] == p.keys[b];
    ChildIndexIs(p'.keys, k, a);
  }

  // Outside of the range of x every search goes as before.
  lemma GoneSame(t: State, id: PageId, i: nat, c: PageId, n: PageId, x: PageId, key: Key, t': State, u': State, k: Key)
    requires Gone(t, id, i, c, n, x, key, t', u')
    requires t.span[id].lo < Rank(k) <= t.span[id].hi && !(Rank(key) < Rank(k) <= t.span[x].hi)
    ensures Search(t'.pages, id, t.span[id].depth, k) == Search(t.pages, id, t.span[id].depth, k)
  {
    hide Rank, Shape, Seeded, Matches, Inv, EdgeCut, Stepped, Framed, Twin, StrayDone, SameFor;
    forall q | q in t.pages && t.span[q].depth <= t.span[id].depth && t.span[q].lo < Rank(k) <= t.span[q].hi
      ensures q in t'.pages && SameFor(t.pages[q], t'.pages[q], k)
    {
      if q == c {
        GoneEdge(t, id, i, c, n, x, key, t', u', k);
      } else {
        if t.span[q].lo == Rank(key) && t.span[q].depth < t.span[x].depth { GoneLow(t, id, i, c, n, x, key, q); }
        GoneFar(t, id, i, c, n, x, key, t', u', q);
        SameForSelf(t.pages[q], k);
      }
    }
    SearchSame(t.pages, t.span, t'.pages, id, k);
  }

  lemma SameForSelf(p: Page, k: Key)
    ensures SameFor(p, p, k)
  {
  }

  lemma SceneLinks(t: State, id: PageId, i: nat, c: PageId, n: PageId, x: PageId, key: Key)
    requires EdgeScene(t, id, i, c, n, x, key)
    ensures id in t.pages && id in t.span && n in t.pages && n in t.span && x in t.pages && x in t.span && c in t.span
    ensures !t.pages[id].leaf && i + 1 < |t.pages[id].childs| && t.pages[id].childs[i + 1] == n
    ensures !t.pages[n].leaf && |t.pages[n].childs| > 0 && t.pages[n].childs[0] == x
    ensures t.span[id].depth == t.span[n].depth + 1 == t.span[x].depth + 2 && t.span[c].depth == t.span[n].depth
    ensures id != c && id != x && n != c && n != x
  {
    hide Rank, Shape, Seeded, Holds;
  }

  // Inside of it they come to x by way of n.
  lemma GonePath(t: State, id: PageId, i: nat, c: PageId, n: PageId, x: PageId, key: Key, t': State, u': State, k: Key)
    requires Gone(t, id, i, c, n, x, key, t', u') && Rank(key) < Rank(k) <= t.span[x].hi
    ensures Search(t'.pages, id, t.span[id].depth, k) == Search(t'.pages, x, t.span[x].depth, k)
  {
    hide Rank, Shape, Seeded, Holds, EdgeCut, Stepped, Framed, Twin, StrayDone, Search, EdgeScene, PlaceOf, CanStep;
    assert EdgeScene(t, id, i, c, n, x, key);
    hide Gone;
    SceneLinks(t, id, i, c, n, x, key);
    ScenePlaces(t, id, i, c, n, x, key, k);
    GoneFar(t, id, i, c, n, x, key, t', u', id);
    GoneFar(t, id, i, c, n, x, key, t', u', n);
    SearchStep(t'.pages, id, t.span[id].depth, k, i + 1);
    SearchStep(t'.pages, n, t.span[n].depth, k, 0);
  }

  lemma ScenePlaces(t: State, id: PageId, i: nat, c: PageId, n: PageId, x: PageId, key: Key, k: Key)
    requires EdgeScene(t, id, i, c, n, x, key) && Rank(key) < Rank(k) <= t.span[x].hi
    ensures PlaceOf(t.pages[id].keys, i + 1, k) && PlaceOf(t.pages[n].keys, 0, k)
  {
    hide Rank, Shape, Seeded, Matches, LinksOk, PageOk, Inv;
    SceneBounds(t, id, i, c, n, x, key);
    PlaceAfter(t.pages[id].keys, i, k);
  }

  // A key past the i-th one and not past the next one.
  lemma PlaceAfter(keys: seq<Key>, i: nat, k: Key)
    requires Sorted(keys) && i < |keys| && Rank(keys[i]) < Rank(k)
    requires i + 1 < |keys| ==> Rank(k) <= Rank(keys[i + 1])
    ensures PlaceOf(keys, i + 1, k)
  {
    hide Rank, Sorted;
    forall m | 0 <= m < i ensures Rank(keys[m]) < Rank(k) { SortedAt(keys, m, i); }
  }

  lemma SceneBounds(t: State, id: PageId, i: nat, c: PageId, n: PageId, x: PageId, key: Key)
    requires EdgeScene(t, id, i, c, n, x, key)
    ensures Sorted(t.pages[id].keys)
    ensures i + 1 < |t.pages[id].keys| ==> t.span[x].hi <= Rank(t.pages[id].keys[i + 1])
  {
    hide Rank, Shape, Seeded, Matches;
    var p := t.pages[id];
    assert PageOk(p, t.span[id]) && PageOk(t.pages[n], t.span[n]);
    assert LinksOk(p, t.span[id], t.span) && LinkOk(p, t.span[id], t.span, i + 1);
  }

  // The lower half is read as before.
  lemma GoneKept(t: State, id: PageId, i: nat, c: PageId, n: PageId, x: PageId, key: Key, t': State, u': State, k: Key)
    requires Gone(t, id, i, c, n, x, key, t', u') && Rank(key) < Rank(k) <= Rank(Cut(t.pages[x]))
    ensures Search(t'.pages, x, t.span[x].depth, k) == if k in t.contents then Some(t.contents[k]) else None
  {
    hide Rank, Seeded, Holds, EdgeCut, Stepped, Search;
    SceneDepth(t, id, i, c, n, x, key);
    StrayContents(Stepped(t, n, 0), u', x, key, StartingAt(t.span, key));
    SearchReadsContents(u'.pages, u'.span, u'.contents, x, k);
    SearchFrame(u'.pages, u'.span, t'.pages, x, k);
  }

  // What a search finds that enters the middle child of page x.
  ghost function BelowMiddle(t: State, x: PageId, k: Key): Option<Key> {
    if x !in t.pages || x !in t.span || t.pages[x].leaf then None
    else if |t.pages[x].childs| <= MAX_KEYS / 2 || t.span[x].depth == 0 then None
    else Search(t.pages, t.pages[x].childs[MAX_KEYS / 2], t.span[x].depth - 1, k)
  }

  // The upper half is not, but for what the page at the edge of x leads to.
  lemma GoneLost(t: State, id: PageId, i: nat, c: PageId, n: PageId, x: PageId, key: Key, t': State, u': State, k: Key)
    requires Gone(t, id, i, c, n, x, key, t', u') && Rank(Cut(t.pages[x])) < Rank(k)
    ensures x in t.span && Search(t'.pages, x, t.span[x].depth, k) == BelowMiddle(t, x, k)
  {
    hide Rank, Seeded, Matches, Inv, Shape, EdgeCut, Stepped, Search, Twin, Gone, EdgeScene;
    GoneKeys(t, id, i, c, n, x, key, t', u', k);
    GoneShape(t, id, i, c, n, x, key, t', u');
    var p, p' := t.pages[x], t'.pages[x];
    if p.leaf {
      LookupMisses(p'.keys, p'.vals, k);
      LeafSearch(t'.pages, x, t.span[x].depth, k);
    } else {
      SearchStep(t'.pages, x, t.span[x].depth, k, |p'.keys|);
      GoneOnward(t, id, i, c, n, x, key, t', u', k);
    }
  }

  lemma GoneOnward(t: State, id: PageId, i: nat, c: PageId, n: PageId, x: PageId, key: Key, t': State, u': State,
                   k: Key)
    requires Gone(t, id, i, c, n, x, key, t', u') && x in t.pages && !t.pages[x].leaf && Full(t.pages[x])
    requires x in t.span && t.span[x].depth > 0
    ensures var e := t.pages[x].childs[MAX_KEYS / 2];
            Search(t'.pages, e, t.span[x].depth - 1, k) == Search(t.pages, e, t.span[x].depth - 1, k)
  {
    hide Rank, Seeded, Shape, EdgeCut, Stepped, Search, Twin, Framed, StrayDone, EdgeScene, Matches, PageOk, CanStep;
    var e := t.pages[x].childs[MAX_KEYS / 2];
    assert EdgeScene(t, id, i, c, n, x, key);
    hide Gone;
    SceneLinks(t, id, i, c, n, x, key);
    SceneEdge(t, id, i, c, n, x, key);
    assert Inv(t.pages, t.span) && Rank(key) < t.span[e].lo by { SceneInv(t, id, i, c, n, x, key); }
    forall q | q in t.pages && t.span[q].depth <= t.span[e].depth && t.span[q].lo >= t.span[e].lo
      ensures q in t'.pages && t'.pages[q] == t.pages[q]
    {
      GoneFar(t, id, i, c, n, x, key, t', u', q);
    }
    SearchOnward(t.pages, t.span, t'.pages, e, k);
  }

  lemma SceneInv(t: State, id: PageId, i: nat, c: PageId, n: PageId, x: PageId, key: Key)
    requires EdgeScene(t, id, i, c, n, x, key)
    ensures Inv(t.pages, t.span) && Rank(key) < Rank(Cut(t.pages[x]))
  {
  }

  lemma GoneShape(t: State, id: PageId, i: nat, c: PageId, n: PageId, x: PageId, key: Key, t': State, u': State)
    requires Gone(t, id, i, c, n, x, key, t', u')
    ensures x in t.pages && x in t.span && x in t'.pages && x in t'.span && t'.span[x].depth == t.span[x].depth
    ensures t'.pages[x].leaf == t.pages[x].leaf && Full(t.pages[x]) && (!t.pages[x].leaf ==> t.span[x].depth > 0)
    ensures if t.pages[x].leaf then |t'.pages[x].vals| == |t'.pages[x].keys|
            else |t'.pages[x].childs| == |t'.pages[x].keys| + 1
  {
    hide Rank, Seeded, Matches, EdgeCut, Stepped, Twin, LinksOk;
    SceneDepth(t, id, i, c, n, x, key);
    SceneSteps(t, id, i, c, n, x, key);
    assert PageOk(t.pages[x], t.span[x]);
    assert ShapeOk(t'.pages[x], t'.span[x], t'.span);
  }

  lemma LeafSearch(pages: Pages, id: PageId, d: nat, k: Key)
    requires id in pages && pages[id].leaf && |pages[id].keys| == |pages[id].vals|
    ensures Search(pages, id, d, k) == Lookup(pages[id].keys, pages[id].vals, k)
  {
  }

  lemma SceneEdge(t: State, id: PageId, i: nat, c: PageId, n: PageId, x: PageId, key: Key)
    requires EdgeScene(t, id, i, c, n, x, key) && !t.pages[x].leaf
    ensures var e, g := t.pages[x].childs[MAX_KEYS / 2], t.pages[x].childs[0];
            && e in t.pages && t.span[e].depth + 1 == t.span[x].depth && t.span[e].lo == Rank(Cut(t.pages[x]))
            && g in t.pages && g != x && g != c && PageOk(t.pages[g], t.span[g])
            && t.span[g].hi == Rank(t.pages[x].keys[0]) && Rank(t.pages[x].keys[0]) <= Rank(Cut(t.pages[x]))
    ensures forall m :: 0 <= m < MAX_KEYS / 2 ==> Rank(t.pages[x].keys[m]) <= Rank(Cut(t.pages[x]))
  {
    hide Rank, Shape, Seeded, Matches;
    var p, s := t.pages[x], t.span[x];
    assert PageOk(p, s) && LinksOk(p, s, t.span) && LinkOk(p, s, t.span, 0) && LinkOk(p, s, t.span, MAX_KEYS / 2);
    assert Rank(p.keys[MAX_KEYS / 2 - 1]) < Rank(p.keys[MAX_KEYS / 2]);
    assert PageOk(t.pages[p.childs[0]], t.span[p.childs[0]]);
  }

  // The keys that stand in x afterwards are not beyond the cut.
  lemma GoneKeys(t: State, id: PageId, i: nat, c: PageId, n: PageId, x: PageId, key: Key, t': State, u': State, k: Key)
    requires Gone(t, id, i, c, n, x, key, t', u') && Rank(Cut(t.pages[x])) < Rank(k)
    ensures x in t'.pages && PlaceOf(t'.pages[x].keys, |t'.pages[x].keys|, k) && k !in t'.pages[x].keys
    ensures !t.pages[x].leaf ==>
              |t'.pages[x].childs| > 0 &&
              t'.pages[x].childs[|t'.pages[x].childs| - 1] == t.pages[x].childs[MAX_KEYS / 2]
  {
    hide Rank, Shape, Seeded, Holds, EdgeCut, Stepped, Twin, KeyKnown, Framed;
    SceneSteps(t, id, i, c, n, x, key);
    forall m | 0 <= m < |t'.pages[x].keys| ensures Rank(t'.pages[x].keys[m]) < Rank(k) {
      assert t'.pages[x].keys[m] in t'.pages[x].keys;
      GoneKnown(t, id, i, c, n, x, key, t'.pages[x].keys[m]);
    }
  }

  lemma GoneKnown(t: State, id: PageId, i: nat, c: PageId, n: PageId, x: PageId, key: Key, k: Key)
    requires EdgeScene(t, id, i, c, n, x, key) && CanStep(t, c, |t.pages[c].keys|)
    requires x in EdgeCut(t, c).pages && KeyKnown(EdgeCut(t, c).pages, x, key, k)
    ensures Rank(k) <= Rank(Cut(t.pages[x]))
  {
    hide Rank, Shape, Seeded, Matches, EdgeCut, Stepped, Inv;
    SceneSteps(t, id, i, c, n, x, key);
    var p := t.pages[x];
    if k in LeftHalf(p).keys {
      var m :| 0 <= m < MAX_KEYS / 2 && LeftHalf(p).keys[m] == k;
      assert Sorted(p.keys) by { ScenePage(t, x); }
      if m < MAX_KEYS / 2 - 1 { SortedAt(p.keys, m, MAX_KEYS / 2 - 1); }
    } else if !p.leaf {
      SceneEdge(t, id, i, c, n, x, key);
    }
  }

  lemma ScenePage(t: State, x: PageId)
    requires Inv(t.pages, t.span) && x in t.pages
    ensures PageOk(t.pages[x], t.span[x])
  {
  }

  // The page splits its child exactly at the key.
  lemma SetScene(t: State, id: PageId, i: nat, j: nat, key: Key)
    requires OwnWay(t, id, i, j, key) && SharedFull(t.pages, t.pages[id].childs[i], key)
    ensures var c := t.pages[id].childs[i];
            EdgeScene(Stepped(t, id, i), id, i, c, t.nextID, t.pages[c].childs[MAX_KEYS / 2], key)
    ensures t.pages.Keys == t.span.Keys && Stepped(t, id, i).span[id] == t.span[id]
    ensures Stepped(t, id, i).contents == t.contents
    ensures LossBelow(t.pages, id, t.span[id].depth, key) ==
            Some(LossAt(t.pages, t.pages[id].childs[i], t.span[id].depth - 1, key))
  {
    hide Rank, Seeded, Matches, Shape, Inv, Stepped, TurnsAt, Turned, GoesTo;
    var t1, c, n := Stepped(t, id, i), t.pages[id].childs[i], t.nextID;
    var x := t.pages[c].childs[MAX_KEYS / 2];
    StepFits(t, id, i);
    StepSeeded(t, id, i);
    StepShape(t, id, i, i);
    OwnPlace(t, id, i, key);
    HealthyStep(t, id, i);
    SharedPage(t.pages, t.span, c, key);
    SharedKeys(t.pages, t.span, c, key);
    SteppedFull(t, id, i);
    SceneRest(t, id, i, key);
    ChildIndexIs(t.pages[id].keys, key, i);
  }

  lemma SceneRest(t: State, id: PageId, i: nat, key: Key)
    requires CanStep(t, id, i) && SharedFull(t.pages, t.pages[id].childs[i], key)
    ensures var t1, c := Stepped(t, id, i), t.pages[id].childs[i];
            var x := t.pages[c].childs[MAX_KEYS / 2];
            && x in t1.pages && t1.pages[x] == t.pages[x] && x in t1.span && t1.span[x] == t.span[x]
            && x in t.span && t.span[x].depth + 1 == t.span[c].depth && c in t.span
            && Full(t.pages[x]) && Full(t.pages[c])
            && t.nextID !in t.pages && t1.nextID == t.nextID + 1 && t1.nextID !in t1.pages
            && t1.pages.Keys == t1.span.Keys && c != id && t.nextID in t1.span
            && t1.span[t.nextID].depth == t1.span[c].depth == t.span[c].depth
  {
    hide Rank;
    StepFits(t, id, i);
    var c := t.pages[id].childs[i];
    assert ShapeOk(t.pages[c], t.span[c], t.span);
    var x := t.pages[c].childs[MAX_KEYS / 2];
    assert ShapeOk(t.pages[x], t.span[x], t.span);
  }

  lemma SharedInserted(t: State, id: PageId, i: nat, j: nat, key: Key, value: Key)
    requires OwnWay(t, id, i, j, key) && SharedFull(t.pages, t.pages[id].childs[i], key)
    requires i == Past(t.pages[id].keys, key) && j == NextAt(t, id, i, key)
    ensures Fits(t, id) && Fits(Stepped(t, id, i), t.pages[id].childs[i])
    ensures InsertAt(t, id, key, value, Own) == InsertAt(Stepped(t, id, i), t.pages[id].childs[i], key, value, Own)
  {
    hide Rank, Seeded, Matches, Shape, Inv, Stepped, TurnsAt, GoesTo, NextAt;
    SharedIsEdge(t, id, i, j, key);
    NextFits(t, id, i, key);
    FitsSteps(t, id);
  }

  // Put together: the keys that the loss takes are astray, and all others are found.
  lemma SharedLost(t: State, id: PageId, i: nat, j: nat, key: Key, t': State, u': State)
    requires OwnWay(t, id, i, j, key) && SharedFull(t.pages, t.pages[id].childs[i], key) && t.pages.Keys == t.span.Keys
    requires var c := t.pages[id].childs[i];
             Gone(Stepped(t, id, i), id, i, c, t.nextID, t.pages[c].childs[MAX_KEYS / 2], key, t', u')
    ensures LossDone(t, t', id, LossAt(t.pages, t.pages[id].childs[i], t.span[id].depth - 1, key))
  {
    hide Rank, Seeded, Holds, Shape, Stepped, OwnWay, CanStep, Gone, EdgeScene, SharedFull, Search, AfterLoss;
    hide LossAt, LossBelow, Within;
    SharedBasics(t, id, i, j, key);
    var c := t.pages[id].childs[i];
    var x := t.pages[c].childs[MAX_KEYS / 2];
    var loss := LossAt(t.pages, c, t.span[id].depth - 1, key);
    SetScene(t, id, i, j, key);
    assert t'.contents == t.contents by { GoneContents(Stepped(t, id, i), id, i, c, t.nextID, x, key, t', u'); }
    forall q | q in t.span && q != id && !Within(t.span[q], t.span[id])
      ensures q in t'.pages && q in t.pages && t'.pages[q] == t.pages[q]
    {
      SharedFrameOut(t, id, i, j, key, t', u', q);
    }
    forall k | t.span[id].lo < Rank(k) <= t.span[id].hi
      ensures Search(t'.pages, id, t.span[id].depth, k) == AfterLoss(t.pages, id, t.span[id].depth, loss, k)
    {
      SharedSearch(t, id, i, j, key, t', u', k);
    }
  }

  lemma SharedBasics(t: State, id: PageId, i: nat, j: nat, key: Key)
    requires OwnWay(t, id, i, j, key) && SharedFull(t.pages, t.pages[id].childs[i], key) && t.pages.Keys == t.span.Keys
    ensures CanStep(t, id, i) && id in t.pages && i < |t.pages[id].childs| && id in t.span && t.span[id].depth > 0
    ensures 0 < t.nextID < PAGE_IDS
    ensures var c := t.pages[id].childs[i]; c in t.pages && |t.pages[c].childs| > MAX_KEYS / 2
  {
    hide Rank, Seeded, Holds, Shape, TurnsAt, Turned, GoesTo;
  }

  lemma GoneContents(t: State, id: PageId, i: nat, c: PageId, n: PageId, x: PageId, key: Key, t': State, u': State)
    requires Gone(t, id, i, c, n, x, key, t', u')
    ensures t'.contents == t.contents
  {
    hide Rank, Seeded, Holds, Shape, Stepped, EdgeCut, Framed, Twin;
    SceneSteps(t, id, i, c, n, x, key);
  }

  lemma SharedFrameOut(t: State, id: PageId, i: nat, j: nat, key: Key, t': State, u': State, q: PageId)
    requires OwnWay(t, id, i, j, key) && SharedFull(t.pages, t.pages[id].childs[i], key) && t.pages.Keys == t.span.Keys
    requires var c := t.pages[id].childs[i];
             Gone(Stepped(t, id, i), id, i, c, t.nextID, t.pages[c].childs[MAX_KEYS / 2], key, t', u')
    requires q in t.span && id in t.span && q != id && !Within(t.span[q], t.span[id])
    ensures q in t'.pages && q in t.pages && t'.pages[q] == t.pages[q]
  {
    hide Rank, Seeded, Matches, Shape, Inv, Stepped, TurnsAt, Turned, GoesTo, Gone, EdgeScene;
    var t1, c, n := Stepped(t, id, i), t.pages[id].childs[i], t.nextID;
    var x := t.pages[c].childs[MAX_KEYS / 2];
    SetScene(t, id, i, j, key);
    ChildWithin(t, id, i, j, key);
    StepBeside(t, id, i);
    SharedPage(t.pages, t.span, c, key);
    SceneRest(t, id, i, key);
    if t1.span[q].lo == Rank(key) && t1.span[q].depth < t1.span[x].depth { GoneLow(t1, id, i, c, n, x, key, q); }
    GoneFar(t1, id, i, c, n, x, key, t', u', q);
  }

  lemma SharedSearch(t: State, id: PageId, i: nat, j: nat, key: Key, t': State, u': State, k: Key)
    requires OwnWay(t, id, i, j, key) && SharedFull(t.pages, t.pages[id].childs[i], key) && t.pages.Keys == t.span.Keys
    requires var c := t.pages[id].childs[i];
             Gone(Stepped(t, id, i), id, i, c, t.nextID, t.pages[c].childs[MAX_KEYS / 2], key, t', u')
    requires id in t.span && t.span[id].lo < Rank(k) <= t.span[id].hi
    ensures var d := t.span[id].depth;
            Search(t'.pages, id, d, k) ==
            AfterLoss(t.pages, id, d, LossAt(t.pages, t.pages[id].childs[i], d - 1, key), k)
  {
    hide Rank, Seeded, Matches, Shape, Inv, Stepped, TurnsAt, Turned, GoesTo, Gone, EdgeScene, Search;
    var t1, c, n := Stepped(t, id, i), t.pages[id].childs[i], t.nextID;
    var x := t.pages[c].childs[MAX_KEYS / 2];
    SetScene(t, id, i, j, key);
    SceneRest(t, id, i, key);
    SharedPage(t.pages, t.span, c, key);
    SharedKeys(t.pages, t.span, c, key);
    OwnStep(t, id, i, j, key);
    SearchReadsContents(t.pages, t.span, t.contents, id, k);
    SearchReadsContents(t1.pages, t1.span, t1.contents, id, k);
    if Rank(key) < Rank(k) <= t.span[x].hi {
      GonePath(t1, id, i, c, n, x, key, t', u', k);
      if Rank(k) <= Rank(Cut(t.pages[x])) {
        GoneKept(t1, id, i, c, n, x, key, t', u', k);
      } else {
        GoneLost(t1, id, i, c, n, x, key, t', u', k);
        SharedAstray(t, id, i, key, k);
      }
    } else {
      GoneSame(t1, id, i, c, n, x, key, t', u', k);
    }
  }

  lemma SharedAstray(t: State, id: PageId, i: nat, key: Key, k: Key)
    requires CanStep(t, id, i) && SharedFull(t.pages, t.pages[id].childs[i], key)
    ensures var t1, c := Stepped(t, id, i), t.pages[id].childs[i];
            Astray(t.pages, LossAt(t.pages, c, t.span[id].depth - 1, key), k) ==
            BelowMiddle(t1, t.pages[c].childs[MAX_KEYS / 2], k)
  {
    hide Rank, Search, Stepped, Seeded, Shape;
    SceneRest(t, id, i, key);
    StepFits(t, id, i);
    StepBeside(t, id, i);
    var t1, c := Stepped(t, id, i), t.pages[id].childs[i];
    var x := t.pages[c].childs[MAX_KEYS / 2];
    if !t.pages[x].leaf {
      MiddleBelow(t, x);
      SearchFrame(t.pages, t.span, t1.pages, t.pages[x].childs[MAX_KEYS / 2], k);
    }
  }

  lemma MiddleBelow(t: State, x: PageId)
    requires Shape(t.pages, t.span) && x in t.pages && !t.pages[x].leaf && Full(t.pages[x])
    ensures x in t.span && t.span[x].depth > 0
    ensures var e := t.pages[x].childs[MAX_KEYS / 2];
            e in t.span && e in t.pages && t.span[e].depth + 1 == t.span[x].depth
  {
    hide Rank;
    assert ShapeOk(t.pages[x], t.span[x], t.span);
  }

  // On a tree that holds its contents it updates the map, or does nothing to it, or
  // loses keys.
  lemma {:induction false} InsertKeeps(t: State, id: PageId, key: Key, value: Key, way: Way)
    requires Ready(t, id, key, way) && WayOk(t, way)
    ensures t.pages.Keys == t.span.Keys && Done(t, InsertAt(t, id, key, value, way), id, key, value, way)
    decreases t.span[id].depth, 1
  {
    hide Rank, Shape, Seeded, Stepped, AfterPut, StepKeeps, Framed, Ready, Done, TurnsAt, GoesTo, CameBack, WayOk;
    assert Fits(t, id) by { ReadyFits(t, id, key, way); }
    FitsSteps(t, id);
    if t.pages[id].leaf {
      ChildIndexPlace(t.pages[id].keys, key);
      PutDone(t, id, ChildIndex(t.pages[id].keys, key), key, value, way);
    } else {
      var i := Past(t.pages[id].keys, key);
      NextFits(t, id, i, key);
      var t1, j := Stepped(t, id, i), NextAt(t, id, i, key);
      PastTurns(t.pages[id].keys, key);
      NextGoes(t, id, i, key);
      var t' := InsertAt(t, id, key, value, way);
      if way.Own? && !Turned(t.pages[id], i, key) && SharedFull(t.pages, t.pages[id].childs[i], key) {
        SharedKeeps(t, id, i, j, key, value);
      } else {
        Onward(t, id, i, j, key, way);
        NextWayOk(t, id, i, key, way);
        InsertKeeps(t1, t1.pages[id].childs[j], key, value, NextWay(t, id, i, key, way));
        InsertFramed(t1, t1.pages[id].childs[j], key, value, NextWay(t, id, i, key, way));
        IsBack(t, t', id, i, j, key, value, way);
        Back(t, t', id, i, j, key, value, way);
      }
    }
  }

  // The insert at the edge: x is split as a child of c, and n keeps its lower half only.
  lemma {:induction false} SharedKeeps(t: State, id: PageId, i: nat, j: nat, key: Key, value: Key)
    requires OwnWay(t, id, i, j, key) && SharedFull(t.pages, t.pages[id].childs[i], key)
    requires i == Past(t.pages[id].keys, key) && j == NextAt(t, id, i, key)
    ensures t.pages.Keys == t.span.Keys && Done(t, InsertAt(t, id, key, value, Own), id, key, value, Own)
    decreases t.span[id].depth, 0
  {
    var t1, c, n := Stepped(t, id, i), t.pages[id].childs[i], t.nextID;
    var x := t.pages[c].childs[MAX_KEYS / 2];
    hide Rank, Shape, Seeded, Stepped, Holds, EdgeCut, NextAt, Framed, StrayDone, TurnsAt, Turned, GoesTo, SharedFull;
    hide LossDone, EdgeScene, LossBelow, Ready;
    var ids := StartingAt(t1.span, key);
    SetScene(t, id, i, j, key);
    SceneUnfolds(t1, id, i, c, n, x, key, value);
    SceneStray(t1, id, i, c, n, x, key);
    SceneDepth(t1, id, i, c, n, x, key);
    var t2, u := EdgeCut(t1, c), Stepped(t1, n, 0);
    ReadyFits(u, x, key, Stray(ids));
    InsertKeeps(t2, x, key, value, Stray(ids));
    InsertFramed(t2, x, key, value, Stray(ids));
    InsertKeeps(u, x, key, value, Stray(ids));
    InsertFramed(u, x, key, value, Stray(ids));
    SceneTwin(t1, id, i, c, n, x, key);
    InsertTwin(t2, u, x, key, value, Stray(ids));
    var t', u' := InsertAt(t2, x, key, value, Stray(ids)), InsertAt(u, x, key, value, Stray(ids));
    SharedInserted(t, id, i, j, key, value);
    assert t' == InsertAt(t, id, key, value, Own);
    SharedLost(t, id, i, j, key, t', u');
  }

  lemma ReadyFits(t: State, id: PageId, key: Key, way: Way)
    requires Ready(t, id, key, way)
    ensures Fits(t, id)
  {
  }

  // ---------------------------------------------------------------- root split

  ghost function NewRoot(t: State, root: PageId): State
    requires root in t.span && 0 < t.nextID < PAGE_IDS
  {
    State(t.pages[t.nextID := Page(false, [], [], [root])],
          t.span[t.nextID := Span(t.span[root].depth + 1, t.span[root].lo, t.span[root].hi)],
          t.contents, t.nextID + 1)
  }

  // The root owns every key and everything lies below it.
  ghost predicate Rooted(t: State, root: PageId) {
    && Shape(t.pages, t.span) && Seeded(t.pages, t.span)
    && root in t.pages && t.span[root].lo == -1.0 && t.span[root].hi == 1.0
    && (forall id :: id in t.span && id != root ==> t.span[id].depth < t.span[root].depth)
    && IdsOk(t, 0)
  }

  ghost predicate RootOk(t: State, root: PageId) {
    Rooted(t, root) && Holds(t.pages, t.span, t.contents)
  }

  lemma NewRootPage(t: State, root: PageId)
    requires RootOk(t, root) && t.nextID < PAGE_IDS
    ensures PageOk(NewRoot(t, root).pages[t.nextID], NewRoot(t, root).span[t.nextID])
  {
  }

  lemma NewRootInv(t: State, root: PageId)
    requires RootOk(t, root) && t.nextID < PAGE_IDS
    ensures Inv(NewRoot(t, root).pages, NewRoot(t, root).span)
  {
    hide Rank, Matches, Shape, Seeded, PageOk, LinksOk;
    var t1 := NewRoot(t, root);
    assert PageOk(t1.pages[t.nextID], t1.span[t.nextID]) by { NewRootPage(t, root); }
    forall id | id in t.pages ensures LinksOk(t.pages[id], t.span[id], t1.span) { NewRootLinks(t, root, id); }
    assert LinksOk(t1.pages[t.nextID], t1.span[t.nextID], t1.span) by { NewRootLink(t, root); }
  }

  lemma NewRootLinks(t: State, root: PageId, id: PageId)
    requires RootOk(t, root) && t.nextID < PAGE_IDS && id in t.pages
    ensures LinksOk(t.pages[id], t.span[id], NewRoot(t, root).span)
  {
    hide Rank, Matches, Shape, Seeded, PageOk;
    assert LinksOk(t.pages[id], t.span[id], t.span);
    if !t.pages[id].leaf {
      forall j | 0 <= j < |t.pages[id].childs| ensures LinkOk(t.pages[id], t.span[id], NewRoot(t, root).span, j) {
        assert LinkOk(t.pages[id], t.span[id], t.span, j);
      }
    }
  }

  lemma NewRootLink(t: State, root: PageId)
    requires RootOk(t, root) && t.nextID < PAGE_IDS
    ensures LinksOk(NewRoot(t, root).pages[t.nextID], NewRoot(t, root).span[t.nextID], NewRoot(t, root).span)
  {
    hide Rank, Matches, Shape, Seeded, PageOk;
    var t1 := NewRoot(t, root);
    assert LinkOk(t1.pages[t.nextID], t1.span[t.nextID], t1.span, 0);
  }

  lemma NewRootMatches(t: State, root: PageId)
    requires RootOk(t, root) && t.nextID < PAGE_IDS
    ensures Matches(NewRoot(t, root).pages, NewRoot(t, root).span, t.contents)
  {
    hide Rank, Inv, Seeded, LeafMatches;
    var t1 := NewRoot(t, root);
    forall k | k in t.contents ensures exists id :: StoredAt(t1.pages, t1.span, id, k) {
      var home :| StoredAt(t.pages, t.span, home, k);
      assert StoredAt(t1.pages, t1.span, home, k);
    }
    forall id | id in t.pages ensures PageMatches(t1.pages[id], t1.span[id], t.contents) {
      assert PageMatches(t.pages[id], t.span[id], t.contents);
    }
  }

  // A page above depth d does not change what separates at or below it.
  lemma HigherPage(pages: Pages, span: Spans, newId: PageId, p: Page, s: Span, d: nat, key: Key)
    requires pages.Keys == span.Keys && newId !in pages && s.depth > d
    ensures Separates(pages[newId := p], span[newId := s], d, key) <==> Separates(pages, span, d, key)
  {
    var pages', span' := pages[newId := p], span[newId := s];
    if Separates(pages', span', d, key) {
      var q :| SeparatesIn(pages', span', d, key, q);
      assert SeparatesIn(pages, span, d, key, q);
    }
    if Separates(pages, span, d, key) {
      var q :| SeparatesIn(pages, span, d, key, q);
      assert SeparatesIn(pages', span', d, key, q);
    }
  }

  lemma NewRootCut(t: State, root: PageId)
    requires Rooted(t, root) && t.nextID + 2 < PAGE_IDS && |t.pages[root].keys| >= MAX_KEYS
    ensures t.pages.Keys == t.span.Keys && root in t.span
    ensures var tA := NewRoot(t, root);
            CanCut(tA.pages, t.nextID, 0, tA.nextID) && Full(t.pages[root])
  {
    hide Rank, Seeded;
    assert ShapeOk(t.pages[root], t.span[root], t.span);
    hide Shape;
  }

  lemma NewRootShape(t: State, root: PageId)
    requires Rooted(t, root) && t.nextID + 2 < PAGE_IDS
    ensures root in t.span && Shape(NewRoot(t, root).pages, NewRoot(t, root).span)
  {
    hide Rank, Seeded;
    var tA := NewRoot(t, root);
    forall id | id in t.pages ensures ShapeOk(tA.pages[id], tA.span[id], tA.span) {
      assert ShapeOk(t.pages[id], t.span[id], t.span);
    }
  }

  lemma NewRootFits(t: State, root: PageId)
    requires RootOk(t, root) && t.nextID + 2 < PAGE_IDS && |t.pages[root].keys| >= MAX_KEYS
    ensures var tA := NewRoot(t, root);
            CanSplit(tA.pages, tA.span, t.nextID, 0, tA.nextID) && CanCut(tA.pages, t.nextID, 0, tA.nextID)
  {
    hide Inv, Holds, Seeded, Shape, PageOk, Rank;
    NewRootInv(t, root);
    NewRootCut(t, root);
  }

  ghost function GrownRoot(t: State, root: PageId): State
    requires Rooted(t, root) && t.nextID + 2 < PAGE_IDS && |t.pages[root].keys| >= MAX_KEYS
  {
    NewRootCut(t, root);
    var tA := NewRoot(t, root);
    State(Split(tA.pages, t.nextID, 0, tA.nextID),
          SplitSpan(tA.span, root, Rank(Cut(t.pages[root])), tA.nextID), t.contents, tA.nextID + 1)
  }

  // A root split keeps the contents ...
  lemma GrowRootHolds(t: State, root: PageId)
    requires RootOk(t, root) && t.nextID + 2 < PAGE_IDS && |t.pages[root].keys| >= MAX_KEYS
    ensures var t1 := GrownRoot(t, root); Inv(t1.pages, t1.span) && Matches(t1.pages, t1.span, t.contents)
  {
    hide Matches, Inv, Split, SplitSpan;
    NewRootMatches(t, root);
    NewRootFits(t, root);
    var tA, n := NewRoot(t, root), t.nextID;
    assert tA.pages[n].childs[0] == root && tA.pages[root] == t.pages[root];
    SplitKeepsInv(tA.pages, tA.span, n, 0, tA.nextID);
    SplitKeepsContents(tA.pages, tA.span, t.contents, n, 0, tA.nextID);
  }

  lemma GrowRootTop(t: State, root: PageId)
    requires Rooted(t, root) && t.nextID + 2 < PAGE_IDS && |t.pages[root].keys| >= MAX_KEYS
    ensures Full(t.pages[root])
    ensures var t1, n := GrownRoot(t, root), t.nextID;
            && n in t1.pages && n in t1.span && t1.span[n] == Span(t.span[root].depth + 1, -1.0, 1.0)
            && !t1.pages[n].leaf && t1.pages[n].keys == [Cut(t.pages[root])]
            && t1.pages[n].childs == [root, t.nextID + 1]
            && t1.pages[root] == LeftHalf(t.pages[root]) && t1.pages[t.nextID + 1] == RightHalf(t.pages[root])
            && t1.pages.Keys == t.pages.Keys + {n, t.nextID + 1}
            && (forall q :: q in t.pages && q != root ==> t1.pages[q] == t.pages[q])
  {
    hide Rank, Shape, Seeded;
    NewRootCut(t, root);
    assert root != t.nextID && root != t.nextID + 1;
    assert NewRoot(t, root).pages[t.nextID].keys == [];
  }

  // ... and its only new separator is the cut key.
  lemma GrowRootSeparates(t: State, root: PageId, key: Key)
    requires RootOk(t, root) && t.nextID + 2 < PAGE_IDS && |t.pages[root].keys| >= MAX_KEYS
    ensures Full(t.pages[root])
    ensures var t1, d := GrownRoot(t, root), t.span[root].depth + 1;
            Separates(t1.pages, t1.span, d, key) <==>
              key == Cut(t.pages[root]) || Separates(t.pages, t.span, d - 1, key)
  {
    hide Matches, Inv, Split, SplitSpan, Separates, Seeded, Rank;
    NewRootFits(t, root);
    HigherPage(t.pages, t.span, t.nextID, Page(false, [], [], [root]), NewRoot(t, root).span[t.nextID],
               t.span[root].depth, key);
    GrowRootTop(t, root);
    GrowRootHolds(t, root);
    var tA, t1, n := NewRoot(t, root), GrownRoot(t, root), t.nextID;
    assert tA.pages.Keys == tA.span.Keys && tA.pages[n].childs[0] == root && tA.pages[root] == t.pages[root];
    SplitSeparates(tA.pages, tA.span, n, 0, tA.nextID, key);
    SeparatesBelow(t1.pages, t1.span, n, key);
  }

  lemma GrowRootBounds(t: State, root: PageId)
    requires Rooted(t, root) && t.nextID + 3 < PAGE_IDS - 1 && |t.pages[root].keys| >= MAX_KEYS
    ensures Rooted(GrownRoot(t, root), t.nextID) && GrownRoot(t, root).nextID == t.nextID + 2
  {
    hide Seeded, Shape, Rank, GrownRoot;
    GrowRootTop(t, root);
    GrowRootSpan(t, root);
    GrowRootShape(t, root);
    assert Seeded(GrownRoot(t, root).pages, GrownRoot(t, root).span) by {
      GrowRootSeeded(t, root);
      GrowRootHalfFull(t, root);
      SeededParts(GrownRoot(t, root));
    }
    assert IdsOk(GrownRoot(t, root), 0);
  }

  lemma GrowRootShape(t: State, root: PageId)
    requires Rooted(t, root) && t.nextID + 2 < PAGE_IDS && |t.pages[root].keys| >= MAX_KEYS
    ensures Shape(GrownRoot(t, root).pages, GrownRoot(t, root).span) && GrownRoot(t, root).nextID == t.nextID + 2
  {
    hide Seeded, Shape, Rank, Split, SplitSpan, CanCut;
    NewRootCut(t, root);
    NewRootShape(t, root);
    var tA := NewRoot(t, root);
    SplitKeepsShape(tA.pages, tA.span, t.nextID, 0, tA.nextID, Rank(Cut(t.pages[root])));
  }

  lemma SeededParts(t: State)
    requires forall id :: id in t.pages && id in t.span && !t.pages[id].leaf ==> SeededPage(t.pages[id], t.span[id])
    requires HalfFull(t.pages, t.span)
    ensures Seeded(t.pages, t.span)
  {
    hide SeededPage, HalfFull;
  }

  lemma GrowRootSeeded(t: State, root: PageId)
    requires Rooted(t, root) && t.nextID + 2 < PAGE_IDS && |t.pages[root].keys| >= MAX_KEYS
    ensures var t1 := GrownRoot(t, root);
            forall id :: id in t1.pages && id in t1.span && !t1.pages[id].leaf ==> SeededPage(t1.pages[id], t1.span[id])
  {
    hide HalfFull, Shape, Rank;
    GrowRootTop(t, root);
    GrowRootSpan(t, root);
    var t1 := GrownRoot(t, root);
    hide GrownRoot;
    RankInRange(Cut(t.pages[root]));
    forall id | id in t1.pages && id in t1.span && !t1.pages[id].leaf ensures SeededPage(t1.pages[id], t1.span[id]) {
      if id in t.pages && id != root { assert SeededPage(t.pages[id], t.span[id]); }
    }
  }

  lemma GrowRootSpan(t: State, root: PageId)
    requires Rooted(t, root) && t.nextID + 2 < PAGE_IDS && |t.pages[root].keys| >= MAX_KEYS
    ensures Full(t.pages[root])
    ensures var t1, n := GrownRoot(t, root), t.nextID;
            && t1.span.Keys == t.span.Keys + {n, t.nextID + 1}
            && t1.span[root].depth == t.span[root].depth == t1.span[t.nextID + 1].depth
            && (forall q :: q in t.span && q != root ==> t1.span[q] == t.span[q])
            && root != n && n !in t.span && t.nextID + 1 !in t.span
  {
    hide Rank, Seeded, ShapeOk;
    NewRootCut(t, root);
  }

  lemma GrowRootHalfFull(t: State, root: PageId)
    requires Rooted(t, root) && t.nextID + 2 < PAGE_IDS && |t.pages[root].keys| >= MAX_KEYS
    ensures HalfFull(GrownRoot(t, root).pages, GrownRoot(t, root).span)
  {
    hide Rank, Shape;
    GrowRootTop(t, root);
    GrowRootSpan(t, root);
    var t1 := GrownRoot(t, root);
    hide GrownRoot;
    forall q, r | q in t1.pages && q in t1.span && r in t1.span && t1.span[q].depth < t1.span[r].depth
      ensures |t1.pages[q].keys| >= MAX_KEYS / 2
    {
      if q in t.span && q != root { assert |t.pages[q].keys| >= MAX_KEYS / 2; }
    }
  }

  // The root can take the insert.
  lemma RootReady(t: State, root: PageId, key: Key)
    requires RootOk(t, root) && |t.pages[root].keys| < MAX_KEYS && t.nextID + t.span[root].depth < PAGE_IDS - 1
    ensures Ready(t, root, key, Own) && !AtEdge(t, root, key)
  {
    hide Shape, Seeded, Holds;
  }

  lemma RootFits(t: State, root: PageId)
    requires Rooted(t, root)
    ensures t.pages.Keys == t.span.Keys && root in t.pages && 0 < t.nextID && |t.pages[root].keys| <= MAX_KEYS
  {
    assert ShapeOk(t.pages[root], t.span[root], t.span);
  }

  lemma RootShape(t: State, root: PageId)
    requires Rooted(t, root)
    ensures Shape(t.pages, t.span) && root in t.pages && root in t.span
    ensures forall q :: q in t.pages && q != root ==> q in t.span && t.span[q].depth < t.span[root].depth
  {
    hide Seeded, ShapeOk;
  }

  lemma GrownHolds(t: State, root: PageId)
    requires RootOk(t, root) && t.nextID + 3 < PAGE_IDS - 1 && |t.pages[root].keys| >= MAX_KEYS
    ensures RootOk(GrownRoot(t, root), t.nextID)
  {
    hide Inv, Matches, Rooted;
    GrowRootHolds(t, root);
    GrowRootBounds(t, root);
  }

  lemma KeysOf(t: State)
    requires Inv(t.pages, t.span)
    ensures t.pages.Keys == t.span.Keys
  {
  }

  // A separator is a stored key, so the search still finds its old value.
  lemma SeparatorsStored(t: State, d: nat, key: Key)
    requires Matches(t.pages, t.span, t.contents) && Separates(t.pages, t.span, d, key)
    ensures key in t.contents
  {
    var q :| SeparatesIn(t.pages, t.span, d, key, q);
    assert PageMatches(t.pages[q], t.span[q], t.contents);
  }

  // Get reads the contents.
  lemma ReadsAll(t: State, root: PageId)
    requires RootOk(t, root)
    ensures forall k ::
              Search(t.pages, root, t.span[root].depth, k) == if k in t.contents then Some(t.contents[k]) else None
  {
    hide Inv, Matches, Search;
    forall k
      ensures Search(t.pages, root, t.span[root].depth, k) == if k in t.contents then Some(t.contents[k]) else None
    {
      SearchReadsContents(t.pages, t.span, t.contents, root, k);
    }
  }

  // What the whole insert does to a tree whose root is not full.
  lemma InsertDone(t: State, t': State, root: PageId, key: Key, value: Key)
    requires RootOk(t, root) && !AtEdge(t, root, key)
    requires Framed(t, t', root) && OwnDone(t, t', root, key, value)
    ensures root in t'.span && t'.span[root] == t.span[root] && root in t'.pages
    ensures match LossBelow(t.pages, root, t.span[root].depth, key)
            case Some(loss) =>
              && t'.contents == t.contents
              && forall k :: Search(t'.pages, root, t.span[root].depth, k) ==
                             AfterLoss(t.pages, root, t.span[root].depth, loss, k)
            case None =>
              && RootOk(t', root)
              && t'.contents == if Separates(t.pages, t.span, t.span[root].depth, key) then t.contents
                                else t.contents[key := value]
  {
    hide Rank, Inv, Matches, Separates, Search, LossBelow, Seeded, AfterLoss;
    assert root in t.span && root in t'.pages && root in t'.span by { RootFits(t, root); RootFits(t', root); }
    match LossBelow(t.pages, root, t.span[root].depth, key)
    case None =>
    case Some(loss) =>
      forall k ensures Search(t'.pages, root, t.span[root].depth, k) ==
                       AfterLoss(t.pages, root, t.span[root].depth, loss, k)
      {
        RankInRange(k);
      }
  }

  // The key `last` is really lost.
  lemma {:induction false} LastIsLost(pages: Pages, span: Spans, id: PageId, key: Key)
    requires Inv(pages, span) && Seeded(pages, span) && id in pages && span[id].lo < Rank(key) <= span[id].hi
    requires LossBelow(pages, id, span[id].depth, key).Some?
    ensures var loss := LossBelow(pages, id, span[id].depth, key).value; Astray(pages, loss, loss.last) == None
    decreases span[id].depth
  {
    hide Rank, Seeded, Astray;
    var c := Descend(pages, span, id, key);
    if SharedFull(pages, c, key) { SharedLast(pages, span, c, key); } else { LastIsLost(pages, span, c, key); }
  }

  lemma SharedLast(pages: Pages, span: Spans, c: PageId, key: Key)
    requires Inv(pages, span) && Seeded(pages, span) && c in pages && SharedFull(pages, c, key)
    ensures var loss := LossAt(pages, c, span[c].depth, key); Astray(pages, loss, loss.last) == None
  {
    hide Rank, Seeded, Search;
    SharedPage(pages, span, c, key);
    var x := pages[c].childs[MAX_KEYS / 2];
    if !pages[x].leaf {
      assert LinksOk(pages[x], span[x], span) && LinkOk(pages[x], span[x], span, MAX_KEYS / 2);
      var e := pages[x].childs[MAX_KEYS / 2];
      assert Rank(pages[x].keys[MAX_KEYS / 2 - 1]) < Rank(pages[x].keys[MAX_KEYS / 2]);
      TreeIsShallow(pages, span, e);
      BeyondEdge(pages, span, pages, x, e, MAX_KEYS / 2);
    }
  }

  // If the shared page is a leaf, what is lost is its upper half.
  lemma LeafLoss(pages: Pages, span: Spans, contents: map<Key, Key>, c: PageId, key: Key, k: Key)
    requires Holds(pages, span, contents) && c in pages && SharedFull(pages, c, key)
    requires pages[pages[c].childs[MAX_KEYS / 2]].leaf
    ensures LossAt(pages, c, span[c].depth, key).edge == None
    ensures k in contents && Takes(LossAt(pages, c, span[c].depth, key), k) <==>
            k in pages[pages[c].childs[MAX_KEYS / 2]].keys[MAX_KEYS / 2..]
  {
    hide Rank, Matches, Inv;
    SharedPage(pages, span, c, key);
    SharedKeys(pages, span, c, key);
    var x := pages[c].childs[MAX_KEYS / 2];
    if span[x].lo < Rank(k) { LeafKeys(pages, span, contents, x, k); }
    UpperHalf(pages[x].keys, k);
  }

  // A leaf holds the stored keys of its range.
  lemma LeafKeys(pages: Pages, span: Spans, contents: map<Key, Key>, x: PageId, k: Key)
    requires Holds(pages, span, contents) && x in pages && pages[x].leaf && x in span && span[x].lo < Rank(k)
    ensures k in pages[x].keys <==> k in contents && Rank(k) <= span[x].hi
  {
    hide Rank;
    assert PageOk(pages[x], span[x]) && PageMatches(pages[x], span[x], contents);
    if k in contents && Rank(k) <= span[x].hi {
      var home :| StoredAt(pages, span, home, k);
      OneHome(pages, span, x, home, k);
    }
  }

  lemma UpperHalf(keys: seq<Key>, k: Key)
    requires Sorted(keys) && |keys| == MAX_KEYS
    ensures k in keys[MAX_KEYS / 2..] <==> k in keys && Rank(keys[MAX_KEYS / 2 - 1]) < Rank(k)
  {
    hide Rank, Sorted;
    if k in keys[MAX_KEYS / 2..] {
      var m :| 0 <= m < MAX_KEYS / 2 && keys[MAX_KEYS / 2..][m] == k;
      assert keys[m + MAX_KEYS / 2] == k;
      SortedAt(keys, MAX_KEYS / 2 - 1, m + MAX_KEYS / 2);
    }
    if k in keys && Rank(keys[MAX_KEYS / 2 - 1]) < Rank(k) {
      var m :| 0 <= m < MAX_KEYS && keys[m] == k;
      if m < MAX_KEYS / 2 - 1 { SortedAt(keys, m, MAX_KEYS / 2 - 1); }
      assert keys[MAX_KEYS / 2..][m - MAX_KEYS / 2] == k;
    }
  }

  lemma RankInRange(key: Key)
    ensures 0.0 <= Rank(key) < 1.0
  {
  }

  // A separator is stored already, with some value.
  lemma SeparatorsKnown(t: State, root: PageId, key: Key)
    requires RootOk(t, root) && Separates(t.pages, t.span, t.span[root].depth, key)
    ensures key in t.contents
  {
    SeparatorsStored(t, t.span[root].depth, key);
  }

  // The root split does not change what the insert loses.
  lemma GrowRootLost(t: State, root: PageId, key: Key)
    requires RootOk(t, root) && t.nextID + 2 < PAGE_IDS && |t.pages[root].keys| >= MAX_KEYS
    ensures var t1, d := GrownRoot(t, root), t.span[root].depth;
            LossBelow(t1.pages, t.nextID, d + 1, key) == LossBelow(t.pages, root, d, key)
  {
    hide Rank, Holds, Seeded, Shape, LossBelow, LossIn, SharedFull, PageOk, GrownRoot;
    GrowRootTop(t, root);
    RootIsPage(t, root);
    var t1, p, d := GrownRoot(t, root), t.pages[root], t.span[root].depth;
    if key == Cut(p) {
      TopSeparates(t1.pages, t.nextID, d + 1, key);
      TopSeparates(t.pages, root, d, key);
    } else {
      var j := if Rank(key) > Rank(Cut(p)) then 1 else 0;
      RankInjective(key, Cut(p));
      var n := t1.pages[t.nextID].childs[j];
      GrownHalf(t, root, key);
      LossHalf(t.pages, t.span, t1.pages, root, n, key);
      ChildIndexIs([Cut(p)], key, j);
      BelowNotFull(t1.pages, t.nextID, d + 1, key, n);
    }
  }

  lemma RootIsPage(t: State, root: PageId)
    requires RootOk(t, root)
    ensures root in t.span && Shape(t.pages, t.span) && PageOk(t.pages[root], t.span[root])
  {
    hide Rank;
  }

  // A page that routes by the key loses nothing.
  lemma TopSeparates(pages: Pages, id: PageId, d: nat, key: Key)
    requires id in pages && (pages[id].leaf || key in pages[id].keys)
    ensures LossBelow(pages, id, d, key) == None
  {
  }

  lemma BelowNotFull(pages: Pages, id: PageId, d: nat, key: Key, n: PageId)
    requires id in pages && !pages[id].leaf && d > 0 && key !in pages[id].keys
    requires ChildIndex(pages[id].keys, key) < |pages[id].childs|
             && n == pages[id].childs[ChildIndex(pages[id].keys, key)]
    requires n in pages && |pages[n].keys| < MAX_KEYS
    ensures LossBelow(pages, id, d, key) == LossBelow(pages, n, d - 1, key)
  {
  }

  lemma GrownHalf(t: State, root: PageId, key: Key)
    requires RootOk(t, root) && t.nextID + 2 < PAGE_IDS && |t.pages[root].keys| >= MAX_KEYS && Full(t.pages[root])
    ensures var t1, j := GrownRoot(t, root), if Rank(key) > Rank(Cut(t.pages[root])) then 1 else 0;
            && t.nextID in t1.pages && |t1.pages[t.nextID].childs| == 2
            && var n := t1.pages[t.nextID].childs[j];
            && n in t1.pages
            && t1.pages[n] == (if j == 1 then RightHalf(t.pages[root]) else LeftHalf(t.pages[root]))
            && (forall q :: q in t.pages && t.span[q].depth < t.span[root].depth ==>
                  q in t1.pages && t1.pages[q] == t.pages[q])
  {
    hide Rank, Matches, Inv, Seeded;
    NewRootFits(t, root);
  }

  lemma NothingSeparates(key: Key)
    ensures !Separates(map[], map[], 0, key)
  {
  }

  lemma FirstPage(key: Key, value: Key)
    ensures var leaf := Page(true, [key], [value], []);
            RootOk(State(map[1 := leaf], map[1 := Span(0, -1.0, 1.0)], map[key := value], 2), 1)
    ensures Search(map[1 := Page(true, [key], [value], [])], 1, 0, key) == Some(value)
  {
    var pages: Pages, span: Spans := map[1 := Page(true, [key], [value], [])], map[1 := Span(0, -1.0, 1.0)];
    assert PageOk(pages[1], span[1]) && LinksOk(pages[1], span[1], span);
    assert Inv(pages, span);
    assert StoredAt(pages, span, 1, key);
    assert PageMatches(pages[1], span[1], map[key := value]);
  }

  // A tree that holds more keys than one page has a separator.
  lemma BigTreeHasSeparator(t: State, root: PageId)
    requires RootOk(t, root) && |t.contents| > MAX_KEYS
    ensures exists k :: k in t.contents && Separates(t.pages, t.span, t.span[root].depth, k)
  {
    assert PageOk(t.pages[root], t.span[root]);
    var p := t.pages[root];
    if p.leaf {
      forall k | k in t.contents ensures k in p.keys {
        var home :| StoredAt(t.pages, t.span, home, k);
        OneHome(t.pages, t.span, root, home, k);
      }
      KeyCount(t.contents.Keys, p.keys);
    } else {
      var k := p.keys[0];
      assert SeparatesIn(t.pages, t.span, t.span[root].depth, k, root);
      SeparatorsStored(t, t.span[root].depth, k);
    }
  }

  lemma {:induction false} KeyCount(ks: set<Key>, keys: seq<Key>)
    requires forall k :: k in ks ==> k in keys
    ensures |ks| <= |keys|
  {
    if keys != [] {
      var rest := ks - {keys[0]};
      KeyCount(rest, keys[1..]);
      assert ks <= rest + {keys[0]};
      assert |ks| <= |rest + {keys[0]}|;
    }
  }

  lemma IsBack(t: State, t': State, id: PageId, i: nat, j: nat, key: Key, value: Key, way: Way)
    requires CanStep(t, id, i)
    requires var t1 := Stepped(t, id, i);
             && t1.pages.Keys == t1.span.Keys && id in t1.pages && j < |t1.pages[id].childs|
             && t1.pages[id].childs[j] in t1.span
             && Framed(t1, t', t1.pages[id].childs[j])
             && Done(t1, t', t1.pages[id].childs[j], key, value, NextWay(t, id, i, key, way))
    ensures CameBack(t, t', id, i, j, key, value, way)
  {
  }

  // ---------------------------------------------------------------- whole trees

  datatype Tree = Tree(t: State, root: PageId)

  ghost function Empty(): Tree {
    Tree(State(map[], map[], map[], 1), 0)
  }

  // What every tree is, whatever was inserted.
  ghost predicate Whole(tree: Tree) {
    if tree.root == 0 then tree.t.pages == map[] && tree.t.span == map[] else Rooted(tree.t, tree.root)
  }

  // The pages hold exactly the contents.
  ghost predicate Sound(tree: Tree) {
    Whole(tree) && if tree.root == 0 then tree.t.contents == map[] else RootOk(tree.t, tree.root)
  }

  // Levels above the leaves.
  ghost function TreeHeight(tree: Tree): nat {
    if tree.root in tree.t.span then tree.t.span[tree.root].depth else 0
  }

  // Page ids for the splits of one insert.
  ghost predicate Room(tree: Tree) {
    tree.root != 0 ==> tree.t.nextID + TreeHeight(tree) + 3 < PAGE_IDS - 1
  }

  ghost predicate RoutesBy(tree: Tree, k: Key) {
    || Separates(tree.t.pages, tree.t.span, TreeHeight(tree), k)
    || (tree.root in tree.t.pages && |tree.t.pages[tree.root].keys| == MAX_KEYS
        && k == tree.t.pages[tree.root].keys[MAX_KEYS / 2 - 1])
  }

  ghost function TreeLoss(tree: Tree, k: Key): Option<Loss> {
    if tree.root == 0 then None else LossBelow(tree.t.pages, tree.root, TreeHeight(tree), k)
  }

  ghost function FoundIn(tree: Tree, k: Key): Option<Key> {
    if tree.root == 0 then None else Search(tree.t.pages, tree.root, TreeHeight(tree), k)
  }

  // The tree after the split of a full root.
  ghost function Grown(tree: Tree): Tree
    requires tree.root != 0 && Whole(tree) && Room(tree)
  {
    if |tree.t.pages[tree.root].keys| < MAX_KEYS then tree else Tree(GrownRoot(tree.t, tree.root), tree.t.nextID)
  }

  lemma GrownFits(tree: Tree)
    requires tree.root != 0 && Whole(tree) && Room(tree)
    ensures Rooted(Grown(tree).t, Grown(tree).root) && Fits(Grown(tree).t, Grown(tree).root)
  {
    hide Shape, Seeded, GrownRoot, Rank;
    RootFits(tree.t, tree.root);
    if |tree.t.pages[tree.root].keys| >= MAX_KEYS {
      GrowRootBounds(tree.t, tree.root);
      GrowRootTop(tree.t, tree.root);
    }
  }

  // Insert as a function of the tree.
  ghost function Inserted(tree: Tree, key: Key, value: Key): Tree
    requires Whole(tree) && Room(tree)
  {
    if tree.root == 0 then
      Tree(State(map[1 := Page(true, [key], [value], [])], map[1 := Span(0, -1.0, 1.0)],
                 tree.t.contents[key := value], 2), 1)
    else
      GrownFits(tree);
      Tree(InsertAt(Grown(tree).t, Grown(tree).root, key, value, Own), Grown(tree).root)
  }

  lemma ShapeKeys(t: State)
    requires Shape(t.pages, t.span)
    ensures t.pages.Keys == t.span.Keys
  {
  }

  lemma InsertedWhole(tree: Tree, key: Key, value: Key)
    requires Whole(tree) && Room(tree)
    ensures Whole(Inserted(tree, key, value)) && Inserted(tree, key, value).root != 0
    ensures tree.root != 0 ==> TreeHeight(Inserted(tree, key, value)) == TreeHeight(Grown(tree))
  {
    hide Shape, Seeded, InsertAt, Grown, Rank, Holds;
    if tree.root != 0 {
      GrownFits(tree);
      InsertFramed(Grown(tree).t, Grown(tree).root, key, value, Own);
      ShapeKeys(Inserted(tree, key, value).t);
    } else {
      FirstInserted(tree, key, value);
      FirstPage(key, value);
    }
  }

  // The root split changes neither what separates nor what the insert loses.
  lemma GrownSame(tree: Tree, key: Key)
    requires tree.root != 0 && Sound(tree) && Room(tree)
    ensures var grown := Grown(tree);
            && RootOk(grown.t, grown.root) && grown.t.contents == tree.t.contents
            && Ready(grown.t, grown.root, key, Own) && !AtEdge(grown.t, grown.root, key)
            && (Separates(grown.t.pages, grown.t.span, TreeHeight(grown), key) <==> RoutesBy(tree, key))
            && TreeLoss(grown, key) == TreeLoss(tree, key)
            && (TreeLoss(tree, key).Some? ==>
                  forall k :: Astray(grown.t.pages, TreeLoss(tree, key).value, k) ==
                              Astray(tree.t.pages, TreeLoss(tree, key).value, k))
  {
    hide Shape, Seeded, Holds, Rooted, Separates, LossBelow, Rank, Astray;
    RootFits(tree.t, tree.root) by { assert RootOk(tree.t, tree.root); }
    GrownFits(tree);
    if |tree.t.pages[tree.root].keys| >= MAX_KEYS {
      GrownHolds(tree.t, tree.root) by { assert tree.t.nextID + 3 < PAGE_IDS - 1; }
      GrowRootTop(tree.t, tree.root);
      GrowRootLost(tree.t, tree.root, key);
      GrowRootSeparates(tree.t, tree.root, key);
      if TreeLoss(tree, key).Some? {
        RootShape(tree.t, tree.root);
        forall k ensures Astray(Grown(tree).t.pages, TreeLoss(tree, key).value, k) ==
                         Astray(tree.t.pages, TreeLoss(tree, key).value, k)
        {
          AstrayFrame(tree.t.pages, tree.t.span, Grown(tree).t.pages, tree.root, key, k);
        }
      }
    }
    RootReady(Grown(tree).t, Grown(tree).root, key) by { assert Fits(Grown(tree).t, Grown(tree).root); }
  }

  lemma FirstInserted(tree: Tree, key: Key, value: Key)
    requires Whole(tree) && Room(tree) && tree.root == 0
    ensures tree.t.pages == map[] && tree.t.span == map[]
    ensures Inserted(tree, key, value) ==
            Tree(State(map[1 := Page(true, [key], [value], [])], map[1 := Span(0, -1.0, 1.0)],
                       tree.t.contents[key := value], 2), 1)
  {
  }

  lemma NextInserted(tree: Tree, key: Key, value: Key)
    requires Whole(tree) && Room(tree) && tree.root != 0
    ensures Fits(Grown(tree).t, Grown(tree).root)
    ensures Inserted(tree, key, value) ==
            Tree(InsertAt(Grown(tree).t, Grown(tree).root, key, value, Own), Grown(tree).root)
  {
    GrownFits(tree);
  }

  lemma RootThere(tree: Tree)
    requires Whole(tree) && Room(tree) && tree.root != 0
    ensures Rooted(tree.t, tree.root) && tree.root in tree.t.pages && tree.t.nextID + 3 < PAGE_IDS - 1
  {
  }

  // What the insert does to a tree that holds its contents.
  lemma InsertedSound(tree: Tree, key: Key, value: Key)
    requires Sound(tree) && Room(tree)
    ensures var tree' := Inserted(tree, key, value);
            match TreeLoss(tree, key)
            case Some(loss) => forall k :: FoundIn(tree', k) == StillFound(tree, loss, k)
            case None =>
              && Sound(tree')
              && tree'.t.contents == if RoutesBy(tree, key) then tree.t.contents else tree.t.contents[key := value]
  {
    hide Shape, Seeded, Holds, Rooted, Separates, LossBelow, Search, InsertAt, Framed, Rank, Astray, Takes;
    if tree.root == 0 {
      FirstPage(key, value);
      NothingSeparates(key);
    } else {
      GrownSame(tree, key);
      var grown := Grown(tree);
      hide Grown;
      GrownFits(tree);
      InsertKeeps(grown.t, grown.root, key, value, Own);
      InsertFramed(grown.t, grown.root, key, value, Own);
      InsertDone(grown.t, InsertAt(grown.t, grown.root, key, value, Own), grown.root, key, value);
      ReadsTree(tree);
      ReadsTree(grown);
    }
  }

  // What a search finds after a loss.
  ghost function StillFound(tree: Tree, loss: Loss, k: Key): Option<Key> {
    if Takes(loss, k) then Astray(tree.t.pages, loss, k) else FoundIn(tree, k)
  }

  // At least one key is lost, and not the inserted one.
  lemma SomeIsLost(tree: Tree, key: Key)
    requires Sound(tree) && TreeLoss(tree, key).Some?
    ensures var loss := TreeLoss(tree, key).value;
            && loss.last != key && loss.last in tree.t.contents && StillFound(tree, loss, loss.last) == None
            && StillFound(tree, loss, key) == FoundIn(tree, key)
  {
    hide Shape, Seeded, Matches, Inv, LossBelow, Search, Rank, Astray;
    RootFits(tree.t, tree.root);
    RankInRange(key);
    LossStored(tree.t.pages, tree.t.span, tree.t.contents, tree.root, key);
    LastIsLost(tree.t.pages, tree.t.span, tree.root, key);
  }

  lemma InsertedAnswers(tree: Tree, key: Key, value: Key)
    requires Sound(tree) && Room(tree)
    ensures var tree' := Inserted(tree, key, value);
            && (TreeLoss(tree, key).None? ==>
                  && Sound(tree')
                  && tree'.t.contents ==
                     (if RoutesBy(tree, key) then tree.t.contents else tree.t.contents[key := value])
                  && (FoundIn(tree', key) == Some(value) <==>
                        !RoutesBy(tree, key) || (key in tree.t.contents && tree.t.contents[key] == value)))
            && (TreeLoss(tree, key).Some? ==>
                  forall k :: FoundIn(tree', k) == StillFound(tree, TreeLoss(tree, key).value, k))
            && ((forall k :: k != key ==> FoundIn(tree', k) == FoundIn(tree, k)) <==> TreeLoss(tree, key).None?)
  {
    hide Whole, Sound, RoutesBy, TreeLoss, FoundIn, Inserted, Room, StillFound;
    assert Whole(tree) by { SoundWhole(tree); }
    InsertedSound(tree, key, value);
    ReadsTree(tree);
    if TreeLoss(tree, key).None? {
      ReadsTree(Inserted(tree, key, value));
      if RoutesBy(tree, key) { RoutesStored(tree, key); }
    } else {
      SomeIsLost(tree, key);
    }
  }

  lemma SoundWhole(tree: Tree)
    requires Sound(tree)
    ensures Whole(tree)
  {
  }

  lemma RoutesStored(tree: Tree, key: Key)
    requires Sound(tree) && RoutesBy(tree, key)
    ensures key in tree.t.contents
  {
  }

  // Get reads the contents.
  lemma ReadsTree(tree: Tree)
    requires Sound(tree)
    ensures forall k :: FoundIn(tree, k) == if k in tree.t.contents then Some(tree.t.contents[k]) else None
  {
    hide Holds, Rooted, Search;
    if tree.root != 0 {
      RootFits(tree.t, tree.root);
      ReadsAll(tree.t, tree.root);
    }
  }

  class BTree {
    var root: PageId
    var pages: Pages
    var nextID: PageId
    var closed: bool
    ghost var span: Spans
    ghost var contents: map<Key, Key>

    ghost predicate Valid()
      reads this
    {
      Sound(This())
    }

    // The table can be searched and inserted into, whatever it holds.
    ghost predicate Readable()
      reads this
    {
      Whole(This())
    }

    ghost function This(): Tree
      reads this
    {
      Tree(Now(), root)
    }

    ghost function Now(): State
      reads this
    {
      State(pages, span, contents, nextID)
    }

    // Inserting k goes right of where Get looks for it: k is a copy of a stored key
    // that some internal page routes by, or it becomes one when a full root splits.
    ghost predicate IsSeparator(k: Key)
      reads this
    {
      RoutesBy(This(), k)
    }

    // What inserting k loses.  The insert loses keys if it comes down to a full
    // internal page that it splits exactly at k, above which nothing routes by k, and
    // the page below that cut is full as well.
    ghost function Loses(k: Key): Option<Loss>
      reads this
    {
      TreeLoss(This(), k)
    }

    // What Get answers, read off the page table alone.
    ghost function Find(k: Key): Option<Key>
      reads this
    {
      FoundIn(This(), k)
    }

    constructor ()
      ensures Valid() && !closed && This() == Empty()
    {
      root, nextID, closed := 0, 1, false;
      pages, span, contents := map[], map[], map[];
    }

    method AllocPageID() returns (id: PageId)
      modifies this`nextID
      ensures id == (if old(nextID) == 0 then 1 else old(nextID)) && nextID == (id + 1) % PAGE_IDS
    {
      if nextID == 0 {
        nextID := 1;
      }
      id := nextID;
      nextID := (nextID + 1) % PAGE_IDS;
    }

    method FindChild(p: Page, key: Key) returns (child: PageId)
      requires !p.leaf && |p.childs| == |p.keys| + 1
      ensures child == p.childs[ChildIndex(p.keys, key)]
    {
      for i := 0 to |p.keys|
        invariant ChildIndex(p.keys, key) == i + ChildIndex(p.keys[i..], key)
      {
        if Compare(key, p.keys[i]) <= 0 {
          return p.childs[i];
        }
      }
      return p.childs[|p.childs| - 1];
    }

    method SearchPage(id: PageId, key: Key) returns (r: Result)
      requires Shape(pages, span) && id in pages
      ensures r == match Search(pages, id, span[id].depth, key) case Some(v) => Value(v) case None => NotFound
      decreases span[id].depth
    {
      var p := pages[id];
      assert ShapeOk(p, span[id], span);
      if p.leaf {
        for i := 0 to |p.keys|
          invariant Lookup(p.keys, p.vals, key) == Lookup(p.keys[i..], p.vals[i..], key)
        {
          if p.keys[i] == key {
            return Value(p.vals[i]);
          }
        }
        return NotFound;
      }
      var child := FindChild(p, key);
      r := SearchPage(child, key);
    }

    method Get(key: Key) returns (r: Result)
      requires Readable()
      ensures closed ==> r == Closed
      ensures !closed ==> r == match Find(key) case Some(v) => Value(v) case None => NotFound
      ensures !closed && Valid() ==> r == if key in contents then Value(contents[key]) else NotFound
    {
      if closed {
        return Closed;
      }
      if root == 0 {
        return NotFound;
      }
      r := SearchPage(root, key);
      if Valid() { SearchReadsContents(pages, span, contents, root, key); }
    }

    method SplitChild(parentId: PageId, idx: nat)
      requires CanCut(pages, parentId, idx, nextID) && 0 < nextID < PAGE_IDS - 1
      modifies this`pages, this`nextID
      ensures pages == Split(old(pages), parentId, idx, old(nextID))
      ensures nextID == old(nextID) + 1
    {
      var parent := pages[parentId];
      var childID := parent.childs[idx];
      var child := pages[childID];
      ghost var full := child;
      var mid := |child.keys| / 2;
      var newId := AllocPageID();
      var newPage := Page(child.leaf, [], [], []);
      var n := |child.keys| - mid;
      if child.leaf {
        for i := 0 to n
          invariant newPage == Page(true, child.keys[mid..mid + i], child.vals[mid..mid + i], [])
        {
          newPage := newPage.(keys := newPage.keys + [child.keys[mid + i]],
                              vals := newPage.vals + [child.vals[mid + i]]);
        }
        child := child.(keys := child.keys[..mid], vals := child.vals[..mid]);
      } else {
        newPage := newPage.(childs := [child.childs[mid]] + child.childs[mid + 1..]);
        for i := 0 to n
          invariant newPage == Page(false, child.keys[mid..mid + i], [], child.childs[mid..])
        {
          newPage := newPage.(keys := newPage.keys + [child.keys[mid + i]]);
        }
        child := child.(keys := child.keys[..mid], childs := child.childs[..mid + 1]);
      }
      assert mid == MAX_KEYS / 2 && full.keys[mid..mid + n] == full.keys[mid..];
      assert full.leaf ==> full.vals[mid..mid + n] == full.vals[mid..];
      assert newPage == RightHalf(full) && child == LeftHalf(full);
      var midKey := child.keys[mid - 1];
      assert midKey == Cut(full);
      parent := parent.(keys := parent.keys[..idx] + [midKey] + parent.keys[idx..],
                        childs := parent.childs[..idx + 1] + [newId] + parent.childs[idx + 1..]);
      pages := pages[newId := newPage][childID := child][parentId := parent];
    }
  
    method InsertIntoLeaf(id: PageId, key: Key, value: Key, ghost way: Way)
      requires Fits(Now(), id) && pages[id].leaf
      modifies this`pages, this`contents
      ensures |old(pages)[id].keys| == |old(pages)[id].vals|
      ensures Now() == AfterPut(old(Now()), id, ChildIndex(old(pages)[id].keys, key), key, value, way)
    {
      hide Fits, Rank;
      ghost var t := Now();
      FitsSteps(t, id);
      var p := pages[id];
      var i := 0;
      while i < |p.keys| && Compare(p.keys[i], key) < 0
        modifies {}
        invariant i <= |p.keys|
        invariant forall j :: 0 <= j < i ==> Rank(p.keys[j]) < Rank(key)
      {
        CompareIsRankOrder(p.keys[i], key);
        i := i + 1;
      }
      if i < |p.keys| { CompareIsRankOrder(p.keys[i], key); }
      ChildIndexIs(p.keys, key, i);
      if i < |p.keys| && p.keys[i] == key {
        p := p.(vals := p.vals[i := value]);
      } else {
        p := p.(keys := p.keys[..i] + [key] + p.keys[i..], vals := p.vals[..i] + [value] + p.vals[i..]);
      }
      pages := pages[id := p];
      contents := if way.Own? then contents[key := value] else contents;
    }

    method InsertNonFull(id: PageId, key: Key, value: Key, ghost way: Way)
      requires Fits(Now(), id)
      modifies this`pages, this`nextID, this`span, this`contents
      ensures Now() == InsertAt(old(Now()), id, key, value, way)
      decreases span[id].depth
    {
      hide Fits, Shape, IdsOk, Split, SplitSpan, Rank;
      ghost var t := Now();
      FitsSteps(t, id);
      var p := pages[id];
      if p.leaf {
        InsertIntoLeaf(id, key, value, way);
        return;
      }
      var i := 0;
      while i < |p.keys| && Compare(p.keys[i], key) <= 0
        modifies {}
        invariant i <= |p.keys|
        invariant forall j :: 0 <= j < i ==> Rank(p.keys[j]) <= Rank(key)
      {
        CompareIsRankOrder(p.keys[i], key);
        i := i + 1;
      }
      if i < |p.keys| { CompareIsRankOrder(p.keys[i], key); }
      PastTurns(p.keys, key);
      TurnsOnce(p.keys, i, Past(p.keys, key), key);
      ghost var at := i;
      var childID := p.childs[i];
      StepFits(t, id, at);
      if |pages[childID].keys| >= MAX_KEYS {
        span := SplitSpan(span, childID, Rank(Cut(pages[childID])), nextID);
        SplitChild(id, i);
        if Compare(key, pages[id].keys[i]) > 0 {
          i := i + 1;
        }
      }
      assert Now() == Stepped(t, id, at) && i == NextAt(t, id, at, key);
      NextFits(t, id, at, key);
      InsertNonFull(pages[id].childs[i], key, value, NextWay(t, id, at, key, way));
    }

    // The part of Insert that puts a new root above a full one.
    method SplitRoot()
      requires root != 0 && Rooted(Now(), root) && nextID + 3 < PAGE_IDS - 1 && |pages[root].keys| >= MAX_KEYS
      modifies this`root, this`pages, this`nextID, this`span
      ensures root == old(nextID) && Now() == GrownRoot(old(Now()), old(root))
    {
      hide Rooted, Split, SplitSpan, CanCut;
      ghost var t, old_root := Now(), root;
      RootFits(t, root);
      NewRootCut(t, root);
      var newRootId := AllocPageID();
      pages := pages[newRootId := Page(false, [], [], [root])];
      span := NewRoot(t, root).span;
      span := SplitSpan(span, root, Rank(Cut(t.pages[root])), nextID);
      SplitChild(newRootId, 0);
      root := newRootId;
      assert Now() == GrownRoot(t, old_root);
    }

    // Insert is a map update for the keys that do not separate and changes no answer
    // for those that do, unless it loses a key.
    method Insert(key: Key, value: Key) returns (ok: bool)
      requires Readable() && Room(This())
      modifies this
      ensures Readable() && ok == !old(closed) && closed == old(closed)
      ensures !ok ==> This() == old(This())
      ensures ok ==> This() == Inserted(old(This()), key, value)
      ensures ok && old(Valid()) && old(Loses(key)).None? ==>
                Valid() && contents == if old(IsSeparator(key)) then old(contents) else old(contents)[key := value]
      ensures ok && old(Valid()) && old(Loses(key)).Some? ==>
                var loss := old(Loses(key)).value;
                forall k :: Find(k) == if Takes(loss, k) then Astray(old(pages), loss, k) else old(Find(k))
      ensures ok && old(Valid()) ==> ((forall k :: k != key ==> Find(k) == old(Find(k))) <==> old(Loses(key)).None?)
      ensures ok && old(Valid()) && old(Loses(key)).None? ==>
                (Find(key) == Some(value) <==>
                  !old(IsSeparator(key)) || (key in old(contents) && old(contents)[key] == value))
    {
      hide Whole, Sound, Rooted, Fits, RoutesBy, TreeLoss, FoundIn, Rank, Room, Inserted;
      ghost var tree := This();
      if closed {
        return false;
      }
      InsertedWhole(tree, key, value);
      if Valid() { InsertedAnswers(tree, key, value); }
      ghost var found := Inserted(tree, key, value);
      assert Valid() ==>
               ((forall k :: k != key ==> FoundIn(found, k) == FoundIn(tree, k)) <==> TreeLoss(tree, key).None?);
      if root == 0 {
        root := 1;
        nextID := 2;
        pages := pages[1 := Page(true, [key], [value], [])];
        span := span[1 := Span(0, -1.0, 1.0)];
        contents := contents[key := value];
        assert This() == Inserted(tree, key, value) by { FirstInserted(tree, key, value); }
        return true;
      }
      RootThere(tree);
      if |pages[root].keys| >= MAX_KEYS {
        SplitRoot();
      }
      assert This() == Grown(tree);
      GrownFits(tree);
      InsertNonFull(root, key, value, Own);
      assert This() == Inserted(tree, key, value) by { NextInserted(tree, key, value); }
      return true;
    }
  }
}
