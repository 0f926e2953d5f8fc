// The lock-free skip list under the memtable (internal/ENG/LS/skiplist.go).
//
// Every atomic load, store and compare-and-swap of Insert is one step, and the steps
// of any number of inserts interleave.  Nodes are numbered in the order in which they
// are linked; node 0 is the head.  chain lists the nodes of level 0 and log the pairs
// in the order in which they took effect, who the calls of Insert that did so.  The
// node mutex guards a single store, so taking it, storing and leaving it are one step.
module SkipList {
  import opened Bytes

  const MAX_LEVEL := 12

  datatype Option<T> = None | Some(value: T)
  datatype Pair = Pair(key: Key, value: Key)
  datatype Node = Node(key: Key, value: Key, next: seq<Option<nat>>)

  // The predecessors and successors that an insert has collected, one for each of its levels.
  datatype Scratch = Scratch(preds: seq<Option<nat>>, succs: seq<Option<nat>>)

  datatype Phase =
    | Begin
    | Search(curLevel: nat, i: int, curr: nat)
    | Fill(curLevel: nat, at: nat)
    | Decide(curLevel: nat)
    | Cas(curLevel: nat)
    | Raise(curLevel: nat)
    | AddLen
    | Done

  // The size of the list when the insert was called and when its search last began,
  // and how often its compare-and-swap has failed.
  datatype Effort = Effort(start: nat, begun: nat, retries: nat)

  datatype Thread = Thread(key: Key, value: Key, lvl: nat, scratch: Scratch, phase: Phase, call: nat, effort: Effort)

  // A call of Insert, and how many pairs had taken effect before it.
  datatype Call = Call(pair: Pair, before: nat)

  datatype State = State(
    heap: seq<Node>,
    level: nat,
    len: int,
    threads: map<nat, Thread>,
    chain: seq<nat>,
    log: seq<Pair>,
    who: seq<nat>,
    calls: seq<Call>)

  function Nils(n: nat): seq<Option<nat>> {
    seq(n, _ => None)
  }

  function New(): State {
    State([Node([], [], Nils(MAX_LEVEL))], 1, 0, map[], [0], [], [], [])
  }

  datatype Step = Insert(t: nat, key: Key, value: Key, lvl: nat) | Advance(t: nat)

  // ---------------------------------------------------------------- well-formed states

  // Only level 0 is linked: the links above it are nil in every node.
  ghost predicate WellFormed(heap: seq<Node>) {
    && |heap| > 0
    && (forall n :: 0 <= n < |heap| ==> |heap[n].next| == MAX_LEVEL)
    && (forall n :: 0 <= n < |heap| && heap[n].next[0].Some? ==> heap[n].next[0].value < |heap|)
    && (forall n, i :: 0 <= n < |heap| && 1 <= i < MAX_LEVEL ==> heap[n].next[i] == None)
  }

  ghost predicate Fits(size: nat, t: Thread) {
    && 1 <= t.lvl <= MAX_LEVEL && |t.scratch.preds| == t.lvl == |t.scratch.succs|
    && (forall i :: 1 <= i < t.lvl ==> t.scratch.succs[i] == None)
    && (t.phase.Search? ==> -1 <= t.phase.i < t.phase.curLevel <= MAX_LEVEL && t.phase.curr < size)
    && (t.phase.Fill? ==> t.phase.at <= t.lvl && (t.phase.at > 0 ==> t.scratch.preds[0].Some?))
    && (forall i :: 0 <= i < t.lvl && t.scratch.preds[i].Some? ==> t.scratch.preds[i].value < size)
    && (t.scratch.succs[0].Some? ==> t.scratch.succs[0].value < size)
    && (t.phase.Decide? || t.phase.Cas? ==> t.scratch.preds[0].Some?)
  }

  ghost predicate Enabled(s: State, step: Step) {
    match step
    case Insert(t, _, _, lvl) => t !in s.threads && 1 <= lvl <= MAX_LEVEL
    case Advance(t) => t in s.threads && WellFormed(s.heap) && Fits(|s.heap|, s.threads[t])
  }

  // ---------------------------------------------------------------- the steps of one insert

  // One load of curr.next[i] in the search loop.
  function SearchStep(heap: seq<Node>, t: Thread): Thread
    requires WellFormed(heap) && Fits(|heap|, t) && t.phase.Search?
  {
    var Search(curLevel, i, curr) := t.phase;
    if i < 0 then t.(phase := Fill(curLevel, 0))
    else
      var next := heap[curr].next[i];
      if next.Some? && next.value < |heap| && Compare(heap[next.value].key, t.key) < 0
      then t.(phase := Search(curLevel, i, next.value))
      else if i < t.lvl then
        t.(scratch := Scratch(t.scratch.preds[i := Some(curr)], t.scratch.succs[i := next]),
           phase := Search(curLevel, i - 1, curr))
      else t.(phase := Search(curLevel, i - 1, curr))
  }

  // Levels above the list's own start at the head.
  function FillStep(heap: seq<Node>, t: Thread): Thread
    requires WellFormed(heap) && Fits(|heap|, t) && t.phase.Fill?
  {
    var Fill(curLevel, i) := t.phase;
    if i >= t.lvl then t.(phase := Decide(curLevel))
    else if t.scratch.preds[i].None? then
      t.(scratch := Scratch(t.scratch.preds[i := Some(0)], t.scratch.succs[i := heap[0].next[i]]),
         phase := Fill(curLevel, i + 1))
    else t.(phase := Fill(curLevel, i + 1))
  }

  predicate Found(heap: seq<Node>, t: Thread)
    requires |t.scratch.succs| > 0
  {
    var next := t.scratch.succs[0];
    next.Some? && next.value < |heap| && heap[next.value].key == t.key
  }

  function NewNode(t: Thread): Node
    requires t.lvl <= MAX_LEVEL && |t.scratch.succs| == t.lvl
  {
    Node(t.key, t.value, t.scratch.succs + Nils(MAX_LEVEL - t.lvl))
  }

  // ---------------------------------------------------------------- the steps of the list

  // The position of a node in the chain.
  function Position(chain: seq<nat>, n: nat): nat {
    if chain == [] || chain[0] == n then 0 else 1 + Position(chain[1..], n)
  }

  function InsertAt(chain: seq<nat>, p: nat, n: nat): seq<nat> {
    if p < |chain| then chain[..p + 1] + [n] + chain[p + 1..] else chain
  }

  function SetNext(heap: seq<Node>, pred: nat, n: nat): seq<Node>
    requires pred < |heap| && |heap[pred].next| > 0
  {
    heap[pred := heap[pred].(next := heap[pred].next[0 := Some(n)])]
  }

  function To(s: State, t: nat, phase: Phase): State
    requires t in s.threads
  {
    s.(threads := s.threads[t := s.threads[t].(phase := phase)])
  }

  // The key is there already: its value is replaced.
  function DecideStep(s: State, t: nat): State
    requires t in s.threads && Fits(|s.heap|, s.threads[t]) && s.threads[t].phase.Decide?
  {
    var th := s.threads[t];
    if Found(s.heap, th) then
      var n := th.scratch.succs[0].value;
      To(s, t, Done).(
        heap := s.heap[n := s.heap[n].(value := th.value)],
        log := s.log + [Pair(th.key, th.value)],
        who := s.who + [th.call])
    else To(s, t, Cas(th.phase.curLevel))
  }

  predicate Unchanged(heap: seq<Node>, t: Thread)
    requires |t.scratch.succs| == |t.scratch.preds| > 0
  {
    var pred := t.scratch.preds[0];
    pred.Some? && pred.value < |heap| && |heap[pred.value].next| > 0 && heap[pred.value].next[0] == t.scratch.succs[0]
  }

  // The compare-and-swap that links the node, or fails and starts over.
  function CasStep(s: State, t: nat): State
    requires t in s.threads && Fits(|s.heap|, s.threads[t]) && s.threads[t].phase.Cas?
  {
    var th := s.threads[t];
    if !Unchanged(s.heap, th) then
      s.(threads := s.threads[t := th.(phase := Begin, effort := th.effort.(retries := th.effort.retries + 1))])
    else
      var pred := th.scratch.preds[0].value;
      To(s, t, Raise(th.phase.curLevel)).(
        heap := SetNext(s.heap, pred, |s.heap|) + [NewNode(th)],
        chain := InsertAt(s.chain, Position(s.chain, pred), |s.heap|),
        log := s.log + [Pair(th.key, th.value)],
        who := s.who + [th.call])
  }

  function NewThread(s: State, key: Key, value: Key, lvl: nat): Thread {
    Thread(key, value, lvl, Scratch(Nils(lvl), Nils(lvl)), Begin, |s.calls|, Effort(|s.heap|, |s.heap|, 0))
  }

  function BeginStep(s: State, t: Thread): Thread {
    t.(phase := Search(s.level, s.level - 1, 0), effort := t.effort.(begun := |s.heap|))
  }

  function Next(s: State, step: Step): State
    requires Enabled(s, step)
  {
    match step
    case Insert(t, key, value, lvl) =>
      s.(threads := s.threads[t := NewThread(s, key, value, lvl)], calls := s.calls + [Call(Pair(key, value), |s.log|)])
    case Advance(t) =>
      var th := s.threads[t];
      match th.phase
      case Begin => s.(threads := s.threads[t := BeginStep(s, th)])
      case Search(_, _, _) => s.(threads := s.threads[t := SearchStep(s.heap, th)])
      case Fill(_, _) => s.(threads := s.threads[t := FillStep(s.heap, th)])
      case Decide(_) => DecideStep(s, t)
      case Cas(_) => CasStep(s, t)
      case Raise(curLevel) =>
        To(s, t, AddLen).(level := if th.lvl > curLevel && s.level == curLevel then th.lvl else s.level)
      case AddLen => To(s, t, Done).(len := s.len + 1)
      case Done => s.(threads := s.threads - {t})
  }

  ghost predicate Reaches(steps: seq<Step>, s: State) {
    if steps == [] then s == New()
    else
      var n := |steps| - 1;
      exists before: State :: Reaches(steps[..n], before) && Enabled(before, steps[n]) && Next(before, steps[n]) == s
  }

  // ---------------------------------------------------------------- the invariant

  // The chain follows the level-0 links from the head, visits every node once, and
  // its keys increase strictly.
  ghost predicate Linked(heap: seq<Node>, chain: seq<nat>)
    requires WellFormed(heap)
  {
    && |chain| == |heap| && chain[0] == 0
    && (forall j :: 0 <= j < |chain| ==> chain[j] < |heap|)
    && (forall j :: 1 <= j < |chain| ==> chain[j] != 0)
    && (forall j :: 0 <= j < |chain| - 1 ==> heap[chain[j]].next[0] == Some(chain[j + 1]))
    && heap[chain[|chain| - 1]].next[0] == None
    && KeysIncrease(heap, chain)
  }

  ghost predicate KeysIncrease(heap: seq<Node>, chain: seq<nat>)
    requires forall j :: 0 <= j < |chain| ==> chain[j] < |heap|
  {
    forall j, k :: 1 <= j < k < |chain| ==> Rank(heap[chain[j]].key) < Rank(heap[chain[k]].key)
  }

  // n is the head or holds a smaller key.
  ghost predicate Before(heap: seq<Node>, chain: seq<nat>, n: nat, key: Key) {
    n in chain && n < |heap| && (n == 0 || Rank(heap[n].key) < Rank(key))
  }

  ghost predicate NotBefore(heap: seq<Node>, chain: seq<nat>, next: Option<nat>, key: Key) {
    next.Some? ==>
      next.value in chain && next.value != 0 && next.value < |heap| && Rank(heap[next.value].key) >= Rank(key)
  }

  // The search of level 0 is over.
  predicate Searched(phase: Phase) {
    (phase.Search? && phase.i < 0) || phase.Fill? || phase.Decide? || phase.Cas?
  }

  // What an insert knows about the nodes it has seen; later steps of others keep it.
  ghost predicate Knows(heap: seq<Node>, chain: seq<nat>, t: Thread) {
    && Fits(|heap|, t)
    && (t.phase.Search? ==> Before(heap, chain, t.phase.curr, t.key))
    && (Searched(t.phase) ==>
          && t.scratch.preds[0].Some? && Before(heap, chain, t.scratch.preds[0].value, t.key)
          && NotBefore(heap, chain, t.scratch.succs[0], t.key))
    && (t.phase.Cas? ==> !Found(heap, t))
  }

  ghost predicate AllKnow(heap: seq<Node>, chain: seq<nat>, threads: map<nat, Thread>) {
    forall t :: t in threads ==> Knows(heap, chain, threads[t])
  }

  function Replay(log: seq<Pair>): map<Key, Key> {
    if log == [] then map[] else Replay(log[..|log| - 1])[log[|log| - 1].key := log[|log| - 1].value]
  }

  ghost predicate HasKey(heap: seq<Node>, chain: seq<nat>, key: Key) {
    exists j :: 1 <= j < |chain| && chain[j] < |heap| && heap[chain[j]].key == key
  }

  // The chain holds exactly the keys of the table, each with its value.
  ghost predicate Holds(heap: seq<Node>, chain: seq<nat>, table: map<Key, Key>)
    requires forall j :: 0 <= j < |chain| ==> chain[j] < |heap|
  {
    && (forall j :: 1 <= j < |chain| ==>
          heap[chain[j]].key in table && table[heap[chain[j]].key] == heap[chain[j]].value)
    && (forall key :: key in table ==> HasKey(heap, chain, key))
  }

  // Inserts that have linked their node and not counted it yet.
  function Counting(threads: map<nat, Thread>): set<nat> {
    set t | t in threads && (threads[t].phase.Raise? || threads[t].phase.AddLen?)
  }

  ghost predicate Inv(s: State) {
    && 1 <= s.level <= MAX_LEVEL
    && WellFormed(s.heap) && Linked(s.heap, s.chain) && Holds(s.heap, s.chain, Replay(s.log))
    && s.len + |Counting(s.threads)| == |s.chain| - 1
    && AllKnow(s.heap, s.chain, s.threads)
  }

  // ---------------------------------------------------------------- what a step may change

  // Nodes stay in the chain with their keys.
  ghost predicate Grows(heap: seq<Node>, chain: seq<nat>, heap': seq<Node>, chain': seq<nat>) {
    && |heap| <= |heap'|
    && (forall n :: n in chain ==> n in chain')
    && (forall n :: 0 <= n < |heap| ==> heap'[n].key == heap[n].key)
  }

  lemma AllKnowKept(heap: seq<Node>, chain: seq<nat>, heap': seq<Node>, chain': seq<nat>, threads: map<nat, Thread>,
                    t: nat, th: Thread)
    requires AllKnow(heap, chain, threads) && Grows(heap, chain, heap', chain') && Knows(heap', chain', th)
    ensures AllKnow(heap', chain', threads[t := th])
  {
    hide Rank;
    forall u | u in threads && u != t ensures Knows(heap', chain', threads[u]) {
      KnowsKept(heap, chain, heap', chain', threads[u]);
    }
  }

  lemma KnowsKept(heap: seq<Node>, chain: seq<nat>, heap': seq<Node>, chain': seq<nat>, t: Thread)
    requires Knows(heap, chain, t) && Grows(heap, chain, heap', chain')
    ensures Knows(heap', chain', t)
  {
  }

  lemma CountingKept(threads: map<nat, Thread>, t: nat, th: Thread)
    requires t in threads
    ensures Counting(threads[t := th]) ==
            if th.phase.Raise? || th.phase.AddLen? then Counting(threads) + {t} else Counting(threads) - {t}
    ensures t in Counting(threads) <==> threads[t].phase.Raise? || threads[t].phase.AddLen?
  {
  }

  // ---------------------------------------------------------------- searching

  lemma ChainIndex(heap: seq<Node>, chain: seq<nat>, n: nat) returns (j: nat)
    requires WellFormed(heap) && Linked(heap, chain) && n in chain
    ensures j < |chain| && chain[j] == n
    ensures heap[n].next[0] == if j + 1 < |chain| then Some(chain[j + 1]) else None
  {
    hide KeysIncrease;
    j :| 0 <= j < |chain| && chain[j] == n;
  }

  lemma SearchKnows(heap: seq<Node>, chain: seq<nat>, t: Thread)
    requires WellFormed(heap) && Linked(heap, chain) && Knows(heap, chain, t) && t.phase.Search?
    ensures Knows(heap, chain, SearchStep(heap, t))
    ensures SearchStep(heap, t).phase.Search? || SearchStep(heap, t).phase.Fill?
  {
    hide KeysIncrease, Rank, Compare;
    var curr, i := t.phase.curr, t.phase.i;
    if i >= 0 {
      var next := heap[curr].next[i];
      if next.Some? {
        assert i == 0;
        var j := ChainIndex(heap, chain, curr);
        assert chain[j + 1] == next.value;
        CompareIsRankOrder(heap[next.value].key, t.key);
      }
    }
  }

  lemma FillKnows(heap: seq<Node>, chain: seq<nat>, t: Thread)
    requires WellFormed(heap) && Knows(heap, chain, t) && t.phase.Fill?
    ensures Knows(heap, chain, FillStep(heap, t))
    ensures FillStep(heap, t).phase.Fill? || FillStep(heap, t).phase.Decide?
  {
    hide Rank;
  }

  // ---------------------------------------------------------------- storing into a node

  lemma StoreKeeps(heap: seq<Node>, chain: seq<nat>, table: map<Key, Key>, n: nat, value: Key)
    requires WellFormed(heap) && Linked(heap, chain) && Holds(heap, chain, table) && n in chain && n != 0
    ensures var heap' := heap[n := heap[n].(value := value)];
            && WellFormed(heap') && Linked(heap', chain) && Grows(heap, chain, heap', chain)
            && Holds(heap', chain, table[heap[n].key := value])
  {
    var heap' := heap[n := heap[n].(value := value)];
    var j := ChainIndex(heap, chain, n);
    assert forall k :: 0 <= k < |heap| ==> heap'[k].key == heap[k].key && heap'[k].next == heap[k].next;
    SameKeys(heap, heap', chain);
    hide Rank, KeysIncrease;
    forall k | 1 <= k < |chain| && k != j
      ensures heap[chain[k]].key != heap[n].key && chain[k] != n
    {
      OneNode(heap, chain, j, k);
    }
    forall key | key in table[heap[n].key := value] ensures HasKey(heap', chain, key) {
      if key == heap[n].key {
        assert heap'[chain[j]].key == key;
      } else {
        HasKeyKept(heap, heap', chain, key);
      }
    }
  }

  lemma HasKeyKept(heap: seq<Node>, heap': seq<Node>, chain: seq<nat>, key: Key)
    requires HasKey(heap, chain, key) && |heap'| == |heap| && forall k :: 0 <= k < |heap| ==>
               heap'[k].key == heap[k].key
    ensures HasKey(heap', chain, key)
  {
    var k :| 1 <= k < |chain| && chain[k] < |heap| && heap[chain[k]].key == key;
    assert heap'[chain[k]].key == key;
  }

  lemma SameKeys(heap: seq<Node>, heap': seq<Node>, chain: seq<nat>)
    requires WellFormed(heap) && Linked(heap, chain) && |heap'| == |heap|
    requires forall k :: 0 <= k < |heap| ==> heap'[k].key == heap[k].key && heap'[k].next == heap[k].next
    ensures WellFormed(heap') && Linked(heap', chain)
  {
    hide Rank;
  }

  lemma OneNode(heap: seq<Node>, chain: seq<nat>, j: nat, k: nat)
    requires WellFormed(heap) && Linked(heap, chain) && 1 <= j < |chain| && 1 <= k < |chain| && j != k
    ensures heap[chain[j]].key != heap[chain[k]].key && chain[j] != chain[k]
  {
  }

  // ---------------------------------------------------------------- linking a node

  lemma {:induction false} PositionOf(chain: seq<nat>, n: nat)
    requires n in chain
    ensures Position(chain, n) < |chain| && chain[Position(chain, n)] == n
  {
    if chain[0] != n { PositionOf(chain[1..], n); }
  }

  // The new node fits between the p-th node and the next one.
  ghost predicate Between(heap: seq<Node>, chain: seq<nat>, p: nat, node: Node)
    requires WellFormed(heap) && Linked(heap, chain)
  {
    && p < |chain| && |node.next| == MAX_LEVEL && node.next[0] == heap[chain[p]].next[0]
    && (forall i :: 1 <= i < MAX_LEVEL ==> node.next[i] == None)
    && (p > 0 ==> Rank(heap[chain[p]].key) < Rank(node.key))
    && (p + 1 < |chain| ==> Rank(node.key) < Rank(heap[chain[p + 1]].key))
  }

  lemma InsertLonger(chain: seq<nat>, p: nat, n: nat)
    requires p < |chain|
    ensures |InsertAt(chain, p, n)| == |chain| + 1
  {
  }

  lemma LinkOnce(heap: seq<Node>, chain: seq<nat>, p: nat)
    requires WellFormed(heap) && Linked(heap, chain) && p < |chain|
    ensures forall j :: 0 <= j < |chain| && j != p ==> chain[j] != chain[p]
  {
    forall j | 0 <= j < |chain| && j != p ensures chain[j] != chain[p] {
      if j > 0 && p > 0 { OneNode(heap, chain, j, p); }
    }
  }

  // Where the j-th node of the new chain stood before.
  function OldIndex(p: nat, j: nat): nat
    requires j != p + 1
  {
    if j <= p then j else j - 1
  }

  lemma OldNode(chain: seq<nat>, p: nat, n: nat, j: nat)
    requires p < |chain| && j <= |chain|
    ensures |InsertAt(chain, p, n)| == |chain| + 1
    ensures InsertAt(chain, p, n)[j] == if j == p + 1 then n else chain[OldIndex(p, j)]
  {
  }

  // The keys of the new nodes are those of node and of the old ones.
  ghost predicate Extends(heap: seq<Node>, node: Node, heap': seq<Node>) {
    && |heap'| == |heap| + 1 && heap'[|heap|].key == node.key
    && forall k :: 0 <= k < |heap| ==> heap'[k].key == heap[k].key
  }

  lemma LinkKeyPair(heap: seq<Node>, chain: seq<nat>, p: nat, node: Node, heap': seq<Node>, j: nat, k: nat)
    requires WellFormed(heap) && Linked(heap, chain) && Between(heap, chain, p, node) && Extends(heap, node, heap')
    requires 1 <= j < k <= |chain|
    ensures var chain' := InsertAt(chain, p, |heap|);
            |chain'| == |chain| + 1 && chain'[j] < |heap'| && chain'[k] < |heap'|
              && Rank(heap'[chain'[j]].key) < Rank(heap'[chain'[k]].key)
  {
    hide Rank, InsertAt;
    OldNode(chain, p, |heap|, j);
    OldNode(chain, p, |heap|, k);
    if j == p + 1 {
      if k > p + 2 { assert Rank(heap[chain[p + 1]].key) < Rank(heap[chain[k - 1]].key); }
    } else if k == p + 1 {
      if j < p { assert Rank(heap[chain[j]].key) < Rank(heap[chain[p]].key); }
    }
  }

  lemma LinkKeys(heap: seq<Node>, chain: seq<nat>, p: nat, node: Node, heap': seq<Node>)
    requires WellFormed(heap) && Linked(heap, chain) && Between(heap, chain, p, node) && Extends(heap, node, heap')
    ensures var chain' := InsertAt(chain, p, |heap|);
            (forall j :: 0 <= j < |chain'| ==> chain'[j] < |heap'|) && KeysIncrease(heap', chain')
  {
    hide WellFormed, Linked, Between, InsertAt, Rank, Extends;
    var chain' := InsertAt(chain, p, |heap|);
    InsertBounds(heap, chain, p, node);
    forall j, k | 1 <= j < k < |chain'|
      ensures chain'[j] < |heap'| && chain'[k] < |heap'| && Rank(heap'[chain'[j]].key) < Rank(heap'[chain'[k]].key)
    {
      LinkKeyPair(heap, chain, p, node, heap', j, k);
    }
    assert |heap'| == |heap| + 1 by { ExtendsOne(heap, node, heap'); }
  }

  lemma ExtendsOne(heap: seq<Node>, node: Node, heap': seq<Node>)
    requires Extends(heap, node, heap')
    ensures |heap'| == |heap| + 1
  {
  }

  lemma InsertBounds(heap: seq<Node>, chain: seq<nat>, p: nat, node: Node)
    requires WellFormed(heap) && Linked(heap, chain) && Between(heap, chain, p, node)
    ensures |InsertAt(chain, p, |heap|)| == |chain| + 1
    ensures forall j :: 0 <= j <= |chain| ==> InsertAt(chain, p, |heap|)[j] <= |heap|
  {
    hide Rank, KeysIncrease;
  }

  lemma LinkKeeps(heap: seq<Node>, chain: seq<nat>, p: nat, node: Node)
    requires WellFormed(heap) && Linked(heap, chain) && Between(heap, chain, p, node)
    ensures var heap', chain' := SetNext(heap, chain[p], |heap|) + [node], InsertAt(chain, p, |heap|);
            WellFormed(heap') && Linked(heap', chain') && Grows(heap, chain, heap', chain')
  {
    hide Rank;
    var heap', chain' := SetNext(heap, chain[p], |heap|) + [node], InsertAt(chain, p, |heap|);
    LinkOnce(heap, chain, p);
    LinkKeys(heap, chain, p, node, heap');
    hide KeysIncrease;
    LinkNexts(heap, chain, p, node);
    forall m | m in chain ensures m in chain' {
      var j :| 0 <= j < |chain| && chain[j] == m;
      assert chain'[if j <= p then j else j + 1] == m;
    }
  }

  lemma LinkNexts(heap: seq<Node>, chain: seq<nat>, p: nat, node: Node)
    requires WellFormed(heap) && Linked(heap, chain) && Between(heap, chain, p, node)
    requires forall j :: 0 <= j < |chain| && j != p ==> chain[j] != chain[p]
    ensures var heap', chain' := SetNext(heap, chain[p], |heap|) + [node], InsertAt(chain, p, |heap|);
            && WellFormed(heap') && |chain'| == |heap'| && chain'[0] == 0
            && (forall j :: 1 <= j < |chain'| ==> chain'[j] != 0)
            && (forall j :: 0 <= j < |chain'| ==> chain'[j] < |heap'|)
            && (forall j :: 0 <= j < |chain'| - 1 ==> heap'[chain'[j]].next[0] == Some(chain'[j + 1]))
            && heap'[chain'[|chain'| - 1]].next[0] == None
  {
    hide Rank, KeysIncrease;
    var heap', chain' := SetNext(heap, chain[p], |heap|) + [node], InsertAt(chain, p, |heap|);
    forall j | 0 <= j < |chain'| - 1 ensures heap'[chain'[j]].next[0] == Some(chain'[j + 1]) {
      if j > p + 1 { assert chain'[j] == chain[j - 1] && chain'[j + 1] == chain[j]; }
    }
  }

  lemma LinkOld(heap: seq<Node>, chain: seq<nat>, p: nat, node: Node, j: nat)
    requires WellFormed(heap) && Linked(heap, chain) && Between(heap, chain, p, node) && j <= |chain|
    ensures var heap', chain' := SetNext(heap, chain[p], |heap|) + [node], InsertAt(chain, p, |heap|);
            && |chain'| == |chain| + 1 && chain'[j] < |heap'|
            && (j == p + 1 ==> heap'[chain'[j]] == node)
            && (j != p + 1 ==>
                  && heap'[chain'[j]].key == heap[chain[OldIndex(p, j)]].key
                  && heap'[chain'[j]].value == heap[chain[OldIndex(p, j)]].value)
  {
    hide Rank, KeysIncrease;
    OldNode(chain, p, |heap|, j);
  }

  lemma LinkHoldsAt(heap: seq<Node>, chain: seq<nat>, p: nat, node: Node, table: map<Key, Key>, k: nat)
    requires WellFormed(heap) && Linked(heap, chain) && Between(heap, chain, p, node) && Holds(heap, chain, table)
    requires 1 <= k <= |chain|
    requires var heap', chain' := SetNext(heap, chain[p], |heap|) + [node], InsertAt(chain, p, |heap|);
             WellFormed(heap') && Linked(heap', chain')
    ensures var heap', chain', table' :=
              SetNext(heap, chain[p], |heap|) + [node], InsertAt(chain, p, |heap|), table[node.key := node.value];
            k < |chain'| && heap'[chain'[k]].key in table' && table'[heap'[chain'[k]].key] == heap'[chain'[k]].value
  {
    hide Rank, KeysIncrease, InsertAt, SetNext;
    LinkOld(heap, chain, p, node, p + 1);
    LinkOld(heap, chain, p, node, k);
    if k != p + 1 {
      OneNode(SetNext(heap, chain[p], |heap|) + [node], InsertAt(chain, p, |heap|), k, p + 1);
    }
  }

  lemma LinkHasKey(heap: seq<Node>, chain: seq<nat>, p: nat, node: Node, key: Key)
    requires WellFormed(heap) && Linked(heap, chain) && Between(heap, chain, p, node)
    requires key == node.key || HasKey(heap, chain, key)
    ensures HasKey(SetNext(heap, chain[p], |heap|) + [node], InsertAt(chain, p, |heap|), key)
  {
    hide Rank, KeysIncrease, InsertAt, SetNext;
    var i := p + 1;
    if key != node.key {
      var j :| 1 <= j < |chain| && chain[j] < |heap| && heap[chain[j]].key == key;
      i := if j <= p then j else j + 1;
    }
    LinkOld(heap, chain, p, node, i);
    assert (SetNext(heap, chain[p], |heap|) + [node])[InsertAt(chain, p, |heap|)[i]].key == key;
  }

  lemma LinkHolds(heap: seq<Node>, chain: seq<nat>, p: nat, node: Node, table: map<Key, Key>)
    requires WellFormed(heap) && Linked(heap, chain) && Between(heap, chain, p, node) && Holds(heap, chain, table)
    ensures var heap', chain' := SetNext(heap, chain[p], |heap|) + [node], InsertAt(chain, p, |heap|);
            WellFormed(heap') && Linked(heap', chain') && Holds(heap', chain', table[node.key := node.value])
  {
    var heap', chain' := SetNext(heap, chain[p], |heap|) + [node], InsertAt(chain, p, |heap|);
    LinkKeeps(heap, chain, p, node);
    InsertBounds(heap, chain, p, node);
    hide WellFormed, Linked, Between, InsertAt, SetNext, Rank;
    forall k | 1 <= k < |chain'|
      ensures var table' := table[node.key := node.value];
              heap'[chain'[k]].key in table' && table'[heap'[chain'[k]].key] == heap'[chain'[k]].value
    {
      LinkHoldsAt(heap, chain, p, node, table, k);
    }
    forall key | key in table[node.key := node.value] ensures HasKey(heap', chain', key) {
      LinkHasKey(heap, chain, p, node, key);
    }
  }

  // A compare-and-swap that succeeds finds its predecessor and successor still adjacent.
  lemma CasBetween(heap: seq<Node>, chain: seq<nat>, t: Thread)
    requires WellFormed(heap) && Linked(heap, chain) && Knows(heap, chain, t) && t.phase.Cas? && Unchanged(heap, t)
    ensures var p := Position(chain, t.scratch.preds[0].value);
            p < |chain| && chain[p] == t.scratch.preds[0].value && Between(heap, chain, p, NewNode(t))
  {
    hide KeysIncrease, Rank;
    var p := Position(chain, t.scratch.preds[0].value);
    PositionOf(chain, t.scratch.preds[0].value);
    if p + 1 < |chain| {
      assert t.scratch.succs[0] == Some(chain[p + 1]);
      RankInjective(heap[chain[p + 1]].key, t.key);
    }
  }

  // ---------------------------------------------------------------- every step keeps the invariant

  lemma LocalStep(s: State, t: nat, th: Thread, level: int)
    requires Inv(s) && t in s.threads && Knows(s.heap, s.chain, th) && 1 <= level <= MAX_LEVEL
    requires (s.threads[t].phase.Raise? || s.threads[t].phase.AddLen?) <==> (th.phase.Raise? || th.phase.AddLen?)
    ensures Inv(s.(threads := s.threads[t := th], level := level))
  {
    hide WellFormed, Linked, Holds, Knows, AllKnow;
    CountingKept(s.threads, t, th);
    Same(s.heap, s.chain);
    AllKnowKept(s.heap, s.chain, s.heap, s.chain, s.threads, t, th);
    if t in Counting(s.threads) {
      assert Counting(s.threads) + {t} == Counting(s.threads);
    } else {
      assert Counting(s.threads) - {t} == Counting(s.threads);
    }
  }

  lemma Same(heap: seq<Node>, chain: seq<nat>)
    ensures Grows(heap, chain, heap, chain)
  {
  }

  // Entry i is the last of its key.
  ghost predicate LastOf(log: seq<Pair>, i: int, p: Pair) {
    0 <= i < |log| && log[i] == p && forall j :: i < j < |log| ==> log[j].key != p.key
  }

  // Replaying the log gives each key the value of its last entry.
  lemma {:induction false} ReplayIsLast(log: seq<Pair>, p: Pair)
    ensures p.key in Replay(log) && Replay(log)[p.key] == p.value <==> exists i :: LastOf(log, i, p)
  {
    if log != [] {
      var n := |log| - 1;
      ReplayIsLast(log[..n], p);
      assert log == log[..n] + [log[n]];
      if log[n] == p { assert LastOf(log, n, p); }
      forall i | 0 <= i < n && log[n].key != p.key ensures LastOf(log, i, p) <==> LastOf(log[..n], i, p) { }
    }
  }

  lemma ReplaySnoc(log: seq<Pair>, p: Pair)
    ensures Replay(log + [p]) == Replay(log)[p.key := p.value]
  {
    assert (log + [p])[..|log|] == log;
  }

  lemma DecideKeeps(s: State, t: nat)
    requires Inv(s) && t in s.threads && s.threads[t].phase.Decide? && Knows(s.heap, s.chain, s.threads[t])
    ensures Inv(DecideStep(s, t)) && Grows(s.heap, s.chain, DecideStep(s, t).heap, DecideStep(s, t).chain)
  {
    hide WellFormed, Linked, Holds, AllKnow, Rank;
    var th := s.threads[t];
    if Found(s.heap, th) {
      var n := th.scratch.succs[0].value;
      StoreKeeps(s.heap, s.chain, Replay(s.log), n, th.value);
      ReplaySnoc(s.log, Pair(th.key, th.value));
      var heap' := s.heap[n := s.heap[n].(value := th.value)];
      KnowsKept(s.heap, s.chain, heap', s.chain, th);
      AllKnowKept(s.heap, s.chain, heap', s.chain, s.threads, t, th.(phase := Done));
      CountingKept(s.threads, t, th.(phase := Done));
      assert Counting(s.threads) - {t} == Counting(s.threads);
    } else {
      Same(s.heap, s.chain);
      LocalStep(s, t, th.(phase := Cas(th.phase.curLevel)), s.level);
    }
  }

  lemma CasKeeps(s: State, t: nat)
    requires Inv(s) && t in s.threads && s.threads[t].phase.Cas? && Knows(s.heap, s.chain, s.threads[t])
    ensures Inv(CasStep(s, t)) && Grows(s.heap, s.chain, CasStep(s, t).heap, CasStep(s, t).chain)
  {
    hide WellFormed, Linked, Holds, AllKnow, Rank, Grows, SetNext, Between, InsertAt;
    var th := s.threads[t];
    if Unchanged(s.heap, th) {
      var p, node := Position(s.chain, th.scratch.preds[0].value), NewNode(th);
      CasBetween(s.heap, s.chain, th);
      LinkKeeps(s.heap, s.chain, p, node);
      LinkHolds(s.heap, s.chain, p, node, Replay(s.log));
      ReplaySnoc(s.log, Pair(th.key, th.value));
      var heap', chain' := SetNext(s.heap, s.chain[p], |s.heap|) + [node], InsertAt(s.chain, p, |s.heap|);
      var th' := th.(phase := Raise(th.phase.curLevel));
      KnowsKept(s.heap, s.chain, heap', chain', th);
      AllKnowKept(s.heap, s.chain, heap', chain', s.threads, t, th');
      CountingKept(s.threads, t, th');
      assert |chain'| == |s.chain| + 1 by { InsertLonger(s.chain, p, |s.heap|); }
    } else {
      Same(s.heap, s.chain);
      LocalStep(s, t, CasStep(s, t).threads[t], s.level);
    }
  }

  // A finished insert leaves; a linked one is counted.
  lemma EndKeeps(s: State, t: nat)
    requires Inv(s) && t in s.threads && Knows(s.heap, s.chain, s.threads[t])
    ensures s.threads[t].phase.AddLen? ==> Inv(To(s, t, Done).(len := s.len + 1))
    ensures s.threads[t].phase.Done? ==> Inv(s.(threads := s.threads - {t}))
  {
    hide WellFormed, Linked, Holds, Rank;
    var th := s.threads[t];
    if th.phase.AddLen? {
      Same(s.heap, s.chain);
      CountingKept(s.threads, t, th.(phase := Done));
      AllKnowKept(s.heap, s.chain, s.heap, s.chain, s.threads, t, th.(phase := Done));
    } else if th.phase.Done? {
      assert Counting(s.threads - {t}) == Counting(s.threads);
    }
  }

  lemma StartKeeps(s: State, t: nat, key: Key, value: Key, lvl: nat)
    requires Inv(s) && t !in s.threads && 1 <= lvl <= MAX_LEVEL
    ensures Inv(s.(threads := s.threads[t := NewThread(s, key, value, lvl)],
                   calls := s.calls + [Call(Pair(key, value), |s.log|)]))
  {
    hide WellFormed, Linked, Holds, Rank;
    var th := NewThread(s, key, value, lvl);
    Same(s.heap, s.chain);
    AllKnowKept(s.heap, s.chain, s.heap, s.chain, s.threads, t, th);
    assert Counting(s.threads[t := th]) == Counting(s.threads);
  }

  lemma BeginKnows(s: State, t: Thread)
    requires Inv(s) && Knows(s.heap, s.chain, t) && t.phase.Begin?
    ensures Knows(s.heap, s.chain, BeginStep(s, t))
  {
    hide AllKnow, Holds, KeysIncrease, Rank;
    assert s.chain[0] == 0;
  }

  lemma AdvanceKeeps(s: State, t: nat)
    requires Inv(s) && Enabled(s, Advance(t))
    ensures Inv(Next(s, Advance(t)))
    ensures Grows(s.heap, s.chain, Next(s, Advance(t)).heap, Next(s, Advance(t)).chain)
  {
    hide WellFormed, Linked, Holds, CasStep, DecideStep, SearchStep, FillStep, Grows, Rank, Before, NotBefore, Fits,
      Found;
    var th := s.threads[t];
    assert Knows(s.heap, s.chain, th);
    Same(s.heap, s.chain);
    match th.phase
    case Begin =>
      BeginKnows(s, th);
      LocalStep(s, t, BeginStep(s, th), s.level);
    case Search(_, _, _) =>
      SearchKnows(s.heap, s.chain, th);
      LocalStep(s, t, SearchStep(s.heap, th), s.level);
    case Fill(_, _) =>
      FillKnows(s.heap, s.chain, th);
      LocalStep(s, t, FillStep(s.heap, th), s.level);
    case Decide(_) => DecideKeeps(s, t);
    case Cas(_) => CasKeeps(s, t);
    case Raise(curLevel) =>
      RaiseKnows(s.heap, s.chain, th);
      LocalStep(s, t, th.(phase := AddLen), if th.lvl > curLevel && s.level == curLevel then th.lvl else s.level);
    case AddLen => EndKeeps(s, t);
    case Done => EndKeeps(s, t);
  }

  lemma RaiseKnows(heap: seq<Node>, chain: seq<nat>, t: Thread)
    requires Knows(heap, chain, t) && t.phase.Raise?
    ensures Knows(heap, chain, t.(phase := AddLen)) && 1 <= t.lvl <= MAX_LEVEL
  {
  }

  // Every step keeps the invariant, and no node or key ever leaves the chain.
  lemma StepKeeps(s: State, step: Step)
    requires Inv(s) && Enabled(s, step)
    ensures Inv(Next(s, step)) && Grows(s.heap, s.chain, Next(s, step).heap, Next(s, step).chain)
  {
    hide Inv, Grows;
    match step
    case Insert(t, key, value, lvl) =>
      StartKeeps(s, t, key, value, lvl);
      Same(s.heap, s.chain);
    case Advance(t) => AdvanceKeeps(s, t);
  }

  lemma InitInv()
    ensures Inv(New())
  {
    assert Counting(New().threads) == {};
  }

  lemma {:induction false} RunInv(steps: seq<Step>, s: State)
    requires Reaches(steps, s)
    ensures Inv(s)
  {
    hide Inv, Next, Enabled;
    if steps == [] {
      InitInv();
    } else {
      var n := |steps| - 1;
      var before :| Reaches(steps[..n], before) && Enabled(before, steps[n]) && Next(before, steps[n]) == s;
      RunInv(steps[..n], before);
      StepKeeps(before, steps[n]);
    }
  }

  // ---------------------------------------------------------------- what every run keeps

  // Whatever the others do, the next step of an insert is defined: every node and every
  // link that it looks at is there.
  lemma NeverStuck(steps: seq<Step>, s: State, t: nat)
    requires Reaches(steps, s) && t in s.threads
    ensures Enabled(s, Advance(t))
  {
    hide Linked, Holds, Reaches;
    RunInv(steps, s);
    assert Knows(s.heap, s.chain, s.threads[t]);
  }

  // ---------------------------------------------------------------- lock-freedom

  // While no node has been linked since the search began, the link it saw is the link
  // that is there; and each retry has seen at least one more node than the one before.
  ghost predicate Diligent(heap: seq<Node>, t: Thread) {
    && t.effort.start + t.effort.retries <= (if t.phase.Begin? then |heap| else t.effort.begun)
    && t.effort.begun <= |heap|
    && (Searched(t.phase) && t.effort.begun == |heap| && |t.scratch.preds| == |t.scratch.succs| ==> Unchanged0(heap, t))
  }

  ghost predicate Unchanged0(heap: seq<Node>, t: Thread) {
    |t.scratch.succs| == |t.scratch.preds| > 0 && Unchanged(heap, t)
  }

  ghost predicate AllDiligent(s: State) {
    forall t :: t in s.threads ==> Diligent(s.heap, s.threads[t])
  }

  // Others link nodes or store values.
  ghost predicate LinksOrStores(heap: seq<Node>, heap': seq<Node>) {
    |heap'| > |heap| || (|heap'| == |heap| && forall n :: 0 <= n < |heap| ==> heap'[n].next == heap[n].next)
  }

  lemma DiligentKept(heap: seq<Node>, heap': seq<Node>, t: Thread)
    requires Diligent(heap, t) && LinksOrStores(heap, heap')
    ensures Diligent(heap', t)
  {
  }

  lemma HeapStep(s: State, step: Step)
    requires Enabled(s, step)
    ensures LinksOrStores(s.heap, Next(s, step).heap)
  {
    hide SearchStep, FillStep, Position, InsertAt, NewNode;
    if step.Advance? && s.threads[step.t].phase.Decide? {
      StoreLinks(s, step.t);
    }
  }

  lemma StoreLinks(s: State, t: nat)
    requires t in s.threads && Fits(|s.heap|, s.threads[t]) && s.threads[t].phase.Decide?
    ensures LinksOrStores(s.heap, DecideStep(s, t).heap)
  {
  }

  lemma SearchDiligent(heap: seq<Node>, t: Thread)
    requires WellFormed(heap) && Fits(|heap|, t) && t.phase.Search? && Diligent(heap, t)
    ensures Diligent(heap, SearchStep(heap, t))
  {
    hide Compare;
  }

  lemma FillDiligent(heap: seq<Node>, t: Thread)
    requires WellFormed(heap) && Fits(|heap|, t) && t.phase.Fill? && Diligent(heap, t)
    ensures Diligent(heap, FillStep(heap, t))
  {
  }

  lemma OwnDiligent(s: State, t: nat)
    requires s.level > 0 && AllDiligent(s) && Enabled(s, Advance(t)) && t in Next(s, Advance(t)).threads
    ensures Diligent(Next(s, Advance(t)).heap, Next(s, Advance(t)).threads[t])
  {
    hide WellFormed, SearchStep, FillStep, Found, Position, InsertAt, NewNode;
    var th := s.threads[t];
    assert Diligent(s.heap, th);
    match th.phase
    case Search(_, _, _) => SearchDiligent(s.heap, th);
    case Fill(_, _) => FillDiligent(s.heap, th);
    case _ => HeapStep(s, Advance(t));
  }

  lemma DiligentStep(s: State, step: Step)
    requires s.level > 0 && AllDiligent(s) && Enabled(s, step)
    ensures AllDiligent(Next(s, step))
  {
    var s' := Next(s, step);
    HeapStep(s, step);
    assert forall u :: u in s'.threads && u != step.t ==> u in s.threads && s'.threads[u] == s.threads[u] by {
      hide SearchStep, FillStep, Found, Unchanged, Position, InsertAt, SetNext, NewNode, WellFormed, Fits;
    }
    hide Next, Enabled;
    forall u | u in s'.threads ensures Diligent(s'.heap, s'.threads[u]) {
      if u != step.t {
        DiligentKept(s.heap, s'.heap, s.threads[u]);
      } else if step.Advance? {
        OwnDiligent(s, u);
      } else {
        StartDiligent(s, step);
      }
    }
  }

  lemma StartDiligent(s: State, step: Step)
    requires Enabled(s, step) && step.Insert?
    ensures step.t in Next(s, step).threads && Diligent(Next(s, step).heap, Next(s, step).threads[step.t])
  {
  }

  lemma {:induction false} RunDiligent(steps: seq<Step>, s: State)
    requires Reaches(steps, s)
    ensures AllDiligent(s)
  {
    hide Next, Enabled;
    if steps != [] {
      var n := |steps| - 1;
      var before :| Reaches(steps[..n], before) && Enabled(before, steps[n]) && Next(before, steps[n]) == s;
      RunDiligent(steps[..n], before);
      assert before.level > 0 by { RunInv(steps[..n], before); }
      DiligentStep(before, steps[n]);
    }
  }

  // A compare-and-swap fails only if another insert has linked a node since this one's
  // search began, and an insert has failed at most once for every node linked since it
  // was called: one insert makes another retry only by getting its own node in.
  lemma FailsOnlyForLinks(steps: seq<Step>, s: State, t: nat)
    requires Reaches(steps, s) && t in s.threads
    ensures s.threads[t].effort.start + s.threads[t].effort.retries <= |s.heap|
    ensures s.threads[t].phase.Cas? ==>
              && Enabled(s, Advance(t))
              && (Next(s, Advance(t)).threads[t].phase.Begin? ==> |s.heap| > s.threads[t].effort.begun)
  {
    hide Linked, Holds, Reaches;
    RunInv(steps, s);
    RunDiligent(steps, s);
    assert Knows(s.heap, s.chain, s.threads[t]) && Diligent(s.heap, s.threads[t]);
  }

  // ---------------------------------------------------------------- every insert takes effect once

  predicate Pending(phase: Phase) {
    !phase.Raise? && !phase.AddLen? && !phase.Done?
  }

  ghost predicate PendingCall(threads: map<nat, Thread>, c: nat) {
    exists t :: t in threads && threads[t].call == c && Pending(threads[t].phase)
  }

  // Entry j of the log is of one call, made before, and no other entry is of that call.
  ghost predicate EntryOk(s: State, j: nat)
    requires j < |s.who| == |s.log|
  {
    var c := s.who[j];
    c < |s.calls| && s.log[j] == s.calls[c].pair && s.calls[c].before <= j 
    && forall i :: 0 <= i < |s.who| && i != j ==> s.who[i] != c
  }

  ghost predicate ThreadOk(s: State, t: nat)
    requires t in s.threads
  {
    var th := s.threads[t];
    && th.call < |s.calls| && s.calls[th.call].pair == Pair(th.key, th.value)
    && (Pending(th.phase) <==> th.call !in s.who)
    && forall u :: u in s.threads && u != t ==> s.threads[u].call != th.call
  }

  // Every call is pending or has its entry.
  ghost predicate Booked(s: State) {
    && |s.who| == |s.log|
    && (forall j :: 0 <= j < |s.who| ==> EntryOk(s, j))
    && (forall t :: t in s.threads ==> ThreadOk(s, t))
    && (forall c :: 0 <= c < |s.calls| ==> c in s.who || PendingCall(s.threads, c))
    && (forall c :: 0 <= c < |s.calls| ==> s.calls[c].before <= |s.log|)
  }

  // A step of one insert that leaves log and calls alone, or logs its own pair.
  ghost predicate Moves(s: State, s': State, t: nat) {
    && t in s.threads && s'.calls == s.calls
    && (if t in s'.threads
        then
          && s'.threads == s.threads[t := s'.threads[t]]
          && s'.threads[t].call == s.threads[t].call
          && s'.threads[t].key == s.threads[t].key && s'.threads[t].value == s.threads[t].value
        else s'.threads == s.threads - {t} && !Pending(s.threads[t].phase))
    && (if t in s'.threads && Pending(s.threads[t].phase) && !Pending(s'.threads[t].phase)
        then s'.log == s.log + [Pair(s.threads[t].key, s.threads[t].value)] && s'.who == s.who + [s.threads[t].call]
        else
          && s'.log == s.log && s'.who == s.who
          && (t in s'.threads ==> (Pending(s.threads[t].phase) <==> Pending(s'.threads[t].phase))))
  }

  lemma StepMoves(s: State, t: nat)
    requires Enabled(s, Advance(t))
    ensures Moves(s, Next(s, Advance(t)), t)
  {
    hide WellFormed, Fits, SearchStep, FillStep, Found, Unchanged, Position, InsertAt, SetNext, NewNode;
    var th := s.threads[t];
    if th.phase.Search? { SearchPhase(s.heap, th); }
    if th.phase.Fill? { FillPhase(s.heap, th); }
  }

  lemma SearchPhase(heap: seq<Node>, t: Thread)
    requires WellFormed(heap) && Fits(|heap|, t) && t.phase.Search?
    ensures SearchStep(heap, t).phase.Search? || SearchStep(heap, t).phase.Fill?
    ensures SearchStep(heap, t).call == t.call && SearchStep(heap, t).key == t.key
            && SearchStep(heap, t).value == t.value
  {
  }

  lemma FillPhase(heap: seq<Node>, t: Thread)
    requires WellFormed(heap) && Fits(|heap|, t) && t.phase.Fill?
    ensures FillStep(heap, t).phase.Fill? || FillStep(heap, t).phase.Decide?
    ensures FillStep(heap, t).call == t.call && FillStep(heap, t).key == t.key && FillStep(heap, t).value == t.value
  {
  }

  lemma BookedEntry(s: State, s': State, t: nat, j: nat)
    requires Booked(s) && Moves(s, s', t) && j < |s'.who| == |s'.log|
    ensures EntryOk(s', j)
  {
    assert ThreadOk(s, t);
    if j < |s.who| {
      assert EntryOk(s, j);
    }
  }

  lemma BookedThread(s: State, s': State, t: nat, u: nat)
    requires Booked(s) && Moves(s, s', t) && u in s'.threads
    ensures ThreadOk(s', u)
  {
    assert ThreadOk(s, u) && ThreadOk(s, t);
  }

  lemma BookedCall(s: State, s': State, t: nat, c: nat)
    requires Booked(s) && Moves(s, s', t) && c < |s'.calls|
    ensures c in s'.who || PendingCall(s'.threads, c)
  {
    if c !in s'.who {
      var u :| u in s.threads && s.threads[u].call == c && Pending(s.threads[u].phase);
      assert u in s'.threads && s'.threads[u].call == c && Pending(s'.threads[u].phase);
    }
  }

  lemma BookedMoves(s: State, s': State, t: nat)
    requires Booked(s) && Moves(s, s', t)
    ensures Booked(s')
  {
    assert |s'.who| == |s'.log| && |s'.log| >= |s.log|;
    forall j | 0 <= j < |s'.who| ensures EntryOk(s', j) { BookedEntry(s, s', t, j); }
    forall u | u in s'.threads ensures ThreadOk(s', u) { BookedThread(s, s', t, u); }
    forall c | 0 <= c < |s'.calls| ensures c in s'.who || PendingCall(s'.threads, c) { BookedCall(s, s', t, c); }
  }

  lemma BookedStart(s: State, t: nat, key: Key, value: Key, lvl: nat)
    requires Booked(s) && t !in s.threads
    ensures Booked(s.(threads := s.threads[t := NewThread(s, key, value, lvl)],
                      calls := s.calls + [Call(Pair(key, value), |s.log|)]))
  {
    var s' := s.(threads := s.threads[t := NewThread(s, key, value, lvl)],
                 calls := s.calls + [Call(Pair(key, value), |s.log|)]);
    forall j | 0 <= j < |s'.who| ensures EntryOk(s', j) { assert EntryOk(s, j); }
    forall u | u in s'.threads ensures ThreadOk(s', u) {
      if u != t { assert ThreadOk(s, u); }
      forall j | 0 <= j < |s.who| ensures s.who[j] != |s.calls| { assert EntryOk(s, j); }
      forall v | v in s.threads ensures s.threads[v].call < |s.calls| { assert ThreadOk(s, v); }
    }
    forall c | 0 <= c < |s'.calls| ensures c in s'.who || PendingCall(s'.threads, c) {
      if c == |s.calls| {
        assert s'.threads[t].call == c && Pending(s'.threads[t].phase);
      } else if c !in s.who {
        var u :| u in s.threads && s.threads[u].call == c && Pending(s.threads[u].phase);
        assert s'.threads[u] == s.threads[u];
      }
    }
  }

  // Every call of Insert that has returned has put its pair into the order of effects
  // exactly once, after it was made; so has every one that has linked or stored, and no
  // other.  The table reads as if the pairs had been put in one after another.
  lemma {:induction false} TakesEffect(steps: seq<Step>, s: State)
    requires Reaches(steps, s)
    ensures Booked(s)
  {
    hide Next, Enabled, Booked;
    if steps == [] {
      assert Booked(s) by { NothingBooked(); }
    } else {
      var n := |steps| - 1;
      var before :| Reaches(steps[..n], before) && Enabled(before, steps[n]) && Next(before, steps[n]) == s;
      TakesEffect(steps[..n], before);
      match steps[n]
      case Insert(t, key, value, lvl) =>
        BookedStart(before, t, key, value, lvl) by { Inserts(before, steps[n]); }
        Inserts(before, steps[n]);
      case Advance(t) =>
        StepMoves(before, t);
        BookedMoves(before, s, t);
    }
  }

  lemma Inserts(s: State, step: Step)
    requires step.Insert? && Enabled(s, step)
    ensures step.t !in s.threads
    ensures Next(s, step) ==
            s.(threads := s.threads[step.t := NewThread(s, step.key, step.value, step.lvl)],
               calls := s.calls + [Call(Pair(step.key, step.value), |s.log|)])
  {
  }

  lemma NothingBooked()
    ensures Booked(New())
  {
  }

  function ChainKeys(heap: seq<Node>, chain: seq<nat>): (keys: seq<Key>)
    requires |chain| > 0 && forall j :: 0 <= j < |chain| ==> chain[j] < |heap|
    ensures |keys| == |chain| - 1 && forall j :: 0 <= j < |keys| ==> keys[j] == heap[chain[j + 1]].key
  {
    seq(|chain| - 1, j requires 0 <= j < |chain| - 1 => heap[chain[j + 1]].key)
  }

  // At every point of every run the level-0 chain is strictly sorted, and it holds
  // exactly the keys inserted so far, each with the value that took effect last.
  lemma ChainSorted(steps: seq<Step>, s: State)
    requires Reaches(steps, s)
    ensures WellFormed(s.heap) && Linked(s.heap, s.chain) && Sorted(ChainKeys(s.heap, s.chain))
    ensures Holds(s.heap, s.chain, Replay(s.log))
    ensures forall key :: key in ChainKeys(s.heap, s.chain) <==> key in Replay(s.log)
  {
    hide Reaches, AllKnow, Rank, KeysIncrease;
    RunInv(steps, s);
    KeysSorted(s.heap, s.chain);
    forall key ensures key in ChainKeys(s.heap, s.chain) <==> key in Replay(s.log) {
      KeyHeld(s.heap, s.chain, Replay(s.log), key);
    }
  }

  lemma KeysSorted(heap: seq<Node>, chain: seq<nat>)
    requires WellFormed(heap) && Linked(heap, chain)
    ensures Sorted(ChainKeys(heap, chain))
  {
    hide Rank;
  }

  lemma KeyHeld(heap: seq<Node>, chain: seq<nat>, table: map<Key, Key>, key: Key)
    requires WellFormed(heap) && Linked(heap, chain) && Holds(heap, chain, table)
    ensures key in ChainKeys(heap, chain) <==> key in table
  {
    hide Rank, KeysIncrease;
    var keys := ChainKeys(heap, chain);
    if key in keys {
      var j :| 0 <= j < |keys| && keys[j] == key;
      assert heap[chain[j + 1]].key == key;
    }
    if key in table {
      var j :| 1 <= j < |chain| && chain[j] < |heap| && heap[chain[j]].key == key;
      assert keys[j - 1] == key;
    }
  }

  // The counter lags behind by the inserts that have linked and not counted yet.
  lemma LengthExact(steps: seq<Step>, s: State)
    requires Reaches(steps, s)
    ensures s.len <= |s.chain| - 1
    ensures (forall t :: t in s.threads ==> s.threads[t].phase.Done?) ==> s.len == |s.chain| - 1
  {
    hide Linked, Holds, Reaches;
    RunInv(steps, s);
    if forall t :: t in s.threads ==> s.threads[t].phase.Done? {
      assert Counting(s.threads) == {};
    }
  }

  lemma InChain(heap: seq<Node>, chain: seq<nat>, n: nat)
    requires WellFormed(heap) && Linked(heap, chain) && n in chain
    ensures n < |heap|
  {
  }

  // A node that is in the chain stays there with its key for the rest of the run.
  lemma {:induction false} KeysStay(s: State, n: nat, more: seq<Step>, s': State)
    requires Inv(s) && n in s.chain && Passes(s, more, s')
    ensures n in s'.chain && n < |s.heap| <= |s'.heap| && s'.heap[n].key == s.heap[n].key
    decreases |more|
  {
    hide Next, Enabled, AllKnow, Holds, KeysIncrease;
    InChain(s.heap, s.chain, n);
    if more != [] {
      StepKeeps(s, more[0]);
      KeysStay(Next(s, more[0]), n, more[1..], s');
    }
  }

  // The steps lead from s to s'.
  ghost predicate Passes(s: State, steps: seq<Step>, s': State)
    decreases |steps|
  {
    if steps == [] then s == s' else Enabled(s, steps[0]) && Passes(Next(s, steps[0]), steps[1..], s')
  }

  // ---------------------------------------------------------------- Find and the iterator

  // Find while no insert is in flight: the last value stored for the key, or nothing.
  method Find(s: State, key: Key) returns (value: Option<Key>)
    requires Inv(s)
    ensures value == if key in Replay(s.log) then Some(Replay(s.log)[key]) else None
  {
    hide AllKnow, Replay, KeysIncrease, Holds, Rank, Compare;
    var curr := 0;
    ghost var p := 0;
    for i := s.level downto 0
      invariant p < |s.chain| && s.chain[p] == curr
      invariant p > 0 ==> Rank(s.heap[curr].key) < Rank(key)
      invariant i == 0 ==> Stops(s.heap, s.heap[curr].next[0], key)
    {
      var next := s.heap[curr].next[i];
      while next.Some? && Compare(s.heap[next.value].key, key) < 0
        invariant p < |s.chain| && s.chain[p] == curr && next == s.heap[curr].next[i]
        invariant p > 0 ==> Rank(s.heap[curr].key) < Rank(key)
        decreases |s.chain| - p
      {
        assert i == 0 && s.chain[p + 1] == next.value;
        CompareIsRankOrder(s.heap[next.value].key, key);
        curr, p := next.value, p + 1;
        next := s.heap[curr].next[i];
      }
    }
    FindsAt(s, key, p);
    var last := s.heap[curr].next[0];
    if last.None? {
      return None;
    }
    if s.heap[last.value].key == key {
      return Some(s.heap[last.value].value);
    }
    return None;
  }

  ghost predicate Stops(heap: seq<Node>, next: Option<nat>, key: Key) {
    next.Some? ==> next.value < |heap| && Compare(heap[next.value].key, key) >= 0
  }

  // Behind the last smaller key comes the key itself, if the list has it.
  lemma FindsAt(s: State, key: Key, p: nat)
    requires Inv(s) && p < |s.chain| && (p > 0 ==> Rank(s.heap[s.chain[p]].key) < Rank(key))
    requires Stops(s.heap, s.heap[s.chain[p]].next[0], key)
    ensures var next := s.heap[s.chain[p]].next[0];
            if next.Some? && s.heap[next.value].key == key
            then key in Replay(s.log) && Replay(s.log)[key] == s.heap[next.value].value
            else key !in Replay(s.log)
  {
    hide AllKnow, Replay, Rank, Compare;
    if p + 1 < |s.chain| { CompareIsRankOrder(s.heap[s.chain[p + 1]].key, key); }
    if key in Replay(s.log) {
      var j :| 1 <= j < |s.chain| && s.chain[j] < |s.heap| && s.heap[s.chain[j]].key == key;
      AfterSmaller(s.heap, s.chain, p, j);
    }
  }

  lemma AfterSmaller(heap: seq<Node>, chain: seq<nat>, p: nat, j: nat)
    requires WellFormed(heap) && Linked(heap, chain) && p < |chain| && 1 <= j < |chain|
    requires p > 0 ==> Rank(heap[chain[p]].key) < Rank(heap[chain[j]].key)
    requires p + 1 < |chain| ==> Rank(heap[chain[p + 1]].key) >= Rank(heap[chain[j]].key)
    ensures j == p + 1
  {
    hide Rank;
  }

  // Iterator: every pair once, in the order of the keys.
  method Iterate(s: State) returns (pairs: seq<Pair>)
    requires Inv(s)
    ensures forall i, j :: 0 <= i < j < |pairs| ==> Rank(pairs[i].key) < Rank(pairs[j].key)
    ensures forall i :: 0 <= i < |pairs| ==>
              pairs[i].key in Replay(s.log) && Replay(s.log)[pairs[i].key] == pairs[i].value
    ensures forall key :: key in Replay(s.log) ==> exists i :: 0 <= i < |pairs| && pairs[i].key == key
  {
    hide AllKnow, Replay, Rank, KeysIncrease, Holds;
    pairs := [];
    var current := s.heap[0].next[0];
    while current.Some?
      invariant |pairs| < |s.chain| && current == s.heap[s.chain[|pairs|]].next[0]
      invariant forall i :: 0 <= i < |pairs| ==>
                  pairs[i] == Pair(s.heap[s.chain[i + 1]].key, s.heap[s.chain[i + 1]].value)
      decreases |s.chain| - |pairs|
    {
      assert current.value == s.chain[|pairs| + 1];
      pairs := pairs + [Pair(s.heap[current.value].key, s.heap[current.value].value)];
      current := s.heap[current.value].next[0];
    }
    ChainEnds(s.heap, s.chain, |pairs|);
    PairsOfChain(s, pairs);
  }

  lemma PairsOfChain(s: State, pairs: seq<Pair>)
    requires Inv(s) && |pairs| == |s.chain| - 1
    requires forall i :: 0 <= i < |pairs| ==> pairs[i] == Pair(s.heap[s.chain[i + 1]].key, s.heap[s.chain[i + 1]].value)
    ensures forall i, j :: 0 <= i < j < |pairs| ==> Rank(pairs[i].key) < Rank(pairs[j].key)
    ensures forall i :: 0 <= i < |pairs| ==>
              pairs[i].key in Replay(s.log) && Replay(s.log)[pairs[i].key] == pairs[i].value
    ensures forall key :: key in Replay(s.log) ==> exists i :: 0 <= i < |pairs| && pairs[i].key == key
  {
    hide AllKnow, Replay, Rank;
    forall key | key in Replay(s.log) ensures exists i :: 0 <= i < |pairs| && pairs[i].key == key {
      var j :| 1 <= j < |s.chain| && s.chain[j] < |s.heap| && s.heap[s.chain[j]].key == key;
      assert pairs[j - 1].key == key;
    }
  }

  lemma ChainEnds(heap: seq<Node>, chain: seq<nat>, j: nat)
    requires WellFormed(heap) && Linked(heap, chain) && j < |chain| && heap[chain[j]].next[0] == None
    ensures j == |chain| - 1
  {
    NextInChain(heap, chain, j);
  }

  lemma NextInChain(heap: seq<Node>, chain: seq<nat>, j: nat)
    requires WellFormed(heap) && Linked(heap, chain) && j < |chain|
    ensures heap[chain[j]].next[0] == if j + 1 < |chain| then Some(chain[j + 1]) else None
  {
    hide KeysIncrease;
  }
}
