/**
 `arxi run tree` (cmd/arxi/runtree.go): any map of runs to declared parents, read from logs a
 person may have edited, becomes one tree with a spend total.

 Run ids are only compared and ordered, so they are numbers here; money is counted in a fixed
 unit.
 */
module RunTree {
  import opened Bytes

  type Id = nat

  /** spawnDepth is what the log says, validated by nothing. */
  datatype RunState = RunState(parent: Option<Id>, spent: int, spawnDepth: int)

  type Index = map<Id, RunState>

  /** A node with the depth and the children the walk gave it. */
  datatype Tree = Tree(id: Id, depth: nat, children: seq<Tree>)

  // ------------------------------------------------------------------ parent chains

  /** Following declared parents from n reaches the root after exactly k steps, and not before. */
  ghost predicate Chain(ix: Index, root: Id, n: Id, k: nat)
    decreases k
  {
    if k == 0 then n == root
    else n != root && n in ix && ix[n].parent.Some? && Chain(ix, root, ix[n].parent.value, k - 1)
  }

  /** The same, stopping at n: m hangs j levels below n. */
  ghost predicate Below(ix: Index, root: Id, n: Id, m: Id, j: nat)
    decreases j
  {
    if j == 0 then m == n
    else m != root && m in ix && ix[m].parent.Some? && Below(ix, root, n, ix[m].parent.value, j - 1)
  }

  predicate IsChild(ix: Index, root: Id, n: Id, c: Id) {
    c != root && c in ix && ix[c].parent == Some(n)
  }

  lemma {:induction false} ChainIsUnique(ix: Index, root: Id, n: Id, k: nat, k': nat)
    requires Chain(ix, root, n, k) && Chain(ix, root, n, k')
    ensures k == k'
    decreases k
  {
    if k > 0 {
      ChainIsUnique(ix, root, ix[n].parent.value, k - 1, k' - 1);
    }
  }

  lemma {:induction false} BelowExtendsChain(ix: Index, root: Id, n: Id, m: Id, j: nat, d: nat)
    requires Chain(ix, root, n, d) && Below(ix, root, n, m, j)
    ensures Chain(ix, root, m, d + j)
    decreases j
  {
    if j > 0 {
      BelowExtendsChain(ix, root, n, ix[m].parent.value, j - 1, d);
    }
  }

  lemma {:induction false} BelowOneNode(ix: Index, root: Id, n: Id, n': Id, m: Id, j: nat)
    requires Below(ix, root, n, m, j) && Below(ix, root, n', m, j)
    ensures n == n'
    decreases j
  {
    if j > 0 {
      BelowOneNode(ix, root, n, n', ix[m].parent.value, j - 1);
    }
  }

  /** The top step of a downward path. */
  lemma {:induction false} BelowViaChild(ix: Index, root: Id, n: Id, m: Id, j: nat) returns (c: Id)
    requires Below(ix, root, n, m, j + 1)
    ensures IsChild(ix, root, n, c) && Below(ix, root, c, m, j)
    decreases j
  {
    if j == 0 {
      c := m;
    } else {
      c := BelowViaChild(ix, root, n, ix[m].parent.value, j - 1);
    }
  }

  lemma {:induction false} ChildIsBelow(ix: Index, root: Id, n: Id, c: Id, m: Id, j: nat)
    requires IsChild(ix, root, n, c) && Below(ix, root, c, m, j)
    ensures Below(ix, root, n, m, j + 1)
    decreases j
  {
    if j == 0 {
      assert Below(ix, root, n, n, 0);
    } else {
      ChildIsBelow(ix, root, n, c, ix[m].parent.value, j - 1);
    }
  }

  lemma {:induction false} BelowRootIsChain(ix: Index, root: Id, m: Id, j: nat)
    ensures Below(ix, root, root, m, j) <==> Chain(ix, root, m, j)
    decreases j
  {
    if j > 0 && m in ix && ix[m].parent.Some? {
      BelowRootIsChain(ix, root, ix[m].parent.value, j - 1);
    }
  }

  // ------------------------------------------------------------------ the tree, specified

  predicate Increasing(s: seq<Id>) {
    forall i, j | 0 <= i < j < |s| :: s[i] < s[j]
  }

  function ChildIds(ts: seq<Tree>): (s: seq<Id>)
    ensures |s| == |ts| && forall i | 0 <= i < |ts| :: s[i] == ts[i].id
  {
    if ts == [] then [] else [ts[0].id] + ChildIds(ts[1..])
  }

  /** t is the tree below t.id at depth d: its children, in id order, and so on down. */
  ghost predicate IsTree(ix: Index, root: Id, t: Tree, d: nat)
    decreases t
  {
    && t.depth == d && t.id in ix
    && Increasing(ChildIds(t.children))
    && (forall c :: c in ChildIds(t.children) <==> IsChild(ix, root, t.id, c))
    && forall i | 0 <= i < |t.children| :: IsTree(ix, root, t.children[i], d + 1)
  }

  /** flattenRunTree: the nodes in the order they are printed. */
  function Flatten(t: Tree): seq<(Id, nat)> {
    [(t.id, t.depth)] + FlattenAll(t.children)
  }

  function FlattenAll(ts: seq<Tree>): seq<(Id, nat)> {
    if ts == [] then [] else Flatten(ts[0]) + FlattenAll(ts[1..])
  }

  ghost function IdSet(nodes: seq<(Id, nat)>): set<Id> {
    set i | 0 <= i < |nodes| :: nodes[i].0
  }

  ghost predicate Distinct(nodes: seq<(Id, nat)>) {
    forall i, j | 0 <= i < j < |nodes| :: nodes[i].0 != nodes[j].0
  }

  lemma {:induction false} IdSetAppend(a: seq<(Id, nat)>, b: seq<(Id, nat)>)
    ensures IdSet(a + b) == IdSet(a) + IdSet(b)
  {
    forall x | x in IdSet(a) + IdSet(b) ensures x in IdSet(a + b) {
      if x in IdSet(a) {
        var i :| 0 <= i < |a| && a[i].0 == x;
        assert (a + b)[i].0 == x;
      } else {
        var i :| 0 <= i < |b| && b[i].0 == x;
        assert (a + b)[|a| + i].0 == x;
      }
    }
  }

  lemma {:induction false} DistinctAppend(a: seq<(Id, nat)>, b: seq<(Id, nat)>)
    requires Distinct(a) && Distinct(b) && IdSet(a) !! IdSet(b)
    ensures Distinct(a + b)
  {
    forall i, j | 0 <= i < j < |a + b| ensures (a + b)[i].0 != (a + b)[j].0 {
      if i < |a| <= j {
        assert a[i].0 in IdSet(a) && b[j - |a|].0 in IdSet(b);
      }
    }
  }

  ghost predicate InSubtree(ix: Index, root: Id, n: Id, m: Id) {
    exists j: nat :: Below(ix, root, n, m, j)
  }

  ghost predicate InForest(ix: Index, root: Id, tops: seq<Id>, m: Id) {
    exists c :: c in tops && InSubtree(ix, root, c, m)
  }

  ghost predicate AtTrueDepth(ix: Index, root: Id, nodes: seq<(Id, nat)>) {
    forall i | 0 <= i < |nodes| :: Chain(ix, root, nodes[i].0, nodes[i].1)
  }

  lemma {:induction false} SubtreeIsTopAndForest(ix: Index, root: Id, n: Id, tops: seq<Id>, m: Id)
    requires forall c :: c in tops <==> IsChild(ix, root, n, c)
    ensures InSubtree(ix, root, n, m) <==> m == n || InForest(ix, root, tops, m)
  {
    assert Below(ix, root, n, n, 0);
    if m != n && InSubtree(ix, root, n, m) {
      var j: nat :| Below(ix, root, n, m, j);
      var c := BelowViaChild(ix, root, n, m, j - 1);
      assert c in tops && InSubtree(ix, root, c, m);
    }
    if InForest(ix, root, tops, m) {
      var c :| c in tops && InSubtree(ix, root, c, m);
      var j: nat :| Below(ix, root, c, m, j);
      ChildIsBelow(ix, root, n, c, m, j);
    }
  }

  /** No run hangs below its own child: only the root can close a cycle. */
  lemma {:induction false} NotBelowOwnChild(ix: Index, root: Id, n: Id, d: nat, c: Id)
    requires Chain(ix, root, n, d) && IsChild(ix, root, n, c)
    ensures !InSubtree(ix, root, c, n)
  {
    if j: nat :| Below(ix, root, c, n, j) {
      ChildIsBelow(ix, root, n, c, n, j);
      BelowExtendsChain(ix, root, n, n, j + 1, d);
      ChainIsUnique(ix, root, n, d, d + j + 1);
    }
  }

  /** A run below two siblings makes them one: parents are functional and depths unique. */
  lemma {:induction false} SiblingsAreDisjoint(ix: Index, root: Id, n: Id, d: nat, c: Id, c': Id, m: Id)
    requires Chain(ix, root, n, d) && IsChild(ix, root, n, c) && IsChild(ix, root, n, c')
    requires InSubtree(ix, root, c, m) && InSubtree(ix, root, c', m)
    ensures c == c'
  {
    var j: nat :| Below(ix, root, c, m, j);
    var j': nat :| Below(ix, root, c', m, j');
    ChildChain(ix, root, n, d, c);
    ChildChain(ix, root, n, d, c');
    BelowExtendsChain(ix, root, c, m, j, d + 1);
    BelowExtendsChain(ix, root, c', m, j', d + 1);
    ChainIsUnique(ix, root, m, d + 1 + j, d + 1 + j');
    BelowOneNode(ix, root, c, c', m, j);
  }

  lemma {:induction false} ChildChain(ix: Index, root: Id, n: Id, d: nat, c: Id)
    requires Chain(ix, root, n, d) && IsChild(ix, root, n, c)
    ensures Chain(ix, root, c, d + 1)
  {
  }

  /** Every run of the subtree, at its true depth, exactly once. */
  lemma {:induction false} TreeHoldsItsSubtree(ix: Index, root: Id, t: Tree, d: nat)
    requires IsTree(ix, root, t, d) && Chain(ix, root, t.id, d)
    ensures forall m :: m in IdSet(Flatten(t)) <==> InSubtree(ix, root, t.id, m)
    ensures AtTrueDepth(ix, root, Flatten(t)) && Distinct(Flatten(t))
    decreases t, 1
  {
    hide InSubtree;
    hide Chain;
    var tops := ChildIds(t.children);
    assert forall c :: c in tops <==> IsChild(ix, root, t.id, c);
    ForestHoldsItsSubtrees(ix, root, t, t.children, d);
    hide IsTree;
    var top, rest := [(t.id, t.depth)], FlattenAll(t.children);
    IdSetAppend(top, rest);
    assert IdSet(top) == {t.id} by { assert top[0].0 == t.id; }
    forall m ensures InSubtree(ix, root, t.id, m) <==> m == t.id || InForest(ix, root, tops, m) {
      SubtreeIsTopAndForest(ix, root, t.id, tops, m);
    }
    forall c | c in tops ensures !InSubtree(ix, root, c, t.id) {
      NotBelowOwnChild(ix, root, t.id, d, c);
    }
    assert t.id !in IdSet(rest);
    DistinctAppend(top, rest);
  }

  lemma {:induction false} ForestHoldsItsSubtrees(ix: Index, root: Id, t: Tree, ts: seq<Tree>, d: nat)
    requires Chain(ix, root, t.id, d)
    requires Increasing(ChildIds(ts)) && forall c | c in ChildIds(ts) :: IsChild(ix, root, t.id, c)
    requires forall i | 0 <= i < |ts| :: ts[i] in t.children && IsTree(ix, root, ts[i], d + 1)
    ensures forall m :: m in IdSet(FlattenAll(ts)) <==> InForest(ix, root, ChildIds(ts), m)
    ensures AtTrueDepth(ix, root, FlattenAll(ts)) && Distinct(FlattenAll(ts))
    decreases t, 0, |ts|
  {
    hide InSubtree, Chain, IsTree, Distinct, InForest, IdSet, Flatten, AtTrueDepth;
    if ts != [] {
      var head, tail := ts[0], ts[1..];
      var ids, later := ChildIds(ts), ChildIds(tail);
      assert ids == [head.id] + later;
      assert head.id in ids && head in t.children;
      ChildChain(ix, root, t.id, d, head.id);
      TreeHoldsItsSubtree(ix, root, head, d + 1);
      assert forall i | 0 <= i < |tail| :: tail[i] == ts[i + 1] && later[i] == ids[i + 1];
      ForestHoldsItsSubtrees(ix, root, t, tail, d);
      IdSetAppend(Flatten(head), FlattenAll(tail));
      ForestCons(ix, root, head.id, later);
      HeadIsApart(ix, root, t.id, d, head.id, later);
      DistinctAppend(Flatten(head), FlattenAll(tail));
      TrueDepthAppend(ix, root, Flatten(head), FlattenAll(tail));
    } else {
      EmptyForest(ix, root);
    }
  }

  lemma {:induction false} EmptyForest(ix: Index, root: Id)
    ensures IdSet([]) == {} && Distinct([]) && AtTrueDepth(ix, root, []) && forall m :: !InForest(ix, root, [], m)
  {
  }

  lemma {:induction false} TrueDepthAppend(ix: Index, root: Id, a: seq<(Id, nat)>, b: seq<(Id, nat)>)
    requires AtTrueDepth(ix, root, a) && AtTrueDepth(ix, root, b)
    ensures AtTrueDepth(ix, root, a + b)
  {
    hide Chain;
  }

  lemma {:induction false} ForestCons(ix: Index, root: Id, h: Id, later: seq<Id>)
    ensures forall m :: InForest(ix, root, [h] + later, m) <==>
              InSubtree(ix, root, h, m) || InForest(ix, root, later, m)
  {
    hide InSubtree;
    assert forall c :: c in [h] + later <==> c == h || c in later;
  }

  /** Nothing below the first child is below a later one. */
  lemma {:induction false} HeadIsApart(ix: Index, root: Id, n: Id, d: nat, h: Id, later: seq<Id>)
    requires Chain(ix, root, n, d) && Increasing([h] + later)
    requires forall c | c in [h] + later :: IsChild(ix, root, n, c)
    ensures forall m :: InForest(ix, root, later, m) ==> !InSubtree(ix, root, h, m)
  {
    hide InSubtree, Chain, IsChild;
    var ids := [h] + later;
    assert forall i | 0 <= i < |later| :: ids[i + 1] == later[i] && ids[0] < ids[i + 1];
    forall m | InForest(ix, root, later, m) ensures !InSubtree(ix, root, h, m) {
      var c :| c in later && InSubtree(ix, root, c, m);
      assert h != c && c in ids && h in ids;
      if InSubtree(ix, root, h, m) { SiblingsAreDisjoint(ix, root, n, d, h, c, m); }
    }
  }

  /** The run's parent chain leads to the root. */
  ghost predicate Reachable(ix: Index, root: Id, m: Id) {
    exists k: nat :: Chain(ix, root, m, k)
  }

  /** From the root: exactly the runs whose parent chain reaches it, each once, at that distance. */
  lemma {:induction false} TreeIsTheReachableSet(ix: Index, root: Id, t: Tree)
    requires IsTree(ix, root, t, 0) && t.id == root
    ensures forall m :: m in IdSet(Flatten(t)) <==> Reachable(ix, root, m)
    ensures AtTrueDepth(ix, root, Flatten(t)) && Distinct(Flatten(t))
  {
    TreeHoldsItsSubtree(ix, root, t, 0);
    hide InSubtree;
    hide IsTree;
    forall m ensures m in IdSet(Flatten(t)) <==> Reachable(ix, root, m) {
      SubtreeOfRootIsReachable(ix, root, m);
    }
  }

  lemma {:induction false} SubtreeOfRootIsReachable(ix: Index, root: Id, m: Id)
    ensures InSubtree(ix, root, root, m) <==> Reachable(ix, root, m)
  {
    if j: nat :| Below(ix, root, root, m, j) {
      BelowRootIsChain(ix, root, m, j);
    }
    if k: nat :| Chain(ix, root, m, k) {
      BelowRootIsChain(ix, root, m, k);
    }
  }

  lemma {:induction false} IncreasingIsUnique(a: seq<Id>, b: seq<Id>)
    requires Increasing(a) && Increasing(b) && forall x :: x in a <==> x in b
    ensures a == b
    decreases |a|
  {
    assert a != [] ==> a[0] in b;
    assert b != [] ==> b[0] in a;
    if a != [] {
      assert a[0] == b[0];
      forall x ensures x in a[1..] <==> x in b[1..] {
        assert x in a[1..] ==> x in a && a[0] < x;
        assert x in b[1..] ==> x in b && b[0] < x;
        assert x in a && x != a[0] ==> x in a[1..];
        assert x in b && x != b[0] ==> x in b[1..];
      }
      IncreasingIsUnique(a[1..], b[1..]);
    }
  }

  /** The index map's iteration order cannot show: there is only one such tree. */
  lemma {:induction false} TreeIsUnique(ix: Index, root: Id, t: Tree, t': Tree, d: nat)
    requires IsTree(ix, root, t, d) && IsTree(ix, root, t', d) && t.id == t'.id
    ensures t == t'
    decreases t
  {
    IncreasingIsUnique(ChildIds(t.children), ChildIds(t'.children));
    forall i | 0 <= i < |t.children| ensures t.children[i] == t'.children[i] {
      TreeIsUnique(ix, root, t.children[i], t'.children[i], d + 1);
    }
  }

  // ------------------------------------------------------------------ the walk

  lemma {:induction false} HeadIsLeast(s: seq<Id>)
    requires Increasing(s) && s != []
    ensures Increasing(s[1..]) && forall y | y in s[1..] :: s[0] < y
  {
  }

  lemma {:induction false} ConsIncreasing(x: Id, s: seq<Id>)
    requires Increasing(s) && forall y | y in s :: x < y
    ensures Increasing([x] + s) && forall y :: y in [x] + s <==> y == x || y in s
  {
    assert forall i | 0 <= i < |s| :: s[i] in s;
  }

  function Insert(x: Id, s: seq<Id>): (r: seq<Id>)
    requires Increasing(s) && x !in s
    ensures Increasing(r) && forall y :: y in r <==> y == x || y in s
  {
    if s == [] then [x]
    else
      HeadIsLeast(s);
      assert s == [s[0]] + s[1..];
      if x < s[0] then ConsIncreasing(x, s); [x] + s
      else
        assert x != s[0];
        ConsIncreasing(s[0], Insert(x, s[1..]));
        [s[0]] + Insert(x, s[1..])
  }

  ghost predicate NoRepeats(s: seq<Id>) {
    forall i, j | 0 <= i < j < |s| :: s[i] != s[j]
  }

  /** sort.Slice by id, on a list without repetitions. */
  function Sort(s: seq<Id>): (r: seq<Id>)
    requires NoRepeats(s)
    ensures Increasing(r) && forall y :: y in r <==> y in s
  {
    if s == [] then []
    else
      assert forall y :: y in s <==> y == s[0] || y in s[1..];
      Insert(s[0], Sort(s[1..]))
  }

  type Lists = map<Id, seq<Id>>

  function Kids(lists: Lists, p: Id): seq<Id> {
    if p in lists then lists[p] else []
  }

  /** byParent after sorting: who names whom, in id order. The root is not left out. */
  ghost predicate Grouped(ix: Index, lists: Lists) {
    forall p: Id :: NamesParent(ix, p, Kids(lists, p))
  }

  ghost predicate NamesParent(ix: Index, p: Id, kids: seq<Id>) {
    Increasing(kids) && forall c :: c in kids <==> c in ix && ix[c].parent == Some(p)
  }

  /** The runs taken from the index so far, listed under their parents without repetition. */
  ghost predicate Listed(ix: Index, todo: set<Id>, lists: Lists) {
    && (forall p: Id, c :: c in Kids(lists, p) <==> c in ix && c !in todo && ix[c].parent == Some(p))
    && forall p: Id :: NoRepeats(Kids(lists, p))
  }

  lemma {:induction false} ListOneMore(ix: Index, todo: set<Id>, lists: Lists, n: Id, p: Id)
    requires Listed(ix, todo, lists) && n in todo && n in ix && ix[n].parent == Some(p)
    ensures Listed(ix, todo - {n}, lists[p := Kids(lists, p) + [n]])
  {
    var more := lists[p := Kids(lists, p) + [n]];
    forall q: Id, c ensures c in Kids(more, q) <==> c in ix && c !in todo - {n} && ix[c].parent == Some(q) {
      assert Kids(more, q) == if q == p then Kids(lists, p) + [n] else Kids(lists, q);
    }
    assert n !in Kids(lists, p);
    forall q: Id ensures NoRepeats(Kids(more, q)) {
      assert Kids(more, q) == if q == p then Kids(lists, p) + [n] else Kids(lists, q);
    }
  }

  /** The first loop of linkRunTree, over the index in any order, and the sort after it. */
  method GroupByParent(ix: Index) returns (lists: Lists)
    ensures Grouped(ix, lists)
  {
    var raw: Lists := map[];
    var todo := ix.Keys;
    assert forall p: Id :: Kids(raw, p) == [];
    while todo != {}
      invariant todo <= ix.Keys && Listed(ix, todo, raw)
      decreases todo
    {
      var n :| n in todo;
      match ix[n].parent {
        case None =>
        case Some(p) =>
          ListOneMore(ix, todo, raw, n, p);
          raw := raw[p := Kids(raw, p) + [n]];
      }
      todo := todo - {n};
    }
    lists := SortAll(ix, raw);
  }

  function SortAll(ix: Index, raw: Lists): (lists: Lists)
    requires Listed(ix, {}, raw)
    ensures Grouped(ix, lists)
  {
    hide NoRepeats;
    hide Increasing;
    var lists := map p | p in raw :: SortOne(ix, raw, p);
    assert Increasing([]) by { SortNothing(); }
    assert forall p: Id :: Kids(lists, p) == if p in raw then SortOne(ix, raw, p) else [];
    lists
  }

  lemma {:induction false} SortNothing()
    ensures Increasing([])
  {
  }

  function SortOne(ix: Index, raw: Lists, p: Id): (s: seq<Id>)
    requires Listed(ix, {}, raw)
    ensures NamesParent(ix, p, s)
  {
    Sort(Kids(raw, p))
  }

  /** Where the root shows up as somebody's child: the only edge that can close a cycle. */
  ghost function Closing(ix: Index, root: Id, s: set<Id>): seq<(Id, Id)>
    requires root in ix
  {
    if ix[root].parent.Some? && ix[root].parent.value in s then [(root, ix[root].parent.value)] else []
  }

  lemma {:induction false} IncreasingAppend(s: seq<Id>, last: Id)
    ensures Increasing(s + [last]) <==> Increasing(s) && forall y | y in s :: y < last
  {
    var all := s + [last];
    assert all[|s|] == last && forall i | 0 <= i < |s| :: all[i] == s[i] && s[i] in s;
    if Increasing(all) {
      forall y | y in s ensures y < last {
        var i :| 0 <= i < |s| && s[i] == y;
        assert all[i] < all[|s|];
      }
    }
  }

  function Without(s: seq<Id>, x: Id): (r: seq<Id>)
    ensures forall y :: y in r <==> y in s && y != x
    decreases |s|
  {
    if s == [] then []
    else
      var r := Without(s[..|s| - 1], x);
      var last := s[|s| - 1];
      assert s == s[..|s| - 1] + [last];
      if last == x then r else r + [last]
  }

  lemma {:induction false} WithoutIncreases(s: seq<Id>, x: Id)
    requires Increasing(s)
    ensures Increasing(Without(s, x))
    decreases |s|
  {
    hide Increasing;
    if s != [] {
      var front, last := s[..|s| - 1], s[|s| - 1];
      assert s == front + [last];
      IncreasingAppend(front, last);
      WithoutIncreases(front, x);
      IncreasingAppend(Without(front, x), last);
    } else {
      assert Without(s, x) == s;
    }
  }

  lemma {:induction false} FlattenAllAppend(ts: seq<Tree>, t: Tree)
    ensures FlattenAll(ts + [t]) == FlattenAll(ts) + Flatten(t)
    ensures ChildIds(ts + [t]) == ChildIds(ts) + [t.id]
  {
    if ts == [] {
      assert [t][1..] == [] && FlattenAll([]) == [];
    } else {
      assert (ts + [t])[1..] == ts[1..] + [t];
      FlattenAllAppend(ts[1..], t);
    }
  }

  /** Unvisited: nothing in these subtrees has been seen yet. */
  ghost predicate Unseen(ix: Index, root: Id, tops: seq<Id>, seen: set<Id>) {
    forall m | InForest(ix, root, tops, m) :: m !in seen
  }

  /** Of n's list `kids`, the first i have been dealt with. */
  ghost predicate Progress(ix: Index, root: Id, n: Id, depth: nat, kids: seq<Id>, i: nat, children: seq<Tree>,
                           seen0: set<Id>, seen: set<Id>, cycles0: seq<(Id, Id)>, cycles: seq<(Id, Id)>)
    requires root in ix && i <= |kids|
  {
    && ChildIds(children) == Without(kids[..i], root)
    && (forall j | 0 <= j < |children| :: IsTree(ix, root, children[j], depth + 1))
    && n !in IdSet(FlattenAll(children))
    && seen == seen0 + {n} + IdSet(FlattenAll(children))
    && Unseen(ix, root, Without(kids[i..], root), seen)
    && cycles == cycles0 + Closing(ix, root, (if root in kids[..i] then {n} else {}) + IdSet(FlattenAll(children)))
  }

  lemma {:induction false} ProgressStart(ix: Index, root: Id, n: Id, depth: nat, kids: seq<Id>, seen0: set<Id>,
                                         cycles0: seq<(Id, Id)>)
    requires root in ix && Chain(ix, root, n, depth)
    requires NamesParent(ix, n, kids)
    requires Unseen(ix, root, [n], seen0)
    ensures Progress(ix, root, n, depth, kids, 0, [], seen0, seen0 + {n}, cycles0, cycles0)
  {
    hide Chain;
    var tops := Without(kids, root);
    assert kids[..0] == [] && kids[0..] == kids && FlattenAll([]) == [] && IdSet([]) == {};
    forall m | InForest(ix, root, tops, m) ensures m !in seen0 + {n} {
      SubtreeIsTopAndForest(ix, root, n, tops, m);
      var c :| c in tops && InSubtree(ix, root, c, m);
      NotBelowOwnChild(ix, root, n, depth, c);
      assert n in [n] && InForest(ix, root, [n], m);
    }
  }

  lemma {:induction false} WithoutStep(kids: seq<Id>, i: nat, root: Id)
    requires i < |kids|
    ensures Without(kids[..i + 1], root) == Without(kids[..i], root) + if kids[i] == root then [] else [kids[i]]
    ensures forall c :: c in Without(kids[i..], root) <==>
              (c == kids[i] && c != root) || c in Without(kids[i + 1..], root)
    ensures root in kids[..i + 1] <==> root in kids[..i] || root == kids[i]
  {
    assert kids[..i + 1][..i] == kids[..i] && kids[..i + 1] == kids[..i] + [kids[i]];
    assert kids[i..] == [kids[i]] + kids[i + 1..];
  }

  lemma {:induction false} ProgressAtRoot(ix: Index, root: Id, n: Id, depth: nat, kids: seq<Id>, i: nat,
                                          children: seq<Tree>,
                       seen0: set<Id>, seen: set<Id>, cycles0: seq<(Id, Id)>, cycles: seq<(Id, Id)>)
    requires root in ix && i < |kids| && NamesParent(ix, n, kids)
    requires Progress(ix, root, n, depth, kids, i, children, seen0, seen, cycles0, cycles)
    requires kids[i] == root
    ensures Progress(ix, root, n, depth, kids, i + 1, children, seen0, seen, cycles0, cycles + [(root, n)])
  {
    hide IsTree, InSubtree, InForest, Unseen, Closing, IdSet, FlattenAll, Without;
    assert kids[i] in kids;
    WithoutStep(kids, i, root);
    RootCloses(ix, root, n, IdSet(FlattenAll(children)));
    assert root !in kids[..i];
    UnseenFewer(ix, root, Without(kids[i..], root), Without(kids[i + 1..], root), seen);
  }

  lemma {:induction false} UnseenFewer(ix: Index, root: Id, tops: seq<Id>, fewer: seq<Id>, seen: set<Id>)
    requires Unseen(ix, root, tops, seen) && forall c | c in fewer :: c in tops
    ensures Unseen(ix, root, fewer, seen)
  {
    hide InSubtree;
    forall m | InForest(ix, root, fewer, m) ensures m !in seen {
      var c :| c in fewer && InSubtree(ix, root, c, m);
      assert c in tops;
      assert InForest(ix, root, tops, m);
    }
  }

  /** The parent of the root closes a cycle when it is among the nodes. */
  lemma {:induction false} RootCloses(ix: Index, root: Id, n: Id, nodes: set<Id>)
    requires root in ix && ix[root].parent == Some(n) && n !in nodes
    ensures Closing(ix, root, {} + nodes) == [] && Closing(ix, root, {n} + nodes) == [(root, n)]
  {
  }

  lemma {:induction false} ProgressAtChild(ix: Index, root: Id, n: Id, depth: nat, kids: seq<Id>, i: nat,
                                           children: seq<Tree>,
                        seen0: set<Id>, seen: set<Id>, cycles0: seq<(Id, Id)>, cycles: seq<(Id, Id)>, child: Tree)
    requires root in ix && i < |kids| && NamesParent(ix, n, kids) && Chain(ix, root, n, depth)
    requires Progress(ix, root, n, depth, kids, i, children, seen0, seen, cycles0, cycles)
    requires kids[i] == child.id != root && IsTree(ix, root, child, depth + 1)
    ensures Progress(ix, root, n, depth, kids, i + 1, children + [child], seen0, seen + IdSet(Flatten(child)),
                     cycles0, cycles + Closing(ix, root, IdSet(Flatten(child))))
  {
    hide IsTree;
    hide Chain;
    hide InSubtree;
    hide InForest;
    hide IdSet;
    hide FlattenAll;
    hide Closing;
    hide NamesParent;
    var ch, nodes := child.id, IdSet(Flatten(child));
    var before := (if root in kids[..i] then {n} else {}) + IdSet(FlattenAll(children));
    ChildSubtree(ix, root, n, depth, kids, i, child, seen);
    WithoutStep(kids, i, root);
    FlattenAllAppend(children, child);
    IdSetAppend(FlattenAll(children), Flatten(child));
    ClosingAdds(ix, root, before, nodes);
    assert before + nodes == (if root in kids[..i + 1] then {n} else {}) + IdSet(FlattenAll(children + [child]));
  }

  lemma {:induction false} ClosingAdds(ix: Index, root: Id, a: set<Id>, b: set<Id>)
    requires root in ix && a !! b
    ensures Closing(ix, root, a + b) == Closing(ix, root, a) + Closing(ix, root, b)
  {
  }

  /** The walked child's runs were all unseen, and are apart from n and from the later siblings' runs. */
  lemma {:induction false} ChildSubtree(ix: Index, root: Id, n: Id, depth: nat, kids: seq<Id>, i: nat, child: Tree,
                                        seen: set<Id>)
    requires root in ix && i < |kids| && NamesParent(ix, n, kids) && Chain(ix, root, n, depth)
    requires Unseen(ix, root, Without(kids[i..], root), seen)
    requires kids[i] == child.id != root && IsTree(ix, root, child, depth + 1)
    ensures IdSet(Flatten(child)) !! seen && n !in IdSet(Flatten(child))
    ensures Unseen(ix, root, Without(kids[i + 1..], root), seen + IdSet(Flatten(child)))
  {
    hide IsTree;
    hide Chain;
    hide InSubtree;
    hide IdSet;
    var ch, nodes := child.id, IdSet(Flatten(child));
    assert ch in kids && IsChild(ix, root, n, ch);
    ChildChain(ix, root, n, depth, ch);
    TreeHoldsItsSubtree(ix, root, child, depth + 1);
    NotBelowOwnChild(ix, root, n, depth, ch);
    WithoutStep(kids, i, root);
    assert ch in Without(kids[i..], root);
    assert forall m | m in nodes :: InForest(ix, root, Without(kids[i..], root), m);
    forall m | InForest(ix, root, Without(kids[i + 1..], root), m) ensures m !in seen + nodes {
      var c :| c in Without(kids[i + 1..], root) && InSubtree(ix, root, c, m);
      assert c in Without(kids[i..], root) && InForest(ix, root, Without(kids[i..], root), m);
      var k :| i + 1 <= k < |kids| && kids[k] == c by { LaterIndex(kids, i + 1, c); }
      assert c in kids && IsChild(ix, root, n, c) && ch < c;
      if m in nodes {
        SiblingsAreDisjoint(ix, root, n, depth, ch, c, m);
      }
    }
  }

  lemma {:induction false} LaterIndex(kids: seq<Id>, i: nat, c: Id)
    requires i <= |kids| && c in kids[i..]
    ensures exists k :: i <= k < |kids| && kids[k] == c
  {
    var j :| 0 <= j < |kids[i..]| && kids[i..][j] == c;
    assert kids[i + j] == c;
  }

  lemma {:induction false} ProgressDone(ix: Index, root: Id, n: Id, depth: nat, kids: seq<Id>, children: seq<Tree>,
                     seen0: set<Id>, seen: set<Id>, cycles0: seq<(Id, Id)>, cycles: seq<(Id, Id)>)
    requires root in ix && n in ix && NamesParent(ix, n, kids)
    requires Progress(ix, root, n, depth, kids, |kids|, children, seen0, seen, cycles0, cycles)
    ensures var t := Tree(n, depth, children);
            && IsTree(ix, root, t, depth)
            && seen == seen0 + IdSet(Flatten(t))
            && cycles == cycles0 + Closing(ix, root, IdSet(Flatten(t)))
  {
    hide Increasing, Unseen, FlattenAll, IsTree, Closing;
    assert kids[..|kids|] == kids;
    WithoutIncreases(kids, root);
    var t := Tree(n, depth, children);
    NodeIsTree(ix, root, t, depth);
    var top := [(n, depth)];
    IdSetAppend(top, FlattenAll(children));
    assert IdSet(top) == {n} by { assert top[0].0 == n; }
    var nodes := IdSet(FlattenAll(children));
    ClosingIs(ix, root, n, kids, nodes);
    assert seen0 + {n} + nodes == seen0 + ({n} + nodes);
  }

  lemma {:induction false} NodeIsTree(ix: Index, root: Id, t: Tree, d: nat)
    requires t.depth == d && t.id in ix && Increasing(ChildIds(t.children))
    requires forall c :: c in ChildIds(t.children) <==> IsChild(ix, root, t.id, c)
    requires forall i | 0 <= i < |t.children| :: IsTree(ix, root, t.children[i], d + 1)
    ensures IsTree(ix, root, t, d)
  {
  }

  /** Whether root's parent is n or below is what both forms of the report ask. */
  lemma {:induction false} ClosingIs(ix: Index, root: Id, n: Id, kids: seq<Id>, nodes: set<Id>)
    requires root in ix && NamesParent(ix, n, kids)
    ensures Closing(ix, root, (if root in kids then {n} else {}) + nodes) == Closing(ix, root, {n} + nodes)
  {
  }

  /** linkRunTree's closure: the visited set, the cycle reports, and the walk that fills them. */
  class TreeWalk {
    const ix: Index
    const root: Id
    const lists: Lists
    var seen: set<Id>
    var cycles: seq<(Id, Id)>

    constructor (ix: Index, root: Id, lists: Lists)
      ensures this.ix == ix && this.root == root && this.lists == lists && seen == {} && cycles == []
    {
      this.ix, this.root, this.lists := ix, root, lists;
      seen, cycles := {}, [];
    }

    /**
     Visits n at its depth. The walk ends because every call adds an unseen run; it sees exactly
     the subtree of n; the guard fires on the root alone, and once exactly when the root's own
     parent is visited.
     */
    method Walk(n: Id, depth: nat) returns (t: Tree)
      requires root in ix && Grouped(ix, lists) && n in ix && Chain(ix, root, n, depth)
      requires Unseen(ix, root, [n], seen) && (n != root ==> root in seen)
      modifies this
      ensures t.id == n && IsTree(ix, root, t, depth)
      ensures seen == old(seen) + IdSet(Flatten(t))
      ensures cycles == old(cycles) + Closing(ix, root, IdSet(Flatten(t)))
      decreases ix.Keys - seen
    {
      hide InSubtree, InForest, Chain, IsTree, IdSet, FlattenAll, Closing, NamesParent, Unseen, Progress;
      StartsUnseen(ix, root, n, seen);
      var kids := Kids(lists, n);
      ProgressStart(ix, root, n, depth, kids, seen, cycles);
      seen := seen + {n};
      var children: seq<Tree> := [];
      var i: nat := 0;
      while i < |kids|
        invariant i <= |kids|
        invariant Progress(ix, root, n, depth, kids, i, children, old(seen), seen, old(cycles), cycles)
        invariant root in seen && old(seen) + {n} <= seen
      {
        var ch := kids[i];
        KidIsChild(ix, root, n, kids, i);
        ProgressUnseen(ix, root, n, depth, kids, i, children, old(seen), seen, old(cycles), cycles);
        if ch in seen {
          ProgressAtRoot(ix, root, n, depth, kids, i, children, old(seen), seen, old(cycles), cycles);
          cycles := cycles + [(ch, n)];
        } else {
          ChildChain(ix, root, n, depth, ch);
          ghost var seen1, cycles1 := seen, cycles;
          var child := Walk(ch, depth + 1);
          ProgressAtChild(ix, root, n, depth, kids, i, children, old(seen), seen1, old(cycles), cycles1, child);
          children := children + [child];
        }
        i := i + 1;
      }
      ProgressDone(ix, root, n, depth, kids, children, old(seen), seen, old(cycles), cycles);
      t := Tree(n, depth, children);
    }
  }

  lemma {:induction false} KidIsChild(ix: Index, root: Id, n: Id, kids: seq<Id>, i: nat)
    requires NamesParent(ix, n, kids) && i < |kids|
    ensures kids[i] in ix && (kids[i] != root ==> IsChild(ix, root, n, kids[i]))
  {
    assert kids[i] in kids;
  }

  lemma {:induction false} StartsUnseen(ix: Index, root: Id, n: Id, seen: set<Id>)
    requires Unseen(ix, root, [n], seen)
    ensures n !in seen
  {
    assert Below(ix, root, n, n, 0);
    assert n in [n] && InSubtree(ix, root, n, n) && InForest(ix, root, [n], n);
  }

  /** A list entry is already seen exactly when it is the root. */
  lemma {:induction false} ProgressUnseen(ix: Index, root: Id, n: Id, depth: nat, kids: seq<Id>, i: nat,
                                          children: seq<Tree>,
                       seen0: set<Id>, seen: set<Id>, cycles0: seq<(Id, Id)>, cycles: seq<(Id, Id)>)
    requires root in ix && i < |kids| && root in seen
    requires Progress(ix, root, n, depth, kids, i, children, seen0, seen, cycles0, cycles)
    ensures kids[i] in seen <==> kids[i] == root
    ensures kids[i] != root ==> Unseen(ix, root, [kids[i]], seen)
  {
    WithoutStep(kids, i, root);
    assert Below(ix, root, kids[i], kids[i], 0);
    if kids[i] != root {
      assert kids[i] in Without(kids[i..], root) && InSubtree(ix, root, kids[i], kids[i]);
      forall m | InForest(ix, root, [kids[i]], m) ensures m !in seen {
        assert InForest(ix, root, Without(kids[i..], root), m);
      }
    }
  }

  /** The nodes whose recorded spawn depth is not where they sit, in printed order. */
  function Misplaced(ix: Index, nodes: seq<(Id, nat)>): seq<(Id, nat)>
    decreases |nodes|
  {
    if nodes == [] then []
    else
      var n := nodes[|nodes| - 1];
      Misplaced(ix, nodes[..|nodes| - 1]) + if n.0 in ix && ix[n.0].spawnDepth != n.1 then [n] else []
  }

  /** linkRunTree: group, walk from the root, then compare each node's depth with the recorded one. */
  method LinkRunTree(ix: Index, root: Id) returns (t: Tree, cycles: seq<(Id, Id)>, misplaced: seq<(Id, nat)>)
    requires root in ix
    ensures t.id == root && IsTree(ix, root, t, 0)
    ensures cycles == Closing(ix, root, IdSet(Flatten(t)))
    ensures misplaced == Misplaced(ix, Flatten(t))
  {
    hide IsTree, Closing, IdSet;
    var lists := GroupByParent(ix);
    var walk := new TreeWalk(ix, root, lists);
    t := walk.Walk(root, 0);
    cycles := walk.cycles;
    var nodes := Flatten(t);
    misplaced := [];
    for i := 0 to |nodes|
      invariant misplaced == Misplaced(ix, nodes[..i])
    {
      assert nodes[..i + 1][..i] == nodes[..i];
      if nodes[i].0 in ix && ix[nodes[i].0].spawnDepth != nodes[i].1 {
        misplaced := misplaced + [nodes[i]];
      }
    }
    assert nodes[..|nodes|] == nodes;
  }

  lemma {:induction false} MisplacedAre(ix: Index, nodes: seq<(Id, nat)>, n: (Id, nat))
    ensures n in Misplaced(ix, nodes) <==> n in nodes && n.0 in ix && ix[n.0].spawnDepth != n.1
    decreases |nodes|
  {
    if nodes != [] {
      MisplacedAre(ix, nodes[..|nodes| - 1], n);
      assert nodes == nodes[..|nodes| - 1] + [nodes[|nodes| - 1]];
    }
  }

  /** The node a run of the tree has: at the end of its parent chain. */
  lemma {:induction false} NodeOf(ix: Index, root: Id, t: Tree, id: Id, k: nat)
    requires IsTree(ix, root, t, 0) && t.id == root && Chain(ix, root, id, k)
    ensures (id, k) in Flatten(t)
  {
    hide IsTree, Chain, Flatten;
    TreeIsTheReachableSet(ix, root, t);
    var nodes := Flatten(t);
    assert Reachable(ix, root, id);
    var i :| 0 <= i < |nodes| && nodes[i].0 == id;
    assert Chain(ix, root, nodes[i].0, nodes[i].1);
    ChainIsUnique(ix, root, id, k, nodes[i].1);
    assert nodes[i] == (id, k);
  }

  lemma {:induction false} DepthOf(ix: Index, root: Id, t: Tree, n: (Id, nat))
    requires IsTree(ix, root, t, 0) && t.id == root && n in Flatten(t)
    ensures Chain(ix, root, n.0, n.1)
  {
    hide IsTree, Chain, Flatten;
    TreeIsTheReachableSet(ix, root, t);
    var i :| 0 <= i < |Flatten(t)| && Flatten(t)[i] == n;
    assert Chain(ix, root, Flatten(t)[i].0, Flatten(t)[i].1);
  }

  /** A spawn depth is reported exactly for the runs of the tree whose parent chain is longer or shorter. */
  lemma {:induction false} MisplacedByChain(ix: Index, root: Id, t: Tree, id: Id, k: nat)
    requires IsTree(ix, root, t, 0) && t.id == root
    ensures (id, k) in Misplaced(ix, Flatten(t)) <==> Chain(ix, root, id, k) && id in ix && ix[id].spawnDepth != k
  {
    hide IsTree, Misplaced, Chain, Flatten;
    MisplacedAre(ix, Flatten(t), (id, k));
    if (id, k) in Flatten(t) {
      DepthOf(ix, root, t, (id, k));
    }
    if Chain(ix, root, id, k) {
      NodeOf(ix, root, t, id, k);
    }
  }

  /**
   The whole of linkRunTree for any parent map, cycles included: the nodes are the runs whose
   parent chain reaches the root, each once and at its chain length, and a cycle is reported
   exactly when the root's own parent is among them, then once.
   */
  lemma {:induction false} LinkedTree(ix: Index, root: Id, t: Tree, cycles: seq<(Id, Id)>)
    requires root in ix && t.id == root && IsTree(ix, root, t, 0)
    requires cycles == Closing(ix, root, IdSet(Flatten(t)))
    ensures forall m :: m in IdSet(Flatten(t)) <==> Reachable(ix, root, m)
    ensures Distinct(Flatten(t)) && AtTrueDepth(ix, root, Flatten(t))
    ensures ix[root].parent.Some? && Reachable(ix, root, ix[root].parent.value) ==>
              cycles == [(root, ix[root].parent.value)]
    ensures !(ix[root].parent.Some? && Reachable(ix, root, ix[root].parent.value)) ==> cycles == []
  {
    TreeIsTheReachableSet(ix, root, t);
  }

  // ------------------------------------------------------------------ the total

  function Spent(ix: Index, id: Id): int {
    if id in ix then ix[id].spent else 0
  }

  /** treeOwnSpend on the printed nodes. */
  function SumNodes(ix: Index, nodes: seq<(Id, nat)>): int
    decreases |nodes|
  {
    if nodes == [] then 0 else SumNodes(ix, nodes[..|nodes| - 1]) + Spent(ix, nodes[|nodes| - 1].0)
  }

  method TreeOwnSpend(ix: Index, nodes: seq<(Id, nat)>) returns (total: int)
    ensures total == SumNodes(ix, nodes)
  {
    total := 0;
    for i := 0 to |nodes|
      invariant total == SumNodes(ix, nodes[..i])
    {
      assert nodes[..i + 1][..i] == nodes[..i];
      total := total + Spent(ix, nodes[i].0);
    }
    assert nodes[..|nodes|] == nodes;
  }

  /** Money over a set of runs, each counted once. */
  ghost function SumSet(ix: Index, s: set<Id>): int
    decreases s
  {
    if s == {} then 0 else var x :| x in s; Spent(ix, x) + SumSet(ix, s - {x})
  }

  lemma {:induction false} SumSetWithout(ix: Index, s: set<Id>, x: Id)
    requires x in s
    ensures SumSet(ix, s) == Spent(ix, x) + SumSet(ix, s - {x})
    decreases s
  {
    var y :| y in s && SumSet(ix, s) == Spent(ix, y) + SumSet(ix, s - {y});
    if y != x {
      SumSetWithout(ix, s - {y}, x);
      SumSetWithout(ix, s - {x}, y);
      assert s - {x} - {y} == s - {y} - {x};
    }
  }

  lemma {:induction false} SumNodesIsSumSet(ix: Index, nodes: seq<(Id, nat)>)
    requires Distinct(nodes)
    ensures SumNodes(ix, nodes) == SumSet(ix, IdSet(nodes))
    decreases |nodes|
  {
    if nodes != [] {
      var front, last := nodes[..|nodes| - 1], nodes[|nodes| - 1];
      SumNodesIsSumSet(ix, front);
      assert nodes == front + [last];
      IdSetAppend(front, [last]);
      assert IdSet([last]) == {last.0} by { assert [last][0].0 == last.0; }
      SumSetWithout(ix, IdSet(nodes), last.0);
      assert IdSet(nodes) - {last.0} == IdSet(front);
    }
  }

  /** The total is the spend of the reachable runs, each counted once. */
  lemma {:induction false} TotalIsReachableSpend(ix: Index, root: Id, t: Tree, reachable: set<Id>)
    requires IsTree(ix, root, t, 0) && t.id == root
    requires forall m :: m in reachable <==> Reachable(ix, root, m)
    ensures SumNodes(ix, Flatten(t)) == SumSet(ix, reachable)
  {
    TreeIsTheReachableSet(ix, root, t);
    assert IdSet(Flatten(t)) == reachable;
    SumNodesIsSumSet(ix, Flatten(t));
  }

  // ------------------------------------------------------------------ rows

  datatype Row = Row(prefix: string, id: Id, depth: nat)

  /** appendTreeRows: each child gets its indent from above, the last one a closing corner. */
  function Rows(t: Tree, prefix: string, childIndent: string): seq<Row> {
    [Row(prefix, t.id, t.depth)] + RowsOf(t.children, childIndent)
  }

  function RowsOf(ts: seq<Tree>, childIndent: string): seq<Row> {
    if ts == [] then []
    else if |ts| == 1 then Rows(ts[0], childIndent + "└─ ", childIndent + "   ")
    else Rows(ts[0], childIndent + "├─ ", childIndent + "│  ") + RowsOf(ts[1..], childIndent)
  }

  /** The printed rows are the flattened nodes in the same order, three columns per level. */
  ghost predicate RowsShow(rows: seq<Row>, nodes: seq<(Id, nat)>, width: int) {
    && |rows| == |nodes|
    && forall i | 0 <= i < |rows| :: (rows[i].id, rows[i].depth) == nodes[i]
          && |rows[i].prefix| == width + 3 * rows[i].depth
  }

  lemma {:induction false} RowsShowTheTree(ix: Index, root: Id, t: Tree, d: nat, prefix: string, childIndent: string)
    requires IsTree(ix, root, t, d) && |prefix| == |childIndent|
    ensures RowsShow(Rows(t, prefix, childIndent), Flatten(t), |prefix| - 3 * d)
    decreases t, 1
  {
    RowsShowTheForest(ix, root, t, t.children, d, childIndent);
  }

  lemma {:induction false} RowsShowTheForest(ix: Index, root: Id, t: Tree, ts: seq<Tree>, d: nat, childIndent: string)
    requires forall i | 0 <= i < |ts| :: ts[i] in t.children && IsTree(ix, root, ts[i], d + 1)
    ensures RowsShow(RowsOf(ts, childIndent), FlattenAll(ts), |childIndent| - 3 * d)
    decreases t, 0, |ts|
  {
    hide IsTree;
    if ts != [] {
      assert ts[0] in t.children;
      if |ts| == 1 {
        RowsShowTheTree(ix, root, ts[0], d + 1, childIndent + "└─ ", childIndent + "   ");
        assert FlattenAll(ts[1..]) == [];
      } else {
        RowsShowTheTree(ix, root, ts[0], d + 1, childIndent + "├─ ", childIndent + "│  ");
        assert forall i | 0 <= i < |ts[1..]| :: ts[1..][i] == ts[i + 1];
        RowsShowTheForest(ix, root, t, ts[1..], d, childIndent);
      }
    }
  }

  // ------------------------------------------------------------------ the nested payload

  /** runTreeNodePayload, by the fields the walk and the total decide; no children key without children. */
  datatype Payload =
    | Leaf(run: Id, spent: int, depth: nat, spawnDepth: int)
    | Inner(run: Id, spent: int, depth: nat, spawnDepth: int, children: seq<Payload>)

  function PayloadOf(ix: Index, t: Tree): Payload {
    var state := if t.id in ix then ix[t.id] else RunState(None, 0, 0);
    if t.children == [] then Leaf(t.id, state.spent, t.depth, state.spawnDepth)
    else Inner(t.id, state.spent, t.depth, state.spawnDepth, PayloadsOf(ix, t.children))
  }

  function PayloadsOf(ix: Index, ts: seq<Tree>): seq<Payload> {
    if ts == [] then [] else [PayloadOf(ix, ts[0])] + PayloadsOf(ix, ts[1..])
  }

  /** A reader of the payload, parents before children, in the order of the arrays. */
  function Read(p: Payload): seq<(Id, nat)> {
    [(p.run, p.depth)] + if p.Inner? then ReadAll(p.children) else []
  }

  function ReadAll(ps: seq<Payload>): seq<(Id, nat)> {
    if ps == [] then [] else Read(ps[0]) + ReadAll(ps[1..])
  }

  function Sum(p: Payload): int {
    p.spent + if p.Inner? then SumAll(p.children) else 0
  }

  function SumAll(ps: seq<Payload>): int {
    if ps == [] then 0 else Sum(ps[0]) + SumAll(ps[1..])
  }

  lemma {:induction false} SumNodesAppend(ix: Index, a: seq<(Id, nat)>, b: seq<(Id, nat)>)
    ensures SumNodes(ix, a + b) == SumNodes(ix, a) + SumNodes(ix, b)
    decreases |b|
  {
    if b == [] {
      assert a + b == a;
    } else {
      SumNodesAppend(ix, a, b[..|b| - 1]);
      assert (a + b)[..|a + b| - 1] == a + b[..|b| - 1];
    }
  }

  /** The nested payload lists the flattened nodes in the same order, and its spends add up to the total. */
  lemma {:induction false} PayloadShowsTheTree(ix: Index, t: Tree)
    ensures Read(PayloadOf(ix, t)) == Flatten(t) && Sum(PayloadOf(ix, t)) == SumNodes(ix, Flatten(t))
    decreases t, 1
  {
    PayloadsShowTheForest(ix, t, t.children);
    var top := [(t.id, t.depth)];
    assert top[..0] == [] && SumNodes(ix, top) == Spent(ix, t.id);
    SumNodesAppend(ix, top, FlattenAll(t.children));
    if t.children == [] {
      assert top + [] == top;
    }
  }

  lemma {:induction false} PayloadsShowTheForest(ix: Index, t: Tree, ts: seq<Tree>)
    requires forall i | 0 <= i < |ts| :: ts[i] in t.children
    ensures ReadAll(PayloadsOf(ix, ts)) == FlattenAll(ts) && SumAll(PayloadsOf(ix, ts)) == SumNodes(ix, FlattenAll(ts))
    ensures ts == [] <==> PayloadsOf(ix, ts) == []
    decreases t, 0, |ts|
  {
    if ts != [] {
      assert ts[0] in t.children;
      PayloadShowsTheTree(ix, ts[0]);
      PayloadsShowTheForest(ix, t, ts[1..]);
      assert PayloadsOf(ix, ts)[1..] == PayloadsOf(ix, ts[1..]);
      SumNodesAppend(ix, Flatten(ts[0]), FlattenAll(ts[1..]));
    }
  }

  // ------------------------------------------------------------------ runs left out

  /** parentedOutsideTree, over the index in any order. */
  method ParentedOutsideTree(nodes: seq<(Id, nat)>, ix: Index) returns (out: seq<Id>)
    ensures Increasing(out)
    ensures forall id :: id in out <==> id in ix && id !in IdSet(nodes) && ix[id].parent.Some?
  {
    var inTree: set<Id> := {};
    for i := 0 to |nodes|
      invariant inTree == set j | 0 <= j < i :: nodes[j].0
    {
      inTree := inTree + {nodes[i].0};
    }
    assert inTree == IdSet(nodes);
    var found: seq<Id> := [];
    var todo := ix.Keys;
    while todo != {}
      invariant todo <= ix.Keys && NoRepeats(found)
      invariant forall id :: id in found <==> id in ix && id !in todo && id !in inTree && ix[id].parent.Some?
      decreases todo
    {
      var id :| id in todo;
      if id !in inTree && ix[id].parent.Some? {
        found := found + [id];
      }
      todo := todo - {id};
    }
    out := Sort(found);
  }

  /** Every run but the root that names a parent is in the tree or listed as elsewhere, never both. */
  lemma {:induction false} ParentedRunsSplit(ix: Index, root: Id, t: Tree, outside: seq<Id>, id: Id)
    requires IsTree(ix, root, t, 0) && t.id == root && id != root
    requires forall x :: x in outside <==> x in ix && x !in IdSet(Flatten(t)) && ix[x].parent.Some?
    ensures id in ix && ix[id].parent.Some? <==> id in IdSet(Flatten(t)) || id in outside
    ensures !(id in IdSet(Flatten(t)) && id in outside)
  {
    TreeIsTheReachableSet(ix, root, t);
    if id in IdSet(Flatten(t)) {
      var k: nat :| Chain(ix, root, id, k);
    }
  }
}
