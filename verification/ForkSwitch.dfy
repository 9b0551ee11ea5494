/**
 * Pushing blocks, popping blocks and switching forks. The chain state is a fold of a partial apply over the blocks of
 * the main chain; the undo database is a bounded stack of earlier states; the block store maps numbers to blocks.
 */
module ForkSwitch {
  import opened Wrappers

  /** What the rest of the node supplies: apply_block, head_block_id, and a block's id, previous id and number. */
  datatype Rules<!S, !B, !Id> = Rules(apply: (S, B) -> Option<S>, head: S -> Id, id: B -> Id, prev: B -> Id,
                                      num: Id -> nat)

  /**
   * apply_block accepts only a child of the head, numbered one higher, and makes it the head. Ids identify blocks.
   */
  ghost predicate Lawful<S(!new), B(!new), Id>(r: Rules<S, B, Id>) {
    && (forall s, b :: r.apply(s, b).Some? ==> r.head(s) == r.prev(b) && r.head(r.apply(s, b).value) == r.id(b))
    && (forall b :: r.num(r.id(b)) == r.num(r.prev(b)) + 1)
    && (forall b, b' :: r.id(b) == r.id(b') ==> b == b')
  }

  /** The state after a chain of blocks, if every one of them applies. */
  function Fold<S, B, Id>(r: Rules<S, B, Id>, s: S, bs: seq<B>): Option<S>
    decreases |bs|
  {
    if bs == [] then Some(s)
    else match Fold(r, s, bs[..|bs|-1])
      case None => None
      case Some(t) => r.apply(t, bs[|bs|-1])
  }

  /** The store that holds exactly the blocks of a chain. */
  function StoreOf<S, B, Id>(r: Rules<S, B, Id>, bs: seq<B>): map<nat, B>
    decreases |bs|
  {
    if bs == [] then map[] else StoreOf(r, bs[..|bs|-1])[r.num(r.id(bs[|bs|-1])) := bs[|bs|-1]]
  }

  /** Block i is the child of the block before it, the first one of the head of s. */
  ghost predicate Links<S, B, Id>(r: Rules<S, B, Id>, s: S, bs: seq<B>, i: nat)
    requires i < |bs|
  {
    r.prev(bs[i]) == if i == 0 then r.head(s) else r.id(bs[i - 1])
  }

  /** What is known of a chain whose blocks all apply: each block follows the one before. */
  lemma {:induction false} FoldLinks<S(!new), B(!new), Id>(r: Rules<S, B, Id>, s: S, bs: seq<B>)
    requires Lawful(r) && Fold(r, s, bs).Some?
    ensures forall i :: 0 <= i < |bs| ==> Links(r, s, bs, i)
    ensures r.head(Fold(r, s, bs).value) == if bs == [] then r.head(s) else r.id(bs[|bs|-1])
    decreases |bs|
  {
    if bs != [] {
      var init := bs[..|bs|-1];
      FoldLinks(r, s, init);
      forall i | 0 <= i < |bs| ensures Links(r, s, bs, i) {
        if i < |init| {
          assert Links(r, s, init, i);
        } else {
          assert r.apply(Fold(r, s, init).value, bs[i]).Some?;
        }
      }
    }
  }

  lemma {:induction false} FoldPrefix<S, B, Id>(r: Rules<S, B, Id>, s: S, bs: seq<B>, n: nat)
    requires Fold(r, s, bs).Some? && n <= |bs|
    ensures Fold(r, s, bs[..n]).Some?
    decreases |bs|
  {
    if n < |bs| {
      FoldPrefix(r, s, bs[..|bs|-1], n);
      assert bs[..|bs|-1][..n] == bs[..n];
    } else {
      assert bs[..n] == bs;
    }
  }

  lemma {:induction false} FoldNumbers<S(!new), B(!new), Id>(r: Rules<S, B, Id>, s: S, bs: seq<B>, i: nat)
    requires Lawful(r) && Fold(r, s, bs).Some? && i < |bs|
    ensures r.num(r.id(bs[i])) == r.num(r.head(s)) + i + 1
    decreases i
  {
    FoldLinks(r, s, bs);
    assert r.num(r.id(bs[i])) == r.num(r.prev(bs[i])) + 1;
    assert Links(r, s, bs, i);
    if i > 0 {
      FoldNumbers(r, s, bs, i - 1);
    }
  }

  lemma {:induction false} StoreKeys<S(!new), B(!new), Id>(r: Rules<S, B, Id>, s: S, bs: seq<B>, n: nat)
    requires Lawful(r) && Fold(r, s, bs).Some?
    ensures n in StoreOf(r, bs) <==> r.num(r.head(s)) < n <= r.num(r.head(s)) + |bs|
    decreases |bs|
  {
    if bs != [] {
      FoldPrefix(r, s, bs, |bs| - 1);
      StoreKeys(r, s, bs[..|bs|-1], n);
      FoldNumbers(r, s, bs, |bs| - 1);
    }
  }

  /** Taking the head's number out of the store undoes storing the head. */
  lemma StorePop<S(!new), B(!new), Id>(r: Rules<S, B, Id>, s: S, bs: seq<B>)
    requires Lawful(r) && Fold(r, s, bs).Some? && bs != []
    ensures StoreOf(r, bs) - {r.num(r.id(bs[|bs|-1]))} == StoreOf(r, bs[..|bs|-1])
    ensures r.num(r.id(bs[|bs|-1])) in StoreOf(r, bs) && StoreOf(r, bs)[r.num(r.id(bs[|bs|-1]))] == bs[|bs|-1]
  {
    FoldPrefix(r, s, bs, |bs| - 1);
    FoldNumbers(r, s, bs, |bs| - 1);
    StoreKeys(r, s, bs[..|bs|-1], r.num(r.id(bs[|bs|-1])));
  }

  /** The undo stack u holds the states before the last |u| of the first `top` blocks. */
  ghost predicate UndoFits<S, B, Id>(r: Rules<S, B, Id>, s: S, bs: seq<B>, u: seq<S>, top: nat) {
    && |u| <= top <= |bs| + 1
    && forall i :: 0 <= i < |u| ==> Fold(r, s, bs[..top - |u| + i]) == Some(u[i])
  }

  lemma UndoPop<S, B, Id>(r: Rules<S, B, Id>, s: S, bs: seq<B>, u: seq<S>, top: nat)
    requires UndoFits(r, s, bs, u, top) && |u| > 0
    ensures 0 < top <= |bs| + 1 && UndoFits(r, s, bs, u[..|u|-1], top - 1)
    ensures Fold(r, s, bs[..top - 1]) == Some(u[|u|-1])
  {}

  lemma UndoShorter<S, B, Id>(r: Rules<S, B, Id>, s: S, bs: seq<B>, bs': seq<B>, u: seq<S>, top: nat)
    requires UndoFits(r, s, bs, u, top) && top <= |bs'| + 1
    requires forall k :: 0 <= k < top ==> bs'[..k] == bs[..k]
    ensures UndoFits(r, s, bs', u, top)
  {}

  lemma UndoPush<S, B, Id>(r: Rules<S, B, Id>, s: S, bs: seq<B>, u: seq<S>, t: S)
    requires UndoFits(r, s, bs, u, |bs|) && Fold(r, s, bs) == Some(t)
    ensures UndoFits(r, s, bs, u + [t], |bs| + 1)
  {
    hide Fold;
    assert bs[..|bs|] == bs;
  }

  lemma UndoTrim<S, B, Id>(r: Rules<S, B, Id>, s: S, bs: seq<B>, u: seq<S>, top: nat, n: nat)
    requires UndoFits(r, s, bs, u, top) && n <= |u|
    ensures UndoFits(r, s, bs, u[n..], top)
  {}

  function Reverse<T>(xs: seq<T>): (r: seq<T>)
    ensures |r| == |xs| && forall i :: 0 <= i < |xs| ==> r[i] == xs[|xs| - 1 - i]
  {
    seq(|xs|, i requires 0 <= i < |xs| => xs[|xs| - 1 - i])
  }

  /** A branch as the fork database lists it: the newest block first, each the child of the next. */
  predicate IsBranch<S, B, Id(==)>(r: Rules<S, B, Id>, bs: seq<B>, top: Id) {
    && bs != [] && r.id(bs[0]) == top
    && forall i :: 0 < i < |bs| ==> r.id(bs[i]) == r.prev(bs[i - 1])
  }

  /** The number of the head after n blocks, so that different heights have different heads. */
  lemma HeadNumber<S(!new), B(!new), Id>(r: Rules<S, B, Id>, s: S, bs: seq<B>)
    requires Lawful(r) && Fold(r, s, bs).Some?
    ensures r.num(r.head(Fold(r, s, bs).value)) == r.num(r.head(s)) + |bs|
  {
    FoldLinks(r, s, bs);
    if bs != [] {
      FoldNumbers(r, s, bs, |bs| - 1);
    }
  }

  /** A branch listed down from the head is the end of the chain, read backwards. */
  lemma {:induction false} BranchIsSuffix<S(!new), B(!new), Id>(r: Rules<S, B, Id>, s: S, bs: seq<B>, branch: seq<B>,
                                            n: nat)
    requires Lawful(r) && (forall b :: r.id(b) != r.head(s)) && Fold(r, s, bs).Some?
    requires IsBranch(r, branch, r.head(Fold(r, s, bs).value)) && n < |branch|
    ensures n < |bs| && branch[n] == bs[|bs| - 1 - n]
    decreases n
  {
    FoldLinks(r, s, bs);
    if n > 0 {
      BranchIsSuffix(r, s, bs, branch, n - 1);
      assert Links(r, s, bs, |bs| - n);
      assert r.id(branch[n]) == r.prev(branch[n - 1]);
    }
  }

  lemma BranchReversed<S(!new), B(!new), Id>(r: Rules<S, B, Id>, s: S, bs: seq<B>, branch: seq<B>)
    requires Lawful(r) && (forall b :: r.id(b) != r.head(s)) && Fold(r, s, bs).Some?
    requires IsBranch(r, branch, r.head(Fold(r, s, bs).value))
    ensures 0 < |branch| <= |bs| && bs[|bs| - |branch|..] == Reverse(branch)
    ensures branch[|branch| - 1] == bs[|bs| - |branch|]
  {
    hide Lawful, Fold;
    BranchIsSuffix(r, s, bs, branch, |branch| - 1);
    forall i | 0 <= i < |branch| ensures bs[|bs| - 1 - i] == branch[i] {
      BranchIsSuffix(r, s, bs, branch, i);
    }
  }

  /** The point where a branch below the head leaves the chain. */
  lemma ForkPoint<S(!new), B(!new), Id>(r: Rules<S, B, Id>, s: S, bs: seq<B>, branch: seq<B>)
    requires Lawful(r) && (forall b :: r.id(b) != r.head(s)) && Fold(r, s, bs).Some?
    requires IsBranch(r, branch, r.head(Fold(r, s, bs).value))
    ensures 0 < |branch| <= |bs| && bs[|bs| - |branch|..] == Reverse(branch)
    ensures Fold(r, s, bs[..|bs| - |branch|]).Some?
    ensures r.head(Fold(r, s, bs[..|bs| - |branch|]).value) == r.prev(branch[|branch| - 1])
  {
    hide Lawful, Fold, IsBranch;
    BranchReversed(r, s, bs, branch);
    var n := |bs| - |branch|;
    FoldPrefix(r, s, bs, n);
    FoldLinks(r, s, bs);
    FoldLinks(r, s, bs[..n]);
    assert Links(r, s, bs, n);
  }

  ghost predicate InTree<S, B, Id>(r: Rules<S, B, Id>, tree: map<Id, B>, bs: seq<B>) {
    forall i :: 0 <= i < |bs| ==> r.id(bs[i]) in tree && tree[r.id(bs[i])] == bs[i]
  }

  /** A branch of the fork database. */
  ghost predicate TreePath<S, B, Id>(r: Rules<S, B, Id>, tree: map<Id, B>, top: Id, bs: seq<B>) {
    IsBranch(r, bs, top) && InTree(r, tree, bs)
  }

  lemma TreePathNext<S, B, Id>(r: Rules<S, B, Id>, tree: map<Id, B>, top: Id, a: seq<B>, x: B)
    requires TreePath(r, tree, top, a + [x]) && r.prev(x) in tree && r.id(tree[r.prev(x)]) == r.prev(x)
    ensures TreePath(r, tree, top, a + [x] + [tree[r.prev(x)]])
  {}

  /** Two branches of the fork database that end in children of one block. */
  ghost predicate Meet<S, B, Id>(r: Rules<S, B, Id>, tree: map<Id, B>, first: Id, second: Id, p: seq<B>, q: seq<B>) {
    && TreePath(r, tree, first, p) && TreePath(r, tree, second, q) && p != [] && q != []
    && r.prev(p[|p| - 1]) == r.prev(q[|q| - 1])
  }

  /** A branch is determined by its top and its length, and its numbers count down. */
  lemma {:induction false} OneBranch<S(!new), B(!new), Id>(r: Rules<S, B, Id>, top: Id, p: seq<B>, q: seq<B>, n: nat)
    requires Lawful(r) && IsBranch(r, p, top) && IsBranch(r, q, top) && n < |p| && n < |q|
    ensures p[n] == q[n] && r.num(r.id(p[n])) == r.num(top) - n
    decreases n
  {
    if n > 0 {
      OneBranch(r, top, p, q, n - 1);
      assert r.id(p[n]) == r.prev(p[n - 1]) && r.id(q[n]) == r.prev(q[n - 1]);
      assert r.num(r.id(p[n - 1])) == r.num(r.prev(p[n - 1])) + 1;
    }
  }

  /** Where two meeting branches end, compared with a place on the way. */
  lemma MeetBelow<S(!new), B(!new), Id>(r: Rules<S, B, Id>, tree: map<Id, B>, first: Id, second: Id,
                                        p: seq<B>, q: seq<B>, a: seq<B>, b: seq<B>)
    requires Lawful(r) && Meet(r, tree, first, second, p, q)
    requires TreePath(r, tree, first, a) && TreePath(r, tree, second, b) && a != [] && b != []
    ensures r.num(first) - |p| == r.num(second) - |q|
    ensures r.num(r.id(a[|a| - 1])) == r.num(first) - |a| + 1 && r.num(r.id(b[|b| - 1])) == r.num(second) - |b| + 1
    ensures |a| < |p| ==> r.prev(a[|a| - 1]) in tree
    ensures |b| < |q| ==> r.prev(b[|b| - 1]) in tree
    ensures |a| == |p| && |b| == |q| ==> r.prev(a[|a| - 1]) == r.prev(b[|b| - 1])
  {
    OneBranch(r, first, p, p, |p| - 1);
    OneBranch(r, second, q, q, |q| - 1);
    OneBranch(r, first, a, a, |a| - 1);
    OneBranch(r, second, b, b, |b| - 1);
    assert r.num(r.id(p[|p| - 1])) == r.num(r.prev(p[|p| - 1])) + 1;
    assert r.num(r.id(q[|q| - 1])) == r.num(r.prev(q[|q| - 1])) + 1;
    if |a| <= |p| {
      OneBranch(r, first, p, a, |a| - 1);
      if |a| < |p| { assert r.id(p[|a|]) == r.prev(p[|a| - 1]); }
    }
    if |b| <= |q| {
      OneBranch(r, second, q, b, |b| - 1);
      if |b| < |q| { assert r.id(q[|b|]) == r.prev(q[|b| - 1]); }
    }
  }

  /** No pair of meeting branches ends above these two places. */
  ghost predicate NoneAbove<S(!new), B(!new), Id(!new)>(r: Rules<S, B, Id>, tree: map<Id, B>, first: Id, second: Id,
                                                        m: nat, n: nat) {
    forall p, q :: Meet(r, tree, first, second, p, q) ==> |p| >= m && |q| >= n
  }

  /**
   * fetch_branch_from: the two paths down to the children of the most recent common ancestor. They are found exactly if
   * the fork database holds two such paths, and no shorter ones do.
   */
  method FetchBranches<S(!new), B(!new), Id(==, !new)>(r: Rules<S, B, Id>, tree: map<Id, B>, first: Id, second: Id)
    returns (ok: bool, a: seq<B>, b: seq<B>)
    requires Lawful(r) && forall k <- tree :: r.id(tree[k]) == k
    ensures ok <==> exists p, q :: Meet(r, tree, first, second, p, q)
    ensures ok ==> Meet(r, tree, first, second, a, b) && NoneAbove(r, tree, first, second, |a|, |b|)
    ensures ok ==> a[|a| - 1] != b[|b| - 1] || |a| == 1 || |b| == 1
  {
    hide Lawful, TreePath, NoneAbove;
    a, b := [], [];
    if first !in tree || second !in tree {
      NotThere(r, tree, first, second);
      return false, a, b;
    }
    var x, y := tree[first], tree[second];
    TreePathStart(r, tree, first, second);
    while r.num(r.id(x)) > r.num(r.id(y))
      invariant TreePath(r, tree, first, a + [x]) && TreePath(r, tree, second, b + [y]) && b == []
      invariant NoneAbove(r, tree, first, second, |a| + 1, |b| + 1)
      decreases r.num(r.id(x))
    {
      Descends(r, x);
      HighEnd(r, tree, first, second, a, x, b, y);
      if r.prev(x) !in tree {
        return false, a, b;
      }
      TreePathNext(r, tree, first, a, x);
      a := a + [x];
      x := tree[r.prev(x)];
    }
    while r.num(r.id(y)) > r.num(r.id(x))
      invariant TreePath(r, tree, first, a + [x]) && TreePath(r, tree, second, b + [y])
      invariant NoneAbove(r, tree, first, second, |a| + 1, |b| + 1) && r.num(r.id(x)) <= r.num(r.id(y))
      decreases r.num(r.id(y))
    {
      Descends(r, y);
      HighEnd(r, tree, first, second, a, x, b, y);
      if r.prev(y) !in tree {
        return false, a, b;
      }
      TreePathNext(r, tree, second, b, y);
      b := b + [y];
      y := tree[r.prev(y)];
    }
    while r.prev(x) != r.prev(y)
      invariant TreePath(r, tree, first, a + [x]) && TreePath(r, tree, second, b + [y])
      invariant NoneAbove(r, tree, first, second, |a| + 1, |b| + 1) && r.num(r.id(x)) == r.num(r.id(y))
      decreases r.num(r.id(x))
    {
      Descends(r, x);
      Descends(r, y);
      HighEnd(r, tree, first, second, a, x, b, y);
      if r.prev(x) !in tree || r.prev(y) !in tree {
        return false, a, b;
      }
      TreePathNext(r, tree, first, a, x);
      TreePathNext(r, tree, second, b, y);
      a, b := a + [x], b + [y];
      x, y := tree[r.prev(x)], tree[r.prev(y)];
    }
    a, b := a + [x], b + [y];
    assert Meet(r, tree, first, second, a, b);
    ShortestApart(r, tree, first, second, a, b);
    ok := true;
  }

  /** The shortest meeting branches do not end in one block, unless one of them is that block alone. */
  lemma ShortestApart<S(!new), B(!new), Id(!new)>(r: Rules<S, B, Id>, tree: map<Id, B>, first: Id, second: Id,
                                                  a: seq<B>, b: seq<B>)
    requires Meet(r, tree, first, second, a, b) && NoneAbove(r, tree, first, second, |a|, |b|)
    ensures a[|a| - 1] != b[|b| - 1] || |a| == 1 || |b| == 1
  {
    if a[|a| - 1] == b[|b| - 1] && |a| > 1 && |b| > 1 {
      var p, q := a[..|a| - 1], b[..|b| - 1];
      assert r.prev(p[|p| - 1]) == r.id(a[|p|]) && r.prev(q[|q| - 1]) == r.id(b[|q|]);
      assert Meet(r, tree, first, second, p, q);
      assert false;
    }
  }

  lemma NotThere<S(!new), B(!new), Id(!new)>(r: Rules<S, B, Id>, tree: map<Id, B>, first: Id, second: Id)
    requires first !in tree || second !in tree
    ensures forall p, q :: !Meet(r, tree, first, second, p, q)
  {}

  lemma TreePathStart<S(!new), B(!new), Id(!new)>(r: Rules<S, B, Id>, tree: map<Id, B>, first: Id, second: Id)
    requires first in tree && second in tree && r.id(tree[first]) == first && r.id(tree[second]) == second
    ensures TreePath(r, tree, first, [] + [tree[first]]) && TreePath(r, tree, second, [] + [tree[second]])
    ensures NoneAbove(r, tree, first, second, 1, 1)
  {}

  lemma Descends<S(!new), B(!new), Id>(r: Rules<S, B, Id>, x: B)
    requires Lawful(r)
    ensures r.num(r.id(x)) == r.num(r.prev(x)) + 1
  {}

  /** From a place that is too high, or at which the paths have not met, every pair of meeting branches goes on. */
  lemma HighEnd<S(!new), B(!new), Id(!new)>(r: Rules<S, B, Id>, tree: map<Id, B>, first: Id, second: Id,
                                            a: seq<B>, x: B, b: seq<B>, y: B)
    requires Lawful(r) && TreePath(r, tree, first, a + [x]) && TreePath(r, tree, second, b + [y])
    requires NoneAbove(r, tree, first, second, |a| + 1, |b| + 1)
    ensures r.num(r.id(x)) > r.num(r.id(y)) ==> NoneAbove(r, tree, first, second, |a| + 2, |b| + 1)
    ensures r.num(r.id(y)) > r.num(r.id(x)) ==> NoneAbove(r, tree, first, second, |a| + 1, |b| + 2)
    ensures r.num(r.id(x)) == r.num(r.id(y)) && r.prev(x) != r.prev(y) ==>
      NoneAbove(r, tree, first, second, |a| + 2, |b| + 2)
    ensures r.num(r.id(x)) > r.num(r.id(y)) && r.prev(x) !in tree ==>
      forall p, q :: !Meet(r, tree, first, second, p, q)
    ensures r.num(r.id(y)) > r.num(r.id(x)) && r.prev(y) !in tree ==>
      forall p, q :: !Meet(r, tree, first, second, p, q)
    ensures r.num(r.id(x)) == r.num(r.id(y)) && r.prev(x) != r.prev(y) && (r.prev(x) !in tree || r.prev(y) !in tree) ==>
      forall p, q :: !Meet(r, tree, first, second, p, q)
  {
    hide Lawful, TreePath, Meet;
    forall p, q | Meet(r, tree, first, second, p, q)
      ensures r.num(r.id(x)) > r.num(r.id(y)) ==> |p| >= |a| + 2 && r.prev(x) in tree
      ensures r.num(r.id(y)) > r.num(r.id(x)) ==> |q| >= |b| + 2 && r.prev(y) in tree
      ensures r.num(r.id(x)) == r.num(r.id(y)) && r.prev(x) != r.prev(y) ==>
        |p| >= |a| + 2 && |q| >= |b| + 2 && r.prev(x) in tree && r.prev(y) in tree
    {
      MeetBelow(r, tree, first, second, p, q, a + [x], b + [y]);
    }
  }

  lemma FoldSnoc<S, B, Id>(r: Rules<S, B, Id>, s: S, bs: seq<B>, b: B)
    requires Fold(r, s, bs).Some?
    ensures Fold(r, s, bs + [b]) == r.apply(Fold(r, s, bs).value, b)
  {
    assert (bs + [b])[..|bs|] == bs;
  }

  lemma StoreSnoc<S, B, Id>(r: Rules<S, B, Id>, bs: seq<B>, b: B)
    ensures StoreOf(r, bs + [b]) == StoreOf(r, bs)[r.num(r.id(b)) := b]
  {
    assert (bs + [b])[..|bs|] == bs;
  }

  /** A chain with a failing part fails. */
  lemma FailsWhole<S, B, Id>(r: Rules<S, B, Id>, s: S, bs: seq<B>, more: seq<B>, k: nat)
    requires k <= |more| && Fold(r, s, bs + more[..k]).None?
    ensures Fold(r, s, bs + more).None?
  {
    hide Fold;
    assert (bs + more)[..|bs| + k] == bs + more[..k];
    if Fold(r, s, bs + more).Some? {
      FoldPrefix(r, s, bs + more, |bs| + k);
    }
  }

  lemma ReverseSnoc<B>(bs: seq<B>, branch: seq<B>, done: nat)
    requires done < |branch|
    ensures bs + Reverse(branch)[..done + 1] == bs + Reverse(branch)[..done] + [branch[|branch| - 1 - done]]
    ensures Reverse(branch)[done] == branch[|branch| - 1 - done]
  {}

  lemma Rejoined<B>(before: seq<B>, n: nat, second: seq<B>, k: nat)
    requires n <= |before| && before[n..] == Reverse(second) && k <= |second|
    ensures n + |second| == |before| && before[..n] + Reverse(second)[..k] == before[..n + k]
  {
    assert before[..n + k] == before[..n] + before[n..][..k];
  }

  /** The old branch applies again, block by block. */
  lemma Restored<S, B, Id>(r: Rules<S, B, Id>, s: S, before: seq<B>, n: nat, second: seq<B>, done: nat)
    requires Fold(r, s, before).Some? && n <= |before| && before[n..] == Reverse(second) && done <= |second|
    requires done < |second| ==> Fold(r, s, before[..n] + Reverse(second)[..done + 1]).None?
    ensures done == |second| && before[..n] + Reverse(second)[..done] == before
  {
    hide Fold, Reverse;
    Rejoined(before, n, second, done);
    assert before[..|before|] == before;
    if done < |second| {
      Rejoined(before, n, second, done + 1);
      FoldPrefix(r, s, before, n + done + 1);
    }
  }

  lemma TopOf<S, B, Id>(r: Rules<S, B, Id>, branch: seq<B>, top: Id)
    requires IsBranch(r, branch, top)
    ensures branch != [] && r.id(Reverse(branch)[|branch| - 1]) == top
  {}

  /** Block k is the first of bs that does not apply after the chain base. */
  ghost predicate FailsAt<S, B, Id>(r: Rules<S, B, Id>, s: S, base: seq<B>, bs: seq<B>, k: nat) {
    k < |bs| && Fold(r, s, base + bs[..k]).Some? && Fold(r, s, base + bs[..k + 1]).None?
  }

  lemma FailsOnce<S, B, Id>(r: Rules<S, B, Id>, s: S, base: seq<B>, bs: seq<B>, j: nat, k: nat)
    requires FailsAt(r, s, base, bs, j) && FailsAt(r, s, base, bs, k)
    ensures j == k
  {
    hide Fold;
    if j < k {
      assert (base + bs[..k])[..|base| + j + 1] == base + bs[..j + 1];
      FoldPrefix(r, s, base + bs[..k], |base| + j + 1);
    } else if k < j {
      assert (base + bs[..j])[..|base| + k + 1] == base + bs[..k + 1];
      FoldPrefix(r, s, base + bs[..j], |base| + k + 1);
    }
  }

  /** Each of the first n blocks was given an undo limit above the number of blocks before it. */
  predicate DeepTo<B>(bs: seq<B>, limit: B -> nat, n: nat)
    requires n <= |bs|
  {
    forall i :: 0 <= i < n ==> limit(bs[i]) > i
  }

  /** What can be undone of a branch whose block k fails: everything up to it was given enough depth. */
  ghost predicate CanUndo<S, B, Id>(r: Rules<S, B, Id>, s: S, base: seq<B>, bs: seq<B>, limit: B -> nat) {
    exists k: nat :: FailsAt(r, s, base, bs, k) && DeepTo(bs, limit, k + 1)
  }

  /** How a fork switch ends: with the new branch, with the old one, or in the middle. */
  datatype Ending = Took | Kept | Broke

  /** _push_block returns true for Switched, false for Extended and Ignored, and throws for Rejected and Broken. */
  datatype Outcome = Switched | Extended | Ignored | Rejected | Broken

  lemma DeepNext<B>(bs: seq<B>, limit: B -> nat, n: nat)
    requires n < |bs|
    ensures DeepTo(bs, limit, n + 1) <==> DeepTo(bs, limit, n) && limit(bs[n]) > n
  {}

  lemma DeepNone<B>(bs: seq<B>, limit: B -> nat)
    ensures DeepTo(bs, limit, 0)
  {}

  lemma FailsNow<S, B, Id>(r: Rules<S, B, Id>, s: S, base: seq<B>, bs: seq<B>, k: nat)
    requires k < |bs| && Fold(r, s, base + bs[..k]).Some? && Fold(r, s, base + bs[..k + 1]).None?
    ensures FailsAt(r, s, base, bs, k)
  {}

  lemma NothingToUndo<S, B, Id>(r: Rules<S, B, Id>, s: S, base: seq<B>, bs: seq<B>, limit: B -> nat)
    requires Fold(r, s, base + bs).Some?
    ensures !CanUndo(r, s, base, bs, limit)
  {
    hide Fold;
    forall k: nat | FailsAt(r, s, base, bs, k) ensures false {
      FailsWhole(r, s, base, bs, k + 1);
    }
  }

  lemma FailedBranch<S, B, Id>(r: Rules<S, B, Id>, s: S, base: seq<B>, bs: seq<B>, limit: B -> nat, k: nat)
    requires FailsAt(r, s, base, bs, k)
    ensures Fold(r, s, base + bs).None? && (CanUndo(r, s, base, bs, limit) <==> k < |bs| && DeepTo(bs, limit, k + 1))
  {
    hide Fold, DeepTo;
    FailsWhole(r, s, base, bs, k + 1);
    forall j: nat | FailsAt(r, s, base, bs, j) ensures j == k { FailsOnce(r, s, base, bs, j, k); }
  }

  lemma FailedHere<S, B, Id>(r: Rules<S, B, Id>, s: S, base: seq<B>, bs: seq<B>, k: nat)
    requires FailsAt(r, s, base, bs, k)
    ensures k < |bs| && Fold(r, s, base + bs[..k + 1]).None?
  {}

  class Database<S(!new), B(!new), Id(==, !new)> {
    const rules: Rules<S, B, Id>
    var state: S
    var undo: seq<S>
    var store: map<nat, B>
    ghost var genesis: S
    ghost var chain: seq<B>

    /** The state is the fold of the chain, the undo stack holds the states before its last blocks. */
    ghost predicate Valid()
      reads this
    {
      Sound() && store == StoreOf(rules, chain)
    }

    ghost predicate Sound()
      reads this
    {
      && Lawful(rules) && (forall b :: rules.id(b) != rules.head(genesis))
      && Fold(rules, genesis, chain) == Some(state)
      && UndoFits(rules, genesis, chain, undo, |chain|)
    }

    /** Where a pop without an undo state stops: the head is still applied, but its block has left the store. */
    ghost predicate Torn()
      reads this
    {
      Sound() && undo == [] && chain != [] && store == StoreOf(rules, chain[..|chain| - 1])
    }

    constructor (rules: Rules<S, B, Id>, genesis: S)
      requires Lawful(rules) && forall b :: rules.id(b) != rules.head(genesis)
      ensures Valid() && chain == [] && state == this.genesis == genesis && this.rules == rules
    {
      this.rules, this.genesis, state := rules, genesis, genesis;
      undo, store, chain := [], map[], [];
    }

    /** pop_block: the last block leaves the store, the chain and the state; without an undo state, only the store. */
    method PopBlock() returns (ok: bool)
      requires Valid() && chain != []
      modifies this`state, this`undo, this`store, this`chain
      ensures ok <==> old(undo) != []
      ensures ok ==> Valid() && chain == old(chain)[..|old(chain)| - 1] && undo == old(undo)[..|old(undo)| - 1]
      ensures !ok ==> Torn() && chain == old(chain) && state == old(state)
    {
      hide UndoFits, Lawful, StoreOf;
      FoldLinks(rules, genesis, chain);
      StorePop(rules, genesis, chain);
      var head := rules.head(state);
      if rules.num(head) in store && rules.id(store[rules.num(head)]) == head {
        store := store - {rules.num(head)};
      }
      if undo == [] {
        return false;
      }
      UndoPop(rules, genesis, chain, undo, |chain|);
      UndoShorter(rules, genesis, chain, chain[..|chain| - 1], undo[..|undo| - 1], |chain| - 1);
      state := undo[|undo| - 1];
      undo := undo[..|undo| - 1];
      chain := chain[..|chain| - 1];
      return true;
    }

    /** start_undo_session: the state is saved, the oldest saved states beyond the limit are dropped. */
    method StartSession(limit: nat)
      requires Valid() && limit > 0
      modifies this`undo
      ensures UndoFits(rules, genesis, chain, undo, |chain| + 1)
      ensures |undo| == if |old(undo)| < limit then |old(undo)| + 1 else limit
    {
      hide UndoFits;
      UndoPush(rules, genesis, chain, undo, state);
      undo := undo + [state];
      if |undo| > limit {
        UndoTrim(rules, genesis, chain, undo, |chain| + 1, |undo| - limit);
        undo := undo[|undo| - limit..];
      }
    }

    /**
     * One guarded application: session, apply_block, store, commit. A failing block costs at most the oldest undo
     * states.
     */
    method ApplyOne(b: B, limit: nat) returns (ok: bool)
      requires Valid() && limit > 0
      modifies this`state, this`undo, this`store, this`chain
      ensures Valid() && ok == rules.apply(old(state), b).Some?
      ensures chain == if ok then old(chain) + [b] else old(chain)
      ensures |undo| == (if |old(undo)| < limit then |old(undo)| + 1 else limit) - (if ok then 0 else 1)
    {
      hide UndoFits, Lawful, Fold, StoreOf;
      FoldSnoc(rules, genesis, chain, b);
      StoreSnoc(rules, chain, b);
      StartSession(limit);
      var next := rules.apply(state, b);
      ok := next.Some?;
      if ok {
        store := store[rules.num(rules.id(b)) := b];
        state := next.value;
        UndoShorter(rules, genesis, chain, chain + [b], undo, |chain| + 1);
        chain := chain + [b];
      } else {
        UndoPop(rules, genesis, chain, undo, |chain| + 1);
        assert chain[..|chain|] == chain;
        state := undo[|undo| - 1];
        undo := undo[..|undo| - 1];
      }
    }

    /**
     * The loops that pop blocks until the head is the fork point; they get there exactly if the undo stack is deep
     * enough.
     */
    method PopTo(point: Id, ghost n: nat) returns (ok: bool)
      requires Valid() && n <= |chain|
      requires Fold(rules, genesis, chain[..n]).Some? && rules.head(Fold(rules, genesis, chain[..n]).value) == point
      modifies this`state, this`undo, this`store, this`chain
      ensures ok <==> |old(chain)| - n <= |old(undo)|
      ensures ok ==> Valid() && chain == old(chain)[..n] && |undo| == |old(undo)| - (|old(chain)| - n)
      ensures !ok ==> Torn() && chain == old(chain)[..|old(chain)| - |old(undo)|]
    {
      hide Lawful, UndoFits, Fold, StoreOf;
      HeadNumber(rules, genesis, chain[..n]);
      while rules.head(state) != point
        invariant Valid() && n <= |chain| <= |old(chain)| && chain == old(chain)[..|chain|]
        invariant |undo| == |old(undo)| - (|old(chain)| - |chain|)
        decreases |chain|
      {
        HeadNumber(rules, genesis, chain);
        assert chain[..|chain|] == chain;
        ok := PopBlock();
        if !ok {
          return;
        }
      }
      HeadNumber(rules, genesis, chain);
      return true;
    }

    /**
     * The loops that apply a branch, oldest block first, until one block fails. Afterwards all of it can be popped
     * exactly if each block up to the failing one was given an undo limit above the number of blocks before it.
     */
    method PushBranch(branch: seq<B>, limit: B -> nat) returns (done: nat)
      requires Valid() && forall b :: limit(b) > 0
      modifies this`state, this`undo, this`store, this`chain
      ensures Valid() && done <= |branch| && chain == old(chain) + Reverse(branch)[..done]
      ensures done < |branch| ==> FailsAt(rules, genesis, old(chain), Reverse(branch), done)
      ensures |undo| >= done <==> DeepTo(Reverse(branch), limit, if done < |branch| then done + 1 else done)
    {
      hide Lawful, UndoFits, StoreOf, Fold, Reverse, DeepTo, FailsAt;
      done := 0;
      DeepNone(Reverse(branch), limit);
      assert Reverse(branch)[..0] == [] && chain + [] == chain;
      while done < |branch|
        invariant Valid() && done <= |branch| && chain == old(chain) + Reverse(branch)[..done]
        invariant |undo| >= done <==> DeepTo(Reverse(branch), limit, done)
      {
        var b := branch[|branch| - 1 - done];
        ReverseSnoc(old(chain), branch, done);
        FoldSnoc(rules, genesis, chain, b);
        DeepNext(Reverse(branch), limit, done);
        var ok := ApplyOne(b, limit(b));
        if !ok {
          FailsNow(rules, genesis, old(chain), Reverse(branch), done);
          return;
        }
        done := done + 1;
      }
    }

    /**
     * The fork switch of _push_block. With an undo stack as deep as the old branch, the new branch takes over exactly
     * when
     * every block of it applies; otherwise chain, state and store are what they were, exactly if what had been
     * applied of
     * the new branch could be undone.
     */
    method SwitchFork(first: seq<B>, second: seq<B>, limit: B -> nat) returns (r: Ending)
      requires Valid() && first != [] && IsBranch(rules, second, rules.head(state))
      requires rules.prev(first[|first| - 1]) == rules.prev(second[|second| - 1])
      requires forall b :: limit(b) > 0
      modifies this`state, this`undo, this`store, this`chain
      ensures |second| <= |old(chain)|
      ensures var base := old(chain)[..|old(chain)| - |second|];
        (r == Took <==> |second| <= |old(undo)| && Fold(rules, genesis, base + Reverse(first)).Some?)
      ensures var base := old(chain)[..|old(chain)| - |second|];
        (r == Kept <==> |second| <= |old(undo)| && CanUndo(rules, genesis, base, Reverse(first), limit))
      ensures r == Took ==> Valid() && chain == old(chain)[..|old(chain)| - |second|] + Reverse(first)
      ensures r == Kept ==> Valid() && chain == old(chain) && state == old(state) && store == old(store)
      ensures r == Broke ==> Torn()
    {
      hide Lawful, UndoFits, StoreOf, IsBranch, Fold, Reverse, FailsAt, DeepTo, Torn;
      ghost var before, n := chain, |chain| - |second|;
      ForkPoint(rules, genesis, chain, second);
      var point := rules.prev(second[|second| - 1]);
      var ok := PopTo(point, n);
      if !ok {
        return Broke;
      }
      ghost var common := chain;
      var done := PushBranch(first, limit);
      assert Reverse(first)[..|first|] == Reverse(first);
      if done == |first| {
        NothingToUndo(rules, genesis, common, Reverse(first), limit);
        return Took;
      }
      FailedBranch(rules, genesis, common, Reverse(first), limit, done);
      assert chain[..n] == common;
      ok := PopTo(point, n);
      if !ok {
        return Broke;
      }
      var restored := PushBranch(second, limit);
      if restored < |second| {
        FailedHere(rules, genesis, common, Reverse(second), restored);
      }
      Restored(rules, genesis, before, n, second, restored);
      return Kept;
    }

    /** The case in which _push_block switches forks. */
    predicate Overtakes(newHead: B)
      reads this
    {
      rules.prev(newHead) != rules.head(state) && rules.num(rules.id(newHead)) > rules.num(rules.head(state))
    }

    /**
     * _push_block: newHead is the head of the fork database after it took b; first and second are what
     * fetch_branch_from gives when a switch is due.
     */
    method PushBlock(b: B, newHead: B, first: seq<B>, second: seq<B>, limit: B -> nat) returns (r: Outcome)
      requires Valid() && forall x :: limit(x) > 0
      requires Overtakes(newHead) ==>
        && IsBranch(rules, first, rules.id(newHead)) && IsBranch(rules, second, rules.head(state))
        && rules.prev(first[|first| - 1]) == rules.prev(second[|second| - 1])
      modifies this`state, this`undo, this`store, this`chain
      ensures if r == Broken then Torn() else Valid()
      ensures r == Switched ==> old(Overtakes(newHead)) && |second| <= |old(chain)| < |chain|
      ensures r == Switched ==> chain == old(chain)[..|old(chain)| - |second|] + Reverse(first)
      ensures r == Switched ==> rules.head(state) == rules.id(newHead)
      ensures old(Overtakes(newHead)) ==> |second| <= |old(chain)|
      ensures old(Overtakes(newHead)) ==> var base := old(chain)[..|old(chain)| - |second|];
        (r == Switched <==> |second| <= |old(undo)| && Fold(rules, genesis, base + Reverse(first)).Some?)
      ensures old(Overtakes(newHead)) ==> var base := old(chain)[..|old(chain)| - |second|];
        (r == Rejected <==> |second| <= |old(undo)| && CanUndo(rules, genesis, base, Reverse(first), limit))
      ensures r == Broken ==> old(Overtakes(newHead))
      ensures r == Extended <==> rules.prev(newHead) == old(rules.head(state)) && rules.apply(old(state), b).Some?
      ensures r == Extended ==> chain == old(chain) + [b] && rules.head(state) == rules.id(b)
      ensures r == Ignored || r == Rejected ==> chain == old(chain) && state == old(state) && store == old(store)
      ensures r == Ignored <==> rules.prev(newHead) != old(rules.head(state)) && !old(Overtakes(newHead))
    {
      hide Lawful, UndoFits, StoreOf, IsBranch, Fold, Reverse, CanUndo, Torn;
      if rules.prev(newHead) != rules.head(state) {
        if rules.num(rules.id(newHead)) > rules.num(rules.head(state)) {
          HeadNumber(rules, genesis, chain);
          TopOf(rules, first, rules.id(newHead));
          var ending := SwitchFork(first, second, limit);
          if ending == Took {
            FoldLinks(rules, genesis, chain);
            HeadNumber(rules, genesis, chain);
            return Switched;
          }
          return if ending == Kept then Rejected else Broken;
        }
        return Ignored;
      }
      var ok := ApplyOne(b, limit(b));
      if ok {
        FoldLinks(rules, genesis, chain);
      }
      r := if ok then Extended else Rejected;
    }
  }

  // ---- a switch that is not restored ----

  /** A block of the example: its id is the path of bits from the genesis block. */
  datatype Path = Path(parent: seq<bool>, bit: bool)

  function Ones(n: nat): (s: seq<bool>)
    ensures |s| == n
  {
    seq(n, _ => true)
  }

  /** The state is the id of the head; the block at height n + 2 on the path of ones does not apply. */
  function PathRules(n: nat): Rules<seq<bool>, Path, seq<bool>> {
    Rules((s: seq<bool>, b: Path) =>
            if s == b.parent && b.parent != Ones(n + 1) then Some(b.parent + [b.bit]) else None,
          (s: seq<bool>) => s, (b: Path) => b.parent + [b.bit], (b: Path) => b.parent, (id: seq<bool>) => |id|)
  }

  lemma PathsLawful(n: nat)
    ensures Lawful(PathRules(n)) && forall b :: PathRules(n).id(b) != []
  {
    var r := PathRules(n);
    forall b, b' | r.id(b) == r.id(b') ensures b == b' {
      assert (b.parent + [b.bit])[..|b.parent|] == b.parent && (b'.parent + [b'.bit])[..|b'.parent|] == b'.parent;
      assert (b.parent + [b.bit])[|b.parent|] == b.bit && (b'.parent + [b'.bit])[|b'.parent|] == b'.bit;
    }
  }

  /** The first n blocks on the path of ones, oldest first. */
  function OnesBranch(n: nat): (bs: seq<Path>)
    ensures |bs| == n
  {
    seq(n, i requires 0 <= i => Path(Ones(i), true))
  }

  lemma {:induction false} OnesFold(n: nat, k: nat)
    requires k <= n + 1
    ensures Fold(PathRules(n), [], OnesBranch(k)) == Some(Ones(k))
    decreases k
  {
    if k > 0 {
      OnesFold(n, k - 1);
      assert OnesBranch(k)[..k - 1] == OnesBranch(k - 1) && OnesBranch(k)[k - 1] == Path(Ones(k - 1), true);
      assert Ones(k - 1) + [true] == Ones(k);
    }
  }

  lemma OnesFail(n: nat)
    ensures FailsAt(PathRules(n), [], [], OnesBranch(n + 2), n + 1)
  {
    OnesFold(n, n + 1);
    assert OnesBranch(n + 2)[..n + 1] == OnesBranch(n + 1) && OnesBranch(n + 2)[..n + 2] == OnesBranch(n + 2);
    assert [] + OnesBranch(n + 1) == OnesBranch(n + 1) && [] + OnesBranch(n + 2) == OnesBranch(n + 2);
  }

  /**
   * For every undo limit there is a switch that breaks: a head one block above genesis, and a branch whose first
   * limit + 1 blocks apply and whose next one does not.
   */
  method BrokenSwitch(limit: nat) returns (r: Ending)
    requires limit > 0
    ensures r == Broke
  {
    hide Lawful, UndoFits, StoreOf, Fold, FailsAt, PathRules, CanUndo, Reverse, OnesBranch;
    var rules := PathRules(limit);
    PathsLawful(limit);
    PathsMeet(limit);
    var head := Path([], false);
    var db := new Database(rules, []);
    var ok := db.ApplyOne(head, limit);
    assert db.chain == [head] && db.chain[..0] == [];
    FoldLinks(rules, [], db.chain);
    var newest := OnesBranch(limit + 2);
    ReverseTwice(newest);
    var limits := (b: Path) => limit;
    OnesStay(limit, limits);
    r := db.SwitchFork(Reverse(newest), [head], limits);
  }

  lemma OnesStay(n: nat, limits: Path -> nat)
    requires forall b :: limits(b) == n
    ensures Fold(PathRules(n), [], [] + OnesBranch(n + 2)).None?
    ensures !CanUndo(PathRules(n), [], [], OnesBranch(n + 2), limits)
  {
    hide Fold, FailsAt, PathRules, OnesBranch, CanUndo;
    OnesFail(n);
    FailedBranch(PathRules(n), [], [], OnesBranch(n + 2), limits, n + 1);
    assert limits(OnesBranch(n + 2)[n]) == n;
  }

  lemma PathsMeet(n: nat)
    ensures var r, head, bs := PathRules(n), Path([], false), OnesBranch(n + 2);
      && r.apply([], head).Some? && r.head([]) == [] && r.prev(head) == [] && r.prev(bs[0]) == []
      && r.id(head) == [false]
  {}

  lemma ReverseTwice<T>(xs: seq<T>)
    ensures Reverse(Reverse(xs)) == xs
  {}
}
