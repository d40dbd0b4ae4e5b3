/** The shape of a `LocHeap` as a value: a binary tree that is ordered only from
  * parent to child. The ranking is a parameter, as `LocRankable::ranks` is virtual.
  */
module RankedTree {

  /** `size` is the cached subtree size (`mSize`), which includes the node itself. */
  datatype Tree<T> = Empty | Node(size: int, data: T, left: Tree<T>, right: Tree<T>)

  ghost function Elements<T>(t: Tree<T>): multiset<T> {
    match t
    case Empty => multiset{}
    case Node(_, d, l, r) => multiset{d} + Elements(l) + Elements(r)
  }

  /** How often `x` is in the tree. */
  ghost function Occurs<T>(t: Tree<T>, x: T): nat {
    match t
    case Empty => 0
    case Node(_, d, l, r) => (if d == x then 1 else 0) + Occurs(l, x) + Occurs(r, x)
  }

  lemma {:induction false} ElementsCountOccurrences<T>(t: Tree<T>, x: T)
    ensures Elements(t)[x] == Occurs(t, x)
  {
    if t.Empty? {
    } else {
      ElementsCountOccurrences(t.left, x);
      ElementsCountOccurrences(t.right, x);
    }
  }

  /** `u` holds what `t` holds and one more `x`. */
  lemma {:induction false} HasOneMore<T>(t: Tree<T>, u: Tree<T>, x: T)
    requires forall y :: Occurs(u, y) == Occurs(t, y) + if y == x then 1 else 0
    ensures Elements(u) == Elements(t) + multiset{x}
  {
    var before, after := Elements(t), Elements(u);
    forall y
      ensures after[y] == before[y] + if y == x then 1 else 0
    {
      ElementsCountOccurrences(t, y);
      ElementsCountOccurrences(u, y);
    }
    SameMultiplicities(after, before + multiset{x});
  }

  lemma SameMultiplicities<T>(a: multiset<T>, b: multiset<T>)
    requires forall y :: a[y] == b[y]
    ensures a == b
  {
  }

  ghost function Count<T>(t: Tree<T>): nat {
    match t
    case Empty => 0
    case Node(_, _, l, r) => 1 + Count(l) + Count(r)
  }

  ghost predicate SizesExact<T>(t: Tree<T>) {
    t.Node? ==> t.size == Count(t) && SizesExact(t.left) && SizesExact(t.right)
  }

  /** No child outranks its parent. */
  ghost predicate Ordered<T>(outRanks: (T, T) -> bool, t: Tree<T>) {
    t.Node? ==>
      && (t.left.Node? ==> !outRanks(t.left.data, t.data))
      && (t.right.Node? ==> !outRanks(t.right.data, t.data))
      && Ordered(outRanks, t.left) && Ordered(outRanks, t.right)
  }

  ghost predicate IsHeap<T>(outRanks: (T, T) -> bool, t: Tree<T>) {
    Ordered(outRanks, t) && SizesExact(t)
  }

  /** On the elements of `s`, "does not outrank" is a total preorder. */
  ghost predicate RanksWell<T>(outRanks: (T, T) -> bool, s: set<T>) {
    && (forall a, b | a in s && b in s :: outRanks(a, b) ==> !outRanks(b, a))
    && (forall a, b, c | a in s && b in s && c in s ::
          !outRanks(a, b) && !outRanks(b, c) ==> !outRanks(a, c))
  }

  ghost predicate Within<T>(t: Tree<T>, s: set<T>) {
    forall x | x in Elements(t) :: x in s
  }

  // ---- The operations ----

  function Push<T>(outRanks: (T, T) -> bool, t: Tree<T>, x: T): Tree<T>
    decreases t, 1
  {
    match t
    case Empty => Node(1, x, Empty, Empty)
    case Node(_, d, _, _) => if outRanks(x, d) then PushBelow(outRanks, t, x, d) else PushBelow(outRanks, t, d, x)
  }

  /** A missing subtree is filled first, else the smaller one grows. */
  predicate GrowsLeft<T>(t: Tree<T>)
    requires t.Node?
  {
    t.left.Empty? || (t.right.Node? && t.left.size <= t.right.size)
  }

  /** `top` stays at the top of `t`; `low` goes into one of its subtrees. */
  function PushBelow<T>(outRanks: (T, T) -> bool, t: Tree<T>, top: T, low: T): Tree<T>
    requires t.Node?
    decreases t, 0
  {
    if GrowsLeft(t) then Node(t.size + 1, top, Push(outRanks, t.left, low), t.right)
    else Node(t.size + 1, top, t.left, Push(outRanks, t.right, low))
  }

  /** True when the left child takes the place of a popped top. */
  predicate TakesLeft<T>(outRanks: (T, T) -> bool, t: Tree<T>)
    requires t.Node? && (t.left.Node? || t.right.Node?)
  {
    t.left.Node? && (t.right.Empty? || outRanks(t.left.data, t.right.data))
  }

  /** What is left when the top is popped. */
  function Pop<T>(outRanks: (T, T) -> bool, t: Tree<T>): Tree<T>
    requires t.Node?
  {
    if t.left.Empty? && t.right.Empty? then Empty
    else if TakesLeft(outRanks, t) then
      Node(t.size - 1, t.left.data, Pop(outRanks, t.left), t.right)
    else
      Node(t.size - 1, t.right.data, t.left, Pop(outRanks, t.right))
  }

  datatype Removal<T> = Removal(found: bool, rest: Tree<T>)

  /** Removal by identity. A subtree whose top is outranked by `x` is not searched. */
  function Remove<T(==)>(outRanks: (T, T) -> bool, t: Tree<T>, x: T): Removal<T> {
    match t
    case Empty => Removal(false, Empty)
    case Node(n, d, l, r) =>
      if d == x then Removal(true, Pop(outRanks, t))
      else if outRanks(x, d) then Removal(false, t)
      else
        var fromLeft := Remove(outRanks, l, x);
        if fromLeft.found then Removal(true, Node(n - 1, d, fromLeft.rest, r))
        else
          var fromRight := Remove(outRanks, r, x);
          if fromRight.found then Removal(true, Node(n - 1, d, l, fromRight.rest))
          else Removal(false, t)
  }

  // ---- Every element of a heap ranks no higher than its top ----

  lemma {:induction false} TopIsNotOutranked<T>(outRanks: (T, T) -> bool, t: Tree<T>, s: set<T>)
    requires t.Node? && Ordered(outRanks, t) && RanksWell(outRanks, s) && Within(t, s)
    ensures forall x | x in Elements(t) :: !outRanks(x, t.data)
  {
    assert t.data in Elements(t);
    forall x | x in Elements(t)
      ensures !outRanks(x, t.data)
    {
      if x in Elements(t.left) {
        assert Within(t.left, s);
        TopIsNotOutranked(outRanks, t.left, s);
        assert t.left.data in Elements(t.left);
      } else if x in Elements(t.right) {
        assert Within(t.right, s);
        TopIsNotOutranked(outRanks, t.right, s);
        assert t.right.data in Elements(t.right);
      }
    }
  }

  // ---- Push ----

  /** A push adds exactly the pushed element and keeps the heap. */
  lemma PushKeepsHeap<T>(outRanks: (T, T) -> bool, t: Tree<T>, x: T, s: set<T>)
    requires IsHeap(outRanks, t) && RanksWell(outRanks, s) && Within(t, s) && x in s
    ensures var t' := Push(outRanks, t, x);
      && IsHeap(outRanks, t')
      && Elements(t') == Elements(t) + multiset{x}
      && Count(t') == Count(t) + 1
      && t'.data == (if t.Node? && !outRanks(x, t.data) then t.data else x)
  {
    PushIsCounted(outRanks, t, x);
    PushAddsOne(outRanks, t, x);
    PushIsOrdered(outRanks, t, x, s);
  }

  lemma {:induction false} PushIsCounted<T>(outRanks: (T, T) -> bool, t: Tree<T>, x: T)
    requires SizesExact(t)
    ensures SizesExact(Push(outRanks, t, x)) && Count(Push(outRanks, t, x)) == Count(t) + 1
  {
    if t.Empty? {
    } else {
      var low := if outRanks(x, t.data) then t.data else x;
      PushIsCounted(outRanks, t.left, low);
      PushIsCounted(outRanks, t.right, low);
    }
  }

  lemma {:induction false} PushAddsOne<T>(outRanks: (T, T) -> bool, t: Tree<T>, x: T)
    ensures Elements(Push(outRanks, t, x)) == Elements(t) + multiset{x}
  {
    forall y {
      PushAddsOccurrence(outRanks, t, x, y);
    }
    HasOneMore(t, Push(outRanks, t, x), x);
  }

  lemma {:induction false} PushAddsOccurrence<T>(outRanks: (T, T) -> bool, t: Tree<T>, x: T, y: T)
    ensures Occurs(Push(outRanks, t, x), y) == Occurs(t, y) + if y == x then 1 else 0
  {
    if t.Empty? {
    } else {
      var low := if outRanks(x, t.data) then t.data else x;
      PushAddsOccurrence(outRanks, t.left, low, y);
      PushAddsOccurrence(outRanks, t.right, low, y);
    }
  }

  lemma TopAfterPush<T>(outRanks: (T, T) -> bool, t: Tree<T>, x: T)
    ensures Push(outRanks, t, x).Node?
    ensures Push(outRanks, t, x).data == (if t.Node? && !outRanks(x, t.data) then t.data else x)
  {
  }

  lemma {:induction false} PushIsOrdered<T>(outRanks: (T, T) -> bool, t: Tree<T>, x: T, s: set<T>)
    requires Ordered(outRanks, t) && RanksWell(outRanks, s) && Within(t, s) && x in s
    ensures Ordered(outRanks, Push(outRanks, t, x))
    decreases t, 1
  {
    if t.Empty? {
    } else {
      TopIsAnElement(t);
      assert t.data in s;
      hide Elements, Within, PushBelow;
      ChildrenAreWithin(t, s);
      if outRanks(x, t.data) {
        PushBelowIsOrdered(outRanks, t, x, t.data, s);
      } else {
        PushBelowIsOrdered(outRanks, t, t.data, x, s);
      }
    }
  }

  lemma {:induction false} PushBelowIsOrdered<T>(outRanks: (T, T) -> bool, t: Tree<T>, top: T, low: T, s: set<T>)
    requires t.Node? && Ordered(outRanks, t) && RanksWell(outRanks, s) && Within(t, s) && low in s
    requires t.left.Node? ==> !outRanks(t.left.data, top)
    requires t.right.Node? ==> !outRanks(t.right.data, top)
    requires !outRanks(low, top)
    ensures Ordered(outRanks, PushBelow(outRanks, t, top, low))
    decreases t, 0
  {
    hide Elements, Within, Push, RanksWell;
    ChildrenAreWithin(t, s);
    if GrowsLeft(t) {
      PushIsOrdered(outRanks, t.left, low, s);
      TopAfterPush(outRanks, t.left, low);
    } else {
      PushIsOrdered(outRanks, t.right, low, s);
      TopAfterPush(outRanks, t.right, low);
    }
  }

  // ---- Pop ----

  /** A pop removes exactly the top, which nothing left behind outranks, and keeps the heap. */
  lemma {:induction false} PopKeepsHeap<T>(outRanks: (T, T) -> bool, t: Tree<T>, s: set<T>)
    requires t.Node? && IsHeap(outRanks, t) && RanksWell(outRanks, s) && Within(t, s)
    ensures var t' := Pop(outRanks, t);
      && IsHeap(outRanks, t')
      && Elements(t') == Elements(t) - multiset{t.data}
      && Elements(t) == Elements(t') + multiset{t.data}
      && Count(t') == Count(t) - 1
      && (forall x | x in Elements(t') :: !outRanks(x, t.data))
  {
    TopIsNotOutranked(outRanks, t, s);
    PopIsExact(outRanks, t);
    PopIsOrdered(outRanks, t, s);
  }

  lemma PopIsExact<T>(outRanks: (T, T) -> bool, t: Tree<T>)
    requires t.Node? && SizesExact(t)
    ensures var t' := Pop(outRanks, t);
      && SizesExact(t')
      && Elements(t) == Elements(t') + multiset{t.data}
      && Count(t') == Count(t) - 1
  {
    PopIsCounted(outRanks, t);
    forall y {
      PopDropsOccurrence(outRanks, t, y);
    }
    HasOneMore(Pop(outRanks, t), t, t.data);
  }

  lemma {:induction false} PopIsCounted<T>(outRanks: (T, T) -> bool, t: Tree<T>)
    requires t.Node? && SizesExact(t)
    ensures SizesExact(Pop(outRanks, t)) && Count(Pop(outRanks, t)) == Count(t) - 1
  {
    if t.left.Empty? && t.right.Empty? {
    } else {
      PopIsCounted(outRanks, if TakesLeft(outRanks, t) then t.left else t.right);
    }
  }

  lemma {:induction false} PopDropsOccurrence<T>(outRanks: (T, T) -> bool, t: Tree<T>, y: T)
    requires t.Node?
    ensures Occurs(t, y) == Occurs(Pop(outRanks, t), y) + if y == t.data then 1 else 0
  {
    if t.left.Empty? && t.right.Empty? {
    } else {
      PopDropsOccurrence(outRanks, if TakesLeft(outRanks, t) then t.left else t.right, y);
    }
  }

  /** The child that does not move up stays below the one that does. */
  lemma PopIsOrderedIfBelowIs<T>(outRanks: (T, T) -> bool, t: Tree<T>)
    requires t.Node? && Ordered(outRanks, t) && (t.left.Node? || t.right.Node?)
    requires t.left.Node? && t.right.Node? && outRanks(t.left.data, t.right.data) ==> !outRanks(t.right.data, t.left.data)
    requires var sub := if TakesLeft(outRanks, t) then t.left else t.right;
      var rest := Pop(outRanks, sub);
      Ordered(outRanks, rest) && (rest.Node? ==> !outRanks(rest.data, sub.data))
    ensures Ordered(outRanks, Pop(outRanks, t))
  {
  }

  lemma NextTopIsNotOutranking<T>(outRanks: (T, T) -> bool, t: Tree<T>, s: set<T>)
    requires t.Node? && IsHeap(outRanks, t) && RanksWell(outRanks, s) && Within(t, s)
    ensures var rest := Pop(outRanks, t); rest.Node? ==> !outRanks(rest.data, t.data)
  {
    PopIsExact(outRanks, t);
    TopIsNotOutranked(outRanks, t, s);
    TopIsAnElement(Pop(outRanks, t));
  }

  lemma ChildrenAreWithin<T>(t: Tree<T>, s: set<T>)
    requires t.Node? && Within(t, s)
    ensures Within(t.left, s) && (t.left.Node? ==> t.left.data in s)
    ensures Within(t.right, s) && (t.right.Node? ==> t.right.data in s)
  {
    TopIsAnElement(t.left);
    TopIsAnElement(t.right);
  }

  lemma {:induction false} PopIsOrdered<T>(outRanks: (T, T) -> bool, t: Tree<T>, s: set<T>)
    requires t.Node? && IsHeap(outRanks, t) && RanksWell(outRanks, s) && Within(t, s)
    ensures Ordered(outRanks, Pop(outRanks, t))
  {
    if t.left.Empty? && t.right.Empty? {
    } else {
      hide Elements, Within, Pop;
      ChildrenAreWithin(t, s);
      var sub := if TakesLeft(outRanks, t) then t.left else t.right;
      PopIsOrdered(outRanks, sub, s);
      NextTopIsNotOutranking(outRanks, sub, s);
      hide IsHeap, TakesLeft;
      PopIsOrderedIfBelowIs(outRanks, t);
    }
  }

  // ---- Remove ----

  /** Removal takes out exactly the given element, and finds it whenever it is there: cutting
    * off the subtrees it outranks is sound.
    */
  lemma RemoveKeepsHeap<T>(outRanks: (T, T) -> bool, t: Tree<T>, x: T, s: set<T>)
    requires IsHeap(outRanks, t) && RanksWell(outRanks, s) && Within(t, s) && x in s
    ensures var r := Remove(outRanks, t, x);
      && IsHeap(outRanks, r.rest)
      && (r.found <==> x in Elements(t))
      && (r.found ==> Elements(t) == Elements(r.rest) + multiset{x} && Count(r.rest) == Count(t) - 1)
      && (!r.found ==> r.rest == t)
  {
    RemoveIsExact(outRanks, t, x);
    RemoveFinds(outRanks, t, x, s);
    RemoveIsOrdered(outRanks, t, x, s);
  }

  lemma RemoveIsExact<T>(outRanks: (T, T) -> bool, t: Tree<T>, x: T)
    requires SizesExact(t)
    ensures var r := Remove(outRanks, t, x);
      && SizesExact(r.rest)
      && (r.found ==> Elements(t) == Elements(r.rest) + multiset{x} && Count(r.rest) == Count(t) - 1)
      && (!r.found ==> r.rest == t)
  {
    RemoveIsCounted(outRanks, t, x);
    if Remove(outRanks, t, x).found {
      forall y {
        RemoveDropsOccurrence(outRanks, t, x, y);
      }
      HasOneMore(Remove(outRanks, t, x).rest, t, x);
    }
  }

  lemma {:induction false} RemoveIsCounted<T>(outRanks: (T, T) -> bool, t: Tree<T>, x: T)
    requires SizesExact(t)
    ensures var r := Remove(outRanks, t, x);
      && SizesExact(r.rest)
      && (r.found ==> Count(r.rest) == Count(t) - 1)
      && (!r.found ==> r.rest == t)
  {
    if t.Empty? {
    } else {
      if t.data == x {
        PopIsCounted(outRanks, t);
      } else if !outRanks(x, t.data) {
        RemoveIsCounted(outRanks, t.left, x);
        RemoveIsCounted(outRanks, t.right, x);
      }
    }
  }

  lemma {:induction false} RemoveDropsOccurrence<T>(outRanks: (T, T) -> bool, t: Tree<T>, x: T, y: T)
    ensures var r := Remove(outRanks, t, x);
      r.found ==> Occurs(t, y) == Occurs(r.rest, y) + if y == x then 1 else 0
  {
    if t.Empty? {
    } else {
      if t.data == x {
        PopDropsOccurrence(outRanks, t, y);
      } else if !outRanks(x, t.data) {
        RemoveDropsOccurrence(outRanks, t.left, x, y);
        RemoveDropsOccurrence(outRanks, t.right, x, y);
      }
    }
  }

  lemma {:induction false} RemoveFinds<T>(outRanks: (T, T) -> bool, t: Tree<T>, x: T, s: set<T>)
    requires IsHeap(outRanks, t) && RanksWell(outRanks, s) && Within(t, s) && x in s
    ensures Remove(outRanks, t, x).found <==> x in Elements(t)
  {
    if t.Empty? {
    } else {
      assert Within(t.left, s) && Within(t.right, s);
      if t.data == x {
        assert x in Elements(t);
      } else if outRanks(x, t.data) {
        TopIsNotOutranked(outRanks, t, s);
      } else {
        RemoveFinds(outRanks, t.left, x, s);
        RemoveFinds(outRanks, t.right, x, s);
      }
    }
  }

  lemma {:induction false} RemoveIsOrdered<T>(outRanks: (T, T) -> bool, t: Tree<T>, x: T, s: set<T>)
    requires IsHeap(outRanks, t) && RanksWell(outRanks, s) && Within(t, s)
    ensures Ordered(outRanks, Remove(outRanks, t, x).rest)
  {
    if t.Empty? {
    } else {
      assert IsHeap(outRanks, t.left) && IsHeap(outRanks, t.right) && Ordered(outRanks, t);
      hide IsHeap, Ordered, Elements, Within, RanksWell, Remove;
      ChildrenAreWithin(t, s);
      if t.data == x {
        PopIsOrdered(outRanks, t, s);
        RemovePops(outRanks, t);
      } else {
        RemoveIsOrdered(outRanks, t.left, x, s);
        RemoveIsOrdered(outRanks, t.right, x, s);
        RemainderIsBelow(outRanks, t, t.left, x, s);
        RemainderIsBelow(outRanks, t, t.right, x, s);
        RemoveIsOrderedIfBelowIs(outRanks, t, x);
      }
    }
  }

  lemma RemovePops<T>(outRanks: (T, T) -> bool, t: Tree<T>)
    requires t.Node?
    ensures Remove(outRanks, t, t.data).rest == Pop(outRanks, t)
  {
  }

  lemma RemoveIsOrderedIfBelowIs<T>(outRanks: (T, T) -> bool, t: Tree<T>, x: T)
    requires t.Node? && Ordered(outRanks, t) && t.data != x
    requires var rest := Remove(outRanks, t.left, x).rest;
      Ordered(outRanks, rest) && (rest.Node? ==> !outRanks(rest.data, t.data))
    requires var rest := Remove(outRanks, t.right, x).rest;
      Ordered(outRanks, rest) && (rest.Node? ==> !outRanks(rest.data, t.data))
    ensures Ordered(outRanks, Remove(outRanks, t, x).rest)
  {
  }

  lemma RemainderIsBelow<T>(outRanks: (T, T) -> bool, t: Tree<T>, sub: Tree<T>, x: T, s: set<T>)
    requires t.Node? && IsHeap(outRanks, t) && RanksWell(outRanks, s) && Within(t, s) && (sub == t.left || sub == t.right)
    ensures var rest := Remove(outRanks, sub, x).rest;
      rest.Node? ==> !outRanks(rest.data, t.data)
  {
    assert SizesExact(sub);
    hide IsHeap, Elements, Remove, Within, RanksWell;
    TopIsNotOutranked(outRanks, t, s);
    ElementsOfChild(t, sub);
    RemainderTopWasThere(outRanks, sub, x);
  }

  lemma ElementsOfChild<T>(t: Tree<T>, sub: Tree<T>)
    requires t.Node? && (sub == t.left || sub == t.right)
    ensures forall y | y in Elements(sub) :: y in Elements(t)
  {
  }

  lemma RemainderTopWasThere<T>(outRanks: (T, T) -> bool, t: Tree<T>, x: T)
    requires SizesExact(t)
    ensures var rest := Remove(outRanks, t, x).rest;
      rest.Node? ==> rest.data in Elements(t)
  {
    hide Remove;
    RemoveIsExact(outRanks, t, x);
    TopIsAnElement(Remove(outRanks, t, x).rest);
    hide Elements;
  }

  lemma TopIsAnElement<T>(t: Tree<T>)
    ensures t.Node? ==> t.data in Elements(t)
  {
  }

  function Chain<T>(a: T, b: T, c: T): Tree<T> {
    Node(3, a, Node(2, b, Node(1, c, Empty, Empty), Empty), Empty)
  }

  lemma SingleNode<T>(outRanks: (T, T) -> bool, t: Tree<T>)
    requires t.Node? && t.size == 1 && t.left.Empty? && t.right.Empty?
    ensures IsHeap(outRanks, t) && Count(t) == 1 && Occurs(t, t.data) == 1
  {
  }

  /** The pruning is what needs the preorder. Wherever transitivity fails there is a heap with
    * an element in it that is not found.
    */
  lemma RemoveMissesWithoutTransitivity<T>(outRanks: (T, T) -> bool, a: T, b: T, c: T)
    requires !outRanks(c, b) && !outRanks(b, a) && outRanks(c, a) && a != c
    ensures IsHeap(outRanks, Chain(a, b, c)) && Occurs(Chain(a, b, c), c) >= 1
    ensures !Remove(outRanks, Chain(a, b, c), c).found
  {
    var low := Node(1, c, Empty, Empty);
    var mid := Node(2, b, low, Empty);
    SingleNode(outRanks, low);
    assert IsHeap(outRanks, mid) && Count(mid) == 2 && Occurs(mid, c) >= 1;
  }

  /** Removing anything but the top leaves the top where it is. */
  lemma RemoveKeepsTop<T>(outRanks: (T, T) -> bool, t: Tree<T>, x: T)
    requires t.Node? && t.data != x
    ensures Remove(outRanks, t, x).rest.Node? && Remove(outRanks, t, x).rest.data == t.data
  {
  }

  // ---- Shape ----

  ghost predicate LeftHeavyByAtMostOne<T>(t: Tree<T>) {
    t.Node? ==>
      && 0 <= Count(t.left) - Count(t.right) <= 1
      && LeftHeavyByAtMostOne(t.left) && LeftHeavyByAtMostOne(t.right)
  }

  ghost function PushAll<T>(outRanks: (T, T) -> bool, xs: seq<T>): Tree<T> {
    if xs == [] then Empty else Push(outRanks, PushAll(outRanks, xs[..|xs| - 1]), xs[|xs| - 1])
  }

  ghost function Height<T>(t: Tree<T>): nat {
    if t.Empty? then 0
    else 1 + if Height(t.left) < Height(t.right) then Height(t.right) else Height(t.left)
  }

  ghost function Pow2(n: nat): nat {
    if n == 0 then 1 else 2 * Pow2(n - 1)
  }

  lemma {:induction false} PushKeepsLeftHeavy<T>(outRanks: (T, T) -> bool, t: Tree<T>, x: T)
    requires SizesExact(t) && LeftHeavyByAtMostOne(t)
    ensures LeftHeavyByAtMostOne(Push(outRanks, t, x))
  {
    if t.Empty? {
    } else {
      var low := if outRanks(x, t.data) then t.data else x;
      PushIsCounted(outRanks, t.left, low);
      PushIsCounted(outRanks, t.right, low);
      PushKeepsLeftHeavy(outRanks, t.left, low);
      PushKeepsLeftHeavy(outRanks, t.right, low);
    }
  }

  lemma {:induction false} PushesBalance<T>(outRanks: (T, T) -> bool, xs: seq<T>)
    ensures var t := PushAll(outRanks, xs);
      SizesExact(t) && Count(t) == |xs| && LeftHeavyByAtMostOne(t)
  {
    if xs == [] {
    } else {
      var t := PushAll(outRanks, xs[..|xs| - 1]);
      PushesBalance(outRanks, xs[..|xs| - 1]);
      PushIsCounted(outRanks, t, xs[|xs| - 1]);
      PushKeepsLeftHeavy(outRanks, t, xs[|xs| - 1]);
    }
  }

  lemma {:induction false} LeftHeavyIsShallow<T>(t: Tree<T>)
    requires t.Node? && LeftHeavyByAtMostOne(t)
    ensures Height(t) >= 1 && Pow2(Height(t) - 1) <= Count(t)
    decreases t
  {
    if t.right.Node? {
      LeftHeavyIsShallow(t.left);
      LeftHeavyHeightIsMonotone(t.right, t.left);
      hide LeftHeavyByAtMostOne;
      assert Height(t) == 1 + Height(t.left);
      assert Pow2(Height(t.left)) == 2 * Pow2(Height(t.left) - 1);
    } else if t.left.Node? {
      assert Count(t.left) == 1;
      assert t.left.left.Empty? && t.left.right.Empty?;
    }
  }

  /** Among such trees the one with more nodes is at least as high. */
  lemma {:induction false} LeftHeavyHeightIsMonotone<T>(t: Tree<T>, u: Tree<T>)
    requires LeftHeavyByAtMostOne(t) && LeftHeavyByAtMostOne(u) && Count(t) <= Count(u)
    ensures Height(t) <= Height(u)
    decreases t, u
  {
    if t.Empty? {
    } else {
      LeftHeavyHeightIsMonotone(t.left, u.left);
      LeftHeavyHeightIsMonotone(t.right, t.left);
    }
  }

  /** A tree built by n pushes is at most floor(log2 n) + 1 levels high. */
  lemma PushesStayShallow<T>(outRanks: (T, T) -> bool, xs: seq<T>)
    requires xs != []
    ensures Height(PushAll(outRanks, xs)) >= 1
    ensures Pow2(Height(PushAll(outRanks, xs)) - 1) <= |xs|
  {
    PushesBalance(outRanks, xs);
    LeftHeavyIsShallow(PushAll(outRanks, xs));
  }

  ghost function Imbalance<T>(t: Tree<T>): nat
    requires t.Node?
  {
    var d := Count(t.left) - Count(t.right);
    if d < 0 then -d else d
  }

  /** Node by node, `u` is no more lopsided than `t` was, or is off by at most one. */
  ghost predicate NoMoreLopsided<T>(t: Tree<T>, u: Tree<T>) {
    t.Node? ==>
      && u.Node?
      && (Imbalance(u) <= 1 || Imbalance(u) <= Imbalance(t))
      && NoMoreLopsided(t.left, u.left) && NoMoreLopsided(t.right, u.right)
  }

  lemma {:induction false} NoMoreLopsidedIsReflexive<T>(t: Tree<T>)
    ensures NoMoreLopsided(t, t)
  {
    if t.Empty? {
    } else {
      NoMoreLopsidedIsReflexive(t.left);
      NoMoreLopsidedIsReflexive(t.right);
    }
  }

  lemma {:induction false} PushDoesNotUnbalance<T>(outRanks: (T, T) -> bool, t: Tree<T>, x: T)
    requires SizesExact(t)
    ensures NoMoreLopsided(t, Push(outRanks, t, x))
  {
    if t.Empty? {
    } else {
      var low := if outRanks(x, t.data) then t.data else x;
      PushIsCounted(outRanks, t.left, low);
      PushIsCounted(outRanks, t.right, low);
      PushDoesNotUnbalance(outRanks, t.left, low);
      PushDoesNotUnbalance(outRanks, t.right, low);
      NoMoreLopsidedIsReflexive(t.left);
      NoMoreLopsidedIsReflexive(t.right);
    }
  }
}
