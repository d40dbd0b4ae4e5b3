/** `LocHeap`: a priority queue kept as a tree of nodes. Nodes keep their place in the tree;
  * what moves is the data they hold.
  */
module LocHeap {
  import opened Options
  import opened RankedTree

  class LocHeapNode<T(==)> {
    var mSize: int
    var mLeft: LocHeapNode?<T>
    var mRight: LocHeapNode?<T>
    var mData: T
    ghost var Shape: Tree<T>  // the tree from here down, as a value
    ghost var Repr: set<object>

    ghost predicate Valid()
      reads this, Repr
      ensures Valid() ==> this in Repr && Shape.Node? && Shape.size == mSize && Shape.data == mData
      decreases Repr
    {
      && this in Repr
      && (mLeft != null ==> mLeft in Repr && mLeft.Repr <= Repr && this !in mLeft.Repr && mLeft.Valid())
      && (mRight != null ==> mRight in Repr && mRight.Repr <= Repr && this !in mRight.Repr && mRight.Valid())
      && (mLeft != null && mRight != null ==> mLeft.Repr !! mRight.Repr)
      && Shape == Node(mSize, mData, ShapeOf(mLeft), ShapeOf(mRight))
    }

    static ghost function ShapeOf(node: LocHeapNode?<T>): Tree<T>
      reads node
    {
      if node == null then Empty else node.Shape
    }

    static ghost function ReprOf(node: LocHeapNode?<T>): set<object>
      reads node
    {
      if node == null then {} else node.Repr
    }

    static ghost predicate ValidOrNull(node: LocHeapNode?<T>)
      reads node, ReprOf(node)
    {
      node != null ==> node.Valid()
    }

    /** The children are in order, whatever this node's ghost view says. */
    ghost predicate Linked()
      reads this, mLeft, mRight, ReprOf(mLeft), ReprOf(mRight)
    {
      && ValidOrNull(mLeft) && this !in ReprOf(mLeft)
      && ValidOrNull(mRight) && this !in ReprOf(mRight)
      && ReprOf(mLeft) !! ReprOf(mRight)
    }

    ghost predicate IsNewLeaf()
      reads this, Repr
    {
      Valid() && Repr == {this} && Shape == Node(1, mData, Empty, Empty)
    }

    constructor (data: T)
      ensures IsNewLeaf() && mData == data && fresh(Repr)
    {
      mSize, mLeft, mRight, mData := 1, null, null, data;
      Shape, Repr := Node(1, data, Empty, Empty), {this};
    }

    method Swap(node: LocHeapNode<T>)
      requires node != this && Shape.Node? && node.Shape.Node?
      modifies this`mData, this`Shape, node`mData, node`Shape
      ensures mData == old(node.mData) && node.mData == old(mData)
      ensures Shape == old(Shape.(data := node.mData)) && node.Shape == old(node.Shape.(data := mData))
    {
      var tmpData := node.mData;
      node.mData := mData;
      mData := tmpData;
      Shape, node.Shape := Shape.(data := mData), node.Shape.(data := node.mData);
    }

    /** Brings the ghost view of this node up to date with its fields. */
    ghost method Refresh()
      requires Linked()
      modifies this`Shape, this`Repr
      ensures Valid() && Repr == {this} + ReprOf(mLeft) + ReprOf(mRight)
      ensures Shape == Node(mSize, mData, ShapeOf(mLeft), ShapeOf(mRight))
    {
      Shape := Node(mSize, mData, ShapeOf(mLeft), ShapeOf(mRight));
      Repr := {this} + ReprOf(mLeft) + ReprOf(mRight);
    }

    /** Puts a new leaf into this tree. */
    method Push(outRanks: (T, T) -> bool, node: LocHeapNode<T>)
      requires Valid() && node.IsNewLeaf() && node !in Repr
      modifies Repr, node
      ensures Valid() && Repr <= old(Repr) + {node}
      ensures Shape == RankedTree.Push(outRanks, old(Shape), old(node.mData))
      decreases Repr, 1
    {
      if outRanks(node.mData, mData) {
        Swap(node);
      }
      if mLeft == null {
        PushLeft(outRanks, node);
      } else if mRight == null {
        PushRight(outRanks, node);
      } else if mLeft.mSize <= mRight.mSize {
        PushLeft(outRanks, node);
      } else {
        PushRight(outRanks, node);
      }
    }

    method PushLeft(outRanks: (T, T) -> bool, node: LocHeapNode<T>)
      requires Valid() && node.IsNewLeaf() && node !in Repr
      modifies Repr, node
      ensures Valid() && Repr <= old(Repr) + {node}
      ensures Shape == old(Node(mSize + 1, mData, RankedTree.Push(outRanks, ShapeOf(mLeft), node.mData), ShapeOf(mRight)))
      decreases Repr, 0
    {
      if mLeft == null {
        mLeft := node;
      } else {
        mLeft.Push(outRanks, node);
      }
      mSize := mSize + 1;
      Refresh();
    }

    method PushRight(outRanks: (T, T) -> bool, node: LocHeapNode<T>)
      requires Valid() && node.IsNewLeaf() && node !in Repr
      modifies Repr, node
      ensures Valid() && Repr <= old(Repr) + {node}
      ensures Shape == old(Node(mSize + 1, mData, ShapeOf(mLeft), RankedTree.Push(outRanks, ShapeOf(mRight), node.mData)))
      decreases Repr, 0
    {
      if mRight == null {
        mRight := node;
      } else {
        mRight.Push(outRanks, node);
      }
      mSize := mSize + 1;
      Refresh();
    }

    /** Pops the top of the tree at `top`. The data moves up along the path of the higher
      * ranked children, so the node that leaves the tree is a leaf. A null result means that
      * the caller's link to the tree must become null.
      */
    static method Pop(outRanks: (T, T) -> bool, top: LocHeapNode<T>)
      returns (newTop: LocHeapNode?<T>, popped: LocHeapNode<T>)
      requires top.Valid()
      modifies top.Repr
      ensures newTop == null || newTop == top
      ensures ValidOrNull(newTop) && ReprOf(newTop) <= old(top.Repr) - {popped}
      ensures popped in old(top.Repr) && popped.mData == old(top.mData)
      ensures ShapeOf(newTop) == RankedTree.Pop(outRanks, old(top.Shape))
      decreases top.Repr, 2
    {
      if top.mLeft == null && top.mRight == null {
        top.mSize := top.mSize - 1;
        newTop, popped := null, top;
      } else {
        newTop := top;
        if top.mLeft == null {
          popped := top.PopRight(outRanks);
        } else if top.mRight == null {
          popped := top.PopLeft(outRanks);
        } else if outRanks(top.mLeft.mData, top.mRight.mData) {
          popped := top.PopLeft(outRanks);
        } else {
          popped := top.PopRight(outRanks);
        }
      }
    }

    method PopLeft(outRanks: (T, T) -> bool) returns (popped: LocHeapNode<T>)
      requires Valid() && mLeft != null
      modifies Repr
      ensures Valid() && Repr <= old(Repr) - {popped}
      ensures popped in old(Repr) && popped.mData == old(mData)
      ensures Shape == old(Node(mSize - 1, mLeft.mData, RankedTree.Pop(outRanks, mLeft.Shape), ShapeOf(mRight)))
      decreases Repr, 1
    {
      mSize := mSize - 1;
      Swap(mLeft);
      PopIgnoresTop(outRanks, old(mLeft.Shape), mLeft.mData);
      popped := ShrinkLeft(outRanks);
    }

    method ShrinkLeft(outRanks: (T, T) -> bool) returns (popped: LocHeapNode<T>)
      requires mLeft != null && Linked()
      modifies {this} + mLeft.Repr
      ensures Valid() && Repr <= old({this} + mLeft.Repr + ReprOf(mRight)) - {popped}
      ensures popped in old(mLeft.Repr) && popped.mData == old(mLeft.mData)
      ensures Shape == old(Node(mSize, mData, RankedTree.Pop(outRanks, mLeft.Shape), ShapeOf(mRight)))
      decreases {this} + mLeft.Repr + ReprOf(mRight), 0
    {
      hide RankedTree.Pop;
      mLeft, popped := Pop(outRanks, mLeft);
      Refresh();
    }

    method PopRight(outRanks: (T, T) -> bool) returns (popped: LocHeapNode<T>)
      requires Valid() && mRight != null
      modifies Repr
      ensures Valid() && Repr <= old(Repr) - {popped}
      ensures popped in old(Repr) && popped.mData == old(mData)
      ensures Shape == old(Node(mSize - 1, mRight.mData, ShapeOf(mLeft), RankedTree.Pop(outRanks, mRight.Shape)))
      decreases Repr, 1
    {
      mSize := mSize - 1;
      Swap(mRight);
      PopIgnoresTop(outRanks, old(mRight.Shape), mRight.mData);
      popped := ShrinkRight(outRanks);
    }

    method ShrinkRight(outRanks: (T, T) -> bool) returns (popped: LocHeapNode<T>)
      requires mRight != null && Linked()
      modifies {this} + mRight.Repr
      ensures Valid() && Repr <= old({this} + mRight.Repr + ReprOf(mLeft)) - {popped}
      ensures popped in old(mRight.Repr) && popped.mData == old(mRight.mData)
      ensures Shape == old(Node(mSize, mData, ShapeOf(mLeft), RankedTree.Pop(outRanks, mRight.Shape)))
      decreases {this} + mRight.Repr + ReprOf(mLeft), 0
    {
      hide RankedTree.Pop;
      mRight, popped := Pop(outRanks, mRight);
      Refresh();
    }

    static lemma PopIgnoresTop(outRanks: (T, T) -> bool, t: Tree<T>, x: T)
      requires t.Node?
      ensures RankedTree.Pop(outRanks, t.(data := x)) == RankedTree.Pop(outRanks, t)
    {
    }

    /** Removes the node that holds `data` itself, if the search comes across it. */
    static method Remove(outRanks: (T, T) -> bool, top: LocHeapNode<T>, data: T)
      returns (newTop: LocHeapNode?<T>, removed: LocHeapNode?<T>)
      requires top.Valid()
      modifies top.Repr
      ensures newTop == null || newTop == top
      ensures ValidOrNull(newTop) && ReprOf(newTop) <= old(top.Repr)
      ensures removed != null <==> RankedTree.Remove(outRanks, old(top.Shape), data).found
      ensures removed != null ==> removed in old(top.Repr) - ReprOf(newTop) && removed.mData == data
      ensures ShapeOf(newTop) == RankedTree.Remove(outRanks, old(top.Shape), data).rest
      decreases top.Repr, 3
    {
      newTop, removed := top, null;
      if top.mData == data {
        newTop, removed := Pop(outRanks, top);
      } else if !outRanks(data, top.mData) {
        if top.mLeft != null {
          removed := top.RemoveLeft(outRanks, data);
        }
        if removed == null && top.mRight != null {
          removed := top.RemoveRight(outRanks, data);
        }
      }
    }

    method RemoveLeft(outRanks: (T, T) -> bool, data: T) returns (removed: LocHeapNode?<T>)
      requires mLeft != null && Valid()
      modifies Repr
      ensures Valid() && Repr <= old(Repr)
      ensures removed != null <==> RankedTree.Remove(outRanks, old(mLeft.Shape), data).found
      ensures removed != null ==> removed in old(Repr) - Repr && removed.mData == data
      ensures Shape == old(Node(mSize - if RankedTree.Remove(outRanks, mLeft.Shape, data).found then 1 else 0, mData,
                                RankedTree.Remove(outRanks, mLeft.Shape, data).rest, ShapeOf(mRight)))
      decreases Repr, 0
    {
      hide RankedTree.Remove;
      mLeft, removed := Remove(outRanks, mLeft, data);
      if removed != null {
        mSize := mSize - 1;
      }
      Refresh();
    }

    method RemoveRight(outRanks: (T, T) -> bool, data: T) returns (removed: LocHeapNode?<T>)
      requires mRight != null && Valid()
      modifies Repr
      ensures Valid() && Repr <= old(Repr)
      ensures removed != null <==> RankedTree.Remove(outRanks, old(mRight.Shape), data).found
      ensures removed != null ==> removed in old(Repr) - Repr && removed.mData == data
      ensures Shape == old(Node(mSize - if RankedTree.Remove(outRanks, mRight.Shape, data).found then 1 else 0, mData,
                                ShapeOf(mLeft), RankedTree.Remove(outRanks, mRight.Shape, data).rest))
      decreases Repr, 0
    {
      hide RankedTree.Remove;
      mRight, removed := Remove(outRanks, mRight, data);
      if removed != null {
        mSize := mSize - 1;
      }
      Refresh();
    }

    /** Tells whether this tree is a heap with exact cached sizes. */
    method CheckNodes(outRanks: (T, T) -> bool) returns (ok: bool)
      requires Valid()
      ensures ok <==> IsHeap(outRanks, Shape)
      decreases Repr
    {
      assert mLeft == null ==> IsHeap(outRanks, Shape.left) && Count(Shape.left) == 0;
      assert mRight == null ==> IsHeap(outRanks, Shape.right) && Count(Shape.right) == 0;
      var totalSize := mSize;
      if mLeft != null {
        if outRanks(mLeft.mData, mData) {
          return false;
        }
        var leftOk := mLeft.CheckNodes(outRanks);
        if !leftOk {
          return false;
        }
        totalSize := totalSize - mLeft.mSize;
      }
      if mRight != null {
        if outRanks(mRight.mData, mData) {
          return false;
        }
        var rightOk := mRight.CheckNodes(outRanks);
        if !rightOk {
          return false;
        }
        totalSize := totalSize - mRight.mSize;
      }
      assert mLeft != null ==> mLeft.mSize == Count(Shape.left);
      assert mRight != null ==> mRight.mSize == Count(Shape.right);
      return totalSize == 1;
    }
  }

  class LocHeap<T(==)> {
    var mTree: LocHeapNode?<T>
    const outRanks: (T, T) -> bool
    ghost var Shape: Tree<T>
    ghost var Repr: set<object>

    ghost predicate Valid()
      reads this, Repr
      ensures Valid() ==> this in Repr
    {
      && this in Repr
      && (mTree != null ==> mTree in Repr && mTree.Repr <= Repr && this !in mTree.Repr && mTree.Valid())
      && Shape == LocHeapNode.ShapeOf(mTree)
    }

    constructor (outRanks: (T, T) -> bool)
      ensures Valid() && fresh(Repr)
      ensures Shape == Empty && this.outRanks == outRanks
    {
      this.outRanks := outRanks;
      mTree := null;
      Shape, Repr := Empty, {this};
    }

    method Push(rankable: T)
      requires Valid()
      modifies Repr
      ensures Valid() && fresh(Repr - old(Repr))
      ensures Shape == RankedTree.Push(outRanks, old(Shape), rankable)
    {
      var heapNode := new LocHeapNode(rankable);
      if mTree == null {
        mTree := heapNode;
      } else {
        mTree.Push(outRanks, heapNode);
      }
      Shape, Repr := mTree.Shape, {this} + mTree.Repr;
    }

    method Peek() returns (top: Option<T>)
      requires Valid()
      ensures top == if Shape.Empty? then None else Some(Shape.data)
    {
      if mTree == null {
        return None;
      }
      return Some(mTree.mData);
    }

    method Pop() returns (popped: Option<T>)
      requires Valid()
      modifies Repr
      ensures Valid() && Repr <= old(Repr)
      ensures popped == if old(Shape).Empty? then None else Some(old(Shape).data)
      ensures Shape == if old(Shape).Empty? then Empty else RankedTree.Pop(outRanks, old(Shape))
    {
      popped := None;
      if mTree != null {
        var heapNode;
        mTree, heapNode := LocHeapNode.Pop(outRanks, mTree);
        popped := Some(heapNode.mData);
        Shape, Repr := LocHeapNode.ShapeOf(mTree), {this} + LocHeapNode.ReprOf(mTree);
      }
    }

    method Remove(rankable: T) returns (removed: Option<T>)
      requires Valid()
      modifies Repr
      ensures Valid() && Repr <= old(Repr)
      ensures Shape == RankedTree.Remove(outRanks, old(Shape), rankable).rest
      ensures removed == if RankedTree.Remove(outRanks, old(Shape), rankable).found then Some(rankable) else None
    {
      removed := None;
      if mTree != null {
        var heapNode;
        mTree, heapNode := LocHeapNode.Remove(outRanks, mTree, rankable);
        if heapNode != null {
          removed := Some(heapNode.mData);
        }
        Shape, Repr := LocHeapNode.ShapeOf(mTree), {this} + LocHeapNode.ReprOf(mTree);
      }
    }

    method CheckTree() returns (ok: bool)
      requires Valid()
      ensures ok <==> IsHeap(outRanks, Shape)
    {
      if mTree == null {
        return true;
      }
      ok := mTree.CheckNodes(outRanks);
    }

    method GetTreeSize() returns (size: int)
      requires Valid()
      ensures size == if Shape.Empty? then 0 else Shape.size
      ensures SizesExact(Shape) ==> size == Count(Shape)
    {
      return if mTree == null then 0 else mTree.mSize;
    }
  }
}
