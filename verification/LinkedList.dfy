/** A doubly linked list that grows at its head and shrinks at its tail. */
module LinkedList {
  import opened Options

  /** `dealloc`: a function to deallocate the data came with it. */
  datatype Item<T> = Item(data: T, dealloc: bool)

  datatype Status = Success | UnavailableResource

  // ---- The list as a sequence ----

  /** Where the first item is that is equal to `data0`; the length if there is none. */
  function FirstMatch<T>(items: seq<Item<T>>, equal: (T, T) -> bool, data0: T): (i: nat)
    ensures i <= |items|
    ensures i < |items| ==> equal(data0, items[i].data)
    ensures forall j | 0 <= j < i :: !equal(data0, items[j].data)
  {
    if items == [] || equal(data0, items[0].data) then 0 else FirstMatch(items[1..], equal, data0) + 1
  }

  ghost predicate IsFirstMatch<T>(items: seq<Item<T>>, equal: (T, T) -> bool, data0: T, i: nat) {
    && i < |items| && equal(data0, items[i].data)
    && forall j | 0 <= j < i :: !equal(data0, items[j].data)
  }

  lemma FirstMatchIsFirst<T>(items: seq<Item<T>>, equal: (T, T) -> bool, data0: T)
    ensures forall i: nat | IsFirstMatch(items, equal, data0, i) :: i == FirstMatch(items, equal, data0) < |items|
    ensures (forall item | item in items :: !equal(data0, item.data)) ==> FirstMatch(items, equal, data0) == |items|
  {
  }

  /** The data that is deallocated when the items are thrown away, head first. */
  function Deallocated<T>(items: seq<Item<T>>): seq<T> {
    if items == [] then []
    else (if items[0].dealloc then [items[0].data] else []) + Deallocated(items[1..])
  }

  function Cut<T>(xs: seq<T>, i: nat): seq<T>
    requires i < |xs|
  {
    xs[..i] + xs[i + 1..]
  }

  lemma CutAt<T>(xs: seq<T>, i: nat, m: nat)
    requires i < |xs| && m < |xs| - 1
    ensures |Cut(xs, i)| == |xs| - 1 && Cut(xs, i)[m] == xs[if m < i then m else m + 1]
  {
  }

  // ---- The list ----

  class ListElement<T> {
    var next: ListElement?<T>
    var prev: ListElement?<T>
    const item: Item<T>

    constructor (item: Item<T>)
      ensures next == null && prev == null && this.item == item
    {
      this.item, next, prev := item, null, null;
    }
  }

  class LinkedList<T> {
    var head: ListElement?<T>
    var tail: ListElement?<T>
    var deallocated: seq<T>                   // the data that the list had deallocated
    ghost var elements: seq<ListElement<T>>   // from head to tail
    ghost var contents: seq<Item<T>>          // what they hold

    ghost predicate Valid()
      reads this`head, this`tail, this`elements, this`contents, elements
    {
      && |contents| == |elements|
      && (forall i | 0 <= i < |elements| :: contents[i] == elements[i].item)
      && (forall i, j | 0 <= i < j < |elements| :: elements[i] != elements[j])
      && Linked()
    }

    /** Head and tail are the ends, and neighbours point at each other. */
    ghost predicate Linked()
      reads this`head, this`tail, this`elements, this`contents, elements
    {
      if elements == [] then head == null && tail == null
      else
        && head == elements[0] && tail == elements[|elements| - 1]
        && head.prev == null && tail.next == null
        && (forall i, j | 0 <= i < |elements| && 0 <= j < |elements| && j == i + 1 ::
              elements[i].next == elements[j] && elements[j].prev == elements[i])
    }

    constructor ()
      ensures Valid() && contents == [] && deallocated == []
    {
      head, tail, elements, contents, deallocated := null, null, [], [], [];
    }

    method Add(data: T, dealloc: bool)
      requires Valid()
      modifies this`head, this`tail, this`elements, this`contents, elements
      ensures Valid() && contents == [Item(data, dealloc)] + old(contents)
      ensures fresh(elements[0]) && elements[1..] == old(elements)
    {
      var elem := new ListElement(Item(data, dealloc));
      var tmp := head;
      head := elem;
      head.next := tmp;
      if tmp != null {
        tmp.prev := head;
      } else {
        tail := head;
      }
      ghost var was := elements;
      elements, contents := [elem] + elements, [elem.item] + contents;
      NewHeadIsLinked(elem, was);
      hide Linked;
    }

    lemma NewHeadIsLinked(elem: ListElement<T>, was: seq<ListElement<T>>)
      requires elements == [elem] + was && head == elem && elem.prev == null
      requires if was == [] then elem.next == null && tail == elem
               else elem.next == was[0] && was[0].prev == elem && tail == was[|was| - 1] && tail.next == null
      requires forall i, j | 0 <= i < |was| && 0 <= j < |was| && j == i + 1 ::
        was[i].next == was[j] && was[j].prev == was[i]
      ensures Linked()
    {
    }

    method Remove() returns (status: Status, data: Option<T>)
      requires Valid()
      modifies this`head, this`tail, this`elements, this`contents, elements
      ensures Valid()
      ensures status.Success? <==> old(contents) != []
      ensures status.Success? ==>
        && data == Some(old(contents)[|old(contents)| - 1].data)
        && contents == old(contents)[..|old(contents)| - 1]
        && elements == old(elements)[..|old(elements)| - 1]
      ensures !status.Success? ==> data == None && contents == old(contents) && elements == old(elements)
    {
      if tail == null {
        assert elements == [];
        return UnavailableResource, None;
      }
      var tmp := tail;
      assert |elements| > 1 ==> tmp.prev == elements[|elements| - 2];
      tail := tmp.prev;
      if tail != null {
        tail.next := null;
      } else {
        head := tail;
      }
      elements, contents := elements[..|elements| - 1], contents[..|contents| - 1];
      return Success, Some(tmp.item.data);
    }

    method Empty() returns (empty: bool)
      requires Valid()
      ensures empty <==> contents == []
    {
      empty := head == null;
    }

    /** The elements go one by one from the head; the tail is set when all are gone. */
    method Flush()
      requires Valid()
      modifies this
      ensures Valid() && contents == [] && elements == []
      ensures deallocated == old(deallocated) + Deallocated(old(contents))
    {
      ghost var k := 0;
      while head != null
        invariant k <= |elements| && elements == old(elements) && contents == old(contents)
        invariant head == if k < |elements| then elements[k] else null
        invariant deallocated + Deallocated(contents[k..]) == old(deallocated) + Deallocated(contents)
        decreases |elements| - k
      {
        assert contents[k..][1..] == contents[k + 1..];
        assert k + 1 < |elements| ==> elements[k].next == elements[k + 1];
        var tmp := head.next;
        if head.item.dealloc {
          deallocated := deallocated + [head.item.data];
        }
        head := tmp;
        k := k + 1;
      }
      tail := null;
      elements, contents := [], [];
    }

    /** Where the element at `m` comes from, once the one at `i` is cut out of `was`. */
    static ghost function Left(was: seq<ListElement<T>>, i: nat, m: nat): ListElement<T>
      requires i < |was| && m < |was| - 1
    {
      was[if m < i then m else m + 1]
    }

    /** The pointers go round one element. */
    method Bypass(elem: ListElement<T>, ghost i: nat)
      requires Valid() && i < |elements| && elem == elements[i]
      modifies this`head, this`tail, elements
      ensures |elements| == 1 ==> head == null && tail == null
      ensures |elements| > 1 ==>
        && head == Left(elements, i, 0) && tail == Left(elements, i, |elements| - 2)
        && head.prev == null && tail.next == null
      ensures forall m: nat, n: nat | n < |elements| - 1 && n == m + 1 ::
        Left(elements, i, m).next == Left(elements, i, n) && Left(elements, i, n).prev == Left(elements, i, m)
    {
      assert i > 0 ==> elem.prev == elements[i - 1];
      assert i + 1 < |elements| ==> elem.next == elements[i + 1];
      if elem.prev == null {
        head := elem.next;
      } else {
        elem.prev.next := elem.next;
      }
      if elem.next == null {
        tail := elem.prev;
      } else {
        elem.next.prev := elem.prev;
      }
      elem.prev, elem.next := null, null;
    }

    /** Takes one element out, wherever it is. */
    method Unlink(elem: ListElement<T>, ghost i: nat)
      requires Valid() && i < |elements| && elem == elements[i]
      modifies this`head, this`tail, this`elements, this`contents, elements
      ensures Valid() && elements == old(elements)[..i] + old(elements)[i + 1..]
      ensures contents == old(contents)[..i] + old(contents)[i + 1..]
    {
      ghost var was, held := elements, contents;
      Bypass(elem, i);
      hide Cut, Left;
      elements, contents := Cut(was, i), Cut(held, i);
      CutIsHeld(was, held, i);
      CutIsLinked(was, i);
      hide Linked;
    }

    lemma CutIsHeld(was: seq<ListElement<T>>, held: seq<Item<T>>, i: nat)
      requires i < |was| == |held| && (forall m | 0 <= m < |was| :: held[m] == was[m].item)
      requires forall m, n | 0 <= m < n < |was| :: was[m] != was[n]
      ensures |Cut(was, i)| == |Cut(held, i)| == |was| - 1
      ensures forall m | 0 <= m < |was| - 1 :: Cut(held, i)[m] == Cut(was, i)[m].item
      ensures forall m, n | 0 <= m < n < |was| - 1 :: Cut(was, i)[m] != Cut(was, i)[n]
    {
      forall m | 0 <= m < |was| - 1
        ensures Cut(was, i)[m] == was[if m < i then m else m + 1] && Cut(held, i)[m] == held[if m < i then m else m + 1]
      {
        CutAt(was, i, m);
        CutAt(held, i, m);
      }
    }

    lemma CutIsLinked(was: seq<ListElement<T>>, i: nat)
      requires i < |was| && elements == Cut(was, i)
      requires |was| == 1 ==> head == null && tail == null
      requires |was| > 1 ==>
        head == Left(was, i, 0) && tail == Left(was, i, |was| - 2) && head.prev == null && tail.next == null
      requires forall m: nat, n: nat | n < |was| - 1 && n == m + 1 ::
        Left(was, i, m).next == Left(was, i, n) && Left(was, i, n).prev == Left(was, i, m)
      ensures Linked()
    {
      forall m: nat | m < |was| - 1
        ensures |elements| == |was| - 1 && elements[m] == Left(was, i, m)
      {
        CutAt(was, i, m);
      }
      hide Left;
    }

    /** The first element that matches, or null. */
    method FindFirst(equal: (T, T) -> bool, data0: T) returns (elem: ListElement?<T>)
      requires Valid()
      ensures var i := FirstMatch(contents, equal, data0);
        elem == if i < |elements| then elements[i] else null
    {
      ghost var k := 0;
      elem := head;
      while elem != null && !equal(data0, elem.item.data)
        invariant k <= |elements| && elem == if k < |elements| then elements[k] else null
        invariant FirstMatch(contents, equal, data0) == k + FirstMatch(contents[k..], equal, data0)
        decreases |elements| - k
      {
        assert contents[k..][1..] == contents[k + 1..];
        assert k + 1 < |elements| ==> elements[k].next == elements[k + 1];
        elem := elem.next;
        k := k + 1;
      }
    }

    /** Copies out what was found, or takes it out, or both; what is taken out without being copied
      * is deallocated.
      */
    method HandOver(elem: ListElement<T>, copyOut: bool, before: Option<T>, rmIfFound: bool, ghost i: nat)
      returns (data: Option<T>)
      requires Valid() && i < |elements| && elem == elements[i]
      modifies this, elements
      ensures Valid() && data == if copyOut then Some(old(contents)[i].data) else before
      ensures contents == if rmIfFound then old(contents)[..i] + old(contents)[i + 1..] else old(contents)
      ensures deallocated == old(deallocated)
        + if rmIfFound && !copyOut && old(contents)[i].dealloc then [old(contents)[i].data] else []
    {
      assert elem.item == contents[i];
      data := if copyOut then Some(elem.item.data) else before;
      if rmIfFound {
        Unlink(elem, i);
        hide Valid;
        if !copyOut && elem.item.dealloc {
          DeallocateOne(elem);
        }
      }
    }

    method DeallocateOne(elem: ListElement<T>)
      requires Valid()
      modifies this`deallocated
      ensures Valid() && deallocated == old(deallocated) + [elem.item.data]
    {
      deallocated := deallocated + [elem.item.data];
    }

    lemma TailTells()
      requires Valid()
      ensures |contents| == |elements| && (tail == null <==> elements == [])
    {
    }

    /** Looks for the first match. If it is to be removed, its data is deallocated unless it is
      * copied out. An empty list is an error, and then what the caller's pointer held `before`
      * stays there; a list without a match is no error.
      */
    method Search(copyOut: bool, before: Option<T>, equal: (T, T) -> bool, data0: T, rmIfFound: bool)
      returns (status: Status, data: Option<T>)
      requires Valid()
      modifies this, elements
      ensures Valid()
      ensures status.Success? <==> old(contents) != []
      ensures var items := old(contents);
        forall i: nat | IsFirstMatch(items, equal, data0, i) ::
          && data == (if copyOut then Some(items[i].data) else before)
          && contents == (if rmIfFound then items[..i] + items[i + 1..] else items)
          && deallocated == old(deallocated)
               + (if rmIfFound && !copyOut && items[i].dealloc then [items[i].data] else [])
      ensures (forall item | item in old(contents) :: !equal(data0, item.data)) ==>
        && contents == old(contents) && deallocated == old(deallocated)
        && data == if copyOut && old(contents) != [] then None else before
    {
      hide Valid, Linked, FirstMatch, IsFirstMatch;
      TailTells();
      ghost var i := FirstMatch(contents, equal, data0);
      FirstMatchIsFirst(contents, equal, data0);
      if tail == null {
        return UnavailableResource, before;
      }
      var elem := FindFirst(equal, data0);
      if elem == null {
        data := if copyOut then None else before;
      } else {
        data := HandOver(elem, copyOut, before, rmIfFound, i);
      }
      return Success, data;
    }
  }
}
