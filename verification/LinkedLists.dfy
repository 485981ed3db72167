// The first-in first-out list of items: linked nodes with a first and a last pointer.
module LinkedLists {
  import opened Options

  class Node<T> {
    const item: T
    var next: Node?<T>

    constructor (item: T)
      ensures this.item == item && next == null
    {
      this.item := item;
      next := null;
    }
  }

  /** The position of the first occurrence, or the length. */
  function IndexOf<T(==)>(s: seq<T>, x: T): (i: nat)
    ensures i <= |s| && (i < |s| ==> s[i] == x) && (i == |s| ==> x !in s)
    ensures forall j :: 0 <= j < i ==> s[j] != x
  {
    if s == [] || s[0] == x then 0 else 1 + IndexOf(s[1..], x)
  }

  /** The sequence without the first occurrence of x. */
  function RemoveFirst<T(==)>(s: seq<T>, x: T): seq<T> {
    var i := IndexOf(s, x);
    if i == |s| then s else s[..i] + s[i + 1..]
  }

  lemma FirstAt<T>(s: seq<T>, x: T, k: nat)
    requires k <= |s| && forall j :: 0 <= j < k ==> s[j] != x
    ensures k < |s| && s[k] == x ==> IndexOf(s, x) == k
    ensures k == |s| ==> IndexOf(s, x) == k
  {
  }

  ghost function Items<T>(chain: seq<Node<T>>): (s: seq<T>)
    ensures |s| == |chain| && forall i :: 0 <= i < |s| ==> s[i] == chain[i].item
  {
    seq(|chain|, i requires 0 <= i < |chain| => chain[i].item)
  }

  class List<T(==)> {
    var first: Node?<T>
    var last: Node?<T>
    var size: nat
    // The nodes from first to last.
    ghost var chain: seq<Node<T>>

    /** The nodes are pairwise different and linked in order, so the chain has no cycle. */
    ghost predicate Valid()
      reads this, chain
    {
      && size == |chain|
      && (forall i, j :: 0 <= i < j < |chain| ==> chain[i] != chain[j])
      && (forall i :: 0 <= i < |chain| - 1 ==> chain[i].next == chain[i + 1])
      && (chain == [] ==> first == null && last == null)
      && (chain != [] ==> first == chain[0] && last == chain[|chain| - 1] && last.next == null)
    }

    ghost function Contents(): (s: seq<T>)
      reads this
    {
      Items(chain)
    }

    constructor ()
      ensures Valid() && Contents() == [] && chain == []
    {
      first, last, size, chain := null, null, 0, [];
    }

    method Put(item: Option<T>)
      requires Valid()
      modifies this, last
      ensures Valid() && Contents() == old(Contents()) + (if item.Some? then [item.value] else [])
      ensures forall n :: n in chain ==> n in old(chain) || fresh(n)
      ensures last == old(last) || fresh(last)
    {
      if item.None? {
        return;
      }
      var tmp := new Node(item.value);
      if first == null {
        first := tmp;
        last := tmp;
      } else {
        last.next := tmp;
        last := tmp;
      }
      size := size + 1;
      chain := chain + [tmp];
    }

    /** Takes the oldest item. */
    method Get() returns (ret: Option<T>)
      requires Valid()
      modifies this
      ensures Valid() && (last == old(last) || last == null) && forall n :: n in chain ==> n in old(chain)
      ensures old(Contents()) == [] ==> ret == None && Contents() == []
      ensures old(Contents()) != [] ==> ret == Some(old(Contents())[0]) && Contents() == old(Contents())[1..]
    {
      if size == 0 {
        return None;
      }
      ret := Some(first.item);
      if first == last {
        assert chain[0] == chain[|chain| - 1];
        first := null;
        last := null;
      } else {
        first := first.next;
      }
      size := size - 1;
      chain := chain[1..];
    }

    method UnlinkFirst()
      requires Valid() && first != null
      modifies this
      ensures Valid() && chain == old(chain)[1..]
    {
      first := first.next;
      if first == null {
        last := null;
      }
      size := size - 1;
      chain := chain[1..];
    }

    /** Takes the node behind tmp out of the chain. */
    method UnlinkAfter(tmp: Node<T>, next: Node<T>, ghost k: nat)
      requires Valid() && 1 <= k < |chain| && tmp == chain[k - 1] && next == chain[k]
      modifies this, tmp
      ensures Valid() && chain == old(chain)[..k] + old(chain)[k + 1..]
    {
      tmp.next := next.next;
      if next == last {
        last := tmp;
      }
      size := size - 1;
      chain := chain[..k] + chain[k + 1..];
    }

    /** The node before the first occurrence of the item behind the first node, and its node. */
    method FindAfterFirst(x: T) returns (tmp: Node<T>, next: Node?<T>, ghost k: nat)
      requires Valid() && first != null && first.item != x
      ensures 1 <= k <= |chain| && tmp == chain[k - 1] && next == if k < |chain| then chain[k] else null
      ensures forall j :: 0 <= j < k ==> chain[j].item != x
      ensures k < |chain| ==> chain[k].item == x
    {
      tmp := first;
      next := tmp.next;
      k := 1;
      while next != null
        invariant 1 <= k <= |chain| && tmp == chain[k - 1] && next == if k < |chain| then chain[k] else null
        invariant forall j :: 0 <= j < k ==> chain[j].item != x
        decreases |chain| - k
      {
        if next.item == x {
          return;
        }
        tmp := next;
        next := tmp.next;
        k := k + 1;
      }
    }

    /** Takes the first occurrence of the item out of the list. */
    method GetItem(item: Option<T>) returns (ret: Option<T>)
      requires Valid()
      modifies this, chain
      ensures Valid() && forall n :: n in chain ==> n in old(chain)
      ensures item.None? ==> ret == None && Contents() == old(Contents())
      ensures item.Some? ==> Contents() == RemoveFirst(old(Contents()), item.value)
      ensures item.Some? ==> ret == if item.value in old(Contents()) then item else None
    {
      hide IndexOf;
      if item.None? || first == null {
        return None;
      }
      var x := item.value;
      ghost var s := Contents();
      if first.item == x {
        FirstAt(s, x, 0);
        UnlinkFirst();
        assert Contents() == s[..0] + s[1..];
        return item;
      }
      var tmp, next;
      ghost var k;
      tmp, next, k := FindAfterFirst(x);
      FirstAt(s, x, k);
      if next == null {
        return None;
      }
      UnlinkAfter(tmp, next, k);
      assert Contents() == s[..k] + s[k + 1..];
      ret := item;
    }

    /** Removes the first occurrence of the item. */
    method Remove(item: Option<T>)
      requires Valid()
      modifies this, chain
      ensures Valid() && Contents() == if item.Some? then RemoveFirst(old(Contents()), item.value) else old(Contents())
    {
      var _ := GetItem(item);
    }

    method Clear()
      requires Valid()
      modifies this
      ensures Valid() && Contents() == []
    {
      while first != null
        invariant chain == [] ==> first == null
        invariant chain != [] ==> first == chain[0] && chain[|chain| - 1].next == null
        invariant forall i :: 0 <= i < |chain| - 1 ==> chain[i].next == chain[i + 1]
        decreases |chain|
      {
        first := first.next;
        chain := chain[1..];
      }
      last := null;
      size := 0;
    }

    method ContainsItem(item: T) returns (r: bool)
      requires Valid()
      ensures r <==> item in Contents()
    {
      var tmp := first;
      ghost var k := 0;
      while tmp != null
        invariant 0 <= k <= |chain| && tmp == if k < |chain| then chain[k] else null
        invariant forall j :: 0 <= j < k ==> chain[j].item != item
        decreases |chain| - k
      {
        if tmp.item == item {
          assert Contents()[k] == item;
          return true;
        }
        tmp := tmp.next;
        k := k + 1;
      }
      r := false;
    }

    /** The item at an index; nothing for an index outside the list. */
    method At(idx: int) returns (ret: Option<T>)
      requires Valid()
      ensures ret == if 0 <= idx < |Contents()| then Some(Contents()[idx]) else None
    {
      ret := None;
      if idx < 0 || idx >= size {
        return;
      }
      var i := 0;
      var tmp := first;
      while tmp != null
        invariant 0 <= i <= idx && tmp == chain[i]
        decreases idx - i
      {
        if i == idx {
          return Some(tmp.item);
        }
        tmp := tmp.next;
        i := i + 1;
      }
    }

    method Swap(other: List<T>)
      requires Valid() && other.Valid()
      modifies this, other
      ensures Valid() && other.Valid()
      ensures Contents() == old(other.Contents()) && other.Contents() == old(Contents())
      ensures chain == old(other.chain) && other.chain == old(chain)
    {
      hide Items;
      var tmpFirst := first;
      first := other.first;
      other.first := tmpFirst;
      var tmpLast := last;
      last := other.last;
      other.last := tmpLast;
      var tmpSize := size;
      size := other.size;
      other.size := tmpSize;
      chain, other.chain := other.chain, chain;
    }
  }
}
