/** Singly linked lists updated in place, as used for segments and for sessions. */
module LinkedLists {

  class Node<T> {
    var value: T
    var next: Node?<T>

    constructor (value: T, next: Node?<T>)
      ensures this.value == value && this.next == next
    {
      this.value, this.next := value, next;
    }
  }

  /** The node after position i, or null at the end. */
  ghost function After<T>(ns: seq<Node<T>>, i: int): Node?<T>
    requires -1 <= i < |ns|
  {
    if i + 1 < |ns| then ns[i + 1] else null
  }

  /** The node at position i - 1, or null at the front. */
  ghost function Before<T>(ns: seq<Node<T>>, i: int): Node?<T>
    requires 0 <= i <= |ns|
  {
    if i > 0 then ns[i - 1] else null
  }

  ghost predicate Distinct<T>(ns: seq<Node<T>>) {
    forall i, j :: 0 <= i < j < |ns| ==> ns[i] != ns[j]
  }

  lemma DistinctOthers<T>(ns: seq<Node<T>>, k: nat)
    requires Distinct(ns) && k < |ns|
    ensures forall i :: 0 <= i < |ns| && i != k ==> ns[i] != ns[k]
  {
  }

  /** s with x at position k, the rest moved up. */
  function Spliced<T>(s: seq<T>, k: nat, x: T): (r: seq<T>)
    requires k <= |s|
    ensures |r| == |s| + 1 && r[k] == x
    ensures forall i :: 0 <= i < k ==> r[i] == s[i]
    ensures forall i :: k < i < |r| ==> r[i] == s[i - 1]
  {
    s[..k] + [x] + s[k..]
  }

  /** s without position k. */
  function Without<T>(s: seq<T>, k: nat): (r: seq<T>)
    requires k < |s|
    ensures |r| == |s| - 1
    ensures forall i :: 0 <= i < k ==> r[i] == s[i]
    ensures forall i :: k <= i < |r| ==> r[i] == s[i + 1]
  {
    s[..k] + s[k + 1..]
  }

  lemma AfterSpliced<T>(ns: seq<Node<T>>, k: nat, n: Node<T>, i: int)
    requires -1 <= i <= |ns| && k <= |ns|
    ensures After(Spliced(ns, k, n), i) ==
            if i < k - 1 then After(ns, i) else if i == k - 1 then n else After(ns, i - 1)
  {
  }

  lemma AfterWithout<T>(ns: seq<Node<T>>, k: nat, i: int)
    requires -1 <= i < |ns| - 1 && k < |ns|
    ensures After(Without(ns, k), i) == if i < k - 1 then After(ns, i) else After(ns, i + 1)
  {
  }

  lemma DistinctSpliced<T>(ns: seq<Node<T>>, k: nat, n: Node<T>)
    requires Distinct(ns) && n !in ns && k <= |ns|
    ensures Distinct(Spliced(ns, k, n))
  {
  }

  lemma DistinctWithout<T>(ns: seq<Node<T>>, k: nat)
    requires Distinct(ns) && k < |ns|
    ensures Distinct(Without(ns, k))
  {
  }

  class LinkedList<T> {
    var head: Node?<T>
    ghost var nodes: seq<Node<T>>
    ghost var contents: seq<T>
    ghost var repr: set<Node<T>>

    ghost predicate Valid()
      reads this, repr
    {
      && |nodes| == |contents|
      && head == After(nodes, -1)
      && Distinct(nodes)
      && (forall i :: 0 <= i < |nodes| ==> nodes[i] in repr && nodes[i].value == contents[i])
      && (forall i :: 0 <= i < |nodes| ==> nodes[i].next == After(nodes, i))
    }

    constructor ()
      ensures Valid() && contents == [] && repr == {}
    {
      head, nodes, contents, repr := null, [], [], {};
    }

    predicate Empty()
      requires Valid()
      reads this, repr
      ensures Empty() <==> contents == []
    {
      head == null
    }

    function First(): (x: T)
      requires Valid() && contents != []
      reads this, repr
      ensures x == contents[0]
    {
      head.value
    }

    /** Put a new node in front. */
    method Push(value: T)
      requires Valid()
      modifies this
      ensures Valid() && fresh(repr - old(repr))
      ensures contents == [value] + old(contents)
    {
      hide Distinct, Spliced, After;
      var n := new Node(value, head);
      head := n;
      DistinctSpliced(nodes, 0, n);
      ghost var ns := nodes;
      nodes, contents, repr := Spliced(nodes, 0, n), [value] + contents, repr + {n};
      forall i | 0 <= i < |nodes|
        ensures nodes[i].next == After(nodes, i)
      {
        AfterSpliced(ns, 0, n, i);
      }
      AfterSpliced(ns, 0, n, -1);
    }

    /** Link a new node after prev. */
    method LinkAfter(prev: Node<T>, value: T, ghost k: nat)
      requires Valid() && 0 < k <= |nodes| && prev == nodes[k - 1]
      modifies this, repr
      ensures Valid() && fresh(repr - old(repr))
      ensures contents == Spliced(old(contents), k, value)
    {
      hide Distinct, Spliced, After;
      var n := new Node(value, prev.next);
      DistinctOthers(nodes, k - 1);
      prev.next := n;
      DistinctSpliced(nodes, k, n);
      ghost var ns := nodes;
      nodes, contents, repr := Spliced(nodes, k, n), Spliced(contents, k, value), repr + {n};
      forall i | 0 <= i < |nodes|
        ensures nodes[i].next == After(nodes, i)
      {
        AfterSpliced(ns, k, n, i);
      }
      AfterSpliced(ns, k, n, -1);
    }

    /** Unlink the node s after prev. */
    method UnlinkAfter(prev: Node<T>, s: Node<T>, ghost k: nat)
      requires Valid() && 0 < k < |nodes| && prev == nodes[k - 1] && s == nodes[k]
      modifies this, repr
      ensures Valid() && repr == old(repr) && head == old(head)
      ensures contents == Without(old(contents), k) && nodes == Without(old(nodes), k)
      ensures s.next == old(s.next)
    {
      hide Distinct, Without, After;
      DistinctOthers(nodes, k - 1);
      prev.next := s.next;
      DistinctWithout(nodes, k);
      ghost var ns := nodes;
      nodes, contents := Without(nodes, k), Without(contents, k);
      forall i | 0 <= i < |nodes|
        ensures nodes[i].next == After(nodes, i)
      {
        AfterWithout(ns, k, i);
      }
      AfterWithout(ns, k, -1);
    }

    /** Update the value of the node at position k. */
    method Set(s: Node<T>, value: T, ghost k: nat)
      requires Valid() && k < |nodes| && s == nodes[k]
      modifies this, repr
      ensures Valid() && repr == old(repr) && nodes == old(nodes) && head == old(head)
      ensures contents == old(contents)[k := value]
    {
      DistinctOthers(nodes, k);
      hide Distinct;
      s.value := value;
      contents := contents[k := value];
    }

    /** Update the first value. */
    method SetFirst(value: T)
      requires Valid() && contents != []
      modifies this, repr
      ensures Valid() && repr == old(repr)
      ensures contents == [value] + old(contents)[1..]
    {
      Set(head, value, 0);
    }

    /** Unlink the first node. */
    method Pop()
      requires Valid() && contents != []
      modifies this
      ensures Valid() && repr == old(repr)
      ensures contents == old(contents)[1..] && nodes == old(nodes)[1..]
    {
      head := head.next;
      nodes, contents := nodes[1..], contents[1..];
    }
  }
}
