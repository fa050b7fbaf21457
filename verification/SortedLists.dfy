/** The sorted lists of uids of Utils.java. */
module SortedLists {

  /** Sorted and free of duplicates. */
  predicate Ascending(s: seq<int>) {
    forall i, j :: 0 <= i < j < |s| ==> s[i] < s[j]
  }

  function Elements(s: seq<int>): set<int> {
    set x | x in s
  }

  lemma ElementsAppend(s: seq<int>, t: seq<int>)
    ensures Elements(s + t) == Elements(s) + Elements(t)
  {
  }

  /** A value in its place: behind all smaller ones. */
  function Insert(s: seq<int>, x: int): (r: seq<int>)
    ensures |r| == |s| + 1 && Elements(r) == Elements(s) + {x}
  {
    if s == [] || x < s[0] then [x] + s
    else
      assert s == [s[0]] + s[1..];
      ElementsAppend([s[0]], s[1..]);
      ElementsAppend([s[0]], Insert(s[1..], x));
      [s[0]] + Insert(s[1..], x)
  }

  /** `Collections.sort`. */
  function Sort(s: seq<int>): (r: seq<int>)
    ensures |r| == |s| && Elements(r) == Elements(s)
  {
    if s == [] then []
    else
      assert s == s[..|s| - 1] + [s[|s| - 1]];
      ElementsAppend(s[..|s| - 1], [s[|s| - 1]]);
      Insert(Sort(s[..|s| - 1]), s[|s| - 1])
  }

  predicate Distinct(s: seq<int>) {
    forall i, j :: 0 <= i < j < |s| ==> s[i] != s[j]
  }

  lemma ConsAscending(x: int, s: seq<int>)
    requires Ascending(s) && forall y <- s :: x < y
    ensures Ascending([x] + s)
  {
    var r := [x] + s;
    forall i, j | 0 <= i < j < |r|
      ensures r[i] < r[j]
    {
      assert r[j] == s[j - 1] && s[j - 1] in s;
      if i > 0 {
        assert r[i] == s[i - 1];
      }
    }
  }

  lemma {:induction false} InsertAscending(s: seq<int>, x: int)
    requires Ascending(s) && x !in s
    ensures Ascending(Insert(s, x))
  {
    if s == [] {
    } else if x < s[0] {
      ConsAscending(x, s);
    } else {
      InsertAscending(s[1..], x);
      var r := Insert(s[1..], x);
      forall y | y in r
        ensures s[0] < y
      {
        assert y in Elements(r);
      }
      ConsAscending(s[0], r);
    }
  }

  /** Sorting distinct values gives an ascending list. */
  lemma {:induction false} SortAscending(s: seq<int>)
    requires Distinct(s)
    ensures Ascending(Sort(s))
  {
    if s != [] {
      var front, last := s[..|s| - 1], s[|s| - 1];
      SortAscending(front);
      assert last !in front;
      assert last !in Elements(Sort(front));
      InsertAscending(Sort(front), last);
    }
  }

  lemma AscendingParts(s: seq<int>, k: nat)
    requires Ascending(s) && k < |s|
    ensures Ascending(s[..k] + s[k + 1..]) && Elements(s[..k] + s[k + 1..]) == Elements(s) - {s[k]}
  {
    var r := s[..k] + s[k + 1..];
    forall x
      ensures x in Elements(r) <==> x in Elements(s) - {s[k]}
    {
      if x in s && x != s[k] {
        var i :| 0 <= i < |s| && s[i] == x;
        assert r[if i < k then i else i - 1] == x;
      }
    }
  }

  /** `Collections.binarySearch`: the index of the value, or one below zero when there is none. */
  method BinarySearch(s: seq<int>, x: int) returns (index: int)
    requires Ascending(s)
    ensures index < |s|
    ensures index >= 0 ==> s[index] == x
    ensures index < 0 <==> x !in s
  {
    var low, high := 0, |s|;
    while low < high
      invariant 0 <= low <= high <= |s|
      invariant forall i :: 0 <= i < low ==> s[i] < x
      invariant forall i :: high <= i < |s| ==> x < s[i]
    {
      var mid := (low + high) / 2;
      if s[mid] < x {
        low := mid + 1;
      } else if x < s[mid] {
        high := mid;
      } else {
        return mid;
      }
    }
    index := -low - 1;
  }

  /** `addTo…List`. */
  method AddTo(s: seq<int>, x: int) returns (r: seq<int>)
    requires Ascending(s)
    ensures Ascending(r) && Elements(r) == Elements(s) + {x}
  {
    r := s;
    var index := BinarySearch(s, x);
    if !(0 <= index < |s|) {
      SortAscending(s + [x]);
      r := Sort(s + [x]);
    }
  }

  /** `removeFrom…List`. */
  method RemoveFrom(s: seq<int>, x: int) returns (r: seq<int>)
    requires Ascending(s)
    ensures Ascending(r) && Elements(r) == Elements(s) - {x}
  {
    r := s;
    var index := BinarySearch(s, x);
    if 0 <= index < |s| {
      AscendingParts(s, index);
      r := s[..index] + s[index + 1..];
    }
  }
}
