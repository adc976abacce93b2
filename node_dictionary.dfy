/**
 * The debugger's dictionary from page elements to their node records: two
 * parallel arrays searched with `indexOf`, as in debugger.js.
 */
module Dictionary {
  import opened Pipes
  import opened Descriptions
  import opened InfoTree

  /** `s.indexOf(x)`: the first index holding `x`, or -1 when there is none. */
  function FirstIndex<T(==)>(s: seq<T>, x: T): (i: int)
    ensures i == -1 <==> x !in s
    ensures 0 <= i ==> i < |s| && s[i] == x && x !in s[..i]
  {
    if s == [] then -1
    else if s[0] == x then 0
    else
      var j := FirstIndex(s[1..], x);
      if j < 0 then -1
      else
        assert s[..j + 1] == [s[0]] + s[1..][..j];
        j + 1
  }

  /**
   * `s.splice(start, 1)` on a JavaScript array: a negative `start` counts
   * from the end (and stops at the front), and a `start` past the end
   * removes nothing.
   */
  function SpliceOne<T>(s: seq<T>, start: int): seq<T> {
    var k := if start < 0 then (if |s| + start < 0 then 0 else |s| + start) else start;
    if k < |s| then s[..k] + s[k + 1..] else s
  }

  /** Taking out the index `i` shifts everything after it down by one. */
  lemma SpliceAt<T>(s: seq<T>, i: int)
    requires 0 <= i < |s|
    ensures |SpliceOne(s, i)| == |s| - 1
    ensures forall k :: 0 <= k < |s| - 1 ==> SpliceOne(s, i)[k] == s[if k < i then k else k + 1]
  {
  }

  /** Removing the first occurrence of `x` takes one `x` out and leaves everything else in order. */
  lemma SpliceFirst<T>(s: seq<T>, x: T)
    requires x in s
    ensures var i := FirstIndex(s, x);
      SpliceOne(s, i) == s[..i] + s[i + 1..] && multiset(SpliceOne(s, i)) == multiset(s) - multiset{x}
  {
    var i := FirstIndex(s, x);
    var front, back := s[..i], s[i + 1..];
    assert s == front + [x] + back;
    calc {
      multiset(s);
    ==
      multiset(front + [x] + back);
    ==
      multiset(front + [x]) + multiset(back);
    ==
      multiset(front) + multiset{x} + multiset(back);
    }
    assert multiset(front + back) == multiset(front) + multiset(back);
  }

  /** The element array and the record array line up: each record sits at its own element's index. */
  ghost predicate Paired(nodes: seq<Element>, infos: seq<NodeInfo>) {
    |nodes| == |infos| && forall i :: 0 <= i < |infos| ==> infos[i].node == nodes[i]
  }

  /** Whether no element is listed twice. */
  ghost predicate NoDuplicates(nodes: seq<Element>) {
    forall i, j :: 0 <= i < j < |nodes| ==> nodes[i] != nodes[j]
  }

  /**
   * `get`: the record at the index where `node` is first listed; JavaScript
   * gives `undefined` for index -1 and for an index past the records.  On
   * paired arrays the record is found exactly for the listed elements, and
   * it is the record of `node`.
   */
  function Lookup(nodes: seq<Element>, infos: seq<NodeInfo>, node: Element): (r: Option<NodeInfo>)
    ensures Paired(nodes, infos) ==> (r.Some? <==> node in nodes)
    ensures Paired(nodes, infos) && r.Some? ==> r.value.node == node && r.value in infos
  {
    var i := FirstIndex(nodes, node);
    if 0 <= i < |infos| then Some(infos[i]) else None
  }

  /**
   * After `add`, the records of elements listed before are found as before,
   * and a newly listed element finds the added record.
   */
  lemma {:induction false} LookupAfterAdd(nodes: seq<Element>, infos: seq<NodeInfo>, info: NodeInfo, x: Element)
    requires |nodes| == |infos|
    ensures Lookup(nodes + [info.node], infos + [info], x) ==
      if x in nodes then Lookup(nodes, infos, x) else if x == info.node then Some(info) else None
  {
    var ns := nodes + [info.node];
    BeforeFirst(nodes, x);
    if x in nodes {
      FirstAt(ns, x, FirstIndex(nodes, x));
    } else if x == info.node {
      FirstAt(ns, x, |nodes|);
    }
  }

  /** An index holding `x` with no `x` at any index before it is the first index of `x`. */
  lemma FirstAt<T>(s: seq<T>, x: T, k: int)
    requires 0 <= k < |s| && s[k] == x && forall m :: 0 <= m < k ==> s[m] != x
    ensures FirstIndex(s, x) == k
  {
    assert x !in s[..k];
  }

  /** No index before the first index of `x` holds `x`. */
  lemma BeforeFirst<T>(s: seq<T>, x: T)
    ensures forall m :: 0 <= m < |s| && (FirstIndex(s, x) < 0 || m < FirstIndex(s, x)) ==> s[m] != x
  {
    var i := FirstIndex(s, x);
    if i >= 0 {
      assert forall m :: 0 <= m < i ==> s[m] in s[..i];
    }
  }

  /** Taking the same index out of two paired arrays leaves them paired. */
  lemma SplicePaired(nodes: seq<Element>, infos: seq<NodeInfo>, i: int)
    requires Paired(nodes, infos) && 0 <= i < |nodes|
    ensures Paired(SpliceOne(nodes, i), SpliceOne(infos, i))
  {
    SpliceAt(nodes, i);
    SpliceAt(infos, i);
  }

  /**
   * After `remove` of a listed element, every other element's record is
   * found as before on paired arrays.
   */
  lemma LookupAfterRemove(nodes: seq<Element>, infos: seq<NodeInfo>, node: Element, x: Element)
    requires Paired(nodes, infos) && node in nodes && x != node
    ensures var i := FirstIndex(nodes, node);
      Lookup(SpliceOne(nodes, i), SpliceOne(infos, i), x) == Lookup(nodes, infos, x)
  {
    var i := FirstIndex(nodes, node);
    var j := FirstIndex(nodes, x);
    FirstAfterSplice(nodes, i, x);
    if j >= 0 {
      SpliceAt(infos, i);
    }
  }

  /** Taking out an index that does not hold `x` moves the first index of `x` down by one when it was after it. */
  lemma FirstAfterSplice<T>(s: seq<T>, i: int, x: T)
    requires 0 <= i < |s| && s[i] != x
    ensures var j := FirstIndex(s, x);
      FirstIndex(SpliceOne(s, i), x) == if j < 0 then -1 else if j < i then j else j - 1
  {
    var t := SpliceOne(s, i);
    var j := FirstIndex(s, x);
    SpliceAt(s, i);
    if j < 0 {
      assert forall k :: 0 <= k < |t| ==> t[k] != x;
    } else {
      BeforeFirst(s, x);
      FirstAt(t, x, if j < i then j else j - 1);
    }
  }

  /** After `remove` of an element listed once, it is no longer found. */
  lemma RemovedIsGone(nodes: seq<Element>, infos: seq<NodeInfo>, node: Element)
    requires Paired(nodes, infos) && node in nodes && NoDuplicates(nodes)
    ensures var i := FirstIndex(nodes, node);
      Paired(SpliceOne(nodes, i), SpliceOne(infos, i)) && Lookup(SpliceOne(nodes, i), SpliceOne(infos, i), node).None?
  {
    var i := FirstIndex(nodes, node);
    var ns := SpliceOne(nodes, i);
    SplicePaired(nodes, infos, i);
    SpliceAt(nodes, i);
    assert forall k :: 0 <= k < |ns| ==> ns[k] != node;
  }

  /** `nodeDictionary`: the listed elements and, at the same indices, their records. */
  class NodeDictionary {
    var nodeArray: seq<Element>
    var nodeInfoArray: seq<NodeInfo>

    /** Each record sits at its element's index. */
    ghost predicate Valid()
      reads this
    {
      Paired(nodeArray, nodeInfoArray)
    }

    constructor ()
      ensures nodeArray == [] && nodeInfoArray == [] && Valid()
    {
      nodeArray := [];
      nodeInfoArray := [];
    }

    /** `add`: lists the record's element and the record at the end, and keeps the arrays paired. */
    method Add(info: NodeInfo)
      modifies this
      ensures nodeArray == old(nodeArray) + [info.node] && nodeInfoArray == old(nodeInfoArray) + [info]
      ensures old(Valid()) ==> Valid()
    {
      nodeArray := nodeArray + [info.node];
      nodeInfoArray := nodeInfoArray + [info];
    }

    /**
     * `remove`: takes the first entry for `node` out of both arrays, and
     * does nothing when `node` is not listed; keeps the arrays paired.
     */
    method Remove(node: Element)
      modifies this
      ensures var i := FirstIndex(old(nodeArray), node);
        if i >= 0 then
          nodeArray == SpliceOne(old(nodeArray), i) && nodeInfoArray == SpliceOne(old(nodeInfoArray), i)
        else
          nodeArray == old(nodeArray) && nodeInfoArray == old(nodeInfoArray)
      ensures old(Valid()) ==> Valid()
    {
      var index := FirstIndex(nodeArray, node);
      if index >= 0 {
        if Valid() {
          SplicePaired(nodeArray, nodeInfoArray, index);
        }
        nodeArray := SpliceOne(nodeArray, index);
        nodeInfoArray := SpliceOne(nodeInfoArray, index);
      }
    }

    /** `get`: the record of `node`, or `None` for `undefined`. */
    function Get(node: Element): (r: Option<NodeInfo>)
      reads this
      ensures Valid() ==> (r.Some? <==> node in nodeArray)
      ensures Valid() && r.Some? ==> r.value.node == node && r.value in nodeInfoArray
    {
      Lookup(nodeArray, nodeInfoArray, node)
    }
  }
}
