/**
 * The debugger's hooks that the engine calls: recording a knot's new value
 * in the history of its option and in the change log, and dropping the
 * record of an element taken off the page.
 */
module Debugger {
  import opened Pipes
  import opened KnotCore
  import opened Descriptions
  import opened InfoTree
  import opened Dictionary

  /** An entry of `knotChangeLog`. */
  datatype LogEntry = LogEntry(id: nat, nodeDescription: string, knotOption: OptionInfo, value: Value, isFromLeftToRight: bool)

  /** Every value an option has recorded, oldest first: its history, then its latest value. */
  ghost function Recorded(o: OptionInfo): seq<ValueInfo>
    reads o
  {
    o.historyValueInfo + (if o.latestValueInfo.Some? then [o.latestValueInfo.value] else [])
  }

  /** The index of the first option of `os` made from `knot`, or -1. */
  function FirstOption(os: seq<OptionInfo>, knot: KnotInfo): (i: int)
    ensures -1 <= i < |os|
    ensures 0 <= i ==> os[i].knotOption == knot
    ensures forall j :: 0 <= j < |os| && (i < 0 || j < i) ==> os[j].knotOption != knot
  {
    if os == [] then -1
    else if os[0].knotOption == knot then 0
    else
      var j := FirstOption(os[1..], knot);
      if j < 0 then -1 else j + 1
  }

  /** Log ids come newest first, and every one is below the counter that hands them out. */
  ghost predicate LogOrdered(log: seq<LogEntry>, count: nat) {
    (forall j :: 0 <= j < |log| ==> log[j].id < count) &&
    (forall j, k :: 0 <= j < k < |log| ==> log[j].id > log[k].id)
  }

  /** Logging a change under the next id and counting it keeps the log ordered. */
  lemma PrependKeepsOrder(log: seq<LogEntry>, count: nat, e: LogEntry)
    requires LogOrdered(log, count) && e.id == count
    ensures LogOrdered([e] + log, count + 1)
  {
    var l := [e] + log;
    forall j, k | 0 <= j < k < |l|
      ensures l[j].id > l[k].id
    {
      assert l[k] == log[k - 1];
      if j > 0 {
        assert l[j] == log[j - 1];
      }
    }
  }

  /** The state the debugger keeps: its node dictionary, `_debugLogCount` and `knotChangeLog`. */
  class DebuggerModel {
    const nodeDictionary: NodeDictionary
    var debugLogCount: nat
    var knotChangeLog: seq<LogEntry>

    /** The log is ordered by the ids the counter handed out. */
    ghost predicate Valid()
      reads this
    {
      LogOrdered(knotChangeLog, debugLogCount)
    }

    constructor (nodeDictionary: NodeDictionary)
      ensures this.nodeDictionary == nodeDictionary && debugLogCount == 0 && knotChangeLog == [] && Valid()
    {
      this.nodeDictionary := nodeDictionary;
      debugLogCount := 0;
      knotChangeLog := [];
    }

    /**
     * The end of `generateDOMTree` for an element that is kept: its record is
     * built from the records of its children, then listed in the dictionary
     * under its element.  Every element listed before finds its record as
     * before, and an element not listed before now finds the new record.
     */
    method AddRecord(node: Element, options: Option<seq<OptionInfo>>, children: seq<NodeInfo>) returns (r: NodeInfo)
      requires forall c :: c in children ==> c.Valid()
      modifies children`parent, nodeDictionary
      ensures fresh(r) && r.Valid() && r.node == node && r.options == options && r.childrenInfo == children
      ensures r.description == HTMLElementDescription(node) && r.isExpanded && !r.isHighlighted && r.parent == None
      ensures forall c :: c in children ==> c.parent == Some(r)
      ensures nodeDictionary.nodeArray == old(nodeDictionary.nodeArray) + [node]
      ensures nodeDictionary.nodeInfoArray == old(nodeDictionary.nodeInfoArray) + [r]
      ensures old(nodeDictionary.Valid()) ==>
        nodeDictionary.Valid() &&
        (forall x :: x in old(nodeDictionary.nodeArray) ==> nodeDictionary.Get(x) == old(nodeDictionary.Get(x))) &&
        (node !in old(nodeDictionary.nodeArray) ==> nodeDictionary.Get(node) == Some(r))
    {
      r := NewRecord(node, options, children);
      ghost var ns, rs := nodeDictionary.nodeArray, nodeDictionary.nodeInfoArray;
      nodeDictionary.Add(r);
      if Paired(ns, rs) {
        forall x | x in ns || x == node
          ensures Lookup(ns + [node], rs + [r], x) == if x in ns then Lookup(ns, rs, x) else Some(r)
        {
          LookupAfterAdd(ns, rs, r, x);
        }
      }
    }

    /** The options `knotChanged` may update: those of the record for `target`. */
    ghost function OptionsOf(target: Element): set<OptionInfo>
      reads this, nodeDictionary
    {
      var r := nodeDictionary.Get(target);
      if r.Some? && r.value.options.Some? then set o | o in r.value.options.value else {}
    }

    /**
     * `knotChanged`: for an element with no record nothing happens; for a
     * record with no option list the loop throws; otherwise the first option
     * made from `knotOption`, if any, moves its latest value into its history
     * and takes the new value under the next id, and the change is logged at
     * the front.  Every recorded value is kept, the new one last, and the log
     * stays ordered.
     */
    method KnotChanged(leftTarget: Element, knotOption: KnotInfo, latestValue: Value, isFromLeftToRight: bool)
      returns (outcome: Outcome)
      modifies this`debugLogCount, this`knotChangeLog
      modifies OptionsOf(leftTarget)`latestValueInfo, OptionsOf(leftTarget)`historyValueInfo
      ensures var r := nodeDictionary.Get(leftTarget);
        if r.None? then
          outcome == Completed && unchanged(this)
        else if r.value.options.None? then
          outcome == Failed(OptionsUndefined(r.value.description)) && unchanged(this)
        else
          var os := r.value.options.value;
          var i := FirstOption(os, knotOption);
          outcome == Completed &&
          if i < 0 then
            unchanged(this) && forall j :: 0 <= j < |os| ==> unchanged(os[j])
          else
            var v := ValueInfo(old(debugLogCount), latestValue, isFromLeftToRight);
            os[i].latestValueInfo == Some(v) &&
            os[i].historyValueInfo == old(Recorded(os[i])) &&
            Recorded(os[i]) == old(Recorded(os[i])) + [v] &&
            debugLogCount == old(debugLogCount) + 1 &&
            knotChangeLog == [LogEntry(v.id, r.value.description, os[i], latestValue, isFromLeftToRight)] + old(knotChangeLog) &&
            forall j :: 0 <= j < |os| && os[j] != os[i] ==> unchanged(os[j])
      ensures old(Valid()) ==> Valid()
    {
      var r := nodeDictionary.Get(leftTarget);
      if r.None? {
        return Completed;
      }
      var info := r.value;
      if info.options.None? {
        return Failed(OptionsUndefined(info.description));
      }
      var os := info.options.value;
      var i := 0;
      while i < |os|
        invariant 0 <= i <= |os|
        invariant forall j :: 0 <= j < i ==> os[j].knotOption != knotOption
      {
        if os[i].knotOption == knotOption {
          LogChange(info.description, os[i], latestValue, isFromLeftToRight);
          return Completed;
        }
        i := i + 1;
      }
      return Completed;
    }

    /**
     * The body of `knotChanged` for the matching option `opt` of a record
     * described as `description`: `opt` records the new value under the
     * next id, keeping every value it recorded before, and the change is
     * logged at the front.
     */
    method LogChange(description: string, opt: OptionInfo, latestValue: Value, isFromLeftToRight: bool)
      modifies this`debugLogCount, this`knotChangeLog, opt`latestValueInfo, opt`historyValueInfo
      ensures var v := ValueInfo(old(debugLogCount), latestValue, isFromLeftToRight);
        opt.latestValueInfo == Some(v) &&
        opt.historyValueInfo == old(Recorded(opt)) &&
        Recorded(opt) == old(Recorded(opt)) + [v] &&
        debugLogCount == old(debugLogCount) + 1 &&
        knotChangeLog == [LogEntry(v.id, description, opt, latestValue, isFromLeftToRight)] + old(knotChangeLog)
      ensures old(Valid()) ==> Valid()
    {
      if opt.latestValueInfo.Some? {
        opt.historyValueInfo := opt.historyValueInfo + [opt.latestValueInfo.value];
      }
      opt.latestValueInfo := Some(ValueInfo(debugLogCount, latestValue, isFromLeftToRight));
      debugLogCount := debugLogCount + 1;
      if old(Valid()) {
        PrependKeepsOrder(knotChangeLog, debugLogCount - 1, LogEntry(debugLogCount - 1, description, opt, latestValue, isFromLeftToRight));
      }
      knotChangeLog := [LogEntry(opt.latestValueInfo.value.id, description, opt, latestValue, isFromLeftToRight)] + knotChangeLog;
    }

    /** The record `nodeRemoved` detaches from its parent: the one found for `node`, if any. */
    ghost function RemovedRecord(node: Element): set<NodeInfo>
      reads this, nodeDictionary
    {
      var r := nodeDictionary.Get(node);
      if r.None? then {} else {r.value}
    }

    /** The record whose children `nodeRemoved` splices: the parent of the one found for `node`, if any. */
    ghost function ParentRecord(node: Element): set<NodeInfo>
      reads this, nodeDictionary, RemovedRecord(node)
    {
      var r := nodeDictionary.Get(node);
      if r.None? || r.value.parent.None? then {} else {r.value.parent.value}
    }

    /**
     * `nodeRemoved`: for an element with no record nothing happens;
     * otherwise the record leaves its parent's children and loses its
     * parent, and its element leaves the dictionary (when listed).  Every
     * other element's record is found as before, and an element listed once
     * is no longer found.
     */
    method NodeRemoved(node: Element)
      modifies nodeDictionary, RemovedRecord(node)`parent, ParentRecord(node)`childrenInfo
      ensures var r := old(nodeDictionary.Get(node));
        if r.None? then
          unchanged(nodeDictionary)
        else
          var ns := old(nodeDictionary.nodeArray);
          var k := FirstIndex(ns, r.value.node);
          r.value.parent == None &&
          if k < 0 then
            nodeDictionary.nodeArray == ns && nodeDictionary.nodeInfoArray == old(nodeDictionary.nodeInfoArray)
          else
            nodeDictionary.nodeArray == SpliceOne(ns, k) &&
            nodeDictionary.nodeInfoArray == SpliceOne(old(nodeDictionary.nodeInfoArray), k)
      ensures var r := old(nodeDictionary.Get(node));
        r.Some? && old(r.value.parent).Some? ==>
          var p := old(r.value.parent).value;
          p.childrenInfo == SpliceOne(old(p.childrenInfo), FirstIndex(old(p.childrenInfo), r.value)) &&
          (r.value in old(p.childrenInfo) ==> multiset(p.childrenInfo) == old(multiset(p.childrenInfo)) - multiset{r.value})
      ensures old(nodeDictionary.Valid()) ==>
        nodeDictionary.Valid() &&
        (forall x :: x in old(nodeDictionary.nodeArray) && x != node ==> nodeDictionary.Get(x) == old(nodeDictionary.Get(x))) &&
        (old(NoDuplicates(nodeDictionary.nodeArray)) ==> nodeDictionary.Get(node).None?)
    {
      var r := nodeDictionary.Get(node);
      if r.None? {
        return;
      }
      var info := r.value;
      Detach(info);
      ghost var ns, rs := nodeDictionary.nodeArray, nodeDictionary.nodeInfoArray;
      nodeDictionary.Remove(info.node);
      if Paired(ns, rs) {
        forall x | x in ns && x != node
          ensures Lookup(SpliceOne(ns, FirstIndex(ns, node)), SpliceOne(rs, FirstIndex(ns, node)), x) == Lookup(ns, rs, x)
        {
          LookupAfterRemove(ns, rs, node, x);
        }
        if NoDuplicates(ns) {
          RemovedIsGone(ns, rs, node);
        }
      }
    }

    /**
     * The part of `nodeRemoved` for a record with a parent: the parent's
     * children lose the record's first occurrence (found with `indexOf`,
     * taken out with `splice`) and the record loses its parent.
     */
    method Detach(info: NodeInfo)
      modifies info`parent, (if info.parent.Some? then {info.parent.value} else {})`childrenInfo
      ensures info.parent == None
      ensures old(info.parent).Some? ==>
        var p := old(info.parent).value;
        p.childrenInfo == SpliceOne(old(p.childrenInfo), FirstIndex(old(p.childrenInfo), info)) &&
        (info in old(p.childrenInfo) ==> multiset(p.childrenInfo) == old(multiset(p.childrenInfo)) - multiset{info})
    {
      if info.parent.Some? {
        var p := info.parent.value;
        var index := FirstIndex(p.childrenInfo, info);
        if info in p.childrenInfo {
          SpliceFirst(p.childrenInfo, info);
        }
        p.childrenInfo := SpliceOne(p.childrenInfo, index);
        info.parent := None;
      }
    }
  }
}
