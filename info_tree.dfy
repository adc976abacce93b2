/**
 * The debugger's tree of node records: one record per page element that
 * carries knots or has a descendant that does, each with its knot options,
 * and the four passes that rewrite the records' `isHighlighted` and
 * `isExpanded` flags in place.
 */
module InfoTree {
  import opened Text
  import opened Pipes
  import opened KnotCore
  import opened Descriptions

  /** One entry of a knot option's value history. */
  datatype ValueInfo = ValueInfo(id: nat, value: Value, isFromLeftToRight: bool)

  /** A knot option shown under its element. */
  class OptionInfo {
    const description: string
    const knotOption: KnotInfo
    var isHighlighted: bool
    var latestValueInfo: Option<ValueInfo>
    var historyValueInfo: seq<ValueInfo>

    constructor (knotOption: KnotInfo)
      requires knotOption.leftAP.WellFormed() && knotOption.rightAP.WellFormed()
      ensures this.knotOption == knotOption && description == KnotOptionsStr(knotOption)
      ensures !isHighlighted && latestValueInfo == None && historyValueInfo == []
    {
      this.knotOption := knotOption;
      description := KnotOptionsStr(knotOption);
      isHighlighted := false;
      latestValueInfo := None;
      historyValueInfo := [];
    }
  }

  /** The record for one element. */
  class NodeInfo {
    const node: Element
    const description: string
    /** Absent for an element that carries no knot and is kept only for its descendants. */
    const options: Option<seq<OptionInfo>>
    var childrenInfo: seq<NodeInfo>
    var parent: Option<NodeInfo>
    var isExpanded: bool
    var isHighlighted: bool
    /** Every record below this one, fixed when the record is built. */
    ghost const below: set<NodeInfo>
    /** The options of every record below this one. */
    ghost const belowOpts: set<OptionInfo>
    /** The elements of every record below this one. */
    ghost const belowElems: set<Element>
    /** One more than the height of the tallest child. */
    ghost const height: nat

    /** The record's own options. */
    ghost function OwnOptions(): set<OptionInfo> {
      if options.Some? then set o | o in options.value else {}
    }

    /** Whether `n` is this record or lies below it. */
    ghost predicate Holds(n: NodeInfo) {
      n == this || n in below
    }

    /** Whether `o` is an option of this record or of one below it. */
    ghost predicate HoldsOption(o: OptionInfo) {
      o in OwnOptions() || o in belowOpts
    }

    /** Whether `e` is the element of this record or of one below it. */
    ghost predicate HoldsElement(e: Element) {
      e == node || e in belowElems
    }

    /**
     * The records below form a tree: what lies below is what lies in or
     * below the children, and this record is not among it.
     */
    ghost predicate Valid()
      reads this`childrenInfo, below`childrenInfo
      decreases height
    {
      this !in below &&
      (forall c :: c in childrenInfo ==>
         c.height < height && c in below && c.below <= below &&
         c.OwnOptions() <= belowOpts && c.belowOpts <= belowOpts &&
         c.node in belowElems && c.belowElems <= belowElems && c.Valid()) &&
      (forall n :: n in below ==> NodeUnder(childrenInfo, |childrenInfo|, n)) &&
      (forall o :: o in belowOpts ==> OptUnder(childrenInfo, |childrenInfo|, o)) &&
      (forall e :: e in belowElems ==> ElemUnder(childrenInfo, |childrenInfo|, e))
    }

    /** A record for `node` over the given children, which it adopts. */
    constructor (node: Element, options: Option<seq<OptionInfo>>, children: seq<NodeInfo>)
      requires forall c :: c in children ==> c.Valid()
      ensures this.node == node && this.options == options && childrenInfo == children
      ensures description == HTMLElementDescription(node)
      ensures isExpanded && !isHighlighted && parent == None
      ensures Valid()
    {
      this.node := node;
      this.options := options;
      description := HTMLElementDescription(node);
      childrenInfo := children;
      parent := None;
      isExpanded := true;
      isHighlighted := false;
      below := BelowFirst(children, |children|);
      belowOpts := OptsFirst(children, |children|);
      belowElems := ElemsFirst(children, |children|);
      height := 1 + TallestChild(children);
      new;
      forall j | 0 <= j < |children|
        ensures !children[j].Holds(this)
      {
      }
      BuiltValid(this, children);
    }
  }

  /**
   * The record `generateDOMTree` builds for `node` once its children's
   * records are built: expanded, not highlighted, with no parent, and the
   * parent of each of its children.
   */
  method NewRecord(node: Element, options: Option<seq<OptionInfo>>, children: seq<NodeInfo>) returns (r: NodeInfo)
    requires forall c :: c in children ==> c.Valid()
    modifies children`parent
    ensures fresh(r) && r.Valid()
    ensures r.node == node && r.options == options && r.childrenInfo == children
    ensures r.description == HTMLElementDescription(node)
    ensures r.isExpanded && !r.isHighlighted && r.parent == None
    ensures forall c :: c in children ==> c.parent == Some(r)
  {
    r := new NodeInfo(node, options, children);
    Adopt(children, r);
  }

  /** A record whose ghost sets are built from its children, none of which holds it, is valid. */
  lemma BuiltValid(r: NodeInfo, cs: seq<NodeInfo>)
    requires forall c :: c in cs ==> c.Valid()
    requires forall j :: 0 <= j < |cs| ==> !cs[j].Holds(r)
    requires r.childrenInfo == cs && r.height == 1 + TallestChild(cs)
    requires r.below == BelowFirst(cs, |cs|) && r.belowOpts == OptsFirst(cs, |cs|) && r.belowElems == ElemsFirst(cs, |cs|)
    ensures r.Valid()
  {
    FirstIsUnder(cs, |cs|);
    forall j | 0 <= j < |cs|
      ensures forall n :: cs[j].Holds(n) ==> NodeUnder(cs, |cs|, n)
      ensures forall o :: cs[j].HoldsOption(o) ==> OptUnder(cs, |cs|, o)
      ensures forall e :: cs[j].HoldsElement(e) ==> ElemUnder(cs, |cs|, e)
    {
      UnderHas(cs, |cs|, j);
    }
    NotUnder(cs, |cs|, r);
    forall c | c in cs
      ensures c.height < r.height && c in r.below && c.below <= r.below
      ensures c.OwnOptions() <= r.belowOpts && c.belowOpts <= r.belowOpts
      ensures c.node in r.belowElems && c.belowElems <= r.belowElems
    {
    }
  }

  /** The records in the subtrees of the first `i` children. */
  ghost function BelowFirst(cs: seq<NodeInfo>, i: nat): set<NodeInfo>
    requires i <= |cs|
  {
    if i == 0 then {} else BelowFirst(cs, i - 1) + {cs[i - 1]} + cs[i - 1].below
  }

  /** The options in the subtrees of the first `i` children. */
  ghost function OptsFirst(cs: seq<NodeInfo>, i: nat): set<OptionInfo>
    requires i <= |cs|
  {
    if i == 0 then {} else OptsFirst(cs, i - 1) + cs[i - 1].OwnOptions() + cs[i - 1].belowOpts
  }

  /** The elements of the records in the subtrees of the first `i` children. */
  ghost function ElemsFirst(cs: seq<NodeInfo>, i: nat): set<Element>
    requires i <= |cs|
  {
    if i == 0 then {} else ElemsFirst(cs, i - 1) + {cs[i - 1].node} + cs[i - 1].belowElems
  }

  /** The sets built from the first `i` children hold exactly what lies under them. */
  lemma {:induction false} FirstIsUnder(cs: seq<NodeInfo>, i: nat)
    requires i <= |cs|
    ensures forall n :: n in BelowFirst(cs, i) <==> NodeUnder(cs, i, n)
    ensures forall o :: o in OptsFirst(cs, i) <==> OptUnder(cs, i, o)
    ensures forall e :: e in ElemsFirst(cs, i) <==> ElemUnder(cs, i, e)
  {
    if i > 0 {
      FirstIsUnder(cs, i - 1);
    }
  }

  /** A record outside every child's subtree is not under the children. */
  lemma {:induction false} NotUnder(cs: seq<NodeInfo>, i: nat, x: NodeInfo)
    requires i <= |cs| && forall j :: 0 <= j < i ==> !cs[j].Holds(x)
    ensures !NodeUnder(cs, i, x)
  {
    if i > 0 {
      NotUnder(cs, i - 1, x);
    }
  }

  /** The greatest height among `cs`, or 0 for none. */
  ghost function TallestChild(cs: seq<NodeInfo>): (h: nat)
    ensures forall c :: c in cs ==> c.height <= h
  {
    if cs == [] then 0
    else
      var rest := TallestChild(cs[1..]);
      if cs[0].height > rest then cs[0].height else rest
  }

  /** Links every child to its new parent record, as the tree is built. */
  method Adopt(children: seq<NodeInfo>, p: NodeInfo)
    modifies children`parent
    ensures forall c :: c in children ==> c.parent == Some(p)
  {
    var i := 0;
    while i < |children|
      invariant 0 <= i <= |children|
      invariant forall j :: 0 <= j < i ==> children[j].parent == Some(p)
    {
      children[i].parent := Some(p);
      i := i + 1;
    }
  }

  /** Whether `n` is one of the first `i` children or lies below one of them. */
  ghost predicate NodeUnder(cs: seq<NodeInfo>, i: nat, n: NodeInfo)
    requires i <= |cs|
  {
    i > 0 && (NodeUnder(cs, i - 1, n) || cs[i - 1].Holds(n))
  }

  /** Whether `o` belongs to a record in the subtree of one of the first `i` children. */
  ghost predicate OptUnder(cs: seq<NodeInfo>, i: nat, o: OptionInfo)
    requires i <= |cs|
  {
    i > 0 && (OptUnder(cs, i - 1, o) || cs[i - 1].HoldsOption(o))
  }

  /** Whether `e` is the element of a record in the subtree of one of the first `i` children. */
  ghost predicate ElemUnder(cs: seq<NodeInfo>, i: nat, e: Element)
    requires i <= |cs|
  {
    i > 0 && (ElemUnder(cs, i - 1, e) || cs[i - 1].HoldsElement(e))
  }

  /** What lies in the subtree of the child at `j` lies under the first `i` children, for `j < i`. */
  lemma {:induction false} UnderHas(cs: seq<NodeInfo>, i: nat, j: nat)
    requires j < i <= |cs|
    ensures forall n :: cs[j].Holds(n) ==> NodeUnder(cs, i, n)
    ensures forall o :: cs[j].HoldsOption(o) ==> OptUnder(cs, i, o)
    ensures forall e :: cs[j].HoldsElement(e) ==> ElemUnder(cs, i, e)
  {
    if j < i - 1 {
      UnderHas(cs, i - 1, j);
    }
  }

  /** What lies under the children of a valid record lies below it. */
  lemma {:induction false} UnderIsBelow(root: NodeInfo, i: nat)
    requires root.Valid() && i <= |root.childrenInfo|
    ensures forall n :: NodeUnder(root.childrenInfo, i, n) ==> n in root.below
    ensures forall o :: OptUnder(root.childrenInfo, i, o) ==> o in root.belowOpts
    ensures forall e :: ElemUnder(root.childrenInfo, i, e) ==> e in root.belowElems
  {
    if i > 0 {
      UnderIsBelow(root, i - 1);
      assert root.childrenInfo[i - 1] in root.childrenInfo;
    }
  }

  /** The child under which `n` lies. */
  lemma {:induction false} NodeChild(cs: seq<NodeInfo>, i: nat, n: NodeInfo) returns (j: nat)
    requires i <= |cs| && NodeUnder(cs, i, n)
    ensures j < i && cs[j].Holds(n)
  {
    if cs[i - 1].Holds(n) {
      j := i - 1;
    } else {
      j := NodeChild(cs, i - 1, n);
    }
  }

  /** The child under which `e` lies. */
  lemma {:induction false} ElemChild(cs: seq<NodeInfo>, i: nat, e: Element) returns (j: nat)
    requires i <= |cs| && ElemUnder(cs, i, e)
    ensures j < i && cs[j].HoldsElement(e)
  {
    if cs[i - 1].HoldsElement(e) {
      j := i - 1;
    } else {
      j := ElemChild(cs, i - 1, e);
    }
  }

  /**
   * The elements a valid record holds are exactly the elements of the
   * records in its subtree.
   */
  lemma {:induction false} ElementsAreRecords(root: NodeInfo, e: Element)
    requires root.Valid()
    ensures root.HoldsElement(e) <==> exists n :: root.Holds(n) && n.node == e
    decreases root.height
  {
    var cs := root.childrenInfo;
    if e in root.belowElems {
      var j := ElemChild(cs, |cs|, e);
      assert cs[j] in cs;
      ElementsAreRecords(cs[j], e);
      var n :| cs[j].Holds(n) && n.node == e;
      assert root.Holds(n);
    }
    if e != root.node && exists n :: root.Holds(n) && n.node == e {
      var n :| root.Holds(n) && n.node == e;
      var j := NodeChild(cs, |cs|, n);
      assert cs[j] in cs;
      ElementsAreRecords(cs[j], e);
    }
  }

  /** Whether the keyword search highlights a record with this description. */
  ghost predicate MatchesRecord(description: string, keyword: string) {
    keyword != "" && LowerContainsFrom(description, keyword, 0)
  }

  /** Whether the keyword search highlights an option with this description; the empty keyword matches every one. */
  ghost predicate MatchesOption(description: string, keyword: string) {
    LowerContainsFrom(description, keyword, 0)
  }

  /**
   * An option matches exactly when the keyword occurs somewhere in its
   * lowered description, so every option matches the empty keyword; a
   * record matches when an option with its description would and the
   * keyword is not empty.
   */
  lemma MatchesMeaning(description: string, keyword: string)
    ensures MatchesOption(description, keyword) <==> exists i :: OccursAt(Lower(description), keyword, i)
    ensures MatchesRecord(description, keyword) <==> keyword != "" && MatchesOption(description, keyword)
    ensures MatchesOption(description, "")
  {
    LowerContainsFromIff(description, keyword, 0);
    LowerContainsFromIff(description, "", 0);
    assert OccursAt(Lower(description), "", 0);
  }

  /**
   * `searchInNode`: every record in the subtree of `root` is highlighted
   * exactly when the keyword is not empty and occurs in its lowered
   * description, and every option exactly when the keyword occurs in its
   * lowered description, so that an empty keyword highlights every option
   * and no record.
   */
  method SearchInNode(root: NodeInfo, keyword: string)
    requires root.Valid()
    modifies root`isHighlighted, root.below`isHighlighted, root.OwnOptions()`isHighlighted, root.belowOpts`isHighlighted
    ensures forall n :: root.Holds(n) ==> n.isHighlighted == MatchesRecord(n.description, keyword)
    ensures forall o :: root.HoldsOption(o) ==> o.isHighlighted == MatchesOption(o.description, keyword)
    decreases root.height, 1
  {
    HighlightOwn(root, keyword);
    SearchChildren(root, keyword);
  }

  /** The part of `searchInNode` before the recursion: the record's own flag and those of its own options. */
  method HighlightOwn(root: NodeInfo, keyword: string)
    modifies root`isHighlighted, root.OwnOptions()`isHighlighted
    ensures root.isHighlighted == MatchesRecord(root.description, keyword)
    ensures forall o :: o in root.OwnOptions() ==> o.isHighlighted == MatchesOption(o.description, keyword)
  {
    LowerContainsIff(root.description, keyword);
    root.isHighlighted := if keyword != "" then IndexOf(Lower(root.description), keyword) >= 0 else false;
    if root.options.Some? {
      HighlightOptions(root.options.value, keyword);
    }
  }

  /** The options loop of `searchInNode`. */
  method HighlightOptions(os: seq<OptionInfo>, keyword: string)
    modifies os`isHighlighted
    ensures forall j :: 0 <= j < |os| ==> os[j].isHighlighted == MatchesOption(os[j].description, keyword)
  {
    var i := 0;
    while i < |os|
      invariant 0 <= i <= |os|
      invariant forall j :: 0 <= j < i ==> os[j].isHighlighted == MatchesOption(os[j].description, keyword)
    {
      LowerContainsIff(os[i].description, keyword);
      os[i].isHighlighted := IndexOf(Lower(os[i].description), keyword) >= 0;
      i := i + 1;
    }
  }

  /** The loop of `searchInNode` over the children: everything below `root` is searched, `root` itself is not touched. */
  method SearchChildren(root: NodeInfo, keyword: string)
    requires root.Valid()
    modifies root.below`isHighlighted, root.belowOpts`isHighlighted
    ensures forall n :: n in root.below ==> n.isHighlighted == MatchesRecord(n.description, keyword)
    ensures forall o :: o in root.belowOpts ==> o.isHighlighted == MatchesOption(o.description, keyword)
    decreases root.height, 0
  {
    var cs := root.childrenInfo;
    var i: nat := 0;
    while i < |cs|
      invariant i <= |cs|
      invariant forall n {:trigger NodeUnder(cs, i, n)} :: n in root.below && NodeUnder(cs, i, n) ==> n.isHighlighted == MatchesRecord(n.description, keyword)
      invariant forall o {:trigger OptUnder(cs, i, o)} :: o in root.belowOpts && OptUnder(cs, i, o) ==> o.isHighlighted == MatchesOption(o.description, keyword)
    {
      assert cs[i] in cs;
      label before:
      SearchInNode(cs[i], keyword);
      forall n {:trigger NodeUnder(cs, i + 1, n)} | n in root.below && NodeUnder(cs, i + 1, n)
        ensures n.isHighlighted == MatchesRecord(n.description, keyword)
      {
        if !cs[i].Holds(n) {
          assert NodeUnder(cs, i, n);
          assert n.isHighlighted == old@before(n.isHighlighted);
        }
      }
      forall o {:trigger OptUnder(cs, i + 1, o)} | o in root.belowOpts && OptUnder(cs, i + 1, o)
        ensures o.isHighlighted == MatchesOption(o.description, keyword)
      {
        if !cs[i].HoldsOption(o) {
          assert OptUnder(cs, i, o);
          assert o.isHighlighted == old@before(o.isHighlighted);
        }
      }
      i := i + 1;
    }
  }

  /** The options loop of `searchByNode`. */
  method ClearOptions(os: seq<OptionInfo>)
    modifies os`isHighlighted
    ensures forall j :: 0 <= j < |os| ==> !os[j].isHighlighted
  {
    var i := 0;
    while i < |os|
      invariant 0 <= i <= |os|
      invariant forall j :: 0 <= j < i ==> !os[j].isHighlighted
    {
      os[i].isHighlighted := false;
      i := i + 1;
    }
  }

  /**
   * `searchByNode`: reports whether a record for the element `target` lies
   * in the subtree of `root`, and clears every option's highlight.  A record
   * with a record for `target` below it keeps its highlight; every other
   * record is highlighted exactly when it is the record for `target`.
   */
  method SearchByNode(root: NodeInfo, target: Element) returns (found: bool)
    requires root.Valid()
    modifies root`isHighlighted, root.below`isHighlighted, root.OwnOptions()`isHighlighted, root.belowOpts`isHighlighted
    ensures found == root.HoldsElement(target)
    ensures forall o :: root.HoldsOption(o) ==> !o.isHighlighted
    ensures forall n :: root.Holds(n) && target !in n.belowElems ==> n.isHighlighted == (n.node == target)
    ensures forall n :: root.Holds(n) && target in n.belowElems ==> n.isHighlighted == old(n.isHighlighted)
    decreases root.height, 1
  {
    found := SearchByChildren(root, target);
    if root.options.Some? {
      ClearOptions(root.options.value);
    }
    if !found {
      root.isHighlighted := root.node == target;
    }
    found := found || root.isHighlighted;
  }

  /**
   * The loop of `searchByNode` over the children: whether a record for
   * `target` lies below `root`, with everything below searched and `root`
   * itself not touched.
   */
  method SearchByChildren(root: NodeInfo, target: Element) returns (found: bool)
    requires root.Valid()
    modifies root.below`isHighlighted, root.belowOpts`isHighlighted
    ensures found == (target in root.belowElems)
    ensures forall o :: o in root.belowOpts ==> !o.isHighlighted
    ensures forall n :: n in root.below && target !in n.belowElems ==> n.isHighlighted == (n.node == target)
    ensures forall n :: n in root.below && target in n.belowElems ==> n.isHighlighted == old(n.isHighlighted)
    decreases root.height, 0
  {
    var cs := root.childrenInfo;
    found := false;
    var i: nat := 0;
    while i < |cs|
      invariant i <= |cs|
      invariant found == ElemUnder(cs, i, target)
      invariant forall o :: o in root.belowOpts && OptUnder(cs, i, o) ==> !o.isHighlighted
      invariant forall n {:trigger NodeUnder(cs, i, n)} :: n in root.below && NodeUnder(cs, i, n) && target !in n.belowElems ==> n.isHighlighted == (n.node == target)
      invariant forall n :: n in root.below && target in n.belowElems ==> n.isHighlighted == old(n.isHighlighted)
    {
      assert cs[i] in cs;
      label before:
      var f := SearchByNode(cs[i], target);
      forall n {:trigger NodeUnder(cs, i + 1, n)} | n in root.below && NodeUnder(cs, i + 1, n) && target !in n.belowElems
        ensures n.isHighlighted == (n.node == target)
      {
        if !cs[i].Holds(n) {
          assert NodeUnder(cs, i, n);
          assert n.isHighlighted == old@before(n.isHighlighted);
        }
      }
      forall o | o in root.belowOpts && OptUnder(cs, i + 1, o)
        ensures !o.isHighlighted
      {
        if !cs[i].HoldsOption(o) {
          assert o.isHighlighted == old@before(o.isHighlighted);
        }
      }
      if f {
        found := true;
      }
      i := i + 1;
    }
    UnderIsBelow(root, |cs|);
  }

  /**
   * `lit` and `litOpts` are exactly the highlighted records and options of
   * the subtree of `root`; the collapse pass reads the flags and never
   * changes them, so they name the flags it sees throughout.
   */
  ghost predicate Marked(root: NodeInfo, lit: set<NodeInfo>, litOpts: set<OptionInfo>)
    reads root`isHighlighted, root.below`isHighlighted, root.OwnOptions()`isHighlighted, root.belowOpts`isHighlighted
  {
    (root.isHighlighted <==> root in lit) &&
    (forall n :: n in root.below ==> (n.isHighlighted <==> n in lit)) &&
    (forall o :: o in root.OwnOptions() ==> (o.isHighlighted <==> o in litOpts)) &&
    (forall o :: o in root.belowOpts ==> (o.isHighlighted <==> o in litOpts))
  }

  /** Whether a record or an option in the subtree of `n` is highlighted. */
  ghost predicate Relevant(n: NodeInfo, lit: set<NodeInfo>, litOpts: set<OptionInfo>) {
    n in lit || !(n.below !! lit) || !(n.OwnOptions() !! litOpts) || !(n.belowOpts !! litOpts)
  }

  /** `rel` holds exactly the relevant records of the subtree of `root`. */
  ghost predicate Classified(root: NodeInfo, lit: set<NodeInfo>, litOpts: set<OptionInfo>, rel: set<NodeInfo>) {
    (root in rel <==> Relevant(root, lit, litOpts)) &&
    (forall n {:trigger Relevant(n, lit, litOpts)} :: n in root.below ==> (n in rel <==> Relevant(n, lit, litOpts)))
  }

  /**
   * `collapseIrrelevantNodes`: every record in the subtree of `root` ends
   * up expanded exactly when it is relevant, that is when it, one of its
   * options, or something below it is highlighted; the result is `root`'s
   * new flag.
   */
  method CollapseIrrelevantNodes(root: NodeInfo, ghost lit: set<NodeInfo>, ghost litOpts: set<OptionInfo>, ghost rel: set<NodeInfo>)
    returns (expanded: bool)
    requires root.Valid() && Marked(root, lit, litOpts) && Classified(root, lit, litOpts, rel)
    modifies root`isExpanded, root.below`isExpanded
    ensures forall n :: root.Holds(n) ==> n.isExpanded == (n in rel)
    ensures expanded == root.isExpanded == (root in rel)
    decreases root.height, 1
  {
    var collapse := CollapseChildren(root, lit, litOpts, rel);
    var highlighted := root.isHighlighted;
    if !highlighted && root.options.Some? {
      highlighted := AnyHighlighted(root.options.value);
    }
    RootRelevant(root, lit, litOpts);
    root.isExpanded := highlighted || !collapse;
    expanded := root.isExpanded;
  }

  /** A record is relevant when it or one of its own options is highlighted, or something below it is. */
  lemma RootRelevant(root: NodeInfo, lit: set<NodeInfo>, litOpts: set<OptionInfo>)
    requires Marked(root, lit, litOpts)
    ensures Relevant(root, lit, litOpts) <==>
      root.isHighlighted || !(root.below !! lit) || !(root.belowOpts !! litOpts) ||
      (root.options.Some? && exists j :: 0 <= j < |root.options.value| && root.options.value[j].isHighlighted)
  {
    if root.options.Some? && !(root.OwnOptions() !! litOpts) {
      var o :| o in root.OwnOptions() && o in litOpts;
      var j :| 0 <= j < |root.options.value| && root.options.value[j] == o;
    }
  }

  /**
   * The loop of `collapseIrrelevantNodes` over the children: whether nothing
   * below `root` is highlighted, with every record below given its flag.
   */
  method CollapseChildren(root: NodeInfo, ghost lit: set<NodeInfo>, ghost litOpts: set<OptionInfo>, ghost rel: set<NodeInfo>)
    returns (collapse: bool)
    requires root.Valid() && Marked(root, lit, litOpts) && Classified(root, lit, litOpts, rel)
    modifies root.below`isExpanded
    ensures collapse == (root.below !! lit && root.belowOpts !! litOpts)
    ensures forall n :: n in root.below ==> n.isExpanded == (n in rel)
    decreases root.height, 0
  {
    var cs := root.childrenInfo;
    collapse := true;
    var i: nat := 0;
    while i < |cs|
      invariant i <= |cs|
      invariant collapse == NoneIn(cs, i, rel)
      invariant forall n :: n in root.below && NodeUnder(cs, i, n) ==> n.isExpanded == (n in rel)
    {
      assert cs[i] in cs;
      label before:
      var r := CollapseIrrelevantNodes(cs[i], lit, litOpts, rel);
      assert NoneIn(cs, i + 1, rel) == (NoneIn(cs, i, rel) && !r);
      forall n | n in root.below && NodeUnder(cs, i + 1, n)
        ensures n.isExpanded == (n in rel)
      {
        if !cs[i].Holds(n) {
          assert n.isExpanded == old@before(n.isExpanded);
        }
      }
      if r {
        collapse := false;
      }
      i := i + 1;
    }
    QuietChildren(root, lit, litOpts, rel);
  }

  /** Whether none of the first `i` children is in `rel`. */
  ghost predicate NoneIn(cs: seq<NodeInfo>, i: nat, rel: set<NodeInfo>)
    requires i <= |cs|
  {
    i == 0 || (NoneIn(cs, i - 1, rel) && cs[i - 1] !in rel)
  }

  /** Nothing below `root` is highlighted exactly when none of its children is relevant. */
  lemma QuietChildren(root: NodeInfo, lit: set<NodeInfo>, litOpts: set<OptionInfo>, rel: set<NodeInfo>)
    requires root.Valid() && Classified(root, lit, litOpts, rel)
    ensures NoneIn(root.childrenInfo, |root.childrenInfo|, rel) == (root.below !! lit && root.belowOpts !! litOpts)
  {
    var cs := root.childrenInfo;
    forall j | 0 <= j < |cs|
      ensures cs[j] in rel <==> Relevant(cs[j], lit, litOpts)
    {
      assert cs[j] in cs;
    }
    QuietFirst(cs, |cs|, lit, litOpts, rel);
    UnderIsBelow(root, |cs|);
  }

  /** None of the first `i` children is relevant exactly when nothing under them is highlighted. */
  lemma {:induction false} QuietFirst(cs: seq<NodeInfo>, i: nat, lit: set<NodeInfo>, litOpts: set<OptionInfo>, rel: set<NodeInfo>)
    requires i <= |cs| && forall j :: 0 <= j < i ==> (cs[j] in rel <==> Relevant(cs[j], lit, litOpts))
    ensures NoneIn(cs, i, rel) <==>
      (forall n :: n in lit ==> !NodeUnder(cs, i, n)) && (forall o :: o in litOpts ==> !OptUnder(cs, i, o))
  {
    if i > 0 {
      QuietFirst(cs, i - 1, lit, litOpts, rel);
    }
  }

  /** The options loop of `collapseIrrelevantNodes`: whether any option is highlighted. */
  method AnyHighlighted(os: seq<OptionInfo>) returns (highlighted: bool)
    ensures highlighted <==> exists j :: 0 <= j < |os| && os[j].isHighlighted
  {
    highlighted := false;
    var i := 0;
    while i < |os|
      invariant 0 <= i <= |os|
      invariant forall j :: 0 <= j < i ==> !os[j].isHighlighted
    {
      if os[i].isHighlighted {
        highlighted := true;
        return;
      }
      i := i + 1;
    }
  }

  /** `expandAll`: every record in the subtree of `root` ends up expanded. */
  method ExpandAll(root: NodeInfo)
    requires root.Valid()
    modifies root`isExpanded, root.below`isExpanded
    ensures forall n :: root.Holds(n) ==> n.isExpanded
    decreases root.height, 1
  {
    ExpandChildren(root);
    root.isExpanded := true;
  }

  /** The loop of `expandAll` over the children: every record below `root` ends up expanded. */
  method ExpandChildren(root: NodeInfo)
    requires root.Valid()
    modifies root.below`isExpanded
    ensures forall n :: n in root.below ==> n.isExpanded
    decreases root.height, 0
  {
    var cs := root.childrenInfo;
    var i: nat := 0;
    while i < |cs|
      invariant i <= |cs|
      invariant forall n {:trigger NodeUnder(cs, i, n)} :: n in root.below && NodeUnder(cs, i, n) ==> n.isExpanded
    {
      assert cs[i] in cs;
      label before:
      ExpandAll(cs[i]);
      forall n {:trigger NodeUnder(cs, i + 1, n)} | n in root.below && NodeUnder(cs, i + 1, n)
        ensures n.isExpanded
      {
        if !cs[i].Holds(n) {
          assert NodeUnder(cs, i, n);
          assert n.isExpanded == old@before(n.isExpanded);
        }
      }
      i := i + 1;
    }
  }
}
