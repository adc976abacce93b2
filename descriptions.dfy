/**
 * The labels the debugger shows: an access point's description, a knot
 * option's `left : right` string, and an element's tag with its id or
 * classes.
 */
module Descriptions {
  import opened Text
  import opened KnotCore

  /** A page element, as far as its label goes. */
  class Element {
    const tagName: string
    const id: string
    const className: string

    constructor (tagName: string, id: string, className: string)
      ensures this.tagName == tagName && this.id == id && this.className == className
    {
      this.tagName := tagName;
      this.id := id;
      this.className := className;
    }
  }

  /**
   * `getAPDescription`.  A simple access point shows its description and,
   * when the joined pipe names are not empty, ` > ` and those names.  A
   * composite shows `(` and its children's descriptions joined by ` & `, and
   * nothing more: the line that would close the parenthesis and name the
   * n-to-one pipe follows a line break after the `join` call, so the
   * `return` statement ends before it and it is never evaluated.
   */
  function APDescription(ap: AccessPoint): string
    requires ap.WellFormed()
    decreases ap.height, 1
  {
    if ap.isComposite then "(" + Join(ChildDescriptions(ap.childrenAPs, ap.height), " & ")
    else
      var pipes := Join(ap.pipes, " > ");
      if pipes != "" then ap.description + " > " + pipes else ap.description
  }

  /** The descriptions of the children of a composite of height `h`, in order. */
  function ChildDescriptions(aps: seq<AccessPoint>, ghost h: nat): (ds: seq<string>)
    requires forall a :: a in aps ==> a.height < h && a.WellFormed()
    ensures |ds| == |aps|
    ensures forall i :: 0 <= i < |aps| ==> ds[i] == APDescription(aps[i])
    decreases h, 0, |aps|
  {
    if aps == [] then [] else [APDescription(aps[0])] + ChildDescriptions(aps[1..], h)
  }

  /** `getKnotOptionsStr`: the left side's description, ` : `, then the right side's. */
  function KnotOptionsStr(k: KnotInfo): (s: string)
    requires k.leftAP.WellFormed() && k.rightAP.WellFormed()
    ensures var l := APDescription(k.leftAP);
      |s| == |l| + 3 + |APDescription(k.rightAP)| && s[..|l|] == l && s[|l|..|l| + 3] == " : " &&
      s[|l| + 3..] == APDescription(k.rightAP)
  {
    APDescription(k.leftAP) + " : " + APDescription(k.rightAP)
  }

  /** Each piece preceded by the separator, all run together. */
  function PrefixEach(parts: seq<string>, sep: string): string {
    if parts == [] then "" else sep + parts[0] + PrefixEach(parts[1..], sep)
  }

  /** Joining with a separator and putting one more in front is prefixing every piece with it. */
  lemma {:induction false} JoinAsPrefixes(parts: seq<string>, sep: string)
    requires parts != []
    ensures sep + Join(parts, sep) == PrefixEach(parts, sep)
    decreases |parts|
  {
    if |parts| > 1 {
      JoinAsPrefixes(parts[1..], sep);
      assert sep + Join(parts, sep) == sep + parts[0] + (sep + Join(parts[1..], sep));
    } else {
      assert PrefixEach(parts[1..], sep) == "";
    }
  }

  /** With a non-empty separator, a join is empty only for no pieces or one empty piece. */
  lemma JoinEmptyIff(parts: seq<string>, sep: string)
    requires sep != ""
    ensures Join(parts, sep) == "" <==> parts == [] || parts == [""]
  {
    if |parts| > 1 {
      assert |Join(parts, sep)| >= |sep|;
    }
  }

  /**
   * A simple access point's description is its own description followed by
   * ` > ` and each pipe name, unless it has no pipes or one nameless pipe,
   * when it is the description alone.
   */
  lemma SimpleDescription(ap: AccessPoint)
    requires ap.WellFormed() && !ap.isComposite
    ensures ap.pipes == [] || ap.pipes == [""] ==> APDescription(ap) == ap.description
    ensures ap.pipes != [] && ap.pipes != [""] ==> APDescription(ap) == ap.description + PrefixEach(ap.pipes, " > ")
  {
    JoinEmptyIff(ap.pipes, " > ");
    if ap.pipes != [] && ap.pipes != [""] {
      JoinAsPrefixes(ap.pipes, " > ");
      assert APDescription(ap) == ap.description + (" > " + Join(ap.pipes, " > "));
    }
  }

  /**
   * A composite's description opens a parenthesis it never closes and does
   * not depend on its n-to-one pipe: two composites over the same children
   * read the same whatever pipes they aggregate with.
   */
  lemma CompositeIgnoresNToOnePipe(a: AccessPoint, b: AccessPoint)
    requires a.WellFormed() && b.WellFormed() && a.isComposite && b.isComposite
    requires a.childrenAPs == b.childrenAPs
    ensures APDescription(a) == APDescription(b)
    ensures APDescription(a)[0] == '('
  {
    var da := ChildDescriptions(a.childrenAPs, a.height);
    var db := ChildDescriptions(b.childrenAPs, b.height);
    assert da == db;
  }

  /** The `filter(t => t.trim() != "")` of a class attribute's tokens: the non-blank ones, in order. */
  function NonBlank(tokens: seq<string>): (kept: seq<string>)
    ensures |kept| <= |tokens|
    ensures forall t :: t in kept ==> Trim(t) != "" && t in tokens
  {
    if tokens == [] then []
    else if Trim(tokens[0]) != "" then [tokens[0]] + NonBlank(tokens[1..])
    else NonBlank(tokens[1..])
  }

  /**
   * The filtered and mapped token list of `getHTMLElementDescription`: every
   * token that is not blank, in order, each preceded by a dot.
   */
  function DottedClasses(tokens: seq<string>): (ds: seq<string>)
    ensures ds == Dotted(NonBlank(tokens))
    ensures forall i :: 0 <= i < |ds| ==> |ds[i]| >= 1 && ds[i][0] == '.'
  {
    if tokens == [] then []
    else
      var rest := DottedClasses(tokens[1..]);
      if Trim(tokens[0]) != "" then ["." + tokens[0]] + rest else rest
  }

  /** The tokens with a dot in front of each. */
  function Dotted(tokens: seq<string>): (ds: seq<string>)
    ensures |ds| == |tokens|
    ensures forall i :: 0 <= i < |tokens| ==> ds[i] == "." + tokens[i]
  {
    if tokens == [] then [] else ["." + tokens[0]] + Dotted(tokens[1..])
  }

  /** `getHTMLElementDescription`: the tag with `[#id]`, else with the dotted classes in brackets, else alone. */
  function HTMLElementDescription(e: Element): string {
    if e.id != "" then e.tagName + "[#" + e.id + "]"
    else if e.className != "" then e.tagName + "[" + Join(DottedClasses(Split(e.className, ' ')), " ") + "]"
    else e.tagName
  }

  /** Blank tokens are dropped and every other one is kept, in order. */
  lemma {:induction false} DottedClassesKeepNonBlank(tokens: seq<string>)
    requires forall i :: 0 <= i < |tokens| ==> Trim(tokens[i]) != ""
    ensures DottedClasses(tokens) == Dotted(tokens)
  {
    if tokens != [] {
      DottedClassesKeepNonBlank(tokens[1..]);
    }
  }

  /**
   * An element with an id is labelled by it whatever its classes.  One with
   * no id and no class attribute is labelled by its tag alone.  Otherwise the
   * class attribute is any run of space-free tokens joined by single spaces
   * (empty tokens stand for repeated, leading or trailing spaces), and the
   * label lists every non-blank token with a dot in front, in order.
   */
  lemma ElementDescriptionForms(e: Element, tokens: seq<string>)
    requires e.className == Join(tokens, " ")
    requires forall i :: 0 <= i < |tokens| ==> ' ' !in tokens[i]
    ensures e.id != "" ==> HTMLElementDescription(e) == e.tagName + "[#" + e.id + "]"
    ensures e.id == "" && e.className == "" ==> HTMLElementDescription(e) == e.tagName
    ensures e.id == "" && e.className != "" ==>
      HTMLElementDescription(e) == e.tagName + "[" + Join(Dotted(NonBlank(tokens)), " ") + "]"
  {
    if tokens != [] {
      SplitJoin(tokens, ' ');
    }
  }

  /**
   * `getKnotOptionsStr` for two simple sides: each side's description,
   * followed by ` > ` and each of its pipe names when it has any, around
   * ` : `.
   */
  lemma {:induction false} SimpleKnotOptions(k: KnotInfo)
    requires k.leftAP.WellFormed() && k.rightAP.WellFormed()
    requires !k.leftAP.isComposite && !k.rightAP.isComposite
    ensures KnotOptionsStr(k) == SimpleLabel(k.leftAP) + " : " + SimpleLabel(k.rightAP)
  {
    SimpleDescription(k.leftAP);
    SimpleDescription(k.rightAP);
  }

  /** A simple access point's label, spelt out piece by piece. */
  function SimpleLabel(ap: AccessPoint): string {
    if ap.pipes == [] || ap.pipes == [""] then ap.description else ap.description + PrefixEach(ap.pipes, " > ")
  }

  /** A class attribute of nothing but spaces still gets brackets, with nothing in them. */
  lemma BlankClassesGiveEmptyBrackets(e: Element)
    requires e.id == "" && e.className != "" && forall i :: 0 <= i < |e.className| ==> e.className[i] == ' '
    ensures HTMLElementDescription(e) == e.tagName + "[]"
  {
    var tokens := Split(e.className, ' ');
    SplitOfSpacesIsEmpty(e.className);
    BlankTokensVanish(tokens);
    assert Join(DottedClasses(tokens), " ") == "";
    EmptyBrackets(e.tagName);
  }

  /** A tag followed by brackets around nothing. */
  lemma EmptyBrackets(tag: string)
    ensures tag + "[" + "" + "]" == tag + "[]"
  {
    assert "[" + "]" == "[]";
  }

  /** Splitting a run of separators gives only empty pieces. */
  lemma {:induction false} SplitOfSpacesIsEmpty(s: string)
    requires forall j :: 0 <= j < |s| ==> s[j] == ' '
    ensures forall i :: 0 <= i < |Split(s, ' ')| ==> Split(s, ' ')[i] == ""
  {
    if s != [] {
      SplitOfSpacesIsEmpty(s[1..]);
      assert s[0] == ' ';
    }
  }

  /** Only blank tokens leave nothing to show. */
  lemma {:induction false} BlankTokensVanish(tokens: seq<string>)
    requires forall i :: 0 <= i < |tokens| ==> tokens[i] == ""
    ensures DottedClasses(tokens) == []
  {
    if tokens != [] {
      assert Trim(tokens[0]) == "";
      BlankTokensVanish(tokens[1..]);
    }
  }
}
