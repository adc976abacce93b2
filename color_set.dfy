/**
 * The debugger's own access-point provider for names of the form
 * `colorSet_<name>,<from>,<to>`: it claims such names on page elements and,
 * when a value is set, writes it to the element's property `<name>`
 * (the colour animation from `<from>` to `<to>` that accompanies the write
 * is a page effect and not part of this model).
 */
module ColorSet {
  import opened Text
  import opened Pipes

  /** The prefix that marks the provider's access-point names. */
  const Prefix: string := "colorSet_"

  /** The three fields of a `colorSet_` name. */
  datatype ColorSpec = ColorSpec(apName: string, colorFrom: string, colorTo: string)

  /** `doesSupport`: the target is a page element and the name starts with the prefix. */
  predicate Supports(isElement: bool, apName: string) {
    isElement && StartsWith(apName, Prefix)
  }

  /**
   * The parse `setValue` does: drop as many characters as the prefix has,
   * split the rest at commas and trim the first three fields.  With fewer
   * than three fields the source reads `trim` of `undefined` and throws,
   * which is `None` here.
   */
  function Parse(apDescription: string): Option<ColorSpec> {
    var fields := Split(DropPrefix(apDescription, |Prefix|), ',');
    if |fields| < 3 then None
    else Some(ColorSpec(Trim(fields[0]), Trim(fields[1]), Trim(fields[2])))
  }

  /** `setValue` on a target whose properties are `props`: the new properties, or `None` when it throws. */
  function SetValue(props: map<string, Value>, apDescription: string, value: Value): (r: Option<map<string, Value>>)
    ensures r.Some? <==> Parse(apDescription).Some?
    ensures r.Some? ==> var name := Parse(apDescription).value.apName;
      name in r.value && r.value[name] == value &&
      forall k :: k in props && k != name ==> k in r.value && r.value[k] == props[k]
  {
    match Parse(apDescription)
    case None => None
    case Some(spec) => Some(props[spec.apName := value])
  }

  /** How many times `c` occurs in `s`. */
  function Count(s: string, c: char): nat {
    if s == [] then 0 else (if s[0] == c then 1 else 0) + Count(s[1..], c)
  }

  /** A split gives one more piece than there are separators. */
  lemma {:induction false} SplitCount(s: string, c: char)
    ensures |Split(s, c)| == Count(s, c) + 1
  {
    if s != [] {
      SplitCount(s[1..], c);
    }
  }

  /** Setting a colour name throws exactly when the part after the prefix holds fewer than two commas. */
  lemma ParseFailsIff(apDescription: string)
    ensures Parse(apDescription).None? <==> Count(DropPrefix(apDescription, |Prefix|), ',') < 2
  {
    SplitCount(DropPrefix(apDescription, |Prefix|), ',');
  }

  /**
   * A name built from the prefix and comma-free fields parses back to those
   * fields, trimmed; fields after the third are ignored.
   */
  lemma ParseJoined(fields: seq<string>)
    requires |fields| >= 3 && forall i :: 0 <= i < |fields| ==> ',' !in fields[i]
    ensures Supports(true, Prefix + Join(fields, ","))
    ensures Parse(Prefix + Join(fields, ",")) == Some(ColorSpec(Trim(fields[0]), Trim(fields[1]), Trim(fields[2])))
  {
    var s := Prefix + Join(fields, ",");
    assert DropPrefix(s, |Prefix|) == Join(fields, ",");
    assert s[..|Prefix|] == Prefix;
    SplitJoin(fields, ',');
  }

  /** With fields that are already trimmed, the round trip gives back exactly the three fields. */
  lemma ParseRoundTrip(name: string, from: string, to: string)
    requires ',' !in name && ',' !in from && ',' !in to
    requires Trim(name) == name && Trim(from) == from && Trim(to) == to
    ensures Parse(Prefix + name + "," + from + "," + to) == Some(ColorSpec(name, from, to))
  {
    var fields := [name, from, to];
    assert Join(fields, ",") == name + "," + from + "," + to by {
      assert Join(fields[1..], ",") == from + "," + to by {
        assert fields[1..][1..] == [to];
      }
    }
    assert Prefix + name + "," + from + "," + to == Prefix + Join(fields, ",");
    ParseJoined(fields);
  }
}
