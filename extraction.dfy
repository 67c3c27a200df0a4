/** The attribute extractor of the qwik transform: for each name of the
    allow-list, in allow-list order, look the attribute up on the root `<svg>`
    element and, when it is there, remove it from the element and record its
    value in `defaults`. `defaults` is a fresh local of each call. */
module Extraction {
  import opened Wrappers
  import opened Json

  /** `defaultAttributeList`: the attributes turned into component defaults. */
  const DefaultAttributeList: seq<string> := ["stroke-width"]

  /** One attribute of the root element as written in its markup. */
  datatype Attribute = Attribute(name: string, value: string)

  /** The value of the first attribute called `name`; None when there is none
      (`getAttribute` returning null). */
  function Lookup(attrs: seq<Attribute>, name: string): (r: Option<string>)
    ensures r.None? <==> forall i :: 0 <= i < |attrs| ==> attrs[i].name != name
    ensures r.Some? ==> Attribute(name, r.value) in attrs
  {
    if |attrs| == 0 then None
    else if attrs[0].name == name then Some(attrs[0].value)
    else Lookup(attrs[1..], name)
  }

  /** `getAttribute` reads the first attribute of that name. */
  lemma {:induction false} LookupFirst(attrs: seq<Attribute>, name: string, i: nat)
    requires i < |attrs| && attrs[i].name == name
    requires forall j :: 0 <= j < i ==> attrs[j].name != name
    ensures Lookup(attrs, name) == Some(attrs[i].value)
  {
    if i > 0 {
      assert attrs[0].name != name;
      LookupFirst(attrs[1..], name, i - 1);
    }
  }

  /** The attributes whose name is not among `names`, in their original order:
      what is left after `removeAttribute` of each of `names`. */
  function Drop(attrs: seq<Attribute>, names: seq<string>): (r: seq<Attribute>)
    ensures forall a :: a in r <==> a in attrs && a.name !in names
    ensures |r| <= |attrs|
  {
    if |attrs| == 0 then []
    else (if attrs[0].name in names then [] else [attrs[0]]) + Drop(attrs[1..], names)
  }

  /** The root element of a parsed icon: its tag name, its attributes, and its
      children in serialised form (which the transform never inspects). */
  class SvgElement {
    const tagName: string
    var attributes: seq<Attribute>
    const innerMarkup: string

    constructor (tagName: string, attributes: seq<Attribute>, innerMarkup: string)
      ensures this.tagName == tagName && this.attributes == attributes && this.innerMarkup == innerMarkup
    {
      this.tagName := tagName;
      this.attributes := attributes;
      this.innerMarkup := innerMarkup;
    }

    /** `getAttribute(name)`. */
    method GetAttribute(name: string) returns (value: Option<string>)
      ensures value == Lookup(attributes, name)
    {
      value := Lookup(attributes, name);
    }

    /** `removeAttribute(name)`: every attribute of that name goes, the rest stay in order. */
    method RemoveAttribute(name: string)
      modifies this
      ensures attributes == Drop(old(attributes), [name])
    {
      attributes := Drop(attributes, [name]);
    }

    /** `toString()`: the element's markup. */
    function ToString(): string
      reads this
    {
      Serialize(tagName, attributes, innerMarkup)
    }
  }

  /** The attributes as ` name="value"` pairs, in order. */
  function RenderAttributes(attrs: seq<Attribute>): string
  {
    if |attrs| == 0 then "" else " " + attrs[0].name + "=\"" + attrs[0].value + "\"" + RenderAttributes(attrs[1..])
  }

  /** The markup of an element: opening tag with its attributes, children, closing tag. */
  function Serialize(tagName: string, attrs: seq<Attribute>, innerMarkup: string): string
  {
    "<" + tagName + RenderAttributes(attrs) + ">" + innerMarkup + "</" + tagName + ">"
  }

  /** The `map` stage: each allow-listed name with what `getAttribute` gives for it. */
  function LookUpAll(attrs: seq<Attribute>, names: seq<string>): seq<(string, Option<string>)>
  {
    seq(|names|, i requires 0 <= i < |names| => (names[i], Lookup(attrs, names[i])))
  }

  /** The `filter` stage: the pairs whose value is not null, in order. */
  function PresentOnly(looked: seq<(string, Option<string>)>): (r: seq<Entry>)
    ensures forall e :: e in r <==> (e.key, Some(e.value)) in looked
  {
    if |looked| == 0 then []
    else
      (match looked[0].1 case None => [] case Some(v) => [Entry(looked[0].0, v)])
      + PresentOnly(looked[1..])
  }

  /** The allow-listed attributes present on the element, in allow-list order. */
  function Present(attrs: seq<Attribute>, names: seq<string>): seq<Entry>
  {
    PresentOnly(LookUpAll(attrs, names))
  }

  /** The keys of an insertion-ordered map, in insertion order. */
  function Keys(d: seq<Entry>): seq<string>
  {
    seq(|d|, i requires 0 <= i < |d| => d[i].key)
  }

  /** Every key occurs once, as in a JavaScript object. */
  predicate DistinctKeys(d: seq<Entry>)
  {
    forall i, j :: 0 <= i < j < |d| ==> d[i].key != d[j].key
  }

  /** `d[k] = v` on a plain object: an existing key keeps its place and takes
      the new value, a new key goes last. */
  function Put(d: seq<Entry>, k: string, v: string): (r: seq<Entry>)
    ensures DistinctKeys(d) ==> DistinctKeys(r)
    ensures Keys(r) == if k in Keys(d) then Keys(d) else Keys(d) + [k]
    ensures forall i :: 0 <= i < |d| ==> r[i] == if d[i].key == k then Entry(k, v) else d[i]
    ensures forall e :: e in r ==> e in d || e == Entry(k, v)
  {
    if k in Keys(d) then
      var r := seq(|d|, i requires 0 <= i < |d| => if d[i].key == k then Entry(k, v) else d[i]);
      assert Keys(r) == Keys(d);
      r
    else
      var r := d + [Entry(k, v)];
      assert Keys(r) == Keys(d) + [k];
      assert forall i :: 0 <= i < |d| ==> Keys(d)[i] == d[i].key;
      r
  }

  /** The object after `d[e.key] = e.value` for each entry `e` of `es`, in order. */
  function PutAll(d: seq<Entry>, es: seq<Entry>): seq<Entry>
  {
    if |es| == 0 then d else Put(PutAll(d, es[..|es| - 1]), es[|es| - 1].key, es[|es| - 1].value)
  }

  /** The `defaults` object the extraction builds. */
  function DefaultsOf(attrs: seq<Attribute>, allowList: seq<string>): seq<Entry>
  {
    PutAll([], Present(attrs, allowList))
  }

  /** The attribute extraction of `transform.qwik`: the `map` with
      `getAttribute`, the `filter` of null values, and the `forEach` that
      removes each present attribute and records it in `defaults`. */
  method ExtractDefaults(el: SvgElement, allowList: seq<string>) returns (defaults: seq<Entry>)
    modifies el
    ensures defaults == DefaultsOf(old(el.attributes), allowList)
    ensures el.attributes == Drop(old(el.attributes), allowList)
  {
    ghost var original := el.attributes;
    var looked: seq<(string, Option<string>)> := [];
    for i := 0 to |allowList|
      invariant el.attributes == original
      invariant looked == LookUpAll(original, allowList[..i])
    {
      var value := el.GetAttribute(allowList[i]);
      LookUpStep(original, allowList, i);
      looked := looked + [(allowList[i], value)];
    }
    assert allowList[..|allowList|] == allowList;
    var present := PresentOnly(looked);
    defaults := [];
    DropNothing(original, []);
    assert Keys(present[..0]) == [];
    for j := 0 to |present|
      invariant el.attributes == Drop(original, Keys(present[..j]))
      invariant defaults == PutAll([], present[..j])
    {
      el.RemoveAttribute(present[j].key);
      RemoveStep(original, present, j);
      PutStep(present, j);
      defaults := Put(defaults, present[j].key, present[j].value);
    }
    assert present[..|present|] == present;
    PresentKeys(original, allowList);
    DropSameNames(original, Keys(present), allowList);
  }

  lemma LookUpStep(attrs: seq<Attribute>, names: seq<string>, i: nat)
    requires i < |names|
    ensures LookUpAll(attrs, names[..i + 1]) == LookUpAll(attrs, names[..i]) + [(names[i], Lookup(attrs, names[i]))]
  {
  }

  lemma RemoveStep(attrs: seq<Attribute>, es: seq<Entry>, j: nat)
    requires j < |es|
    ensures Drop(Drop(attrs, Keys(es[..j])), [es[j].key]) == Drop(attrs, Keys(es[..j + 1]))
  {
    DropTwice(attrs, Keys(es[..j]), es[j].key);
    KeysSnoc(es, j);
  }

  lemma KeysSnoc(es: seq<Entry>, j: nat)
    requires j < |es|
    ensures Keys(es[..j + 1]) == Keys(es[..j]) + [es[j].key]
  {
    assert es[..j + 1] == es[..j] + [es[j]];
  }

  lemma PutStep(es: seq<Entry>, j: nat)
    requires j < |es|
    ensures PutAll([], es[..j + 1]) == Put(PutAll([], es[..j]), es[j].key, es[j].value)
  {
    assert es[..j + 1][..j] == es[..j];
  }

  /** Removing one more name after a batch of names is removing the longer batch. */
  lemma {:induction false} DropTwice(attrs: seq<Attribute>, names: seq<string>, name: string)
    ensures Drop(Drop(attrs, names), [name]) == Drop(attrs, names + [name])
  {
    if |attrs| > 0 {
      DropTwice(attrs[1..], names, name);
      var head := if attrs[0].name in names then [] else [attrs[0]];
      assert Drop(attrs, names) == head + Drop(attrs[1..], names);
      DropConcat(head, Drop(attrs[1..], names), [name]);
    }
  }

  /** Removal works attribute by attribute: the kept attributes keep their relative order. */
  lemma {:induction false} DropConcat(a: seq<Attribute>, b: seq<Attribute>, names: seq<string>)
    ensures Drop(a + b, names) == Drop(a, names) + Drop(b, names)
  {
    if |a| > 0 {
      assert (a + b)[1..] == a[1..] + b;
      DropConcat(a[1..], b, names);
    } else {
      assert a + b == b;
    }
  }

  /** Only the names of the attributes actually present matter to removal. */
  lemma {:induction false} DropSameNames(attrs: seq<Attribute>, names: seq<string>, names': seq<string>)
    requires forall a :: a in attrs ==> (a.name in names <==> a.name in names')
    ensures Drop(attrs, names) == Drop(attrs, names')
  {
    if |attrs| > 0 {
      assert attrs[0] in attrs;
      DropSameNames(attrs[1..], names, names');
    }
  }

  /** An entry is present exactly when its key is allow-listed and the element
      carries that attribute with that value. */
  lemma PresentSpec(attrs: seq<Attribute>, allowList: seq<string>)
    ensures forall e: Entry :: e in Present(attrs, allowList) <==> e.key in allowList && Lookup(attrs, e.key) == Some(e.value)
  {
    var looked := LookUpAll(attrs, allowList);
    forall e: Entry ensures (e.key, Some(e.value)) in looked <==> e.key in allowList && Lookup(attrs, e.key) == Some(e.value) {
      if e.key in allowList && Lookup(attrs, e.key) == Some(e.value) {
        var i :| 0 <= i < |allowList| && allowList[i] == e.key;
        assert looked[i] == (e.key, Some(e.value));
      }
    }
  }

  /** The attributes of the element whose names are allow-listed are exactly
      those whose names are keys of the present entries. */
  lemma PresentKeys(attrs: seq<Attribute>, allowList: seq<string>)
    ensures forall a :: a in attrs ==> (a.name in Keys(Present(attrs, allowList)) <==> a.name in allowList)
  {
    var p := Present(attrs, allowList);
    PresentSpec(attrs, allowList);
    forall a | a in attrs ensures a.name in Keys(p) <==> a.name in allowList {
      if a.name in allowList {
        var v := Lookup(attrs, a.name).value;
        var e := Entry(a.name, v);
        assert e in p;
        var i :| 0 <= i < |p| && p[i] == e;
        assert Keys(p)[i] == a.name;
      }
      if a.name in Keys(p) {
        var i :| 0 <= i < |p| && Keys(p)[i] == a.name;
        assert p[i] in p;
      }
    }
  }

  /** The `filter` stage distributes over concatenation. */
  lemma {:induction false} PresentOnlyConcat(a: seq<(string, Option<string>)>, b: seq<(string, Option<string>)>)
    ensures PresentOnly(a + b) == PresentOnly(a) + PresentOnly(b)
  {
    if |a| > 0 {
      assert (a + b)[0] == a[0];
      assert (a + b)[1..] == a[1..] + b;
      PresentOnlyConcat(a[1..], b);
    } else {
      assert a + b == b;
    }
  }

  /** Allow-list order: the entries for a longer allow-list are those for its
      first part followed by those for the rest. Document order plays no part. */
  lemma PresentConcat(attrs: seq<Attribute>, a: seq<string>, b: seq<string>)
    ensures Present(attrs, a + b) == Present(attrs, a) + Present(attrs, b)
  {
    LookUpAllConcat(attrs, a, b);
    PresentOnlyConcat(LookUpAll(attrs, a), LookUpAll(attrs, b));
  }

  /** The `map` stage distributes over concatenation of allow-lists. */
  lemma LookUpAllConcat(attrs: seq<Attribute>, a: seq<string>, b: seq<string>)
    ensures LookUpAll(attrs, a + b) == LookUpAll(attrs, a) + LookUpAll(attrs, b)
  {
    var whole, left, right := LookUpAll(attrs, a + b), LookUpAll(attrs, a), LookUpAll(attrs, b);
    forall i | 0 <= i < |whole| ensures whole[i] == (left + right)[i] {
      if i < |a| {
        assert (a + b)[i] == a[i];
      } else {
        assert (a + b)[i] == b[i - |a|];
      }
    }
  }

  /** A single allow-listed name contributes its entry exactly when the element carries it. */
  lemma PresentSingle(attrs: seq<Attribute>, name: string)
    ensures Present(attrs, [name]) == match Lookup(attrs, name) case None => [] case Some(v) => [Entry(name, v)]
  {
    var looked := LookUpAll(attrs, [name]);
    assert looked == [(name, Lookup(attrs, name))];
    assert PresentOnly(looked[1..]) == [];
    match Lookup(attrs, name)
    case None =>
      assert PresentOnly(looked) == [] + [];
    case Some(v) =>
      assert PresentOnly(looked) == [Entry(name, v)] + [];
  }

  /** A run of `d[k] = v` assignments from an empty object has the keys of the assignments, each once. */
  lemma {:induction false} PutAllKeys(es: seq<Entry>)
    ensures DistinctKeys(PutAll([], es))
    ensures forall k :: k in Keys(PutAll([], es)) <==> k in Keys(es)
  {
    if |es| > 0 {
      var init := es[..|es| - 1];
      var last := es[|es| - 1];
      PutAllKeys(init);
      assert Keys(es) == Keys(init) + [last.key];
    }
  }

  /** A run of `d[k] = v` assignments from an empty object holds only assigned entries. */
  lemma {:induction false} PutAllEntries(es: seq<Entry>)
    ensures forall e :: e in PutAll([], es) ==> e in es
  {
    if |es| > 0 {
      var init := es[..|es| - 1];
      PutAllEntries(init);
      assert es == init + [es[|es| - 1]];
    }
  }

  /** Without its last entry a list with distinct keys still has distinct
      keys, none of them the last entry's key. */
  lemma DistinctInit(es: seq<Entry>)
    requires |es| > 0 && DistinctKeys(es)
    ensures DistinctKeys(es[..|es| - 1])
    ensures es[|es| - 1].key !in Keys(es[..|es| - 1])
  {
    var init := es[..|es| - 1];
    forall i, j | 0 <= i < j < |init| ensures init[i].key != init[j].key {
      assert init[i] == es[i] && init[j] == es[j];
    }
    forall i | 0 <= i < |init| ensures Keys(init)[i] != es[|es| - 1].key {
      assert init[i] == es[i];
    }
  }

  /** Assigning a new key appends its entry. */
  lemma PutNew(d: seq<Entry>, e: Entry)
    requires e.key !in Keys(d)
    ensures Put(d, e.key, e.value) == d + [e]
  {
  }

  /** The last assignment of a run comes after the others. */
  lemma PutAllSnoc(es: seq<Entry>)
    requires |es| > 0
    ensures PutAll([], es) == Put(PutAll([], es[..|es| - 1]), es[|es| - 1].key, es[|es| - 1].value)
  {
  }

  lemma SnocSplit(es: seq<Entry>)
    requires |es| > 0
    ensures es == es[..|es| - 1] + [es[|es| - 1]]
  {
  }

  /** Assignments with distinct keys from an empty object insert in order. */
  lemma {:induction false} PutAllDistinct(es: seq<Entry>)
    requires DistinctKeys(es)
    ensures PutAll([], es) == es
  {
    if |es| > 0 {
      DistinctInit(es);
      PutAllDistinct(es[..|es| - 1]);
      PutAllSnoc(es);
      PutNew(es[..|es| - 1], es[|es| - 1]);
      SnocSplit(es);
    }
  }

  /** The extracted `defaults`: exactly the allow-listed names the element
      carries, each with the value it had there, each once. */
  lemma DefaultsSpec(attrs: seq<Attribute>, allowList: seq<string>)
    ensures forall k :: k in Keys(DefaultsOf(attrs, allowList)) <==> k in allowList && Lookup(attrs, k).Some?
    ensures forall e :: e in DefaultsOf(attrs, allowList) ==> Lookup(attrs, e.key) == Some(e.value)
    ensures DistinctKeys(DefaultsOf(attrs, allowList))
  {
    var p := Present(attrs, allowList);
    PutAllKeys(p);
    PutAllEntries(p);
    PresentSpec(attrs, allowList);
    forall k ensures k in Keys(p) <==> k in allowList && Lookup(attrs, k).Some? {
      if k in Keys(p) {
        var i :| 0 <= i < |p| && Keys(p)[i] == k;
        assert p[i] in p;
      }
      if k in allowList && Lookup(attrs, k).Some? {
        var e := Entry(k, Lookup(attrs, k).value);
        assert e in p;
        var i :| 0 <= i < |p| && p[i] == e;
        assert Keys(p)[i] == k;
      }
    }
  }

  /** Looking up the attributes of a name list without repeats yields each name at most once. */
  lemma {:induction false} PresentDistinct(attrs: seq<Attribute>, names: seq<string>)
    requires forall i, j :: 0 <= i < j < |names| ==> names[i] != names[j]
    ensures DistinctKeys(Present(attrs, names))
  {
    if |names| > 0 {
      PresentDistinct(attrs, names[1..]);
      PresentConcat(attrs, [names[0]], names[1..]);
      PresentSingle(attrs, names[0]);
      assert names == [names[0]] + names[1..];
      var rest := Present(attrs, names[1..]);
      PresentSpec(attrs, names[1..]);
      forall i | 0 <= i < |rest| ensures rest[i].key != names[0] {
        assert rest[i] in rest;
      }
    }
  }

  /** With an allow-list without repeats (such as `defaultAttributeList`), the
      `defaults` keys follow allow-list order: `defaults` is the present
      entries exactly as the allow-list lists them. */
  lemma DefaultsInAllowListOrder(attrs: seq<Attribute>, allowList: seq<string>)
    requires forall i, j :: 0 <= i < j < |allowList| ==> allowList[i] != allowList[j]
    ensures DefaultsOf(attrs, allowList) == Present(attrs, allowList)
  {
    PresentDistinct(attrs, allowList);
    PutAllDistinct(Present(attrs, allowList));
  }

  /** After extraction no allow-listed attribute is left, and every other
      attribute is still there with its value. */
  lemma ExtractedElement(attrs: seq<Attribute>, allowList: seq<string>)
    ensures forall a :: a in Drop(attrs, allowList) ==> a.name !in allowList
    ensures forall a :: a in attrs && a.name !in allowList ==> a in Drop(attrs, allowList)
    ensures (forall a :: a in attrs ==> a.name !in allowList) ==> Drop(attrs, allowList) == attrs
  {
    if forall a :: a in attrs ==> a.name !in allowList {
      DropNothing(attrs, allowList);
    }
  }

  /** Removing names the element does not carry changes nothing. */
  lemma {:induction false} DropNothing(attrs: seq<Attribute>, names: seq<string>)
    requires forall a :: a in attrs ==> a.name !in names
    ensures Drop(attrs, names) == attrs
  {
    if |attrs| > 0 {
      assert attrs[0] in attrs;
      DropNothing(attrs[1..], names);
      assert attrs == [attrs[0]] + attrs[1..];
    }
  }

  /** Idempotence: extracting again from an extracted element finds nothing
      and changes nothing. */
  lemma ExtractTwice(attrs: seq<Attribute>, allowList: seq<string>)
    ensures DefaultsOf(Drop(attrs, allowList), allowList) == []
    ensures Drop(Drop(attrs, allowList), allowList) == Drop(attrs, allowList)
  {
    var once := Drop(attrs, allowList);
    DropNothing(once, allowList);
    var p := Present(once, allowList);
    PresentSpec(once, allowList);
  }

  /** With the generator's allow-list, the defaults are `stroke-width` with
      its first value when the element has it, and nothing otherwise. */
  lemma DefaultsOfStrokeWidth(attrs: seq<Attribute>)
    ensures DefaultsOf(attrs, DefaultAttributeList)
            == match Lookup(attrs, "stroke-width") case None => [] case Some(v) => [Entry("stroke-width", v)]
  {
    DefaultsInAllowListOrder(attrs, DefaultAttributeList);
    PresentSingle(attrs, "stroke-width");
  }

  /** Every key of the defaults is a name of the allow-list. */
  lemma DefaultKeysAllowed(attrs: seq<Attribute>, allowList: seq<string>)
    ensures forall i :: 0 <= i < |DefaultsOf(attrs, allowList)| ==> DefaultsOf(attrs, allowList)[i].key in allowList
  {
    var d := DefaultsOf(attrs, allowList);
    DefaultsSpec(attrs, allowList);
    forall i | 0 <= i < |d| ensures d[i].key in allowList {
      assert Keys(d)[i] == d[i].key;
    }
  }

  /** A character absent from every allow-listed name is absent from every key of the defaults. */
  lemma DefaultKeysAvoid(attrs: seq<Attribute>, allowList: seq<string>, c: char)
    requires forall i :: 0 <= i < |allowList| ==> c !in allowList[i]
    ensures forall i :: 0 <= i < |DefaultsOf(attrs, allowList)| ==> c !in DefaultsOf(attrs, allowList)[i].key
  {
    var d := DefaultsOf(attrs, allowList);
    DefaultKeysAllowed(attrs, allowList);
    forall i | 0 <= i < |d| ensures c !in d[i].key {
      var j :| 0 <= j < |allowList| && allowList[j] == d[i].key;
    }
  }

  /** An element's markup starts with `<` and its tag name. */
  lemma SerializeStartsWithTag(tagName: string, attrs: seq<Attribute>, innerMarkup: string)
    ensures var markup := Serialize(tagName, attrs, innerMarkup);
            |markup| > |tagName| && markup[..|tagName| + 1] == "<" + tagName
  {
    var markup := Serialize(tagName, attrs, innerMarkup);
    assert markup == ("<" + tagName) + (RenderAttributes(attrs) + ">" + innerMarkup + "</" + tagName + ">");
  }

  /** The root element `<svg stroke-width="2" fill="none">`
      gives the defaults `{"stroke-width": "2"}` and keeps `fill`. */
  lemma StrokeWidthExample()
    ensures DefaultsOf([Attribute("stroke-width", "2"), Attribute("fill", "none")], DefaultAttributeList)
            == [Entry("stroke-width", "2")]
    ensures Drop([Attribute("stroke-width", "2"), Attribute("fill", "none")], DefaultAttributeList)
            == [Attribute("fill", "none")]
  {
    var attrs := [Attribute("stroke-width", "2"), Attribute("fill", "none")];
    assert Lookup(attrs, "stroke-width") == Some("2");
    assert LookUpAll(attrs, DefaultAttributeList) == [("stroke-width", Some("2"))];
    assert PresentOnly([("stroke-width", Some("2"))]) == [Entry("stroke-width", "2")];
    assert "fill" != "stroke-width";
    assert Drop(attrs[1..], DefaultAttributeList) == [Attribute("fill", "none")];
  }
}
