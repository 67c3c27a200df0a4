/** `transform.qwik`: the component source text generated for one icon, from
    its component name, the extracted `defaults`, and the root element's
    markup after extraction. */
module Component {
  import opened Wrappers
  import opened JsText
  import opened Json
  import opened Extraction
  import opened Markup

  const ImportLine: string := "import { HTMLAttributes } " + "from '@builder.io/qwik'"
  const DefaultsPrefix: string := "const defaults = "
  const AttrsLine: string := "  const attrs = " + "{...defaults, ...props}"
  const ReturnOpen: string := "  return ("
  const TsIgnore: string := "    // @ts-ignore"
  const ReturnClose: string := "  )"
  const BodyClose: string := " }"
  const InterfaceTail: string := "Props extends " + "HTMLAttributes<SVGElement> {"

  /** The first line of the props interface. */
  function InterfaceOpen(componentName: string): string
  {
    "interface " + componentName + InterfaceTail
  }

  /** The optional field of the props interface for one default, typed by `mostStrictTypeOf`. */
  function PropLine(e: Entry, jsonParse: string -> Option<JsonValue>): string
  {
    "  '" + e.key + "'?: " + MostStrictTypeOf(jsonParse, e.value)
  }

  /** `Object.entries(defaults).map(...)`: one field per default, in the object's order. */
  function PropLines(defaults: seq<Entry>, jsonParse: string -> Option<JsonValue>): seq<string>
  {
    seq(|defaults|, i requires 0 <= i < |defaults| => PropLine(defaults[i], jsonParse))
  }

  /** The first line of the component. */
  function ComponentOpen(componentName: string): string
  {
    "export const " + componentName + " = (props: " + componentName + "Props) => {"
  }

  /** The text `transform.qwik` returns: the template's lines joined by line
      feeds, with the props fields and the processed markup each in one slot. */
  function ComponentText(componentName: string, defaults: seq<Entry>, jsonParse: string -> Option<JsonValue>,
                         markup: string): string
  {
    Join(HeadLines(componentName) + [Join(PropLines(defaults, jsonParse), "\n")] + MiddleLines(componentName, defaults)
         + [PostProcess(markup)] + TailLines(), "\n")
  }

  /** The whole transform for one parsed icon. The element loses its
      allow-listed attributes; the text is built from the extracted defaults
      and the element's markup once they are gone. */
  method TransformQwik(el: SvgElement, componentName: string, jsonParse: string -> Option<JsonValue>)
    returns (text: string)
    modifies el
    ensures el.attributes == Drop(old(el.attributes), DefaultAttributeList)
    ensures text == ComponentText(componentName, DefaultsOf(old(el.attributes), DefaultAttributeList), jsonParse,
                                  el.ToString())
  {
    var defaults := ExtractDefaults(el, DefaultAttributeList);
    text := ComponentText(componentName, defaults, jsonParse, el.ToString());
  }

  /** The lines of the props block: an empty line when there are no defaults. */
  function PropBlock(defaults: seq<Entry>, jsonParse: string -> Option<JsonValue>): seq<string>
  {
    if |defaults| == 0 then [""] else PropLines(defaults, jsonParse)
  }

  /** The template lines before the props block. */
  function HeadLines(componentName: string): seq<string>
  {
    [ImportLine, "", InterfaceOpen(componentName)]
  }

  /** The template lines between the props block and the markup. */
  function MiddleLines(componentName: string, defaults: seq<Entry>): seq<string>
  {
    ["}", "", DefaultsPrefix + StringifyEntries(defaults), "", ComponentOpen(componentName), AttrsLine, ReturnOpen,
     TsIgnore]
  }

  /** The template lines after the markup. */
  function TailLines(): seq<string>
  {
    [ReturnClose, BodyClose, ""]
  }

  /** Every line of the generated file, in order. */
  function ComponentLines(componentName: string, defaults: seq<Entry>, jsonParse: string -> Option<JsonValue>,
                          markupLines: seq<string>): seq<string>
  {
    HeadLines(componentName) + PropBlock(defaults, jsonParse) + MiddleLines(componentName, defaults)
    + markupLines + TailLines()
  }

  /** Joining a joined block into a list is joining the block's parts into it. */
  lemma JoinFlatten(a: seq<string>, p: seq<string>, b: seq<string>, sep: string)
    requires |a| >= 1 && |p| >= 1 && |b| >= 1
    ensures Join(a + [Join(p, sep)] + b, sep) == Join(a + p + b, sep)
  {
    var x := Join(p, sep);
    var xb := [x] + b;
    var pb := p + b;
    assert a + [x] + b == a + xb;
    assert a + p + b == a + pb;
    JoinAppend(a, xb, sep);
    JoinAppend([x], b, sep);
    JoinAppend(a, pb, sep);
    JoinAppend(p, b, sep);
  }

  /** The fixed lines of the template hold no line feed of their own. */
  lemma ImportLineHasNoNewline()
    ensures '\n' !in ImportLine
  {
  }

  lemma AttrsLineHasNoNewline()
    ensures '\n' !in AttrsLine
  {
  }

  lemma InterfaceTailHasNoNewline()
    ensures '\n' !in InterfaceTail
  {
  }

  lemma ShortLinesHaveNoNewline()
    ensures '\n' !in DefaultsPrefix && '\n' !in ReturnOpen && '\n' !in TsIgnore
    ensures '\n' !in ReturnClose && '\n' !in BodyClose
  {
  }

  /** Nor do the lines built around the component name. */
  lemma NamedLinesHaveNoNewline(componentName: string)
    requires '\n' !in componentName
    ensures '\n' !in InterfaceOpen(componentName) && '\n' !in ComponentOpen(componentName)
  {
    InterfaceTailHasNoNewline();
    assert '\n' !in "interface ";
    assert '\n' !in "export const " && '\n' !in " = (props: " && '\n' !in "Props) => {";
  }

  /** Nor do the fields of the props interface. */
  lemma PropLineHasNoNewline(e: Entry, jsonParse: string -> Option<JsonValue>)
    requires '\n' !in e.key
    ensures '\n' !in PropLine(e, jsonParse)
  {
    var tag := MostStrictTypeOf(jsonParse, e.value);
    assert tag in TypeTags;
    assert '\n' !in tag;
  }

  /** The template's own lines hold no line feed, when the name and keys hold none. */
  lemma HeadLinesHaveNoNewline(componentName: string)
    requires '\n' !in componentName
    ensures forall i :: 0 <= i < 3 ==> '\n' !in HeadLines(componentName)[i]
  {
    ImportLineHasNoNewline();
    NamedLinesHaveNoNewline(componentName);
  }

  lemma MiddleLinesHaveNoNewline(componentName: string, defaults: seq<Entry>)
    requires '\n' !in componentName
    requires forall i :: 0 <= i < |defaults| ==> '\n' !in defaults[i].key
    ensures forall i :: 0 <= i < 8 ==> '\n' !in MiddleLines(componentName, defaults)[i]
  {
    AttrsLineHasNoNewline();
    ShortLinesHaveNoNewline();
    NamedLinesHaveNoNewline(componentName);
    StringifyHasNoNewline(defaults);
  }

  lemma TailLinesHaveNoNewline()
    ensures forall i :: 0 <= i < 3 ==> '\n' !in TailLines()[i]
  {
    ShortLinesHaveNoNewline();
  }

  lemma PropBlockHasNoNewline(defaults: seq<Entry>, jsonParse: string -> Option<JsonValue>)
    requires forall i :: 0 <= i < |defaults| ==> '\n' !in defaults[i].key
    ensures forall i :: 0 <= i < |PropBlock(defaults, jsonParse)| ==> '\n' !in PropBlock(defaults, jsonParse)[i]
  {
    forall i | 0 <= i < |defaults| ensures '\n' !in PropLines(defaults, jsonParse)[i] {
      PropLineHasNoNewline(defaults[i], jsonParse);
    }
  }

  /** A concatenation of lists of lines without line feeds has none either. */
  lemma ConcatAvoids(a: seq<string>, b: seq<string>, c: char)
    requires forall i :: 0 <= i < |a| ==> c !in a[i]
    requires forall i :: 0 <= i < |b| ==> c !in b[i]
    ensures forall i :: 0 <= i < |a + b| ==> c !in (a + b)[i]
  {
    forall i | 0 <= i < |a + b| ensures c !in (a + b)[i] {
      if i >= |a| {
        assert (a + b)[i] == b[i - |a|];
      }
    }
  }

  /** No line of the generated file holds a line feed, when the name and keys hold none. */
  lemma ComponentLinesHaveNoNewline(componentName: string, defaults: seq<Entry>,
                                    jsonParse: string -> Option<JsonValue>, markup: string)
    requires '\n' !in componentName
    requires forall i :: 0 <= i < |defaults| ==> '\n' !in defaults[i].key
    ensures var lines := ComponentLines(componentName, defaults, jsonParse, Split(PostProcess(markup), '\n'));
            forall i :: 0 <= i < |lines| ==> '\n' !in lines[i]
  {
    var head := HeadLines(componentName);
    var props := PropBlock(defaults, jsonParse);
    var middle := MiddleLines(componentName, defaults);
    var markupLines := Split(PostProcess(markup), '\n');
    HeadLinesHaveNoNewline(componentName);
    PropBlockHasNoNewline(defaults, jsonParse);
    MiddleLinesHaveNoNewline(componentName, defaults);
    TailLinesHaveNoNewline();
    ConcatAvoids(head, props, '\n');
    ConcatAvoids(head + props, middle, '\n');
    ConcatAvoids(head + props + middle, markupLines, '\n');
    ConcatAvoids(head + props + middle + markupLines, TailLines(), '\n');
  }

  /** Splitting a join of blocks where two slots hold a joined block and a
      text gives back the blocks' lines with the text's lines in its slot. */
  lemma SplitJoinedBlocks(head: seq<string>, props: seq<string>, middle: seq<string>, text: string,
                          tail: seq<string>, sep: char)
    requires |head| >= 1 && |props| >= 1 && |middle| >= 1 && |tail| >= 1
    requires forall i :: 0 <= i < |head + props + middle + Split(text, sep) + tail| ==>
               sep !in (head + props + middle + Split(text, sep) + tail)[i]
    ensures Split(Join(head + [Join(props, [sep])] + middle + [text] + tail, [sep]), sep)
            == head + props + middle + Split(text, sep) + tail
  {
    var textLines := Split(text, sep);
    var front := head + [Join(props, [sep])] + middle;
    var back := middle + textLines + tail;
    var blocks := head + [Join(props, [sep])] + middle + [text] + tail;
    var lines := head + props + middle + textLines + tail;
    assert Join(blocks, [sep]) == Join(front + textLines + tail, [sep]) by {
      JoinSplit(text, sep);
      assert blocks == front + [Join(textLines, [sep])] + tail;
      JoinFlatten(front, textLines, tail, [sep]);
    }
    assert Join(front + textLines + tail, [sep]) == Join(lines, [sep]) by {
      assert front + textLines + tail == head + [Join(props, [sep])] + back;
      JoinFlatten(head, props, back, [sep]);
      assert head + props + back == lines;
    }
    SplitJoin(lines, sep);
  }

  /** The generated file, read line by line: the import, the interface with
      one field per default (an empty line when there is none), the defaults
      literal, the component head, the processed markup lines, and the
      closing lines. The name and the keys must not contain line feeds. */
  lemma ComponentTextLines(componentName: string, defaults: seq<Entry>, jsonParse: string -> Option<JsonValue>,
                           markup: string)
    requires '\n' !in componentName
    requires forall i :: 0 <= i < |defaults| ==> '\n' !in defaults[i].key
    ensures Split(ComponentText(componentName, defaults, jsonParse, markup), '\n')
            == ComponentLines(componentName, defaults, jsonParse, Split(PostProcess(markup), '\n'))
  {
    var head := HeadLines(componentName);
    var props := PropBlock(defaults, jsonParse);
    var middle := MiddleLines(componentName, defaults);
    var text := PostProcess(markup);
    var tail := TailLines();
    var lines := head + props + middle + Split(text, '\n') + tail;
    assert lines == ComponentLines(componentName, defaults, jsonParse, Split(text, '\n'));
    assert ComponentText(componentName, defaults, jsonParse, markup)
           == Join(head + [Join(props, ['\n'])] + middle + [text] + tail, ['\n']) by {
      assert Join(props, "\n") == Join(PropLines(defaults, jsonParse), "\n");
    }
    assert forall i :: 0 <= i < |lines| ==> '\n' !in lines[i] by {
      ComponentLinesHaveNoNewline(componentName, defaults, jsonParse, markup);
    }
    SplitJoinedBlocks(head, props, middle, text, tail, '\n');
  }

  /** Indexing into consecutive blocks: the second block sits right after
      the first, and the third right after the second. */
  lemma BlockIndexing(head: seq<string>, props: seq<string>, middle: seq<string>, markupLines: seq<string>,
                      tail: seq<string>)
    requires |middle| >= 3
    ensures var lines := head + props + middle + markupLines + tail;
            && |lines| > |head| + |props| + 2
            && (forall i :: 0 <= i < |props| ==> lines[|head| + i] == props[i])
            && lines[|head| + |props|] == middle[0]
            && lines[|head| + |props| + 2] == middle[2]
  {
    var front := head + props + middle;
    var lines := front + markupLines + tail;
    forall i | 0 <= i < |props| ensures lines[|head| + i] == props[i] {
      assert lines[|head| + i] == front[|head| + i] == (head + props)[|head| + i];
    }
    assert lines[|head| + |props|] == front[|head| + |props|];
    assert lines[|head| + |props| + 2] == front[|head| + |props| + 2];
  }

  lemma HeadLinesCount(componentName: string)
    ensures |HeadLines(componentName)| == 3
  {
  }

  /** The props block: one field per default, or a single empty line. */
  lemma PropBlockShape(defaults: seq<Entry>, jsonParse: string -> Option<JsonValue>)
    ensures |PropBlock(defaults, jsonParse)| == if |defaults| == 0 then 1 else |defaults|
    ensures forall i :: 0 <= i < |defaults| ==> PropBlock(defaults, jsonParse)[i] == PropLine(defaults[i], jsonParse)
    ensures |defaults| == 0 ==> PropBlock(defaults, jsonParse)[0] == ""
  {
  }

  /** The middle block opens with the interface's closing brace and holds the defaults literal. */
  lemma MiddleLinesShape(componentName: string, defaults: seq<Entry>)
    ensures |MiddleLines(componentName, defaults)| == 8
    ensures MiddleLines(componentName, defaults)[0] == "}"
    ensures MiddleLines(componentName, defaults)[2] == DefaultsPrefix + StringifyEntries(defaults)
  {
  }

  /** Where the interface fields and the defaults literal sit among the lines. */
  lemma ComponentLinesLayout(componentName: string, defaults: seq<Entry>, jsonParse: string -> Option<JsonValue>,
                             markupLines: seq<string>)
    ensures var lines := ComponentLines(componentName, defaults, jsonParse, markupLines);
            var n := if |defaults| == 0 then 1 else |defaults|;
            && |lines| > 5 + n
            && (forall i :: 0 <= i < |defaults| ==> lines[3 + i] == PropLine(defaults[i], jsonParse))
            && (|defaults| == 0 ==> lines[3] == "")
            && lines[3 + n] == "}"
            && lines[5 + n] == DefaultsPrefix + StringifyEntries(defaults)
  {
    var head := HeadLines(componentName);
    var props := PropBlock(defaults, jsonParse);
    var middle := MiddleLines(componentName, defaults);
    var lines := head + props + middle + markupLines + TailLines();
    HeadLinesCount(componentName);
    PropBlockShape(defaults, jsonParse);
    MiddleLinesShape(componentName, defaults);
    BlockIndexing(head, props, middle, markupLines, TailLines());
    forall i | 0 <= i < |props| ensures lines[3 + i] == props[i] {
      assert lines[|head| + i] == props[i];
    }
  }

  /** The props interface and the defaults literal agree: line `3 + i` is the
      optional field for the `i`-th default, and the literal two lines after
      the interface reads back as exactly the defaults, so its keys come in
      the same order as the fields. */
  lemma InterfaceMatchesDefaults(componentName: string, defaults: seq<Entry>, jsonParse: string -> Option<JsonValue>,
                                 markup: string)
    requires '\n' !in componentName
    requires forall i :: 0 <= i < |defaults| ==> '\n' !in defaults[i].key
    ensures var lines := Split(ComponentText(componentName, defaults, jsonParse, markup), '\n');
            var n := if |defaults| == 0 then 1 else |defaults|;
            && |lines| > 5 + n
            && (forall i :: 0 <= i < |defaults| ==>
                  lines[3 + i] == "  '" + defaults[i].key + "'?: " + MostStrictTypeOf(jsonParse, defaults[i].value))
            && lines[3 + n] == "}"
            && lines[5 + n] == DefaultsPrefix + StringifyEntries(defaults)
            && DecodeObject(lines[5 + n][|DefaultsPrefix|..]) == Some(defaults)
  {
    ComponentTextLines(componentName, defaults, jsonParse, markup);
    ComponentLinesLayout(componentName, defaults, jsonParse, Split(PostProcess(markup), '\n'));
    DefaultsLiteralReads(defaults);
  }

  /** The defaults line without its `const defaults = ` prefix reads back as the defaults. */
  lemma DefaultsLiteralReads(defaults: seq<Entry>)
    ensures DecodeObject((DefaultsPrefix + StringifyEntries(defaults))[|DefaultsPrefix|..]) == Some(defaults)
  {
    assert (DefaultsPrefix + StringifyEntries(defaults))[|DefaultsPrefix|..] == StringifyEntries(defaults);
    StringifyRoundTrip(defaults);
  }

  /** An icon without defaults: the interface has an empty line for its body
      and the defaults literal is the empty object. */
  lemma NoDefaultsLayout(componentName: string, jsonParse: string -> Option<JsonValue>, markup: string)
    requires '\n' !in componentName
    ensures var lines := Split(ComponentText(componentName, [], jsonParse, markup), '\n');
            && |lines| > 6
            && lines[3] == ""
            && lines[4] == "}"
            && lines[6] == DefaultsPrefix + "{}"
  {
    ComponentTextLines(componentName, [], jsonParse, markup);
    ComponentLinesLayout(componentName, [], jsonParse, Split(PostProcess(markup), '\n'));
  }

  /** The serialised root `<svg>` element, whatever its attributes and
      children, ends up with the spread in its opening tag: the first markup
      line of the component is the indented root line with `{...attrs}` after
      `<svg`, and every markup line is indented and not blank. */
  lemma RootElementCarriesSpread(attrs: seq<Attribute>, innerMarkup: string)
    ensures var markup := Serialize("svg", attrs, innerMarkup);
            var block := Split(IndentBlock(markup), '\n');
            var lines := Split(PostProcess(markup), '\n');
            && |block[0]| >= 8
            && lines[0] == Indentation + RootTagWithSpread + block[0][8..]
            && lines[1..] == block[1..]
            && forall i :: 0 <= i < |lines| ==> !IsBlank(lines[i]) && |lines[i]| >= 4 && lines[i][..4] == Indentation
  {
    var markup := Serialize("svg", attrs, innerMarkup);
    assert |markup| >= 4 && markup[..4] == RootTag by {
      SerializeStartsWithTag("svg", attrs, innerMarkup);
      assert "<" + "svg" == RootTag;
    }
    RootMarkupLines(markup);
    RootMarkupIndented(markup);
  }

  /** Where the markup lines sit among the lines of the file. */
  lemma ComponentLinesMarkup(componentName: string, defaults: seq<Entry>, jsonParse: string -> Option<JsonValue>,
                             markupLines: seq<string>)
    ensures var lines := ComponentLines(componentName, defaults, jsonParse, markupLines);
            var n := if |defaults| == 0 then 1 else |defaults|;
            && |lines| == 14 + n + |markupLines|
            && lines[11 + n..11 + n + |markupLines|] == markupLines
  {
    var front := HeadLines(componentName) + PropBlock(defaults, jsonParse) + MiddleLines(componentName, defaults);
    var lines := ComponentLines(componentName, defaults, jsonParse, markupLines);
    assert lines == front + markupLines + TailLines();
    assert |front| == 11 + (if |defaults| == 0 then 1 else |defaults|);
  }

  /** Markup whose text starts with `<svg` lands in the generated file from
      line `11 + n` on, its first line opening the root tag with the props spread. */
  lemma RootMarkupInFile(componentName: string, defaults: seq<Entry>, jsonParse: string -> Option<JsonValue>,
                         markup: string)
    requires '\n' !in componentName
    requires forall i :: 0 <= i < |defaults| ==> '\n' !in defaults[i].key
    requires |markup| >= 4 && markup[..4] == RootTag
    ensures var lines := Split(ComponentText(componentName, defaults, jsonParse, markup), '\n');
            var markupLines := Split(PostProcess(markup), '\n');
            var n := if |defaults| == 0 then 1 else |defaults|;
            && |lines| == 14 + n + |markupLines|
            && lines[11 + n..11 + n + |markupLines|] == markupLines
            && |markupLines[0]| >= |Indentation + RootTagWithSpread|
            && markupLines[0][..|Indentation + RootTagWithSpread|] == Indentation + RootTagWithSpread
  {
    var markupLines := Split(PostProcess(markup), '\n');
    ComponentTextLines(componentName, defaults, jsonParse, markup);
    ComponentLinesMarkup(componentName, defaults, jsonParse, markupLines);
    RootMarkupLines(markup);
  }

  /** A single default whose name and value JSON.stringify writes without
      escapes, such as `stroke-width` with the value "2": the
      interface field is typed by how the value parses, and the defaults
      literal is the name and value in quotes. */
  lemma SinglePlainDefault(componentName: string, jsonParse: string -> Option<JsonValue>, markup: string,
                           key: string, value: string)
    requires '\n' !in componentName
    requires forall i :: 0 <= i < |key| ==> IsPlain(key[i])
    requires forall i :: 0 <= i < |value| ==> IsPlain(value[i])
    ensures var lines := Split(ComponentText(componentName, [Entry(key, value)], jsonParse, markup), '\n');
            && |lines| > 6
            && lines[3] == "  '" + key + "'?: " + MostStrictTypeOf(jsonParse, value)
            && lines[4] == "}"
            && lines[6] == DefaultsPrefix + ("{\"" + key + "\":\"" + value + "\"}")
  {
    var defaults := [Entry(key, value)];
    assert '\n' !in key by {
      assert forall i :: 0 <= i < |key| ==> key[i] != '\n';
    }
    assert StringifyEntries(defaults) == "{\"" + key + "\":\"" + value + "\"}" by {
      StringifySinglePlain(key, value);
    }
    InterfaceMatchesDefaults(componentName, defaults, jsonParse, markup);
  }
}
