# build-tsx: the Qwik icon component generator, modelled in Dafny

`scripts/build-tsx.js` turns each optimised heroicons SVG into the source text
of a Qwik component. The model covers the pure heart of that script:

- **Attribute extraction** (`Extraction`). For each name of
  `defaultAttributeList` (`["stroke-width"]`), in allow-list order, the
  transform looks the attribute up on the root `<svg>` element. When the
  attribute is there, it removes it from the element and records its value in
  `defaults`. The element is a class `SvgElement` whose `attributes` field the
  methods update. `ExtractDefaults` is a method with the source's two phases:
  the `map`/`filter` lookups, then the `forEach` that removes and records.
  `defaults` is an insertion-ordered list of entries, updated the way a
  JavaScript object is by `d[k] = v`.
- **Type tags** (`Json.MostStrictTypeOf`). The tag is `typeof JSON.parse(v)`,
  or `"string"` when parsing throws. `JSON.parse` is a parameter, a function
  from text to an optional `JsonValue`.
- **`JSON.stringify` of the defaults object** (`Json.StringifyEntries`). It
  follows the string escaping of ECMA-262 (QuoteJSONString). An independent
  decoder is the partner it is checked against.
- **The component text** (`Component`). Imports, the props interface (one
  optional field per default), the literal `const defaults = …`, the
  component head, the markup, and the closing lines, joined by line feeds.
- **Markup post-processing** (`Markup`). The serialised element is split into
  lines. Blank lines (by `trim`'s white-space set) are dropped, the others are
  indented by four spaces and joined again. Then the first `<svg` becomes
  `<svg {...attrs}`.
- **`exportAll`** (`Exports`). One re-export line per icon, in ES-module
  syntax when `format === 'esm'` and CommonJS otherwise, with `.js` on the
  module path exactly when `includeExtension` (true by default). A reader of
  such lines is the partner they are checked against.
- **The JavaScript string built-ins** (`JsText`): `split` with a one-character
  separator (empty pieces kept), `join`, `trim`, `indexOf` and `replace` with
  a string pattern (first occurrence only).

The source assigns `defaults = {}` to an undeclared variable, so it is shared
by all calls. The assignment happens at the start of every call, so one call
behaves as with a local. The model returns `defaults` from each call.

## Model

| member | source | states |
|---|---|---|
| JsText.Split | scripts/build-tsx.js:50 | `split('\n')` yields at least one piece, and no piece holds the separator |
| JsText.JoinSplit | scripts/build-tsx.js:50-53 | joining the pieces of a split with the separator gives the text back |
| JsText.SplitJoin | scripts/build-tsx.js:53 | splitting a join of separator-free parts gives the parts back |
| JsText.JoinAppend | scripts/build-tsx.js:58 | joining two non-empty lists puts one separator between their joins |
| JsText.TrimStart | scripts/build-tsx.js:51 | `trimStart` removes exactly the leading white space, up to the first other character |
| JsText.TrimEnd | scripts/build-tsx.js:51 | `trimEnd` removes exactly the trailing white space |
| JsText.IndexOf | scripts/build-tsx.js:54 | `indexOf` finds the first occurrence, and finds none exactly when there is none |
| JsText.ReplaceFirst | scripts/build-tsx.js:54 | `replace` with a string pattern rewrites the first occurrence only, and leaves a text without the pattern unchanged |
| Json.MostStrictTypeOf | scripts/build-tsx.js:62-68 | the tag is one of number, boolean, string, object; "string" when the parse fails or gives a string; "object" for null, arrays and objects |
| Json.EscapeDecodes | scripts/build-tsx.js:38 | the escaped characters of a string, then a closing quote, decode to the string |
| Json.QuoteDecodes | scripts/build-tsx.js:38 | `JSON.stringify` of a string reads back as that string |
| Json.MemberDecodes | scripts/build-tsx.js:38 | one `"key":"value"` member reads back as its entry |
| Json.MembersDecode | scripts/build-tsx.js:38 | the comma-joined members and the closing brace read back as the entries, in order |
| Json.StringifyRoundTrip | scripts/build-tsx.js:38 | the JSON text of `defaults` reads back as the same entries in the same order |
| Json.StringifyHasNoNewline | scripts/build-tsx.js:38 | the JSON text of `defaults` holds no line feed, whatever the keys and values |
| Json.EscapePlain | scripts/build-tsx.js:38 | text without control characters, quotes or backslashes is not escaped |
| Json.StringifySinglePlain | scripts/build-tsx.js:38 | a one-entry object with such a key and value is `{"key":"value"}` |
| Extraction.Lookup | scripts/build-tsx.js:17 | `getAttribute` gives null exactly when no attribute has that name, and otherwise the value of an attribute of that name |
| Extraction.LookupFirst | scripts/build-tsx.js:17 | `getAttribute` gives the value of the first attribute of that name |
| Extraction.Drop | scripts/build-tsx.js:21 | the attributes left are exactly those whose names were not removed |
| Extraction.SvgElement.GetAttribute | scripts/build-tsx.js:17 | reading an attribute gives `Lookup` of the element's attributes |
| Extraction.SvgElement.RemoveAttribute | scripts/build-tsx.js:21 | the attribute goes and the other attributes stay, in order |
| Extraction.PresentOnly | scripts/build-tsx.js:18 | the filter keeps exactly the pairs with a non-null value |
| Extraction.Put | scripts/build-tsx.js:22 | `d[k] = v` keeps the keys distinct; an existing key keeps its place and takes the new value; a new key goes last |
| Extraction.ExtractDefaults | scripts/build-tsx.js:14-23 | the method returns the defaults of the original attributes and leaves the element with the allow-listed attributes removed |
| Extraction.PresentSpec | scripts/build-tsx.js:16-18 | an entry is kept exactly when its key is allow-listed and the element carries that attribute with that value |
| Extraction.PresentConcat | scripts/build-tsx.js:16-18 | the kept entries follow allow-list order: the entries for a concatenated allow-list are the two lists' entries in sequence |
| Extraction.PutAllDistinct | scripts/build-tsx.js:19-23 | assignments with distinct keys into an empty object insert in order |
| Extraction.DefaultsSpec | scripts/build-tsx.js:14-23 | the keys of `defaults` are exactly the allow-listed names the element carries, each once, each with its value there |
| Extraction.PresentDistinct | scripts/build-tsx.js:16-18 | an allow-list without repeats yields each name at most once |
| Extraction.DefaultsInAllowListOrder | scripts/build-tsx.js:14-23 | for an allow-list without repeats, `defaults` is the present entries in allow-list order |
| Extraction.ExtractedElement | scripts/build-tsx.js:21 | no allow-listed attribute is left; every other attribute stays with its value; an element without allow-listed attributes is unchanged |
| Extraction.DropConcat | scripts/build-tsx.js:21 | removal works attribute by attribute, so the remaining attributes keep their order |
| Extraction.DropTwice | scripts/build-tsx.js:19-23 | removing names one at a time is removing them all at once |
| Extraction.ExtractTwice | scripts/build-tsx.js:14-23 | extracting again finds no defaults and changes nothing |
| Extraction.DefaultKeysAllowed | scripts/build-tsx.js:16-23 | every key of `defaults` is an allow-listed name |
| Extraction.DefaultKeysAvoid | scripts/build-tsx.js:16-23 | a character absent from every allow-listed name is absent from every key |
| Extraction.DefaultsOfStrokeWidth | scripts/build-tsx.js:8-23 | with `["stroke-width"]`, `defaults` is `stroke-width` with its value when the element has it, and empty otherwise |
| Extraction.SerializeStartsWithTag | scripts/build-tsx.js:48-49 | the serialised element starts with `<` and its tag name |
| Extraction.StrokeWidthExample | scripts/build-tsx.js:8-23 | `stroke-width="2" fill="none"` gives the defaults `{stroke-width: "2"}` and keeps `fill="none"` |
| Markup.Keeps | scripts/build-tsx.js:51 | `ln.trim().length > 0` holds exactly for lines that are not all white space |
| Markup.NonBlankLines | scripts/build-tsx.js:51 | the filter never adds lines |
| Markup.NonBlankConcat | scripts/build-tsx.js:51 | the filter distributes over concatenation, so kept lines keep their order |
| Markup.KeptLinesAreInput | scripts/build-tsx.js:51 | every kept line is an input line and is not blank |
| Markup.IndentBlockLines | scripts/build-tsx.js:48-53 | the block's lines are the kept lines in order, each behind four spaces and none blank; no kept line gives the empty text |
| Markup.BlockStartsWithRootTag | scripts/build-tsx.js:48-53 | a markup starting with `<svg` gives a block starting with four spaces and `<svg` |
| Markup.RootTagFirstAtFour | scripts/build-tsx.js:54 | in such a block the first `<svg` is the one at index 4 |
| Markup.SpreadOnRootTag | scripts/build-tsx.js:48-54 | the rewrite puts `{...attrs}` after the root `<svg` and leaves the rest of the block untouched |
| Markup.RootMarkupLines | scripts/build-tsx.js:48-54 | only the first line changes: it gets the spread; the other lines are the block's |
| Markup.RootMarkupIndented | scripts/build-tsx.js:48-54 | every final markup line is indented by four spaces and none is blank |
| Component.TransformQwik | scripts/build-tsx.js:11-58 | the element loses its allow-listed attributes, and the text is built from the extracted defaults and the markup after removal |
| Component.JoinFlatten | scripts/build-tsx.js:33-58 | a joined block inside the template's join reads as its lines in that slot |
| Component.SplitJoinedBlocks | scripts/build-tsx.js:33-58 | splitting the template's join gives the template lines with the props lines and markup lines in their slots |
| Component.PropLineHasNoNewline | scripts/build-tsx.js:34 | a props field for a key without line feeds is one line |
| Component.ComponentLinesHaveNoNewline | scripts/build-tsx.js:27-57 | no template line holds a line feed when the name and keys hold none |
| Component.ComponentTextLines | scripts/build-tsx.js:27-58 | the generated text, read line by line, is the import, the interface with one field per default, the defaults literal, the component head, the processed markup lines and the closing lines |
| Component.ComponentLinesLayout | scripts/build-tsx.js:30-38 | line 3+i is the field for default i (an empty line when there are none), then the interface's `}`, then two lines on the defaults literal |
| Component.InterfaceMatchesDefaults | scripts/build-tsx.js:30-38 | the interface fields follow the defaults in order, typed by `mostStrictTypeOf`, and the literal after them reads back as exactly the defaults |
| Component.NoDefaultsLayout | scripts/build-tsx.js:33-38 | without defaults the interface body is an empty line and the literal is `{}` |
| Component.ComponentLinesMarkup | scripts/build-tsx.js:47-57 | the markup lines sit from line 11+n, and three closing lines follow them |
| Component.RootElementCarriesSpread | scripts/build-tsx.js:48-54 | a serialised `<svg>` root, whatever its attributes and children, gets the spread on its first line, and every markup line is indented and not blank |
| Component.RootMarkupInFile | scripts/build-tsx.js:47-54 | in the generated file the markup lines start at 11+n, the first one with the indented `<svg {...attrs}` |
| Component.SinglePlainDefault | scripts/build-tsx.js:33-38 | a single unescaped default gives the field `'key'?: <tag>` and the literal `{"key":"value"}` |
| Exports.ExportLines | scripts/build-tsx.js:83-90 | one line per icon, in the icons' order |
| Exports.TakeIdentifier | scripts/build-tsx.js:87-89 | the reader takes the longest identifier at the start of a line |
| Exports.TakeIdentifierOf | scripts/build-tsx.js:87-89 | a component name followed by a non-identifier character is taken whole |
| Exports.ParseShapeOf | scripts/build-tsx.js:87-89 | a line of the export shape is taken apart into its name and its module path |
| Exports.CjsIsNotEsm | scripts/build-tsx.js:86-89 | a CommonJS line is never read as an ES-module line |
| Exports.ExportLineParses | scripts/build-tsx.js:84-89 | a line reads back as its component name, the path `./name` plus `.js` exactly when `includeExtension`, and ES-module syntax exactly when the format is `esm` |
| Exports.ExportLineHasNoNewline | scripts/build-tsx.js:84-89 | a line for a name without line feeds is one line |
| Exports.ExportAllLines | scripts/build-tsx.js:82-92 | the text is empty for no icons, and otherwise splits into exactly the per-icon lines |
| Exports.ExportAllReadBack | scripts/build-tsx.js:82-92 | line i of the text re-exports icon i under its name, from its own module, in the requested syntax |

## Left out

- File-system I/O (`getIcons`, `ensureWrite`, `ensureWriteJson`, `rimraf`), the CLI argument and the per-style driver loop: these are I/O around the core.
- Concurrency (`Promise.all`): each icon's transform is independent, so it is modelled as one sequential call.
- `console.log`: it has no effect on the result.
- `camelcase` and the deriving of component names from file names: an external library. Component names are inputs.
- node-html-parser: the model takes the parsed root element as an `SvgElement`, not the SVG text. `parse(svg).childNodes[0]` is assumed to be that element. A document with leading text or comments is not modelled.
- `SvgElement.ToString` is a simplified serialiser: `<tag`, then ` name="value"` per attribute, then `>`, the children as text, and the closing tag. Entity escaping, self-closing tags and the parser's own attribute formatting are not modelled.
- `Extraction.Lookup` returns the first attribute of a name and `RemoveAttribute` removes every attribute of that name. The parser's handling of repeated attributes is not modelled.
- `JSON.parse` is a parameter. Its grammar and number parsing (floating point) are not modelled; numbers keep their literal text.
- `Json.StringifyEntries` works on Unicode scalar values, so lone surrogates (which `JSON.stringify` writes as `\u` escapes) cannot occur.
- Insertion order of `defaults`: JavaScript lists integer-like keys first. Attribute names from the allow-list are never integer-like, so that rule is not modelled.
- `String.prototype.replace` patterns with `$` in the replacement: `<svg {...attrs}` holds none, so `JsText.ReplaceFirst` inserts the replacement literally.
- Component.TransformQwik: its contract ties the text to `ComponentText` of the extracted defaults and the element's markup after removal. What that text holds is stated by the lemmas about `ComponentText` (`ComponentTextLines`, `InterfaceMatchesDefaults`, `RootMarkupInFile`), combined with `DefaultsSpec`, `DefaultKeysAvoid` and `SerializeStartsWithTag`.
- Markup of which every line is blank becomes the empty text, so its slot in the file is one empty line (`Markup.IndentBlockLines` states the empty text).
- The runtime meaning of the emitted TypeScript (the props spread, `HTMLAttributes`) is not modelled: the model is about the text only.
- The transform registry holds only `qwik`. An unknown package name fails at the lookup, and that failure is not modelled.
