/** `exportAll`: the index module's text, one re-export line per icon, in
    ES-module or CommonJS syntax, with or without the `.js` extension on the
    module path. A small reader of such lines is the partner the lines are
    checked against. */
module Exports {
  import opened Wrappers
  import opened JsText

  /** An icon as `getIcons` lists it; only the component name is exported. */
  datatype Icon = Icon(componentName: string, svg: string)

  const EsmPrefix: string := "export { default as "
  const EsmMiddle: string := " } from '"
  const EsmEnd: string := "'"
  const CjsPrefix: string := "module.exports."
  const CjsMiddle: string := " = require(\""
  const CjsEnd: string := "\")"

  /** `includeExtension ? '.js' : ''`. */
  function Extension(includeExtension: bool): string
  {
    if includeExtension then ".js" else ""
  }

  /** The module path of a component: `./` + name + extension. */
  function ModulePath(componentName: string, includeExtension: bool): string
  {
    "./" + componentName + Extension(includeExtension)
  }

  /** The line for one icon: a named re-export of the default export when the
      format is exactly `esm`, an assignment to `module.exports` otherwise. */
  function ExportLine(componentName: string, format: string, includeExtension: bool): string
  {
    var path := ModulePath(componentName, includeExtension);
    if format == "esm" then EsmPrefix + componentName + EsmMiddle + path + EsmEnd
    else CjsPrefix + componentName + CjsMiddle + path + CjsEnd
  }

  /** The `map` stage: one line per icon, in the icons' order. */
  function ExportLines(icons: seq<Icon>, format: string, includeExtension: bool): (lines: seq<string>)
    ensures |lines| == |icons|
    ensures forall i :: 0 <= i < |icons| ==> lines[i] == ExportLine(icons[i].componentName, format, includeExtension)
  {
    seq(|icons|, i requires 0 <= i < |icons| => ExportLine(icons[i].componentName, format, includeExtension))
  }

  /** `exportAll(icons, format, includeExtension = true)`. */
  function ExportAll(icons: seq<Icon>, format: string, includeExtension: bool := true): string
  {
    Join(ExportLines(icons, format, includeExtension), "\n")
  }

  // A reader for export lines.

  /** A character of a JavaScript identifier as the component names use them. */
  predicate IsIdentifierChar(c: char)
  {
    ('a' <= c <= 'z') || ('A' <= c <= 'Z') || ('0' <= c <= '9') || c == '_' || c == '$'
  }

  /** A non-empty run of identifier characters. */
  predicate IsIdentifier(name: string)
  {
    |name| > 0 && forall i :: 0 <= i < |name| ==> IsIdentifierChar(name[i])
  }

  /** The longest run of identifier characters at the start of `s`, and what follows. */
  function TakeIdentifier(s: string): (r: (string, string))
    ensures r.0 + r.1 == s
    ensures forall i :: 0 <= i < |r.0| ==> IsIdentifierChar(r.0[i])
    ensures |r.1| > 0 ==> !IsIdentifierChar(r.1[0])
  {
    if |s| > 0 && IsIdentifierChar(s[0]) then
      var (name, rest) := TakeIdentifier(s[1..]);
      ConsSplit(s, name, rest);
      ([s[0]] + name, rest)
    else ("", s)
  }

  /** The first character in front of a split of the rest is a split of the whole. */
  lemma ConsSplit(s: string, name: string, rest: string)
    requires |s| > 0 && name + rest == s[1..]
    ensures ([s[0]] + name) + rest == s
  {
    assert ([s[0]] + name) + rest == [s[0]] + (name + rest);
  }

  /** `p` is a prefix of `s`. */
  predicate StartsWith(s: string, p: string)
  {
    |p| <= |s| && s[..|p|] == p
  }

  /** `q` is a suffix of `s`. */
  predicate EndsWith(s: string, q: string)
  {
    |q| <= |s| && s[|s| - |q|..] == q
  }

  /** What an export line says: the exported binding, the module path, and
      whether it is an ES-module line. */
  datatype Export = Export(binding: string, path: string, esm: bool)

  /** Reads `prefix` + identifier + `middle` + path + `end`. */
  function ParseShape(line: string, prefix: string, middle: string, end: string): Option<(string, string)>
  {
    if !StartsWith(line, prefix) then None
    else
      var (name, rest) := TakeIdentifier(line[|prefix|..]);
      if |name| == 0 || !StartsWith(rest, middle) then None
      else
        var tail := rest[|middle|..];
        if !EndsWith(tail, end) then None
        else Some((name, tail[..|tail| - |end|]))
  }

  /** Reads an ES-module or a CommonJS export line. */
  function ParseExportLine(line: string): Option<Export>
  {
    match ParseShape(line, EsmPrefix, EsmMiddle, EsmEnd)
    case Some((name, path)) => Some(Export(name, path, true))
    case None =>
      match ParseShape(line, CjsPrefix, CjsMiddle, CjsEnd)
      case Some((name, path)) => Some(Export(name, path, false))
      case None => None
  }

  /** An identifier followed by a text that does not continue it is taken whole. */
  lemma {:induction false} TakeIdentifierOf(name: string, rest: string)
    requires forall i :: 0 <= i < |name| ==> IsIdentifierChar(name[i])
    requires |rest| > 0 && !IsIdentifierChar(rest[0])
    ensures TakeIdentifier(name + rest) == (name, rest)
  {
    if |name| > 0 {
      assert (name + rest)[0] == name[0];
      assert (name + rest)[1..] == name[1..] + rest;
      TakeIdentifierOf(name[1..], rest);
      assert [name[0]] + name[1..] == name;
    } else {
      assert name + rest == rest;
    }
  }

  /** The reader takes a line of the given shape apart again. */
  lemma ParseShapeOf(prefix: string, name: string, middle: string, path: string, end: string)
    requires IsIdentifier(name)
    requires |middle| > 0 && !IsIdentifierChar(middle[0])
    ensures ParseShape(prefix + name + middle + path + end, prefix, middle, end) == Some((name, path))
  {
    var line := prefix + name + middle + path + end;
    var rest := middle + path + end;
    assert line == prefix + (name + rest);
    assert line[|prefix|..] == name + rest;
    TakeIdentifierOf(name, rest);
    assert rest[..|middle|] == middle;
    var tail := rest[|middle|..];
    assert tail == path + end;
    assert tail[|tail| - |end|..] == end;
    assert tail[..|tail| - |end|] == path;
  }

  /** No CommonJS line passes as an ES-module line: they start differently. */
  lemma CjsIsNotEsm(line: string)
    requires StartsWith(line, CjsPrefix)
    ensures ParseShape(line, EsmPrefix, EsmMiddle, EsmEnd).None?
  {
    assert line[0] == 'm';
  }

  /** Round trip for one line: reading it back gives the component name as the
      exported binding, `./` + name + (`.js` exactly when `includeExtension`)
      as the module path, and the ES-module syntax exactly when the format is `esm`. */
  lemma ExportLineParses(componentName: string, format: string, includeExtension: bool)
    requires IsIdentifier(componentName)
    ensures ParseExportLine(ExportLine(componentName, format, includeExtension))
            == Some(Export(componentName, ModulePath(componentName, includeExtension), format == "esm"))
  {
    var path := ModulePath(componentName, includeExtension);
    if format == "esm" {
      ParseShapeOf(EsmPrefix, componentName, EsmMiddle, path, EsmEnd);
    } else {
      var line := CjsPrefix + componentName + CjsMiddle + path + CjsEnd;
      assert StartsWith(line, CjsPrefix) by {
        assert line == CjsPrefix + (componentName + CjsMiddle + path + CjsEnd);
      }
      CjsIsNotEsm(line);
      ParseShapeOf(CjsPrefix, componentName, CjsMiddle, path, CjsEnd);
    }
  }

  lemma ExportLiteralsHaveNoNewline()
    ensures '\n' !in EsmPrefix && '\n' !in EsmMiddle && '\n' !in EsmEnd
    ensures '\n' !in CjsPrefix && '\n' !in CjsMiddle && '\n' !in CjsEnd
    ensures '\n' !in Extension(true) && '\n' !in Extension(false) && '\n' !in "./"
  {
  }

  /** A line for a name without line feeds is a single line. */
  lemma ExportLineHasNoNewline(componentName: string, format: string, includeExtension: bool)
    requires '\n' !in componentName
    ensures '\n' !in ExportLine(componentName, format, includeExtension)
  {
    ExportLiteralsHaveNoNewline();
  }

  /** The index text, read line by line: nothing for no icons, otherwise
      exactly one line per icon, in the icons' order. */
  lemma ExportAllLines(icons: seq<Icon>, format: string, includeExtension: bool)
    requires forall i :: 0 <= i < |icons| ==> '\n' !in icons[i].componentName
    ensures |icons| == 0 ==> ExportAll(icons, format, includeExtension) == ""
    ensures |icons| > 0 ==> Split(ExportAll(icons, format, includeExtension), '\n')
                            == ExportLines(icons, format, includeExtension)
  {
    var lines := ExportLines(icons, format, includeExtension);
    if |icons| > 0 {
      forall i | 0 <= i < |lines| ensures '\n' !in lines[i] {
        ExportLineHasNoNewline(icons[i].componentName, format, includeExtension);
      }
      SplitJoin(lines, '\n');
    }
  }

  /** Reading the index text back: line `i` re-exports icon `i` under its
      component name, from its own module, in the requested syntax. */
  lemma ExportAllReadBack(icons: seq<Icon>, format: string, includeExtension: bool)
    requires |icons| > 0
    requires forall i :: 0 <= i < |icons| ==> IsIdentifier(icons[i].componentName)
    ensures var lines := Split(ExportAll(icons, format, includeExtension), '\n');
            && |lines| == |icons|
            && forall i :: 0 <= i < |icons| ==>
                 ParseExportLine(lines[i])
                 == Some(Export(icons[i].componentName, ModulePath(icons[i].componentName, includeExtension),
                                format == "esm"))
  {
    forall i | 0 <= i < |icons| ensures '\n' !in icons[i].componentName {
      assert !IsIdentifierChar('\n');
    }
    ExportAllLines(icons, format, includeExtension);
    forall i | 0 <= i < |icons|
      ensures ParseExportLine(ExportLines(icons, format, includeExtension)[i])
              == Some(Export(icons[i].componentName, ModulePath(icons[i].componentName, includeExtension),
                             format == "esm"))
    {
      ExportLineParses(icons[i].componentName, format, includeExtension);
    }
  }
}
