/** The post-processing `transform.qwik` applies to the serialised root
    element: split it into lines, drop the blank ones, indent the rest by four
    spaces, join them again, and rewrite the first `<svg` so that the props
    spread lands in the root element's opening tag. */
module Markup {
  import opened Wrappers
  import opened JsText

  const Indentation: string := "    "
  const RootTag: string := "<svg"
  const RootTagWithSpread: string := "<svg {...attrs}"

  /** The filter's test `ln.trim().length > 0`: the line holds a character
      that is not white space. */
  predicate Keeps(line: string)
    ensures Keeps(line) <==> !IsBlank(line)
  {
    TrimEmptyIffBlank(line);
    |Trim(line)| > 0
  }

  /** `.filter((ln) => ln.trim().length > 0)`. */
  function NonBlankLines(lines: seq<string>): (kept: seq<string>)
    ensures |kept| <= |lines|
  {
    if |lines| == 0 then []
    else (if Keeps(lines[0]) then [lines[0]] else []) + NonBlankLines(lines[1..])
  }

  /** `.map((ln) => '    ' + ln)`. */
  function Indent(lines: seq<string>): seq<string>
  {
    seq(|lines|, i requires 0 <= i < |lines| => Indentation + lines[i])
  }

  /** The split, filter, indent and join stages. */
  function IndentBlock(markup: string): string
  {
    Join(Indent(NonBlankLines(Split(markup, '\n'))), "\n")
  }

  /** The whole pipeline, ending with `.replace('<svg', '<svg {...attrs}')`. */
  function PostProcess(markup: string): string
  {
    ReplaceFirst(IndentBlock(markup), RootTag, RootTagWithSpread)
  }

  /** The filter distributes over concatenation: kept lines stay in their order. */
  lemma {:induction false} NonBlankConcat(a: seq<string>, b: seq<string>)
    ensures NonBlankLines(a + b) == NonBlankLines(a) + NonBlankLines(b)
  {
    if |a| > 0 {
      assert (a + b)[0] == a[0];
      assert (a + b)[1..] == a[1..] + b;
      NonBlankConcat(a[1..], b);
    } else {
      assert a + b == b;
    }
  }

  /** A single line is kept exactly when it is not blank. */
  lemma NonBlankSingle(line: string)
    ensures NonBlankLines([line]) == if IsBlank(line) then [] else [line]
  {
    assert [line][1..] == [];
  }

  /** A line with a character that is not white space stays non-blank when indented. */
  lemma IndentedNotBlank(line: string)
    requires !IsBlank(line)
    ensures !IsBlank(Indentation + line)
  {
    var k :| 0 <= k < |line| && !IsWhiteSpace(line[k]);
    assert (Indentation + line)[k + 4] == line[k];
  }

  /** The lines of the processed block: none is blank, each starts with four
      spaces followed by a kept input line, in order; a block without any
      non-blank line becomes the empty text. */
  lemma IndentBlockLines(markup: string)
    ensures var kept := NonBlankLines(Split(markup, '\n'));
            kept == [] ==> IndentBlock(markup) == ""
    ensures var kept := NonBlankLines(Split(markup, '\n'));
            var lines := Split(IndentBlock(markup), '\n');
            kept != [] ==>
              && |lines| == |kept|
              && forall i :: 0 <= i < |lines| ==>
                   !IsBlank(lines[i]) && |lines[i]| >= 4 && lines[i][..4] == Indentation && lines[i][4..] == kept[i]
  {
    var pieces := Split(markup, '\n');
    var kept := NonBlankLines(pieces);
    var indented := Indent(kept);
    if kept != [] {
      KeptLinesAreInput(pieces);
      forall i | 0 <= i < |indented| ensures '\n' !in indented[i] {
        assert '\n' !in kept[i];
        assert '\n' !in Indentation;
      }
      SplitJoin(indented, '\n');
      forall i | 0 <= i < |kept| ensures !IsBlank(indented[i]) {
        IndentedNotBlank(kept[i]);
      }
    }
  }

  /** The filter keeps only lines of its input, and none of them is blank. */
  lemma {:induction false} KeptLinesAreInput(lines: seq<string>)
    ensures forall i :: 0 <= i < |NonBlankLines(lines)| ==>
              NonBlankLines(lines)[i] in lines && !IsBlank(NonBlankLines(lines)[i])
  {
    if |lines| > 0 {
      KeptLinesAreInput(lines[1..]);
      var head := if Keeps(lines[0]) then [lines[0]] else [];
      var rest := NonBlankLines(lines[1..]);
      var kept := NonBlankLines(lines);
      assert kept == head + rest;
      forall i | 0 <= i < |kept| ensures kept[i] in lines && !IsBlank(kept[i]) {
        if i >= |head| {
          assert kept[i] == rest[i - |head|];
          assert rest[i - |head|] in lines[1..];
        }
      }
    }
  }

  /** The join starts with its first part. */
  lemma JoinStartsWith(parts: seq<string>, sep: string)
    requires |parts| >= 1
    ensures |Join(parts, sep)| >= |parts[0]| && Join(parts, sep)[..|parts[0]|] == parts[0]
  {
  }

  /** The processed block of a markup that starts with `<svg` starts with the indented root tag. */
  lemma BlockStartsWithRootTag(markup: string)
    requires |markup| >= 4 && markup[..4] == RootTag
    ensures |IndentBlock(markup)| >= 8 && IndentBlock(markup)[..8] == Indentation + RootTag
  {
    var pieces := Split(markup, '\n');
    var first := pieces[0];
    assert first[..4] == RootTag by {
      assert markup == RootTag + markup[4..];
      SplitPrefix(RootTag, markup[4..], '\n');
    }
    assert !IsBlank(first) by {
      assert !IsWhiteSpace(first[0]);
    }
    var kept := NonBlankLines(pieces);
    assert kept[0] == first by {
      assert pieces == [first] + pieces[1..];
      NonBlankConcat([first], pieces[1..]);
      NonBlankSingle(first);
    }
    var indented := Indent(kept);
    assert indented[0] == Indentation + first;
    JoinStartsWith(indented, "\n");
    var block := IndentBlock(markup);
    assert block[..8] == indented[0][..8];
  }

  /** In a text that starts with four spaces and `<svg`, the first `<svg` is at index 4. */
  lemma RootTagFirstAtFour(block: string)
    requires |block| >= 8 && block[..8] == Indentation + RootTag
    ensures FirstOccurrence(block, RootTag, 4)
  {
    assert block[4..8] == RootTag;
    forall j | 0 <= j < 4 ensures !OccursAt(block, RootTag, j) {
      assert block[j] == ' ';
    }
  }

  /** A serialised element whose markup starts with `<svg`: the rewrite puts
      the spread right after the indented root tag, leaving the rest of the
      block untouched. */
  lemma SpreadOnRootTag(markup: string)
    requires |markup| >= 4 && markup[..4] == RootTag
    ensures |IndentBlock(markup)| >= 8 && IndentBlock(markup)[..8] == Indentation + RootTag
    ensures PostProcess(markup) == Indentation + RootTagWithSpread + IndentBlock(markup)[8..]
  {
    BlockStartsWithRootTag(markup);
    var block := IndentBlock(markup);
    RootTagFirstAtFour(block);
    assert block[..4] == Indentation;
  }

  lemma RootTagsHaveNoNewline()
    ensures '\n' !in Indentation + RootTag
    ensures '\n' !in Indentation + RootTagWithSpread
  {
  }

  /** The lines of the final markup for such an element: the first one is the
      indented root line with the spread injected after `<svg`, the others are
      the processed block's other lines, unchanged. */
  lemma RootMarkupLines(markup: string)
    requires |markup| >= 4 && markup[..4] == RootTag
    ensures var block := Split(IndentBlock(markup), '\n');
            var lines := Split(PostProcess(markup), '\n');
            && |lines| == |block|
            && |block[0]| >= 8
            && lines[0] == Indentation + RootTagWithSpread + block[0][8..]
            && lines[1..] == block[1..]
  {
    SpreadOnRootTag(markup);
    var block := IndentBlock(markup);
    var rest := block[8..];
    var restLines := Split(rest, '\n');
    RootTagsHaveNoNewline();
    assert Split(block, '\n') == [Indentation + RootTag + restLines[0]] + restLines[1..] by {
      assert block == (Indentation + RootTag) + rest;
      SplitPrefix(Indentation + RootTag, rest, '\n');
    }
    assert Split(PostProcess(markup), '\n') == [Indentation + RootTagWithSpread + restLines[0]] + restLines[1..] by {
      SplitPrefix(Indentation + RootTagWithSpread, rest, '\n');
    }
  }

  /** Every line of the final markup for such an element is indented by four
      spaces and none is blank. */
  lemma RootMarkupIndented(markup: string)
    requires |markup| >= 4 && markup[..4] == RootTag
    ensures var lines := Split(PostProcess(markup), '\n');
            forall i :: 0 <= i < |lines| ==> !IsBlank(lines[i]) && |lines[i]| >= 4 && lines[i][..4] == Indentation
  {
    RootMarkupLines(markup);
    BlockStartsWithRootTag(markup);
    IndentBlockLines(markup);
    var block := Split(IndentBlock(markup), '\n');
    var lines := Split(PostProcess(markup), '\n');
    assert NonBlankLines(Split(markup, '\n')) != [];
    forall i | 0 <= i < |lines| ensures !IsBlank(lines[i]) && |lines[i]| >= 4 && lines[i][..4] == Indentation {
      if i == 0 {
        assert lines[0][..4] == Indentation;
        assert !IsWhiteSpace(lines[0][4]);
      } else {
        assert lines[i] == lines[1..][i - 1] == block[1..][i - 1] == block[i];
      }
    }
  }
}
