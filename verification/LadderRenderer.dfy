/** The ladder diagram renderer, proved to produce the drawings of module Ladder. */
module LadderRenderer {
  import opened Numbers
  import opened Layout
  import opened Ladder

  /** Contacts and coils render to one line of text, boxes and branches to several rows. */
  datatype Rendering = Text(line: string) | Rows(rows: Block)

  function AsBlock(r: Rendering): Block {
    match r
    case Text(line) => [line]
    case Rows(rows) => rows
  }

  function AsBlocks(rs: seq<Rendering>): (blocks: seq<Block>)
    ensures |blocks| == |rs|
  {
    seq(|rs|, i requires 0 <= i < |rs| => AsBlock(rs[i]))
  }

  function Drawings(o: Options, elements: seq<Element>): (blocks: seq<Block>)
    ensures |blocks| == |elements|
  {
    seq(|elements|, i requires 0 <= i < |elements| => Draw(o, elements[i]))
  }

  // ----- instructions -----

  lemma BoxRowsAppend(texts: seq<string>, more: seq<string>, width: nat)
    ensures BoxRows(texts + more, width) == BoxRows(texts, width) + BoxRows(more, width)
  {}

  function BoxRow(text: string, width: nat): string {
    "|" + CenterText(text, width) + "|"
  }

  lemma BoxRowsNext(texts: seq<string>, k: nat, width: nat, lines: Block, result: Block, row: string)
    requires k < |texts| && result == lines + BoxRows(texts[..k], width) && row == BoxRow(texts[k], width)
    ensures result + [row] == lines + BoxRows(texts[..k + 1], width)
  {
    assert texts[..k + 1] == texts[..k] + [texts[k]];
    BoxRowsAppend(texts[..k], [texts[k]], width);
    AppendAssociates(lines, BoxRows(texts[..k], width), [row]);
  }

  /** Push one row for every parameter after the first. */
  method PushParameters(lines: Block, parameters: seq<string>, width: nat) returns (result: Block)
    ensures result == lines + BoxRows(FurtherTexts(parameters, false), width)
  {
    result := lines;
    ghost var rest := FurtherTexts(parameters, false);
    assert |parameters| > 0 ==> rest == parameters[1..];
    var i := 1;
    while i < |parameters|
      invariant i - 1 <= |rest| && result == lines + BoxRows(rest[..i - 1], width)
    {
      var row := "|" + CenterText(parameters[i], width) + "|";
      BoxRowsNext(rest, i - 1, width, lines, result, row);
      result := result + [row];
      i := i + 1;
    }
    assert rest[..i - 1] == rest;
  }

  method PushFurtherTexts(lines: Block, parameters: seq<string>, timed: bool, width: nat) returns (result: Block)
    ensures result == lines + BoxRows(FurtherTexts(parameters, timed), width)
  {
    result := lines;
    if timed {
      if |parameters| >= 2 {
        result := result + ["|" + CenterText("PRE: " + parameters[1], width) + "|"];
      }
    } else {
      result := PushParameters(lines, parameters, width);
    }
  }

  function FirstTexts(mnemonic: string, parameters: seq<string>): seq<string> {
    [mnemonic] + if |parameters| > 0 then [parameters[0]] else []
  }

  lemma BoxAssembles(mnemonic: string, parameters: seq<string>, timed: bool, width: nat, rows: Block, border: string)
    requires width == BoxWidth(mnemonic, parameters) && border == BoxBorder(width)
    requires rows == BoxRows(FirstTexts(mnemonic, parameters), width) + BoxRows(FurtherTexts(parameters, timed), width)
    ensures [border] + rows + [border] == BoxBlock(mnemonic, parameters, timed)
  {
    BoxRowsAppend(FirstTexts(mnemonic, parameters), FurtherTexts(parameters, timed), width);
    assert BoxTexts(mnemonic, parameters, timed) == FirstTexts(mnemonic, parameters) + FurtherTexts(parameters, timed);
  }

  method RenderBox(mnemonic: string, parameters: seq<string>, timed: bool) returns (lines: Block)
    ensures lines == BoxBlock(ToUpper(mnemonic), parameters, timed)
  {
    var upper := ToUpper(mnemonic);
    var width := BoxWidth(upper, parameters);
    ghost var first := BoxRows(FirstTexts(upper, parameters), width);
    ghost var further := BoxRows(FurtherTexts(parameters, timed), width);
    lines := StartBox(upper, parameters, width);
    lines := PushFurtherTexts(lines, parameters, timed, width);
    lines := lines + [BoxBorder(width)];
    BoxAssembles(upper, parameters, timed, width, first + further, BoxBorder(width));
    AppendAssociates([BoxBorder(width)], first, further);
  }

  lemma AppendAssociates(a: Block, b: Block, c: Block)
    ensures a + b + c == a + (b + c)
  {}

  method StartBox(mnemonic: string, parameters: seq<string>, width: nat) returns (lines: Block)
    ensures lines == [BoxBorder(width)] + BoxRows(FirstTexts(mnemonic, parameters), width)
  {
    lines := [BoxBorder(width), "|" + CenterText(mnemonic, width) + "|"];
    if |parameters| > 0 {
      lines := lines + ["|" + CenterText(parameters[0], width) + "|"];
    }
  }

  method RenderInstruction(o: Options, mnemonic: string, parameters: seq<string>) returns (r: Rendering)
    ensures AsBlock(r) == InstructionBlock(o, mnemonic, parameters) && (r.Text? <==> !KindOf(o, mnemonic).Box?)
  {
    match KindOf(o, mnemonic) {
      case Contact => r := Text(ContactText(o, mnemonic, parameters));
      case Coil => r := Text(CoilText(o, mnemonic, parameters));
      case Box(timed) =>
        var lines := RenderBox(mnemonic, parameters, timed);
        r := Rows(lines);
    }
  }

  // ----- laying blocks side by side -----

  function Normal(b: Block, h: nat): (n: Block)
    ensures |n| == h
  {
    seq(h, (r: nat) => Cell(b, r, Width(b)))
  }

  /** Pad the rows to one width and add blank rows up to the height. */
  method Normalise(b: Block, h: nat) returns (n: Block)
    requires |b| <= h
    ensures n == Normal(b, h)
  {
    var width := Width(b);
    n := seq(|b|, r requires 0 <= r < |b| => PadEnd(b[r], width));
    while |n| < h
      invariant |n| <= h && n == Normal(b, |n|)
    {
      n := n + [Repeat(' ', width)];
    }
  }

  method TallestOf(renders: seq<Rendering>) returns (h: nat)
    ensures h == Height(AsBlocks(renders))
  {
    h := 1;
    for i := 0 to |renders|
      invariant h == HeightTo(AsBlocks(renders), i)
    {
      if renders[i].Rows? {
        h := Max(h, |renders[i].rows|);
      }
    }
  }

  method NormaliseAll(renders: seq<Rendering>) returns (h: nat, columns: seq<Block>)
    ensures h == Height(AsBlocks(renders)) && |columns| == |renders|
    ensures forall k :: 0 <= k < |columns| ==> columns[k] == Normal(AsBlock(renders[k]), h) && |columns[k]| == h
  {
    h := TallestOf(renders);
    columns := [];
    for k := 0 to |renders|
      invariant |columns| == k && forall j :: 0 <= j < k ==> columns[j] == Normal(AsBlock(renders[j]), h)
    {
      HeightBounds(AsBlocks(renders), |renders|, k);
      var n := Normalise(AsBlock(renders[k]), h);
      columns := columns + [n];
    }
  }

  lemma RowOfColumns(renders: seq<Rendering>, columns: seq<Block>, h: nat, r: nat)
    requires |columns| == |renders| && r < h
    requires forall k :: 0 <= k < |columns| ==> columns[k] == Normal(AsBlock(renders[k]), h) && |columns[k]| == h
    ensures seq(|columns|, k requires 0 <= k < |columns| => columns[k][r]) == Cells(AsBlocks(renders), r)
  {}

  /** Join the normalised elements of a path row by row. */
  method LayOutPath(o: Options, renders: seq<Rendering>) returns (lines: Block)
    ensures lines == PathLines(o, AsBlocks(renders))
  {
    var h, columns := NormaliseAll(renders);
    lines := [];
    for r := 0 to h
      invariant |lines| == r && forall i :: 0 <= i < r ==> lines[i] == Line(o, AsBlocks(renders), i)
    {
      RowOfColumns(renders, columns, h, r);
      var rowParts := seq(|columns|, k requires 0 <= k < |columns| => columns[k][r]);
      lines := lines + [Join(rowParts, Gap(o, r))];
    }
  }

  predicate SingleLine(parts: seq<Rendering>) {
    forall k :: 0 <= k < |parts| ==> parts[k].Text?
  }

  /** The renderings so far are the drawings of the elements, and the flag says whether one needs several rows. */
  ghost predicate RenderedTo(blocks: seq<Block>, parts: seq<Rendering>, hasMultiLine: bool) {
    |parts| <= |blocks| && AsBlocks(parts) == blocks[..|parts|] && (hasMultiLine <==> !SingleLine(parts))
  }

  lemma RenderedNext(blocks: seq<Block>, parts: seq<Rendering>, hasMultiLine: bool, r: Rendering)
    requires RenderedTo(blocks, parts, hasMultiLine) && |parts| < |blocks| && AsBlock(r) == blocks[|parts|]
    ensures RenderedTo(blocks, parts + [r], hasMultiLine || r.Rows?)
  {
    var parts' := parts + [r];
    assert AsBlocks(parts') == AsBlocks(parts) + [AsBlock(r)];
    assert blocks[..|parts'|] == blocks[..|parts|] + [blocks[|parts|]];
    if !SingleLine(parts) {
      var k :| 0 <= k < |parts| && !parts[k].Text?;
      assert parts'[k] == parts[k];
    }
    assert parts'[|parts|] == r;
  }

  lemma RenderedAll(blocks: seq<Block>, parts: seq<Rendering>, hasMultiLine: bool)
    requires RenderedTo(blocks, parts, hasMultiLine) && |parts| == |blocks|
    ensures AsBlocks(parts) == blocks && (hasMultiLine <==> !SingleLine(parts))
  {}

  // ----- branches -----

  method RenderElement(o: Options, e: Element) returns (r: Rendering)
    requires Drawable(e)
    ensures AsBlock(r) == Draw(o, e)
    ensures e.Branch? ==> r.Rows?
    decreases e, 2, 0
  {
    if e.Branch? {
      var lines := RenderBranch(o, e);
      r := Rows(lines);
    } else {
      r := RenderInstruction(o, e.mnemonic, e.parameters);
    }
  }

  method RenderChild(o: Options, e: Element, p: nat, k: nat) returns (r: Rendering)
    requires e.Branch? && Drawable(e) && p < |e.paths| && k < |e.paths[p].elements|
    ensures AsBlock(r) == Children(o, e)[p][k]
    decreases e, 0, 0
  {
    ChildDrawing(o, e, p, k);
    r := RenderElement(o, e.paths[p].elements[k]);
  }

  method RenderPath(o: Options, e: Element, p: nat) returns (lines: Block)
    requires e.Branch? && Drawable(e) && p < |e.paths|
    ensures lines == PathLines(o, Children(o, e)[p])
    decreases e, 0, 1
  {
    ghost var blocks := Children(o, e)[p];
    var renders := [];
    ghost var multi := false;
    for k := 0 to |e.paths[p].elements|
      invariant |renders| == k && RenderedTo(blocks, renders, multi)
    {
      var r := RenderChild(o, e, p, k);
      RenderedNext(blocks, renders, multi, r);
      renders, multi := renders + [r], multi || r.Rows?;
    }
    RenderedAll(blocks, renders, multi);
    lines := LayOutPath(o, renders);
  }

  method WidestOf(paths: seq<Block>) returns (w: nat)
    ensures w == MaxWidth(paths)
  {
    w := 0;
    for p := 0 to |paths|
      invariant w == MaxWidthTo(paths, p)
    {
      for i := 0 to |paths[p]|
        invariant w == Max(MaxWidthTo(paths, p), WidthTo(paths[p], i))
      {
        w := Max(w, |paths[p][i]|);
      }
    }
  }

  /** Push the rows of one path between its connectors and rails. */
  method PushFrame(o: Options, above: Block, lines: Block, w: nat) returns (result: Block)
    ensures result == above + Frame(o, lines, w)
  {
    result := above;
    for r := 0 to |lines|
      invariant result == above + Frame(o, lines, w)[..r]
    {
      var padded := PadEnd(lines[r], w);
      if r == 0 {
        result := result + ["+" + Gap(o, 0) + padded + Gap(o, 0) + "+"];
      } else {
        result := result + ["|" + Gap(o, 1) + padded + Gap(o, 1) + "|"];
      }
      assert Frame(o, lines, w)[..r + 1] == Frame(o, lines, w)[..r] + [Frame(o, lines, w)[r]];
    }
    assert Frame(o, lines, w)[..|lines|] == Frame(o, lines, w);
  }

  /** Stack the framed paths with a separator row before every path after the first. */
  method StackPaths(o: Options, lines: seq<Block>, w: nat) returns (result: Block)
    requires lines != []
    ensures result == Join(Frames(o, lines, w), [Separator(o, w)])
  {
    ghost var frames := Frames(o, lines, w);
    result := PushFrame(o, [], lines[0], w);
    for p := 1 to |lines|
      invariant result == JoinTo(frames, [Separator(o, w)], p)
    {
      result := PushFrame(o, result + [Separator(o, w)], lines[p], w);
    }
  }

  method RenderBranch(o: Options, e: Element) returns (result: Block)
    requires e.Branch? && Drawable(e)
    ensures result == Draw(o, e)
    decreases e, 1, 0
  {
    var lines: seq<Block> := [];
    for p := 0 to |e.paths|
      invariant |lines| == p && forall j :: 0 <= j < p ==> lines[j] == PathLines(o, Children(o, e)[j])
    {
      var pathLines := RenderPath(o, e, p);
      lines := lines + [pathLines];
    }
    assert lines == Lines(o, Children(o, e));
    var w := WidestOf(lines);
    result := StackPaths(o, lines, w);
  }

  // ----- rungs -----

  /** One row of a rung between the power rails. */
  method RungLine(o: Options, cells: seq<string>, r: nat) returns (line: string)
    ensures line == "|" + Gap(o, r) + Join(cells, Gap(o, r)) + Gap(o, r) + "|"
  {
    line := "|" + Gap(o, r);
    for col := 0 to |cells|
      invariant line == "|" + Gap(o, r) + JoinTo(cells, Gap(o, r), col) + if 0 < col < |cells| then Gap(o, r) else ""
    {
      line := line + cells[col];
      if col < |cells| - 1 {
        line := line + Gap(o, r);
      }
    }
    line := line + Gap(o, r) + "|";
  }

  method BuildMultiLineRung(o: Options, parts: seq<Rendering>) returns (result: Block)
    ensures result == RungBlock(o, AsBlocks(parts))
  {
    var h, columns := NormaliseAll(parts);
    result := [];
    for r := 0 to h
      invariant |result| == r && forall i :: 0 <= i < r ==> result[i] == RungRow(o, AsBlocks(parts), i)
    {
      RowOfColumns(parts, columns, h, r);
      var cells := seq(|columns|, k requires 0 <= k < |columns| => columns[k][r]);
      var line := RungLine(o, cells, r);
      result := result + [line];
    }
  }

  lemma {:induction false} SingleLineHeight(parts: seq<Rendering>, n: nat)
    requires n <= |parts| && SingleLine(parts)
    ensures HeightTo(AsBlocks(parts), n) == 1
  {
    if n > 0 {
      SingleLineHeight(parts, n - 1);
    }
  }

  /** The single-line form is the rung of one-row blocks. */
  lemma SingleLineRung(o: Options, parts: seq<Rendering>)
    requires SingleLine(parts)
    ensures RungBlock(o, AsBlocks(parts)) ==
      ["|" + Gap(o, 0) + Join(seq(|parts|, k requires 0 <= k < |parts| => parts[k].line), Gap(o, 0)) + Gap(o, 0) + "|"]
  {
    SingleLineHeight(parts, |parts|);
    forall k | 0 <= k < |parts| ensures Cells(AsBlocks(parts), 0)[k] == parts[k].line {
      RectangularWidth([parts[k].line], 1, |parts[k].line|);
    }
    assert Cells(AsBlocks(parts), 0) == seq(|parts|, k requires 0 <= k < |parts| => parts[k].line);
  }

  method RenderRungElement(o: Options, elements: seq<Element>, k: nat) returns (r: Rendering)
    requires k < |elements| && Drawable(elements[k])
    ensures AsBlock(r) == Drawings(o, elements)[k]
  {
    r := RenderElement(o, elements[k]);
  }

  method RenderRungElements(o: Options, elements: seq<Element>) returns (parts: seq<Rendering>, hasMultiLine: bool)
    requires forall k :: 0 <= k < |elements| ==> Drawable(elements[k])
    ensures AsBlocks(parts) == Drawings(o, elements) && (hasMultiLine <==> !SingleLine(parts))
  {
    parts, hasMultiLine := [], false;
    for k := 0 to |elements|
      invariant |parts| == k && RenderedTo(Drawings(o, elements), parts, hasMultiLine)
    {
      var rendered := RenderRungElement(o, elements, k);
      RenderedNext(Drawings(o, elements), parts, hasMultiLine, rendered);
      if rendered.Rows? {
        hasMultiLine := true;
      }
      parts := parts + [rendered];
    }
    RenderedAll(Drawings(o, elements), parts, hasMultiLine);
  }

  /** The main line of a rung, on one line unless some element needs more. */
  method BuildMainLine(o: Options, elements: seq<Element>) returns (r: Rendering)
    requires forall k :: 0 <= k < |elements| ==> Drawable(elements[k])
    ensures AsBlock(r) == RungBlock(o, Drawings(o, elements))
  {
    var parts, hasMultiLine := RenderRungElements(o, elements);
    if hasMultiLine {
      var lines := BuildMultiLineRung(o, parts);
      r := Rows(lines);
    } else {
      SingleLineRung(o, parts);
      r := Text("|" + Gap(o, 0) + Join(seq(|parts|, k requires 0 <= k < |parts| => parts[k].line),
        Gap(o, 0)) + Gap(o, 0) + "|");
    }
  }
}
