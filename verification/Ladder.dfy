/** What a ladder diagram looks like: the drawing of every element, and its geometry. */
module Ladder {
  import opened Numbers
  import opened Layout

  /** How the instruction library draws a mnemonic; timers and counters are timed boxes. */
  datatype Kind = Contact | Coil | Box(timed: bool)

  datatype Options = Options(wireLength: nat, minTagWidth: nat, library: map<string, Kind>)

  datatype Element =
    | Instruction(mnemonic: string, parameters: seq<string>)
    | Branch(paths: seq<Path>)

  datatype Path = Path(elements: seq<Element>)

  // ----- single instructions -----

  function ToUpper(s: string): string {
    seq(|s|, i requires 0 <= i < |s| => if 'a' <= s[i] <= 'z' then s[i] - 'a' + 'A' else s[i])
  }

  /** A mnemonic the library does not know is drawn as a plain box. */
  function KindOf(o: Options, mnemonic: string): Kind {
    if ToUpper(mnemonic) in o.library then o.library[ToUpper(mnemonic)] else Box(false)
  }

  /** The first parameter names the tag; an absent or empty one falls back to the mnemonic. */
  function TagName(mnemonic: string, parameters: seq<string>): string {
    if |parameters| > 0 && parameters[0] != "" then parameters[0] else mnemonic
  }

  function ContactText(o: Options, mnemonic: string, parameters: seq<string>): string {
    var tag := PadEnd(TagName(mnemonic, parameters), o.minTagWidth);
    if mnemonic == "XIO" then "[/" + tag + "]" else "[ " + tag + " ]"
  }

  function CoilText(o: Options, mnemonic: string, parameters: seq<string>): string {
    var tag := PadEnd(TagName(mnemonic, parameters), o.minTagWidth);
    if mnemonic == "OTL" then "(L" + tag + " )" else if mnemonic == "OTU" then "(U" + tag + " )" else "( " + tag + " )"
  }

  function LeftPad(text: string, width: nat): nat {
    if |text| >= width then 0 else (width - |text|) / 2
  }

  function CenterText(text: string, width: nat): (r: string)
    ensures |r| == width && (|text| <= width ==> r[LeftPad(text, width)..LeftPad(text, width) + |text|] == text)
  {
    if |text| >= width then text[..width]
    else Repeat(' ', LeftPad(text, width)) + text + Repeat(' ', width - |text| - LeftPad(text, width))
  }

  function BoxWidth(mnemonic: string, parameters: seq<string>): nat {
    Max(Max(14, |mnemonic| + 6), Width(parameters) + 6)
  }

  /** The lines of text in a box: the mnemonic, the first parameter, then the preset of a timer or counter,
      or all further parameters of any other box. */
  function BoxTexts(mnemonic: string, parameters: seq<string>, timed: bool): seq<string> {
    [mnemonic] + (if |parameters| > 0 then [parameters[0]] else []) + FurtherTexts(parameters, timed)
  }

  function FurtherTexts(parameters: seq<string>, timed: bool): seq<string> {
    if timed then (if |parameters| >= 2 then ["PRE: " + parameters[1]] else [])
    else if |parameters| > 0 then parameters[1..] else []
  }

  function BoxRows(texts: seq<string>, width: nat): Block {
    seq(|texts|, i requires 0 <= i < |texts| => "|" + CenterText(texts[i], width) + "|")
  }

  function BoxBorder(width: nat): string {
    "+" + Repeat('-', width) + "+"
  }

  function BoxBlock(mnemonic: string, parameters: seq<string>, timed: bool): Block {
    var width := BoxWidth(mnemonic, parameters);
    [BoxBorder(width)] + BoxRows(BoxTexts(mnemonic, parameters, timed), width) + [BoxBorder(width)]
  }

  /** Every text is short enough for the box, a preset with its label included. */
  lemma BoxTextsFit(mnemonic: string, parameters: seq<string>, timed: bool, i: nat)
    requires i < |BoxTexts(mnemonic, parameters, timed)|
    ensures |BoxTexts(mnemonic, parameters, timed)[i]| < BoxWidth(mnemonic, parameters)
  {
    if i > 0 {
      WidthBounds(parameters, |parameters|, i - 1);
      var text := BoxTexts(mnemonic, parameters, timed)[i];
      assert text == parameters[i - 1] || text == "PRE: " + parameters[i - 1];
    }
  }

  lemma BoxIsRectangular(mnemonic: string, parameters: seq<string>, timed: bool)
    ensures Rectangular(BoxBlock(mnemonic, parameters, timed), BoxWidth(mnemonic, parameters) + 2)
    ensures |BoxBlock(mnemonic, parameters, timed)| == |BoxTexts(mnemonic, parameters, timed)| + 2
  {}

  /** The texts of a box: the mnemonic first, then the first parameter; then the labelled preset of a timer or
      counter and nothing more, or every further parameter of any other box. */
  lemma BoxTextsAre(mnemonic: string, parameters: seq<string>, timed: bool)
    ensures var texts := BoxTexts(mnemonic, parameters, timed);
      && |texts| == (if timed && |parameters| > 2 then 3 else 1 + |parameters|)
      && texts[0] == mnemonic && (|parameters| > 0 ==> texts[1] == parameters[0])
      && (timed && |parameters| > 1 ==> texts[2] == "PRE: " + parameters[1])
      && (!timed ==> forall i :: 0 <= i < |parameters| ==> texts[i + 1] == parameters[i])
  {}

  /** Every text of a box appears whole, one per row under the top border. */
  lemma BoxShowsText(mnemonic: string, parameters: seq<string>, timed: bool, i: nat)
    requires i < |BoxTexts(mnemonic, parameters, timed)|
    ensures |BoxBlock(mnemonic, parameters, timed)| == |BoxTexts(mnemonic, parameters, timed)| + 2
    ensures var text := BoxTexts(mnemonic, parameters, timed)[i];
      RowAppears(text, BoxBlock(mnemonic, parameters, timed)[i + 1], 1 + LeftPad(text, BoxWidth(mnemonic, parameters)))
  {
    var texts, width := BoxTexts(mnemonic, parameters, timed), BoxWidth(mnemonic, parameters);
    BoxTextsFit(mnemonic, parameters, timed, i);
    BoxRowShows(texts[i], width);
    assert BoxBlock(mnemonic, parameters, timed)[i + 1] == BoxRows(texts, width)[i];
  }

  /** A short text is centred: blanks on both sides, at most one more on the right. */
  lemma CentredText(text: string, width: nat)
    requires |text| <= width
    ensures var l: int := LeftPad(text, width); var r := width - |text| - l;
      l <= r <= l + 1 && CenterText(text, width) == Repeat(' ', l) + text + Repeat(' ', r)
  {
    if |text| == width {
      assert text[..width] == text && Repeat(' ', 0) + text + Repeat(' ', 0) == text;
    }
  }

  /** A box is 14 wide, or as wide as its longest mnemonic or parameter needs with three blanks on each side. */
  lemma BoxWidthIs(mnemonic: string, parameters: seq<string>)
    ensures BoxWidth(mnemonic, parameters) >= 14 && BoxWidth(mnemonic, parameters) >= |mnemonic| + 6
    ensures forall i :: 0 <= i < |parameters| ==> BoxWidth(mnemonic, parameters) >= |parameters[i]| + 6
    ensures BoxWidth(mnemonic, parameters) in {14, |mnemonic| + 6}
      || exists i :: 0 <= i < |parameters| && BoxWidth(mnemonic, parameters) == |parameters[i]| + 6
  {
    WidthReached(parameters, |parameters|);
    forall i | 0 <= i < |parameters| ensures BoxWidth(mnemonic, parameters) >= |parameters[i]| + 6 {
      WidthBounds(parameters, |parameters|, i);
    }
  }

  lemma BoxRowShows(text: string, width: nat)
    requires |text| <= width
    ensures RowAppears(text, "|" + CenterText(text, width) + "|", 1 + LeftPad(text, width))
  {
    var c, l := CenterText(text, width), LeftPad(text, width);
    assert ("|" + c + "|")[1 + l..1 + l + |text|] == c[l..l + |text|];
  }

  function InstructionBlock(o: Options, mnemonic: string, parameters: seq<string>): Block {
    match KindOf(o, mnemonic)
    case Contact => [ContactText(o, mnemonic, parameters)]
    case Coil => [CoilText(o, mnemonic, parameters)]
    case Box(timed) => BoxBlock(ToUpper(mnemonic), parameters, timed)
  }

  /** The kind of an instruction shows in its first and last character, and only a box has more than one row. */
  lemma InstructionShape(o: Options, mnemonic: string, parameters: seq<string>)
    ensures var b := InstructionBlock(o, mnemonic, parameters); var first, last := b[0][0], b[0][|b[0]| - 1];
      && |b| >= 1 && |b[0]| >= 2 && (|b| > 1 <==> KindOf(o, mnemonic).Box?)
      && (KindOf(o, mnemonic).Contact? ==> first == '[' && last == ']')
      && (KindOf(o, mnemonic).Coil? ==> first == '(' && last == ')')
      && (KindOf(o, mnemonic).Box? ==> first == '+' && last == '+')
  {}

  /** The second character of a contact marks a normally closed one, and that of a coil a latching or unlatching one;
      the tag follows whole, the first parameter or, without one, the mnemonic. */
  lemma InstructionMarks(o: Options, mnemonic: string, parameters: seq<string>)
    requires !KindOf(o, mnemonic).Box?
    ensures var text := InstructionBlock(o, mnemonic, parameters)[0];
      && |text| >= o.minTagWidth + 3
      && (KindOf(o, mnemonic).Contact? ==> (text[1] == '/' <==> mnemonic == "XIO") && text[1] in {'/', ' '})
      && (KindOf(o, mnemonic).Coil? ==>
           (text[1] == 'L' <==> mnemonic == "OTL") && (text[1] == 'U' <==> mnemonic == "OTU")
             && text[1] in {'L', 'U', ' '})
      && (forall tag :: parameters != [] && parameters[0] == tag != "" ==> RowAppears(tag, text, 2))
      && (parameters == [] ==> RowAppears(mnemonic, text, 2))
  {
    var tag := TagName(mnemonic, parameters);
    if KindOf(o, mnemonic).Contact? {
      ShowsPadded(if mnemonic == "XIO" then "[/" else "[ ", tag, o.minTagWidth, if mnemonic == "XIO" then "]"
        else " ]");
    } else {
      ShowsPadded(if mnemonic == "OTL" then "(L" else if mnemonic == "OTU" then "(U"
        else "( ", tag, o.minTagWidth, " )");
    }
  }

  lemma ShowsPadded(mark: string, tag: string, width: nat, close: string)
    requires |mark| == 2
    ensures var text := mark + PadEnd(tag, width) + close;
      |text| >= width + 2 + |close| && text[0] == mark[0] && text[1] == mark[1] && RowAppears(tag, text, 2)
  {
    var padded := PadEnd(tag, width);
    forall i | 0 <= i < |tag| ensures tag[i] == (mark + padded + close)[2 + i] {
      assert padded[..|tag|][i] == padded[i];
    }
  }

  // ----- one path: blocks side by side -----

  /** Row r of a block that is padded to a width and, below its last row, filled with blanks. */
  function Cell(b: Block, r: nat, w: nat): string {
    if r < |b| then PadEnd(b[r], w) else Repeat(' ', w)
  }

  function Cells(blocks: seq<Block>, r: nat): (cells: seq<string>)
    ensures |cells| == |blocks|
  {
    seq(|blocks|, k requires 0 <= k < |blocks| => Cell(blocks[k], r, Width(blocks[k])))
  }

  /** The height of the tallest of the first n blocks, at least one. */
  function HeightTo(blocks: seq<Block>, n: nat): (h: nat)
    requires n <= |blocks|
    ensures h >= 1
  {
    if n == 0 then 1 else Max(HeightTo(blocks, n - 1), |blocks[n - 1]|)
  }

  function Height(blocks: seq<Block>): (h: nat)
    ensures h >= 1
  {
    HeightTo(blocks, |blocks|)
  }

  /** A wire on the first row, blanks on the others. */
  function Gap(o: Options, r: nat): (s: string)
    ensures |s| == o.wireLength
  {
    Repeat(if r == 0 then '-' else ' ', o.wireLength)
  }

  function Line(o: Options, blocks: seq<Block>, r: nat): string {
    Join(Cells(blocks, r), Gap(o, r))
  }

  function PathLines(o: Options, blocks: seq<Block>): (lines: Block)
    ensures |lines| == Height(blocks)
  {
    seq(Height(blocks), (r: nat) => Line(o, blocks, r))
  }

  /** The column at which block k of a path starts. */
  function Column(o: Options, blocks: seq<Block>, k: nat): nat
    requires k <= |blocks|
  {
    Start(Cells(blocks, 0), o.wireLength, k)
  }

  lemma CellFits(b: Block, r: nat)
    ensures |Cell(b, r, Width(b))| == Width(b)
    ensures r < |b| ==> RowAppears(b[r], Cell(b, r, Width(b)), 0)
  {
    if r < |b| {
      WidthBounds(b, |b|, r);
    }
  }

  lemma CellsAgree(blocks: seq<Block>, r: nat)
    ensures forall k :: 0 <= k < |blocks| ==> |Cells(blocks, r)[k]| == |Cells(blocks, 0)[k]| == Width(blocks[k])
  {
    forall k | 0 <= k < |blocks| ensures |Cells(blocks, r)[k]| == |Cells(blocks, 0)[k]| == Width(blocks[k]) {
      CellFits(blocks[k], r);
      CellFits(blocks[k], 0);
    }
  }

  /** All rows of a path are equally long, whatever the blocks. */
  lemma LineLength(o: Options, blocks: seq<Block>, r: nat)
    ensures |Line(o, blocks, r)| == |Line(o, blocks, 0)|
  {
    CellsAgree(blocks, r);
    if blocks != [] {
      JoinLength(Cells(blocks, r), Gap(o, r), |blocks|);
      JoinLength(Cells(blocks, 0), Gap(o, 0), |blocks|);
    }
    StartAgrees(Cells(blocks, r), Cells(blocks, 0), o.wireLength, |blocks|);
  }

  lemma {:induction false} HeightBounds(blocks: seq<Block>, n: nat, k: nat)
    requires k < n <= |blocks|
    ensures |blocks[k]| <= HeightTo(blocks, n)
  {
    if k < n - 1 {
      HeightBounds(blocks, n - 1, k);
    }
  }

  /** The height of a path is that of its tallest block, and one when none is taller. */
  lemma {:induction false} HeightReached(blocks: seq<Block>, n: nat)
    requires n <= |blocks|
    ensures HeightTo(blocks, n) == 1 || exists k :: 0 <= k < n && |blocks[k]| == HeightTo(blocks, n)
  {
    if n > 0 {
      HeightReached(blocks, n - 1);
    }
  }

  lemma LineShows(o: Options, blocks: seq<Block>, k: nat, r: nat)
    requires k < |blocks| && r < |blocks[k]|
    ensures RowAppears(blocks[k][r], Line(o, blocks, r), Column(o, blocks, k))
  {
    var cells := Cells(blocks, r);
    CellsAgree(blocks, r);
    StartAgrees(cells, Cells(blocks, 0), o.wireLength, k);
    JoinHolds(cells, Gap(o, r), k);
    forall i | 0 <= i < |cells[k]| ensures cells[k][i] == Line(o, blocks, r)[Column(o, blocks, k) + i] {
      JoinShows(cells, Gap(o, r), |cells|, k, i);
    }
    CellFits(blocks[k], r);
    RowTransitive(blocks[k][r], cells[k], Line(o, blocks, r), 0, Column(o, blocks, k), Column(o, blocks, k));
  }

  /** Neighbouring blocks of a path do not overlap, and the wire runs from one to the next on the first row. */
  lemma PathIsWired(o: Options, blocks: seq<Block>, k: nat)
    requires k + 1 < |blocks|
    ensures Column(o, blocks, k + 1) == Column(o, blocks, k) + Width(blocks[k]) + o.wireLength
    ensures RowAppears(Repeat('-', o.wireLength), PathLines(o, blocks)[0], Column(o, blocks, k) + Width(blocks[k]))
  {
    CellsAgree(blocks, 0);
    var cells, col := Cells(blocks, 0), Column(o, blocks, k) + Width(blocks[k]);
    JoinHolds(cells, Gap(o, 0), k + 1);
    forall i | 0 <= i < o.wireLength ensures Repeat('-', o.wireLength)[i] == Line(o, blocks, 0)[col + i] {
      JoinShowsGap(cells, Gap(o, 0), |cells|, k + 1, i);
    }
  }

  /** Below its last row, a block leaves blanks at its column. */
  lemma PathIsBlankBelow(o: Options, blocks: seq<Block>, k: nat, r: nat)
    requires k < |blocks| && |blocks[k]| <= r < Height(blocks)
    ensures RowAppears(Repeat(' ', Width(blocks[k])), PathLines(o, blocks)[r], Column(o, blocks, k))
  {
    var cells := Cells(blocks, r);
    CellsAgree(blocks, r);
    StartAgrees(cells, Cells(blocks, 0), o.wireLength, k);
    JoinHolds(cells, Gap(o, r), k);
    forall i | 0 <= i < |cells[k]| ensures cells[k][i] == Line(o, blocks, r)[Column(o, blocks, k) + i] {
      JoinShows(cells, Gap(o, r), |cells|, k, i);
    }
  }

  // ----- a branch: paths under each other -----

  function MaxWidthTo(paths: seq<Block>, n: nat): nat
    requires n <= |paths|
  {
    if n == 0 then 0 else Max(MaxWidthTo(paths, n - 1), Width(paths[n - 1]))
  }

  function MaxWidth(paths: seq<Block>): nat {
    MaxWidthTo(paths, |paths|)
  }

  /** A connector on the first row of a path, a rail on the others. */
  function EndMark(r: nat): string {
    if r == 0 then "+" else "|"
  }

  function FrameRow(o: Options, line: string, r: nat, w: nat): string {
    EndMark(r) + Gap(o, r) + PadEnd(line, w) + Gap(o, r) + EndMark(r)
  }

  function Frame(o: Options, lines: Block, w: nat): (b: Block)
    ensures |b| == |lines|
  {
    seq(|lines|, r requires 0 <= r < |lines| => FrameRow(o, lines[r], r, w))
  }

  function Separator(o: Options, w: nat): string {
    "|" + Gap(o, 1) + Repeat(' ', w) + Gap(o, 1) + "|"
  }

  function Lines(o: Options, paths: seq<seq<Block>>): (lines: seq<Block>)
    ensures |lines| == |paths|
  {
    seq(|paths|, p requires 0 <= p < |paths| => PathLines(o, paths[p]))
  }

  function Frames(o: Options, lines: seq<Block>, w: nat): (frames: seq<Block>)
    ensures |frames| == |lines|
  {
    seq(|lines|, p requires 0 <= p < |lines| => Frame(o, lines[p], w))
  }

  function BranchBlock(o: Options, paths: seq<seq<Block>>): Block {
    var lines := Lines(o, paths);
    Join(Frames(o, lines, MaxWidth(lines)), [Separator(o, MaxWidth(lines))])
  }

  /** The row at which path p starts. */
  function PathRow(o: Options, paths: seq<seq<Block>>, p: nat): nat
    requires p <= |paths|
  {
    Start(Lines(o, paths), 1, p)
  }

  lemma {:induction false} MaxWidthBounds(paths: seq<Block>, n: nat, p: nat)
    requires p < n <= |paths|
    ensures Width(paths[p]) <= MaxWidthTo(paths, n)
  {
    if p < n - 1 {
      MaxWidthBounds(paths, n - 1, p);
    }
  }

  /** The width of a branch is that of its widest line, so it is no wider than needed. */
  lemma {:induction false} WidthReached(b: Block, n: nat)
    requires n <= |b|
    ensures WidthTo(b, n) == 0 || exists r :: 0 <= r < n && |b[r]| == WidthTo(b, n)
  {
    if n > 0 {
      WidthReached(b, n - 1);
    }
  }

  lemma {:induction false} MaxWidthReached(paths: seq<Block>, n: nat)
    requires n <= |paths|
    ensures MaxWidthTo(paths, n) == 0 || exists p :: 0 <= p < n && Width(paths[p]) == MaxWidthTo(paths, n)
  {
    if n > 0 {
      MaxWidthReached(paths, n - 1);
    }
  }

  lemma FrameRowShows(o: Options, line: string, r: nat, w: nat)
    ensures RowAppears(line, FrameRow(o, line, r, w), 1 + o.wireLength)
  {
    var left, padded := EndMark(r) + Gap(o, r), PadEnd(line, w);
    var right := Gap(o, r) + EndMark(r);
    assert FrameRow(o, line, r, w) == left + padded + right;
    assert (left + padded + right)[|left|..|left| + |line|] == padded[..|line|];
  }

  /** The height of a branch is the sum of its paths' heights and one separator for every path after the first. */
  lemma BranchHeight(o: Options, paths: seq<seq<Block>>)
    requires paths != []
    ensures |BranchBlock(o, paths)| + 1 == PathRow(o, paths, |paths|)
  {
    var lines := Lines(o, paths);
    var w := MaxWidth(lines);
    JoinLength(Frames(o, lines, w), [Separator(o, w)], |lines|);
    StartAgrees(Frames(o, lines, w), lines, 1, |paths|);
  }

  /** Row r of path p is found, framed, under the rows of the paths above it. */
  lemma BranchRow(o: Options, paths: seq<seq<Block>>, p: nat, r: nat)
    requires p < |paths| && r < Height(paths[p])
    ensures PathRow(o, paths, p) + r < |BranchBlock(o, paths)|
    ensures BranchBlock(o, paths)[PathRow(o, paths, p) + r] ==
      FrameRow(o, Line(o, paths[p], r), r, MaxWidth(Lines(o, paths)))
  {
    BranchRowOf(o, paths, Lines(o, paths), p, r, PathRow(o, paths, p), BranchBlock(o, paths), Line(o, paths[p], r));
  }

  lemma BranchRowOf(o: Options, paths: seq<seq<Block>>, lines: seq<Block>, p: nat, r: nat, row: nat, whole: Block,
      line: string)
    requires p < |paths| && r < Height(paths[p]) && lines == Lines(o, paths) && line == Line(o, paths[p], r)
    requires row == PathRow(o, paths, p) && whole == BranchBlock(o, paths)
    ensures row + r < |whole| && whole[row + r] == FrameRow(o, line, r, MaxWidth(lines))
  {
    LineAt(o, paths, p, r);
    BlockOfLines(o, paths, lines);
    StackedRow(o, lines, MaxWidth(lines), p, r, row, whole, line);
  }

  lemma LineAt(o: Options, paths: seq<seq<Block>>, p: nat, r: nat)
    requires p < |paths| && r < Height(paths[p])
    ensures r < |Lines(o, paths)[p]| && Lines(o, paths)[p][r] == Line(o, paths[p], r)
  {}

  lemma BlockOfLines(o: Options, paths: seq<seq<Block>>, lines: seq<Block>)
    requires lines == Lines(o, paths)
    ensures BranchBlock(o, paths) == Join(Frames(o, lines, MaxWidth(lines)), [Separator(o, MaxWidth(lines))])
  {}

  lemma StackedRow(o: Options, lines: seq<Block>, w: nat, p: nat, r: nat, row: nat, whole: Block, line: string)
    requires p < |lines| && r < |lines[p]| && line == lines[p][r]
    requires row == Start(lines, 1, p) && whole == Join(Frames(o, lines, w), [Separator(o, w)])
    ensures row + r < |whole| && whole[row + r] == FrameRow(o, line, r, w)
  {
    var frames := Frames(o, lines, w);
    StartAgrees(frames, lines, 1, p);
    JoinShows(frames, [Separator(o, w)], |frames|, p, r);
  }

  lemma FrameRowShowsBlock(o: Options, blocks: seq<Block>, k: nat, r: nat, w: nat)
    requires k < |blocks| && r < |blocks[k]|
    ensures RowAppears(blocks[k][r], FrameRow(o, Line(o, blocks, r), r, w), 1 + o.wireLength + Column(o, blocks, k))
  {
    LineShows(o, blocks, k, r);
    FrameRowShows(o, Line(o, blocks, r), r, w);
    RowTransitive(blocks[k][r], Line(o, blocks, r), FrameRow(o, Line(o, blocks, r), r, w),
      Column(o, blocks, k), 1 + o.wireLength, 1 + o.wireLength + Column(o, blocks, k));
  }

  lemma BranchShowsRow(o: Options, paths: seq<seq<Block>>, p: nat, k: nat, r: nat)
    requires p < |paths| && k < |paths[p]| && r < |paths[p][k]|
    ensures PathRow(o, paths, p) + r < |BranchBlock(o, paths)|
    ensures RowAppears(paths[p][k][r], BranchBlock(o, paths)[PathRow(o, paths, p) + r],
      1 + o.wireLength + Column(o, paths[p], k))
  {
    HeightBounds(paths[p], |paths[p]|, k);
    BranchRow(o, paths, p, r);
    FrameRowShowsBlock(o, paths[p], k, r, MaxWidth(Lines(o, paths)));
  }

  lemma PathFits(o: Options, paths: seq<seq<Block>>, p: nat)
    requires p < |paths|
    ensures PathRow(o, paths, p) + Height(paths[p]) <= |BranchBlock(o, paths)|
  {
    BranchRow(o, paths, p, Height(paths[p]) - 1);
  }

  /** Every child of a branch appears whole, in the rows of its path and at its column. */
  lemma BranchShows(o: Options, paths: seq<seq<Block>>, p: nat, k: nat)
    requires p < |paths| && k < |paths[p]|
    ensures Appears(paths[p][k], BranchBlock(o, paths), PathRow(o, paths, p), 1 + o.wireLength + Column(o, paths[p], k))
  {
    HeightBounds(paths[p], |paths[p]|, k);
    PathFits(o, paths, p);
    var b, row, col := BranchBlock(o, paths), PathRow(o, paths, p), 1 + o.wireLength + Column(o, paths[p], k);
    forall r | 0 <= r < |paths[p][k]| ensures RowAppears(paths[p][k][r], b[row + r], col) {
      BranchShowsRow(o, paths, p, k, r);
    }
  }

  /** A wire runs from the connector of a path to its first block, and from its width to the closing connector; and the
      row between two paths is blank between its rails. */
  lemma FrameIsWired(o: Options, line: string, w: nat)
    requires |line| <= w
    ensures RowAppears("+" + Repeat('-', o.wireLength), FrameRow(o, line, 0, w), 0)
    ensures RowAppears(Repeat('-', o.wireLength) + "+", FrameRow(o, line, 0, w), 1 + o.wireLength + w)
    ensures RowAppears("|" + Repeat(' ', 2 * o.wireLength + w) + "|", Separator(o, w), 0)
  {}

  /** A row that ends in a rail or a connector on both sides. */
  predicate Railed(line: string) {
    |line| >= 2 && line[0] == line[|line| - 1] && (line[0] == '+' || line[0] == '|')
  }

  lemma FrameRowShape(o: Options, paths: seq<seq<Block>>, p: nat, r: nat)
    requires p < |paths| && r < Height(paths[p])
    ensures var row := FrameRow(o, PathLines(o, paths[p])[r], r, MaxWidth(Lines(o, paths)));
      |row| == MaxWidth(Lines(o, paths)) + 2 * o.wireLength + 2 && Railed(row) && (row[0] == '+' <==> r == 0)
  {
    WidthBounds(PathLines(o, paths[p]), Height(paths[p]), r);
    MaxWidthBounds(Lines(o, paths), |paths|, p);
  }

  /** What all rows of the parts and of the gap are, the rows of the join are. */
  lemma {:induction false} JoinKeeps(parts: seq<Block>, gap: Block, n: nat, w: nat)
    requires n <= |parts|
    requires forall p, r :: 0 <= p < |parts| && 0 <= r < |parts[p]| ==> |parts[p][r]| == w && Railed(parts[p][r])
    requires forall r :: 0 <= r < |gap| ==> |gap[r]| == w && Railed(gap[r])
    ensures forall r :: 0 <= r < |JoinTo(parts, gap, n)| ==>
      |JoinTo(parts, gap, n)[r]| == w && Railed(JoinTo(parts, gap, n)[r])
  {
    if n > 1 {
      JoinKeeps(parts, gap, n - 1, w);
    }
  }

  /** A branch is a rectangle, and rails or connectors end every row. */
  lemma BranchIsRectangular(o: Options, paths: seq<seq<Block>>)
    requires paths != []
    ensures var w := MaxWidth(Lines(o, paths)) + 2 * o.wireLength + 2; Rectangular(BranchBlock(o, paths), w)
    ensures forall r :: 0 <= r < |BranchBlock(o, paths)| ==> Railed(BranchBlock(o, paths)[r])
  {
    var lines := Lines(o, paths);
    var w := MaxWidth(lines);
    var frames := Frames(o, lines, w);
    forall p, r | 0 <= p < |frames| && 0 <= r < |frames[p]|
      ensures |frames[p][r]| == w + 2 * o.wireLength + 2 && Railed(frames[p][r]) {
      FrameRowShape(o, paths, p, r);
    }
    JoinKeeps(frames, [Separator(o, w)], |frames|, w + 2 * o.wireLength + 2);
    BranchRow(o, paths, 0, 0);
  }

  // ----- every element -----

  /** Every branch, however deep, has a path; the renderer fails on one that has none. */
  predicate Drawable(e: Element) {
    e.Branch? ==> e.paths != [] && forall p, k :: 0 <= p < |e.paths| && 0 <= k < |e.paths[p].elements| ==>
      Drawable(e.paths[p].elements[k])
  }

  function Draw(o: Options, e: Element): Block
    decreases e, 1
  {
    if e.Branch? then BranchBlock(o, Children(o, e)) else InstructionBlock(o, e.mnemonic, e.parameters)
  }

  /** The drawings of a branch's children, path by path. */
  function Children(o: Options, e: Element): (blocks: seq<seq<Block>>)
    requires e.Branch?
    ensures |blocks| == |e.paths| && forall p :: 0 <= p < |blocks| ==> |blocks[p]| == |e.paths[p].elements|
    decreases e, 0
  {
    seq(|e.paths|, p requires 0 <= p < |e.paths| =>
      seq(|e.paths[p].elements|, k requires 0 <= k < |e.paths[p].elements| => Draw(o, e.paths[p].elements[k])))
  }

  /** Every drawing is a rectangle. */
  lemma DrawIsRectangular(o: Options, e: Element)
    requires Drawable(e)
    ensures Rectangular(Draw(o, e), Width(Draw(o, e)))
  {
    match e {
      case Instruction(mnemonic, parameters) =>
        match KindOf(o, mnemonic) {
          case Box(timed) =>
            BoxIsRectangular(ToUpper(mnemonic), parameters, timed);
            RectangularWidth(Draw(o, e), |Draw(o, e)|, BoxWidth(ToUpper(mnemonic), parameters) + 2);
          case _ =>
            RectangularWidth(Draw(o, e), |Draw(o, e)|, |Draw(o, e)[0]|);
        }
      case Branch(paths) =>
        var blocks := Children(o, e);
        BranchIsRectangular(o, blocks);
        RectangularWidth(Draw(o, e), |Draw(o, e)|, MaxWidth(Lines(o, blocks)) + 2 * o.wireLength + 2);
    }
  }

  // ----- descendants at any depth -----

  datatype Step = Step(path: nat, index: nat)

  ghost predicate Addresses(e: Element, address: seq<Step>) {
    address != [] ==>
      (e.Branch? && address[0].path < |e.paths| && address[0].index < |e.paths[address[0].path].elements|
       && Addresses(e.paths[address[0].path].elements[address[0].index], address[1..]))
  }

  ghost function At(e: Element, address: seq<Step>): Element
    requires Addresses(e, address)
  {
    if address == [] then e else At(e.paths[address[0].path].elements[address[0].index], address[1..])
  }

  ghost function RowOf(o: Options, e: Element, address: seq<Step>): nat
    requires Addresses(e, address)
  {
    if address == [] then 0
    else PathRow(o, Children(o, e), address[0].path) + RowOf(o, e.paths[address[0].path].elements[address[0].index],
      address[1..])
  }

  ghost function ColumnOf(o: Options, e: Element, address: seq<Step>): nat
    requires Addresses(e, address)
  {
    if address == [] then 0
    else
      var step := address[0];
      1 + o.wireLength + Column(o, Children(o, e)[step.path], step.index) + ColumnOf(o,
        e.paths[step.path].elements[step.index], address[1..])
  }

  lemma ChildDrawing(o: Options, e: Element, p: nat, k: nat)
    requires e.Branch? && p < |e.paths| && k < |e.paths[p].elements|
    ensures Children(o, e)[p][k] == Draw(o, e.paths[p].elements[k])
  {}

  lemma ChildAppears(o: Options, e: Element, p: nat, k: nat, blocks: seq<seq<Block>>)
    requires e.Branch? && p < |e.paths| && k < |e.paths[p].elements| && blocks == Children(o, e)
    ensures Appears(Draw(o, e.paths[p].elements[k]), Draw(o, e), PathRow(o, blocks, p),
      1 + o.wireLength + Column(o, blocks[p], k))
  {
    ChildDrawing(o, e, p, k);
    BlockAppears(o, blocks, p, k, Draw(o, e.paths[p].elements[k]), Draw(o, e));
  }

  lemma BlockAppears(o: Options, blocks: seq<seq<Block>>, p: nat, k: nat, child: Block, whole: Block)
    requires p < |blocks| && k < |blocks[p]| && child == blocks[p][k] && whole == BranchBlock(o, blocks)
    ensures Appears(child, whole, PathRow(o, blocks, p), 1 + o.wireLength + Column(o, blocks[p], k))
  {
    BranchShows(o, blocks, p, k);
  }

  lemma AppearsInItself(b: Block)
    ensures Appears(b, b, 0, 0)
  {
    assert forall r :: 0 <= r < |b| ==> RowAppears(b[r], b[r], 0);
  }

  /** Whatever is nested in an element, at any depth, appears whole in its drawing at the computed place. */
  lemma {:induction false} DescendantsAppear(o: Options, e: Element, address: seq<Step>)
    requires Addresses(e, address)
    ensures Appears(Draw(o, At(e, address)), Draw(o, e), RowOf(o, e, address), ColumnOf(o, e, address))
    decreases |address|
  {
    if address == [] {
      AppearsInItself(Draw(o, e));
    } else {
      var p, k := address[0].path, address[0].index;
      var child := e.paths[p].elements[k];
      DescendantsAppear(o, child, address[1..]);
      DescendStep(o, e, address, Draw(o, At(e, address)), Draw(o, child), Draw(o, e));
    }
  }

  lemma DescendStep(o: Options, e: Element, address: seq<Step>, inner: Block, middle: Block, outer: Block)
    requires Addresses(e, address) && address != [] && outer == Draw(o, e)
    requires middle == Draw(o, e.paths[address[0].path].elements[address[0].index])
    requires Appears(inner, middle, RowOf(o, e.paths[address[0].path].elements[address[0].index], address[1..]),
      ColumnOf(o, e.paths[address[0].path].elements[address[0].index], address[1..]))
    ensures Appears(inner, outer, RowOf(o, e, address), ColumnOf(o, e, address))
  {
    var p, k, blocks := address[0].path, address[0].index, Children(o, e);
    var child := e.paths[p].elements[k];
    var row, col := RowOf(o, child, address[1..]), ColumnOf(o, child, address[1..]);
    ChildAppears(o, e, p, k, blocks);
    AppearsTransitive(inner, middle, outer, row, col, PathRow(o, blocks, p), 1 + o.wireLength + Column(o, blocks[p], k),
      RowOf(o, e, address), ColumnOf(o, e, address));
  }

  // ----- rungs -----

  function RungRow(o: Options, blocks: seq<Block>, r: nat): string {
    "|" + Gap(o, r) + Line(o, blocks, r) + Gap(o, r) + "|"
  }

  function RungBlock(o: Options, blocks: seq<Block>): Block {
    seq(Height(blocks), (r: nat) => RungRow(o, blocks, r))
  }

  lemma RungRowShows(o: Options, blocks: seq<Block>, r: nat)
    ensures RowAppears(Line(o, blocks, r), RungRow(o, blocks, r), 1 + o.wireLength)
  {
    var left, right := "|" + Gap(o, r), Gap(o, r) + "|";
    assert RungRow(o, blocks, r) == left + Line(o, blocks, r) + right;
  }

  /** The power rails are aligned on all rows of a rung. */
  lemma RungIsRailed(o: Options, blocks: seq<Block>)
    ensures Rectangular(RungBlock(o, blocks), |Line(o, blocks, 0)| + 2 * o.wireLength + 2)
    ensures forall r :: 0 <= r < Height(blocks) ==>
      RungBlock(o, blocks)[r][0] == '|' == RungBlock(o, blocks)[r][|RungBlock(o, blocks)[r]| - 1]
  {
    forall r | 0 <= r < Height(blocks) ensures |RungRow(o, blocks, r)| == |Line(o, blocks, 0)| + 2 * o.wireLength + 2 {
      LineLength(o, blocks, r);
    }
  }

  /** Every element of a rung appears whole between the rails, at its column. */
  lemma RungShows(o: Options, blocks: seq<Block>, k: nat)
    requires k < |blocks|
    ensures Appears(blocks[k], RungBlock(o, blocks), 0, 1 + o.wireLength + Column(o, blocks, k))
  {
    HeightBounds(blocks, |blocks|, k);
    forall r | 0 <= r < |blocks[k]|
      ensures RowAppears(blocks[k][r], RungBlock(o, blocks)[r], 1 + o.wireLength + Column(o, blocks, k)) {
      LineShows(o, blocks, k, r);
      RungRowShows(o, blocks, r);
      RowTransitive(blocks[k][r], Line(o, blocks, r), RungRow(o, blocks, r), Column(o, blocks, k), 1 + o.wireLength,
        1 + o.wireLength + Column(o, blocks, k));
    }
  }
}
