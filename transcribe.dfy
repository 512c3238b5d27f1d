/** The transcription pass of `_convert_with_word_instance`: how the
    paragraphs, inline images and tables Word reports become the list of
    Markdown fragments `markdown_lines`, and how that list becomes the text
    written to the output file.

    Word itself is not modelled; a document is the record of what each call
    into Word, the file system and ImageMagick returned or whether it raised. */
module Transcribe {
  import opened Wrappers
  import opened Text
  import Normalise
  import Paths

  /** What exporting one inline shape runs into, one field per call that
      could raise or fail. */
  datatype Shape = Shape(
    itemOk: bool,      // `inline_shapes.Item(i)` returned the shape
    savedPng: bool,    // `SaveAsPicture(png_path)` succeeded
    emfWritten: bool,  // `Range.EnhMetaFileBits` was read and written to the .emf file
    magickOk: bool,    // `magick <emf> <png>` exited with status 0
    pngExists: bool)   // the .png file exists after that conversion

  /** A paragraph as Word reports it: `Range.Text` (None when reading it
      raised), `Style.NameLocal` (None when reading it raised) and the
      inline shapes (empty when `Range.InlineShapes` could not be read). */
  datatype Paragraph = Paragraph(text: Option<string>, style: Option<string>, shapes: seq<Shape>)

  /** A table: `Unreadable` when `Rows.Count` or `Columns.Count` raised;
      otherwise its counts and, for each 0-based row and column, the text of
      `Cell(r + 1, c + 1).Range` (None, or no entry at all, when that cell
      could not be read, as happens for merged cells). */
  datatype Table = Unreadable | Grid(rows: nat, cols: nat, cells: seq<seq<Option<string>>>)

  datatype Document = Document(paragraphs: seq<Paragraph>, tables: seq<Table>)

  /** The format an exported image ends up in. */
  datatype Format = Png | Emf

  /** One entry of `markdown_lines`, before it is rendered to text. */
  datatype Line =
    | Heading(level: nat, text: string)
    | Plain(text: string)
    | Image(number: nat, format: Format)
    | Blank
    | Row(cells: seq<string>)
    | Rule(cols: nat)
  {
    /** The entries the table pass emits. */
    predicate IsTablePart() {
      Blank? || Row? || Rule?
    }

    /** The entries that carry paragraph text. */
    predicate IsText() {
      Heading? || Plain?
    }
  }

  /** The f-string each entry is appended as; an image is referred to by
      its path relative to the directory of the output file, in which the
      image directory `imageDir` sits. */
  function Render(line: Line, imageDir: string): string {
    match line
    case Heading(level, text) => Repeat('#', level) + " " + text + "\n\n"
    case Plain(text) => text + "\n\n"
    case Image(n, f) => "![image" + NatToString(n) + "](" + Paths.ImageReference(imageDir, ImageFileName(n, f)) + ")\n\n"
    case Blank => "\n"
    case Row(cells) => "| " + Join(cells, " | ") + " |\n"
    case Rule(cols) => "| " + Join(seq(cols, _ => "---"), " | ") + " |\n"
  }

  /** The rendered form of a list of entries, entry by entry. */
  function Rendered(lines: seq<Line>, imageDir: string): (r: seq<string>)
    ensures |r| == |lines|
    decreases |lines|
  {
    if lines == [] then [] else Rendered(lines[..|lines| - 1], imageDir) + [Render(lines[|lines| - 1], imageDir)]
  }

  // ---------------------------------------------------------------- headings

  /** The style name holds `标题` or `Heading`. */
  predicate IsHeadingStyle(style: string) {
    Contains(style, "\U{6807}\U{9898}") || Contains(style, "Heading")
  }

  /** `str(d) in style`. */
  predicate Mentions(style: string, d: nat) {
    Contains(style, NatToString(d))
  }

  /** The first of `str(d)`, `str(d + 1)`, ..., `str(6)` found in the style
      name, or 1 when there is none. */
  function LevelFrom(style: string, d: nat): (r: nat)
    requires 1 <= d <= 7
    ensures (d <= r <= 6 && Mentions(style, r)) || (r == 1 && forall e :: d <= e <= 6 ==> !Mentions(style, e))
    ensures forall e :: d <= e < r ==> !Mentions(style, e)
    decreases 7 - d
  {
    if d == 7 then 1
    else if Mentions(style, d) then d
    else LevelFrom(style, d + 1)
  }

  /** The level of a heading style: the smallest of 1..6 whose decimal form
      occurs in the name, and 1 when none does ("Heading 3" is level 3,
      "Heading" is level 1). */
  function HeadingLevel(style: string): (r: nat)
    ensures 1 <= r <= 6
    ensures Mentions(style, r) || (r == 1 && forall e :: 1 <= e <= 6 ==> !Mentions(style, e))
    ensures forall e :: 1 <= e < r ==> !Mentions(style, e)
  {
    LevelFrom(style, 1)
  }

  /** A style name mentions a level of one digit exactly when it holds that
      digit. */
  lemma MentionsDigit(style: string, d: nat)
    requires 1 <= d <= 6
    ensures Mentions(style, d) <==> DigitChar(d) in style
  {
    assert NatToString(d) == [DigitChar(d)];
    ContainsChar(style, DigitChar(d));
  }

  /** The smallest digit wins, wherever it stands: "Heading 32" is level 2. */
  lemma HeadingLevelSmallestDigit()
    ensures HeadingLevel("Heading 32") == 2
  {
    MentionsDigit("Heading 32", 1);
    MentionsDigit("Heading 32", 2);
    assert "Heading 32"[9] == '2';
  }

  /** A heading style without a digit 1 to 6 is level 1. */
  lemma HeadingLevelDefault()
    ensures HeadingLevel("Heading") == 1
  {
    MentionsDigit("Heading", HeadingLevel("Heading"));
  }

  /** The `is_heading` / `level` computation with its `for i in range(1, 7)`
      loop and `break`. */
  method ClassifyHeading(style: string) returns (isHeading: bool, level: nat)
    ensures isHeading == IsHeadingStyle(style)
    ensures level == (if isHeading then HeadingLevel(style) else 1)
  {
    isHeading := false;
    level := 1;
    if Contains(style, "\U{6807}\U{9898}") || Contains(style, "Heading") {
      isHeading := true;
      var i := 1;
      while i < 7
        invariant 1 <= i <= 7
        invariant level == 1
        invariant HeadingLevel(style) == LevelFrom(style, i)
        decreases 7 - i
      {
        if Contains(style, NatToString(i)) {
          level := i;
          break;
        }
        i := i + 1;
      }
    }
  }

  /** The text entry of a paragraph whose text could be read: none when the
      stripped text is empty, a heading when the style is a heading style,
      plain text otherwise (also when the style could not be read). */
  function TextLines(p: Paragraph): (r: seq<Line>)
    requires p.text.Some?
    ensures |r| <= 1 && forall i :: 0 <= i < |r| ==> r[i].IsText()
  {
    var text := Strip(p.text.value);
    var style := p.style.GetOr("");
    if text == [] then []
    else if IsHeadingStyle(style) then [Heading(HeadingLevel(style), text)]
    else [Plain(text)]
  }

  // ------------------------------------------------------------------ images

  function Extension(f: Format): string {
    match f
    case Png => ".png"
    case Emf => ".emf"
  }

  /** The format an inline shape is exported in, or None when it is skipped:
      the PNG from `SaveAsPicture`, else the EMF bits converted by
      ImageMagick, falling back to the EMF file itself. */
  function ImageExport(s: Shape): (r: Option<Format>)
    ensures r.Some? <==> s.itemOk && (s.savedPng || s.emfWritten)
    ensures r == Some(Png) <==> s.itemOk && (s.savedPng || (s.emfWritten && s.magickOk && s.pngExists))
  {
    if !s.itemOk then None
    else if s.savedPng then Some(Png)
    else if !s.emfWritten then None
    else if s.magickOk && s.pngExists then Some(Png)
    else Some(Emf)
  }

  /** `img_<n>.png` or `img_<n>.emf`. */
  function ImageFileName(n: nat, f: Format): (r: string)
    ensures Paths.NoSep(r)
    ensures |r| > 4 && r[..4] == "img_"
    ensures |r| == 8 + |NatToString(n)| && r[4..|r| - 4] == NatToString(n) && r[|r| - 4..] == Extension(f)
  {
    var r := "img_" + NatToString(n) + Extension(f);
    assert forall i :: 0 <= i < |NatToString(n)| ==> r[4 + i] == NatToString(n)[i];
    r
  }

  /** Different images get different file names: the name gives back both
      the index and the format. */
  lemma ImageFileNameInjective(m: nat, f: Format, n: nat, g: Format)
    requires ImageFileName(m, f) == ImageFileName(n, g)
    ensures m == n && f == g
  {
    var a, b := ImageFileName(m, f), ImageFileName(n, g);
    assert NatToString(m) == a[4..|a| - 4] == b[4..|b| - 4] == NatToString(n);
    NatToStringInjective(m, n);
    assert Extension(f) == a[|a| - 4..] == b[|b| - 4..] == Extension(g);
  }

  /** How many of the shapes are exported. */
  function Exported(shapes: seq<Shape>): nat
    decreases |shapes|
  {
    if shapes == [] then 0
    else Exported(shapes[..|shapes| - 1]) + (if ImageExport(shapes[|shapes| - 1]).Some? then 1 else 0)
  }

  /** The image entries of one paragraph, numbered from `start`. */
  function ImageLines(shapes: seq<Shape>, start: nat): (r: seq<Line>)
    ensures |r| == Exported(shapes)
    ensures forall i :: 0 <= i < |r| ==> r[i].Image?
    decreases |shapes|
  {
    if shapes == [] then []
    else
      var init := shapes[..|shapes| - 1];
      var rest := ImageLines(init, start);
      match ImageExport(shapes[|shapes| - 1])
      case None => rest
      case Some(f) => rest + [Image(start + Exported(init), f)]
  }

  // -------------------------------------------------------------- paragraphs


  /** The number of images a paragraph contributes: none when its text
      cannot be read, since the whole paragraph is then skipped. */
  function ParagraphExported(p: Paragraph): nat {
    if p.text.None? then 0 else Exported(p.shapes)
  }

  /** The entries of one paragraph: its text entry, then its images. */
  function ParagraphLines(p: Paragraph, start: nat): (r: seq<Line>)
    ensures forall i :: 0 <= i < |r| ==> r[i].IsText() || r[i].Image?
  {
    if p.text.None? then [] else TextLines(p) + ImageLines(p.shapes, start)
  }

  /** The number of images the paragraphs contribute. */
  function ParagraphsExported(paras: seq<Paragraph>): nat
    decreases |paras|
  {
    if paras == [] then 0
    else ParagraphsExported(paras[..|paras| - 1]) + ParagraphExported(paras[|paras| - 1])
  }

  /** The entries of the paragraph pass; image numbers continue from one
      paragraph to the next, starting at 1. */
  function ParagraphsLines(paras: seq<Paragraph>): (r: seq<Line>)
    ensures forall i :: 0 <= i < |r| ==> r[i].IsText() || r[i].Image?
    decreases |paras|
  {
    if paras == [] then []
    else
      var init := paras[..|paras| - 1];
      ParagraphsLines(init) + ParagraphLines(paras[|paras| - 1], 1 + ParagraphsExported(init))
  }

  // ------------------------------------------------------------------ tables

  /** A cell's raw text with the end-of-cell mark "\r\x07" removed and
      the remaining carriage returns and line feeds turned into spaces. */
  function CleanCell(t: string): (c: string)
    ensures '\r' !in c && '\n' !in c
  {
    var a := ReplaceAll(t, "\r\U{7}", "");
    var b := ReplaceAll(a, "\r", " ");
    ReplaceCharRemoves(a, '\r', " ");
    ReplaceCharRemoves(b, '\n', " ");
    ReplaceAll(b, "\n", " ")
  }

  /** Stripping keeps a character out. */
  lemma StripKeepsOut(s: string, ch: char)
    requires ch !in s
    ensures ch !in Strip(s)
  {
    StripIsMiddle(s);
  }

  /** A cell's text as the table pass writes it: cleaned and stripped; ""
      when the cell cannot be read. */
  function CellText(raw: Option<string>): (r: string)
    ensures '\r' !in r && '\n' !in r
    ensures r == [] || (!IsSpace(r[0]) && !IsSpace(r[|r| - 1]))
    ensures raw.None? ==> r == ""
  {
    match raw
    case None => ""
    case Some(t) =>
      var c := CleanCell(t);
      StripKeepsOut(c, '\r');
      StripKeepsOut(c, '\n');
      Strip(c)
  }

  /** Once the end-of-cell marks are gone, every carriage return and every
      line feed of a cell becomes a space at the same position, and the
      written text is that, stripped. */
  lemma CleanCellMapsBreaks(t: string)
    ensures var a := ReplaceAll(t, "\r\U{7}", "");
      && CleanCell(t) == MapChar(MapChar(a, '\r', ' '), '\n', ' ')
      && CellText(Some(t)) == Strip(MapChar(MapChar(a, '\r', ' '), '\n', ' '))
  {
    var a := ReplaceAll(t, "\r\U{7}", "");
    ReplaceOneChar(a, '\r', ' ');
    ReplaceOneChar(MapChar(a, '\r', ' '), '\n', ' ');
  }

  /** Cleaning a cell keeps its visible text: a character that is not
      whitespace and not the bell of the end-of-cell mark is in the cell's
      text exactly when it is in the raw text. */
  lemma CellKeepsText(t: string, c: char)
    requires !IsSpace(c) && c != '\U{7}'
    ensures c in CellText(Some(t)) <==> c in t
  {
    assert IsSpace('\r') && IsSpace('\n');
    var a := ReplaceAll(t, "\r\U{7}", "");
    var b := ReplaceAll(a, "\r", " ");
    ReplaceAllKeeps(t, "\r\U{7}", "", c);
    ReplaceAllKeeps(a, "\r", " ", c);
    ReplaceAllKeeps(b, "\n", " ", c);
    StripKeeps(CleanCell(t), c);
  }

  /** A readable cell whose text has no carriage return, no line feed and
      no whitespace at either end is written as it is. */
  lemma CellKeepsPlainText(t: string)
    requires '\r' !in t && '\n' !in t
    requires t == [] || (!IsSpace(t[0]) && !IsSpace(t[|t| - 1]))
    ensures CellText(Some(t)) == t
  {
    ReplaceAllAbsent(t, "\r\U{7}", "");
    ReplaceAllAbsent(t, "\r", " ");
    ReplaceAllAbsent(t, "\n", " ");
    StripUnspaced(t);
  }

  /** The cell at a 0-based position, None where the grid has no entry. */
  function CellAt(grid: seq<seq<Option<string>>>, r: nat, c: nat): Option<string> {
    if r < |grid| && c < |grid[r]| then grid[r][c] else None
  }

  /** The first `n` cell texts of row `r`. */
  function RowCells(grid: seq<seq<Option<string>>>, r: nat, n: nat): (cells: seq<string>)
    ensures |cells| == n
  {
    if n == 0 then [] else RowCells(grid, r, n - 1) + [CellText(CellAt(grid, r, n - 1))]
  }

  /** The entries of the first `n` rows, the header rule following row 0. */
  function RowLines(grid: seq<seq<Option<string>>>, n: nat, cols: nat): (r: seq<Line>)
    ensures |r| == (if n == 0 then 0 else n + 1)
    ensures forall i :: 0 <= i < |r| ==> r[i].IsTablePart()
  {
    if n == 0 then []
    else RowLines(grid, n - 1, cols) + [Row(RowCells(grid, n - 1, cols))] + (if n == 1 then [Rule(cols)] else [])
  }

  /** The entries of one table: nothing for an unreadable or empty table,
      otherwise a blank line, the header row, the rule, the other rows and a
      blank line. */
  function TableLines(t: Table): (r: seq<Line>)
    ensures r == [] <==> t.Unreadable? || t.rows == 0 || t.cols == 0
    ensures forall i :: 0 <= i < |r| ==> r[i].IsTablePart()
  {
    match t
    case Unreadable => []
    case Grid(rows, cols, grid) =>
      if rows == 0 || cols == 0 then [] else [Blank] + RowLines(grid, rows, cols) + [Blank]
  }

  function TablesLines(tables: seq<Table>): (r: seq<Line>)
    ensures forall i :: 0 <= i < |r| ==> r[i].IsTablePart()
    decreases |tables|
  {
    if tables == [] then [] else TablesLines(tables[..|tables| - 1]) + TableLines(tables[|tables| - 1])
  }

  // ---------------------------------------------------------------- document

  /** `markdown_lines` at the end of both passes. */
  function DocumentLines(doc: Document): seq<Line> {
    ParagraphsLines(doc.paragraphs) + TablesLines(doc.tables)
  }

  /** The text written to the output file: the rendered entries joined,
      then cleaned up unless `--no-optimize` was given. */
  function Markdown(doc: Document, mdPath: string, optimize: bool): (r: string)
    ensures !optimize ==> r == Join(Rendered(DocumentLines(doc), Paths.ImageDirName(mdPath)), "")
    ensures optimize ==> BELL !in r && Normalise.NoTripleNewline(r)
    ensures optimize ==> r == Normalise.Optimize(Join(Rendered(DocumentLines(doc), Paths.ImageDirName(mdPath)), ""))
  {
    var raw := Join(Rendered(DocumentLines(doc), Paths.ImageDirName(mdPath)), "");
    if optimize then Normalise.Optimize(raw) else raw
  }

  /** The optimised output is already clean: optimising it again changes
      nothing. */
  lemma MarkdownStable(doc: Document, mdPath: string)
    ensures Normalise.Optimize(Markdown(doc, mdPath, true)) == Markdown(doc, mdPath, true)
  {
    Normalise.OptimizeIdempotent(Join(Rendered(DocumentLines(doc), Paths.ImageDirName(mdPath)), ""));
  }

  // Unfolding steps the loops below take, one element at a time.

  lemma ImageLinesSnoc(shapes: seq<Shape>, s: Shape, start: nat)
    ensures Exported(shapes + [s]) == Exported(shapes) + (if ImageExport(s).Some? then 1 else 0)
    ensures ImageLines(shapes + [s], start) ==
      ImageLines(shapes, start) +
      (match ImageExport(s) case Some(f) => [Image(start + Exported(shapes), f)] case None => [])
  {
    assert (shapes + [s])[..|shapes|] == shapes;
  }

  lemma ParagraphsLinesSnoc(paras: seq<Paragraph>, p: Paragraph)
    ensures ParagraphsExported(paras + [p]) == ParagraphsExported(paras) + ParagraphExported(p)
    ensures ParagraphsLines(paras + [p]) ==
      ParagraphsLines(paras) + ParagraphLines(p, 1 + ParagraphsExported(paras))
  {
    assert (paras + [p])[..|paras|] == paras;
  }

  lemma TablesLinesSnoc(tables: seq<Table>, t: Table)
    ensures TablesLines(tables + [t]) == TablesLines(tables) + TableLines(t)
  {
    assert (tables + [t])[..|tables|] == tables;
  }

  /** `ParagraphsLinesSnoc` at position `k` of a sequence. */
  lemma ParagraphsLinesStep(paras: seq<Paragraph>, k: nat)
    requires k < |paras|
    ensures ParagraphsExported(paras[..k + 1]) == ParagraphsExported(paras[..k]) + ParagraphExported(paras[k])
    ensures ParagraphsLines(paras[..k + 1]) ==
      ParagraphsLines(paras[..k]) + ParagraphLines(paras[k], 1 + ParagraphsExported(paras[..k]))
  {
    assert paras[..k + 1] == paras[..k] + [paras[k]];
    ParagraphsLinesSnoc(paras[..k], paras[k]);
  }

  /** `TablesLinesSnoc` at position `t` of a sequence. */
  lemma TablesLinesStep(tables: seq<Table>, t: nat)
    requires t < |tables|
    ensures TablesLines(tables[..t + 1]) == TablesLines(tables[..t]) + TableLines(tables[t])
  {
    assert tables[..t + 1] == tables[..t] + [tables[t]];
    TablesLinesSnoc(tables[..t], tables[t]);
  }

  // ------------------------------------------------------------ properties

  /** A paragraph whose text can be read yields a text entry exactly when
      its stripped text is non-empty; the entry holds that text, and it is
      a heading, at `HeadingLevel` of the style, exactly when the style is a
      heading style. */
  lemma TextLinesOf(p: Paragraph)
    requires p.text.Some?
    ensures TextLines(p) == [] <==> AllSpace(p.text.value)
    ensures TextLines(p) != [] ==>
      && TextLines(p)[0].text == Strip(p.text.value)
      && (TextLines(p)[0].Heading? <==> IsHeadingStyle(p.style.GetOr("")))
      && (TextLines(p)[0].Heading? ==> TextLines(p)[0].level == HeadingLevel(p.style.GetOr("")))
  {
  }

  /** The numbers of the image entries, in order. */
  function ImageNumbers(lines: seq<Line>): seq<nat>
    decreases |lines|
  {
    if lines == [] then []
    else
      var last := lines[|lines| - 1];
      ImageNumbers(lines[..|lines| - 1]) + (if last.Image? then [last.number] else [])
  }

  lemma {:induction false} ImageNumbersConcat(a: seq<Line>, b: seq<Line>)
    ensures ImageNumbers(a + b) == ImageNumbers(a) + ImageNumbers(b)
    decreases |b|
  {
    if b == [] {
      assert a + b == a;
    } else {
      var n := |b| - 1;
      assert (a + b)[..|a + b| - 1] == a + b[..n];
      ImageNumbersConcat(a, b[..n]);
    }
  }

  /** `n` consecutive numbers from `from`. */
  function Consecutive(from: nat, n: nat): (r: seq<nat>)
    ensures |r| == n && forall i :: 0 <= i < n ==> r[i] == from + i
  {
    seq(n, i requires 0 <= i < n => from + i)
  }

  lemma {:induction false} ImageLinesNumbered(shapes: seq<Shape>, start: nat)
    ensures ImageNumbers(ImageLines(shapes, start)) == Consecutive(start, Exported(shapes))
    decreases |shapes|
  {
    if shapes != [] {
      var init := shapes[..|shapes| - 1];
      var e := Exported(init);
      ImageLinesNumbered(init, start);
      match ImageExport(shapes[|shapes| - 1])
      case None =>
        assert ImageLines(shapes, start) == ImageLines(init, start);
      case Some(f) =>
        ImageNumbersConcat(ImageLines(init, start), [Image(start + e, f)]);
        assert ImageNumbers([Image(start + e, f)]) == [start + e] by {
          assert [Image(start + e, f)][..0] == [];
        }
        assert Consecutive(start, e) + [start + e] == Consecutive(start, e + 1);
    }
  }

  /** No image entries among the given lines. */
  lemma {:induction false} NoImageNumbers(lines: seq<Line>)
    requires forall i :: 0 <= i < |lines| ==> !lines[i].Image?
    ensures ImageNumbers(lines) == []
    decreases |lines|
  {
    if lines != [] {
      NoImageNumbers(lines[..|lines| - 1]);
    }
  }

  lemma ConsecutiveConcat(from: nat, m: nat, n: nat)
    ensures Consecutive(from, m) + Consecutive(from + m, n) == Consecutive(from, m + n)
  {
  }

  /** Two consecutively numbered runs of entries, one after the other,
      are numbered consecutively. */
  lemma NumberedConcat(a: seq<Line>, b: seq<Line>, from: nat, m: nat, n: nat)
    requires ImageNumbers(a) == Consecutive(from, m)
    requires ImageNumbers(b) == Consecutive(from + m, n)
    ensures ImageNumbers(a + b) == Consecutive(from, m + n)
  {
    ImageNumbersConcat(a, b);
    ConsecutiveConcat(from, m, n);
  }

  lemma ParagraphNumbered(p: Paragraph, start: nat)
    ensures ImageNumbers(ParagraphLines(p, start)) == Consecutive(start, ParagraphExported(p))
  {
    if p.text.Some? {
      NoImageNumbers(TextLines(p));
      ImageNumbersConcat(TextLines(p), ImageLines(p.shapes, start));
      ImageLinesNumbered(p.shapes, start);
    }
  }

  lemma {:induction false} ParagraphsNumbered(paras: seq<Paragraph>)
    ensures ImageNumbers(ParagraphsLines(paras)) == Consecutive(1, ParagraphsExported(paras))
    decreases |paras|
  {
    if paras != [] {
      var init := paras[..|paras| - 1];
      var p := paras[|paras| - 1];
      var e := ParagraphsExported(init);
      ParagraphsNumbered(init);
      ParagraphNumbered(p, 1 + e);
      NumberedConcat(ParagraphsLines(init), ParagraphLines(p, 1 + e), 1, e, ParagraphExported(p));
    }
  }

  /** Images are numbered 1, 2, 3, ... in document order, without gaps or
      repeats, one number per exported image; tables hold none. */
  lemma DocumentImagesNumbered(doc: Document)
    ensures ImageNumbers(DocumentLines(doc)) == Consecutive(1, ParagraphsExported(doc.paragraphs))
  {
    ParagraphsNumbered(doc.paragraphs);
    NoImageNumbers(TablesLines(doc.tables));
    ImageNumbersConcat(ParagraphsLines(doc.paragraphs), TablesLines(doc.tables));
  }

  /** In `a + b`, where no entry of `a` and every entry of `b` is a table
      entry, every entry after a table entry is a table entry. */
  lemma PartsInOrder(a: seq<Line>, b: seq<Line>)
    requires forall i :: 0 <= i < |a| ==> !a[i].IsTablePart()
    requires forall i :: 0 <= i < |b| ==> b[i].IsTablePart()
    ensures forall i, j :: 0 <= i < j < |a + b| && (a + b)[i].IsTablePart() ==> (a + b)[j].IsTablePart()
  {
  }

  /** Every table entry comes after every paragraph entry: once a table
      entry appears, all entries after it are table entries. */
  lemma TablesAfterParagraphs(doc: Document)
    ensures var lines := DocumentLines(doc);
      forall i, j :: 0 <= i < j < |lines| && lines[i].IsTablePart() ==> lines[j].IsTablePart()
  {
    PartsInOrder(ParagraphsLines(doc.paragraphs), TablesLines(doc.tables));
  }

  /** The number of text entries. */
  function TextCount(lines: seq<Line>): nat
    decreases |lines|
  {
    if lines == [] then 0
    else TextCount(lines[..|lines| - 1]) + (if lines[|lines| - 1].IsText() then 1 else 0)
  }

  lemma {:induction false} TextCountConcat(a: seq<Line>, b: seq<Line>)
    ensures TextCount(a + b) == TextCount(a) + TextCount(b)
    decreases |b|
  {
    if b == [] {
      assert a + b == a;
    } else {
      var n := |b| - 1;
      assert (a + b)[..|a + b| - 1] == a + b[..n];
      TextCountConcat(a, b[..n]);
    }
  }

  lemma {:induction false} NoTextCount(lines: seq<Line>)
    requires forall i :: 0 <= i < |lines| ==> !lines[i].IsText()
    ensures TextCount(lines) == 0
    decreases |lines|
  {
    if lines != [] {
      NoTextCount(lines[..|lines| - 1]);
    }
  }

  /** The paragraphs whose text can be read and is not only whitespace. */
  function NonBlankParagraphs(paras: seq<Paragraph>): nat
    decreases |paras|
  {
    if paras == [] then 0
    else
      var p := paras[|paras| - 1];
      NonBlankParagraphs(paras[..|paras| - 1]) + (if p.text.Some? && !AllSpace(p.text.value) then 1 else 0)
  }

  /** One text entry per paragraph with readable, non-blank text, and none
      otherwise (a paragraph of images only yields just its images). */
  lemma {:induction false} OneTextEntryPerParagraph(paras: seq<Paragraph>)
    ensures TextCount(ParagraphsLines(paras)) == NonBlankParagraphs(paras)
    decreases |paras|
  {
    if paras != [] {
      var init := paras[..|paras| - 1];
      var p := paras[|paras| - 1];
      var start := 1 + ParagraphsExported(init);
      OneTextEntryPerParagraph(init);
      TextCountConcat(ParagraphsLines(init), ParagraphLines(p, start));
      if p.text.Some? {
        TextCountConcat(TextLines(p), ImageLines(p.shapes, start));
        NoTextCount(ImageLines(p.shapes, start));
        TextLinesOf(p);
        if TextLines(p) != [] {
          assert TextLines(p)[..0] == [];
        }
      } else {
        assert ParagraphLines(p, start) == [];
      }
    }
  }

  /** The table pass adds no text entries. */
  lemma TablesHoldNoText(tables: seq<Table>)
    ensures TextCount(TablesLines(tables)) == 0
  {
    NoTextCount(TablesLines(tables));
  }

  /** The rows of a table, in order: row 0, the rule, then rows 1.. */
  lemma {:induction false} RowLinesShape(grid: seq<seq<Option<string>>>, n: nat, cols: nat)
    requires n > 0
    ensures var r := RowLines(grid, n, cols);
      && r[0] == Row(RowCells(grid, 0, cols)) && r[1] == Rule(cols)
      && forall j :: 1 <= j < n ==> r[j + 1] == Row(RowCells(grid, j, cols))
    decreases n
  {
    if n > 1 {
      RowLinesShape(grid, n - 1, cols);
    }
  }

  /** An emitted table is a blank line, the header row, the rule, the
      other rows in order and a blank line; every row has one cell per
      column. */
  lemma TableShape(t: Table)
    requires t.Grid? && t.rows > 0 && t.cols > 0
    ensures var r := TableLines(t);
      && |r| == t.rows + 3 && r[0] == Blank && r[|r| - 1] == Blank
      && r[1] == Row(RowCells(t.cells, 0, t.cols)) && r[2] == Rule(t.cols)
      && forall j :: 1 <= j < t.rows ==> r[j + 2] == Row(RowCells(t.cells, j, t.cols))
  {
    RowLinesShape(t.cells, t.rows, t.cols);
  }

  /** Cell `c` of a row is the cleaned text of the cell at that position. */
  lemma {:induction false} RowCellsAt(grid: seq<seq<Option<string>>>, r: nat, n: nat, c: nat)
    requires c < n
    ensures RowCells(grid, r, n)[c] == CellText(CellAt(grid, r, c))
    decreases n
  {
    if c < n - 1 {
      RowCellsAt(grid, r, n - 1, c);
    }
  }

  /** An image entry is rendered as a link to `<image directory>/img_<n>.<ext>`;
      the image directory `Paths.ImageDirName` computes has no backslash. */
  lemma RenderImage(n: nat, f: Format, imageDir: string)
    requires '\\' !in imageDir
    ensures Render(Image(n, f), imageDir) ==
      "![image" + NatToString(n) + "](" + imageDir + "/" + ImageFileName(n, f) + ")\n\n"
  {
    Paths.ImageReferenceShape(imageDir, ImageFileName(n, f));
  }

  /** The text part of the paragraph loop's body. */
  method TranscribeText(para: Paragraph) returns (entries: seq<Line>)
    requires para.text.Some?
    ensures entries == TextLines(para)
  {
    entries := [];
    var text := Strip(para.text.value);
    if text != [] {
      var isHeading, level := ClassifyHeading(para.style.GetOr(""));
      if isHeading {
        entries := [Heading(level, text)];
      } else {
        entries := [Plain(text)];
      }
    }
  }

  /** The image part of the paragraph loop's body: the entries appended for
      the shapes and the image counter after them. */
  method TranscribeImages(shapes: seq<Shape>, start: nat) returns (entries: seq<Line>, next: nat)
    ensures entries == ImageLines(shapes, start)
    ensures next == start + Exported(shapes)
  {
    entries := [];
    next := start;
    var i := 0;
    while i < |shapes|
      invariant 0 <= i <= |shapes|
      invariant entries == ImageLines(shapes[..i], start)
      invariant next == start + Exported(shapes[..i])
    {
      assert shapes[..i + 1] == shapes[..i] + [shapes[i]];
      ImageLinesSnoc(shapes[..i], shapes[i], start);
      match ImageExport(shapes[i]) {
        case Some(f) =>
          entries := entries + [Image(next, f)];
          next := next + 1;
        case None =>
      }
      i := i + 1;
    }
    assert shapes[..i] == shapes;
  }

  /** The body of the paragraph loop for one paragraph; a paragraph whose
      text cannot be read is skipped altogether. */
  method TranscribeParagraph(para: Paragraph, start: nat) returns (entries: seq<Line>, next: nat)
    ensures entries == ParagraphLines(para, start)
    ensures next == start + ParagraphExported(para)
  {
    entries := [];
    next := start;
    if para.text.Some? {
      var text := TranscribeText(para);
      var images;
      images, next := TranscribeImages(para.shapes, start);
      entries := text + images;
    }
  }

  /** The cell texts of row `r`, collected cell by cell. */
  method TranscribeRow(grid: seq<seq<Option<string>>>, r: nat, cols: nat) returns (cells: seq<string>)
    ensures cells == RowCells(grid, r, cols)
  {
    cells := [];
    var c := 0;
    while c < cols
      invariant 0 <= c <= cols
      invariant cells == RowCells(grid, r, c)
    {
      cells := cells + [CellText(CellAt(grid, r, c))];
      c := c + 1;
    }
  }

  /** The body of the table loop for one table. */
  method TranscribeTable(table: Table) returns (entries: seq<Line>)
    ensures entries == TableLines(table)
  {
    entries := [];
    match table {
      case Unreadable =>
      case Grid(rows, cols, grid) =>
        if rows != 0 && cols != 0 {
          var rowEntries: seq<Line> := [];
          var r := 0;
          while r < rows
            invariant 0 <= r <= rows
            invariant rowEntries == RowLines(grid, r, cols)
          {
            var cells := TranscribeRow(grid, r, cols);
            ghost var expected := RowCells(grid, r, cols);
            assert cells == expected;
            rowEntries := rowEntries + [Row(cells)];
            if r == 0 {
              rowEntries := rowEntries + [Rule(cols)];
            }
            r := r + 1;
          }
          entries := [Blank] + rowEntries + [Blank];
        }
    }
  }

  /** The paragraph pass, numbering images from 1. */
  method TranscribeParagraphs(paras: seq<Paragraph>) returns (lines: seq<Line>)
    ensures lines == ParagraphsLines(paras)
  {
    lines := [];
    var imageIndex := 1;
    var k := 0;
    while k < |paras|
      invariant 0 <= k <= |paras|
      invariant lines == ParagraphsLines(paras[..k])
      invariant imageIndex == 1 + ParagraphsExported(paras[..k])
    {
      ParagraphsLinesStep(paras, k);
      var entries, next := TranscribeParagraph(paras[k], imageIndex);
      lines := lines + entries;
      imageIndex := next;
      k := k + 1;
    }
    assert paras[..k] == paras;
  }

  /** The table pass. */
  method TranscribeTables(tables: seq<Table>) returns (lines: seq<Line>)
    ensures lines == TablesLines(tables)
  {
    lines := [];
    var t := 0;
    while t < |tables|
      invariant 0 <= t <= |tables|
      invariant lines == TablesLines(tables[..t])
    {
      TablesLinesStep(tables, t);
      var entries := TranscribeTable(tables[t]);
      lines := lines + entries;
      t := t + 1;
    }
    assert tables[..t] == tables;
  }

  /** The two passes of `_convert_with_word_instance`: all paragraphs
      first, then all tables, appended to one `markdown_lines`. */
  method Transcribe(doc: Document) returns (lines: seq<Line>)
    ensures lines == DocumentLines(doc)
  {
    var paragraphs := TranscribeParagraphs(doc.paragraphs);
    var tables := TranscribeTables(doc.tables);
    lines := paragraphs + tables;
  }
}
