/** `make_label_pdf`: one landscape label page per piece, each with its file name. The
    page is modelled as what is drawn on it (size, font, the three text cells), not as
    the bytes of a PDF file. */
module LabelPages {
  import opened Text
  import opened Seqs
  import opened Decimal

  datatype Orientation = Portrait | Landscape
  datatype Align = AlignLeft | AlignCenter | AlignRight

  datatype Font = Font(family: string, bold: bool, size: nat)

  /** One `cell(width, height, text, ln=1, align=...)` call: a box whose top edge is at
      `y` inches, the text aligned inside it. Where the box starts horizontally (the
      left margin) is not recorded. */
  datatype Cell = Cell(y: real, width: real, height: real, align: Align, text: string)

  /** One rendered page, recorded as the arguments it is made from: the orientation and
      the `format` tuple passed to `FPDF`, the font, and the cells drawn. */
  datatype Page = Page(orientation: Orientation, format: (real, real), font: Font, cells: seq<Cell>)

  /** One entry of the list `make_label_pdf` returns: (file name, the page). */
  datatype LabelFile = LabelFile(name: string, page: Page)

  /** `format=(11, 8.5)` */
  const Format: (real, real) := (11.0, 8.5)
  const LabelFont := Font("Arial", true, 72)
  /** `set_y(1.0)` before the first cell. */
  const FirstCellY: real := 1.0
  /** Each cell is 11 in wide and 2 in tall; `ln=1` moves down by its height. */
  const CellWidth: real := 11.0
  const CellHeight: real := 2.0

  function Min(a: real, b: real): real {
    if a <= b then a else b
  }

  /** `f"{bol}_{i}_of_{qty}.pdf"` */
  function FileName(bol: string, i: nat, qty: nat): string {
    bol + ("_" + (ToDecimal(i) + ("_of_" + (ToDecimal(qty) + ".pdf"))))
  }

  /** The three lines of the label for piece `i` of `qty`, top to bottom. */
  function LabelLines(so: string, scac: string, i: nat, qty: nat): seq<string> {
    ["SALES ORDER: " + so, "SCAC: " + scac, "PIECE " + ToDecimal(i) + " of " + ToDecimal(qty)]
  }

  /** `lines` drawn as full-width centred cells from `y` down, one under the other. */
  function Stack(lines: seq<string>, y: real): (cells: seq<Cell>)
    ensures |cells| == |lines|
    ensures forall k :: 0 <= k < |cells| ==>
      cells[k] == Cell(y + (k as real) * CellHeight, CellWidth, CellHeight, AlignCenter, lines[k])
  {
    if lines == [] then []
    else [Cell(y, CellWidth, CellHeight, AlignCenter, lines[0])] + Stack(lines[1..], y + CellHeight)
  }

  /** The page for piece `i` of `qty`: landscape, format (11, 8.5), Arial bold 72 pt,
      and exactly the three label lines, each in an 11 in wide centred cell. The cells
      stack downwards from 1 in and end at 7 in, less than either side of the format,
      so they fit vertically whichever side of the format is the page's height. */
  function LabelPage(so: string, scac: string, i: nat, qty: nat): (p: Page)
    ensures p.orientation == Landscape && p.format == (11.0, 8.5) && p.font == Font("Arial", true, 72)
    ensures |p.cells| == 3
    ensures p.cells[0].text == "SALES ORDER: " + so
    ensures p.cells[1].text == "SCAC: " + scac
    ensures p.cells[2].text == "PIECE " + ToDecimal(i) + " of " + ToDecimal(qty)
    ensures forall k :: 0 <= k < 3 ==>
      && p.cells[k].align == AlignCenter && p.cells[k].width == 11.0 && p.cells[k].height == 2.0
      && 0.0 <= p.cells[k].y && p.cells[k].y + p.cells[k].height <= Min(p.format.0, p.format.1)
    ensures p.cells[0].y == 1.0
    ensures forall k :: 0 <= k < 2 ==> p.cells[k].y + p.cells[k].height == p.cells[k + 1].y
  {
    Page(Landscape, Format, LabelFont, Stack(LabelLines(so, scac, i, qty), FirstCellY))
  }

  function Label(bol: string, so: string, scac: string, i: nat, qty: nat): LabelFile {
    LabelFile(FileName(bol, i, qty), LabelPage(so, scac, i, qty))
  }

  /** What `make_label_pdf(bol, so, scac, qty)` returns: pieces 1 to `qty` in order,
      nothing at all when `qty` is 0 or less. */
  function Labels(bol: string, so: string, scac: string, qty: int): seq<LabelFile> {
    if qty <= 0 then []
    else seq(qty, k requires 0 <= k < qty => Label(bol, so, scac, k + 1, qty))
  }

  /** `make_label_pdf`: the loop `for i in range(1, qty + 1)` appending one entry per
      piece. */
  method MakeLabelPdf(bol: string, so: string, scac: string, qty: int) returns (pdfs: seq<LabelFile>)
    ensures pdfs == Labels(bol, so, scac, qty)
    ensures |pdfs| == if qty > 0 then qty else 0
    ensures forall k :: 0 <= k < |pdfs| ==>
      pdfs[k].name == bol + "_" + ToDecimal(k + 1) + "_of_" + ToDecimal(qty) + ".pdf"
  {
    pdfs := [];
    var i := 1;
    while i <= qty
      invariant 1 <= i <= if qty >= 1 then qty + 1 else 1
      invariant |pdfs| == i - 1
      invariant forall k :: 0 <= k < |pdfs| ==> qty >= 1 && pdfs[k] == Label(bol, so, scac, k + 1, qty)
    {
      var page := LabelPage(so, scac, i, qty);
      pdfs := pdfs + [LabelFile(FileName(bol, i, qty), page)];
      i := i + 1;
    }
    LabelsByPiece(bol, so, scac, qty, pdfs);
  }

  /** A list holding piece `k + 1` at every index `k`, one per piece, is what
      `make_label_pdf` returns, and its names read as the f-string. */
  lemma LabelsByPiece(bol: string, so: string, scac: string, qty: int, pdfs: seq<LabelFile>)
    requires |pdfs| == if qty > 0 then qty else 0
    requires forall k :: 0 <= k < |pdfs| ==> qty >= 1 && pdfs[k] == Label(bol, so, scac, k + 1, qty)
    ensures pdfs == Labels(bol, so, scac, qty)
    ensures forall k :: 0 <= k < |pdfs| ==>
      pdfs[k].name == bol + "_" + ToDecimal(k + 1) + "_of_" + ToDecimal(qty) + ".pdf"
  {
    if qty > 0 {
      var expected := Labels(bol, so, scac, qty);
      assert forall k :: 0 <= k < qty ==> pdfs[k] == expected[k];
    }
    forall k | 0 <= k < |pdfs|
      ensures pdfs[k].name == bol + "_" + ToDecimal(k + 1) + "_of_" + ToDecimal(qty) + ".pdf"
    {
      FileNameSpelled(bol, k + 1, qty);
    }
  }

  /** The right-nested concatenation of `FileName` is the f-string read left to right. */
  lemma FileNameSpelled(bol: string, i: nat, qty: nat)
    ensures FileName(bol, i, qty) == bol + "_" + ToDecimal(i) + "_of_" + ToDecimal(qty) + ".pdf"
  {
    var c, e := ToDecimal(i), ToDecimal(qty);
    Associative(bol + "_" + c + "_of_", e, ".pdf");
    Associative(bol + "_" + c, "_of_", e + ".pdf");
    Associative(bol + "_", c, "_of_" + (e + ".pdf"));
    Associative(bol, "_", c + ("_of_" + (e + ".pdf")));
  }

  lemma DropPrefix(a: string, x: string, y: string)
    requires a + x == a + y
    ensures x == y
  {
    assert x == (a + x)[|a|..];
    assert y == (a + y)[|a|..];
  }

  /** In `d + r`, the digits are exactly the first |d| characters. */
  lemma FirstNonDigit(d: string, r: string)
    requires IsDigits(d) && |r| > 0 && !IsDigit(r[0])
    ensures forall k :: 0 <= k < |d| ==> IsDigit((d + r)[k])
    ensures !IsDigit((d + r)[|d|])
  {
  }

  /** A digit string followed by a non-digit splits only one way. */
  lemma DigitsThenOther(d1: string, r1: string, d2: string, r2: string)
    requires IsDigits(d1) && IsDigits(d2)
    requires |r1| > 0 && |r2| > 0 && !IsDigit(r1[0]) && !IsDigit(r2[0])
    requires d1 + r1 == d2 + r2
    ensures d1 == d2 && r1 == r2
  {
    FirstNonDigit(d1, r1);
    FirstNonDigit(d2, r2);
    assert |d1| == |d2|;
    assert d1 == (d1 + r1)[..|d1|] && d2 == (d2 + r2)[..|d2|];
    assert r1 == (d1 + r1)[|d1|..] && r2 == (d2 + r2)[|d2|..];
  }

  /** The file name gives back the piece number and the piece count it was made from. */
  lemma FileNameInjective(bol: string, i: nat, qty: nat, i': nat, qty': nat)
    requires FileName(bol, i, qty) == FileName(bol, i', qty')
    ensures i == i' && qty == qty'
  {
    var tail := "_of_" + (ToDecimal(qty) + ".pdf");
    var tail' := "_of_" + (ToDecimal(qty') + ".pdf");
    DropPrefix(bol, "_" + (ToDecimal(i) + tail), "_" + (ToDecimal(i') + tail'));
    DropPrefix("_", ToDecimal(i) + tail, ToDecimal(i') + tail');
    DigitsThenOther(ToDecimal(i), tail, ToDecimal(i'), tail');
    ToDecimalInjective(i, i');
    DropPrefix("_of_", ToDecimal(qty) + ".pdf", ToDecimal(qty') + ".pdf");
    DigitsThenOther(ToDecimal(qty), ".pdf", ToDecimal(qty'), ".pdf");
    ToDecimalInjective(qty, qty');
  }

  /** `make_label_pdf` returns `max(qty, 0)` entries; entry `k` is piece `k + 1` of
      `qty`, so they come in ascending piece order, and no two share a file name. */
  lemma LabelsDistinct(bol: string, so: string, scac: string, qty: int)
    ensures |Labels(bol, so, scac, qty)| == if qty > 0 then qty else 0
    ensures forall k :: 0 <= k < |Labels(bol, so, scac, qty)| ==>
      qty > 0 && Labels(bol, so, scac, qty)[k] == Label(bol, so, scac, k + 1, qty)
    ensures forall k1, k2 :: 0 <= k1 < k2 < |Labels(bol, so, scac, qty)| ==>
      Labels(bol, so, scac, qty)[k1].name != Labels(bol, so, scac, qty)[k2].name
  {
    var r := Labels(bol, so, scac, qty);
    forall k1, k2 | 0 <= k1 < k2 < |r| ensures r[k1].name != r[k2].name {
      if r[k1].name == r[k2].name {
        FileNameInjective(bol, k1 + 1, qty, k2 + 1, qty);
      }
    }
  }

  /** Every file name `make_label_pdf` returns starts with the BOL number it was given. */
  lemma NamesStartWithBol(bol: string, so: string, scac: string, qty: int)
    ensures forall l :: l in Labels(bol, so, scac, qty) ==> |l.name| > |bol| && l.name[..|bol|] == bol
  {
    forall l | l in Labels(bol, so, scac, qty) ensures |l.name| > |bol| && l.name[..|bol|] == bol {
      var k :| 0 <= k < |Labels(bol, so, scac, qty)| && Labels(bol, so, scac, qty)[k] == l;
      assert l.name == FileName(bol, k + 1, qty) by {
        LabelsDistinct(bol, so, scac, qty);
      }
      assert l.name[..|bol|] == bol;
    }
  }
}
