/** The page loop of the upload handler: every page of every uploaded file, in order,
    is run through `extract_fields`, and the labels of each page with a BOL number are
    appended to `all_labels`. Reading the PDF files is outside the model: each file
    arrives as the sequence of its pages' texts. */
module Batch {
  import opened Text
  import opened Seqs
  import opened Decimal
  import opened Extract
  import opened LabelPages

  /** What the user is shown once the files are processed. */
  datatype Outcome =
    | NothingUploaded                      // `if uploaded_files:` was false
    | Generated(labels: nat, files: nat)   // "Generated {n} labels from {m} file(s)."
    | NoValidBols                          // "No valid BOLs found in the uploaded file(s)."

  /** The labels one page contributes: none when its `bol` is empty. */
  function PageLabels(text: string): seq<LabelFile> {
    var f := ExtractFields(text);
    if f.bol != "" then Labels(f.bol, f.so, f.scac, f.qty) else []
  }

  /** The labels of a run of pages, in page order. */
  function BatchLabels(pages: seq<string>): seq<LabelFile>
    decreases |pages|
  {
    if pages == [] then [] else BatchLabels(pages[..|pages| - 1]) + PageLabels(pages[|pages| - 1])
  }

  /** All pages of all files: file order, then page order. */
  function Flatten(files: seq<seq<string>>): seq<string>
    decreases |files|
  {
    if files == [] then [] else Flatten(files[..|files| - 1]) + files[|files| - 1]
  }

  /** The pieces a page asks for: its `qty` when it has a BOL number, else none. */
  function PagePieces(text: string): nat {
    var f := ExtractFields(text);
    if f.bol != "" then f.qty else 0
  }

  function TotalPieces(pages: seq<string>): nat
    decreases |pages|
  {
    if pages == [] then 0 else TotalPieces(pages[..|pages| - 1]) + PagePieces(pages[|pages| - 1])
  }

  /** The body of the page loop: `extract_fields`, then `make_label_pdf` when `bol` is
      not empty. */
  method LabelsOfPage(text: string) returns (labelPdfs: seq<LabelFile>)
    ensures labelPdfs == PageLabels(text)
    ensures |labelPdfs| == PagePieces(text)
  {
    var fields := ExtractFields(text);
    labelPdfs := [];
    if fields.bol != "" {
      labelPdfs := MakeLabelPdf(fields.bol, fields.so, fields.scac, fields.qty);
    }
  }

  /** The inner loop, over the pages of one file: `all_labels.extend(...)` for each page
      with a BOL number. */
  method ExtendWithFile(allLabels: seq<LabelFile>, pages: seq<string>) returns (extended: seq<LabelFile>)
    ensures extended == allLabels + BatchLabels(pages)
  {
    extended := allLabels;
    for p := 0 to |pages|
      invariant extended == allLabels + BatchLabels(pages[..p])
    {
      var labelPdfs := LabelsOfPage(pages[p]);
      ghost var before := BatchLabels(pages[..p]);
      BatchStep(pages[..p], pages[p]);
      SliceStep(pages, p);
      assert BatchLabels(pages[..p + 1]) == before + labelPdfs;
      Associative(allLabels, before, labelPdfs);
      extended := extended + labelPdfs;
    }
    assert pages[..|pages|] == pages;
  }

  /** The upload handler: the loop over files and, inside it, over pages, extending
      `all_labels`; then success when it is non-empty and a warning otherwise. */
  method ProcessUploads(files: seq<seq<string>>) returns (allLabels: seq<LabelFile>, outcome: Outcome)
    ensures allLabels == BatchLabels(Flatten(files))
    ensures |allLabels| == TotalPieces(Flatten(files))
    ensures files == [] ==> outcome == NothingUploaded
    ensures files != [] && TotalPieces(Flatten(files)) > 0 ==> outcome == Generated(|allLabels|, |files|)
    ensures files != [] && TotalPieces(Flatten(files)) == 0 ==> outcome == NoValidBols
  {
    allLabels := [];
    if files == [] {
      outcome := NothingUploaded;
      return;
    }
    for d := 0 to |files|
      invariant allLabels == BatchLabels(Flatten(files[..d]))
    {
      allLabels := ExtendWithFile(allLabels, files[d]);
      assert files[..d + 1][..d] == files[..d];
      BatchAppend(Flatten(files[..d]), files[d]);
    }
    assert files[..|files|] == files;
    BatchCount(Flatten(files));
    if |allLabels| > 0 {
      outcome := Generated(|allLabels|, |files|);
    } else {
      outcome := NoValidBols;
    }
  }

  lemma BatchStep(pages: seq<string>, text: string)
    ensures BatchLabels(pages + [text]) == BatchLabels(pages) + PageLabels(text)
  {
    assert (pages + [text])[..|pages|] == pages;
  }

  /** The labels of two runs of pages are those of the first, then those of the second. */
  lemma {:induction false} BatchAppend(a: seq<string>, b: seq<string>)
    ensures BatchLabels(a + b) == BatchLabels(a) + BatchLabels(b)
    decreases |b|
  {
    if b == [] {
      assert a + b == a;
    } else {
      var b' := b[..|b| - 1];
      DropLast(a, b);
      BatchAppend(a, b');
      Associative(BatchLabels(a), BatchLabels(b'), PageLabels(b[|b| - 1]));
    }
  }

  /** `all_labels` holds one entry per piece of every page that has a BOL number. */
  lemma {:induction false} BatchCount(pages: seq<string>)
    ensures |BatchLabels(pages)| == TotalPieces(pages)
    decreases |pages|
  {
    if pages != [] {
      BatchCount(pages[..|pages| - 1]);
      var f := ExtractFields(pages[|pages| - 1]);
      LabelsDistinct(f.bol, f.so, f.scac, f.qty);
    }
  }

  /** A page without a BOL number adds nothing, wherever it stands. */
  lemma SkipWithoutBol(a: seq<string>, text: string, b: seq<string>)
    requires ExtractFields(text).bol == ""
    ensures BatchLabels(a + [text] + b) == BatchLabels(a + b)
  {
    BatchStep([], text);
    assert [] + [text] == [text];
    BatchAppend(a + [text], b);
    BatchAppend(a, [text]);
    assert BatchLabels(a + [text]) == BatchLabels(a);
    BatchAppend(a, b);
  }

  /** Nothing is deduplicated: a page that occurs twice contributes its labels twice. */
  lemma RepeatedPage(a: seq<string>, text: string, b: seq<string>, c: seq<string>)
    ensures BatchLabels(a + [text] + b + [text] + c)
      == BatchLabels(a) + PageLabels(text) + BatchLabels(b) + PageLabels(text) + BatchLabels(c)
  {
    assert BatchLabels([text]) == PageLabels(text) by {
      assert [text][..0] == [];
    }
    BatchAppend(a + [text] + b + [text], c);
    BatchAppend(a + [text] + b, [text]);
    BatchAppend(a + [text], b);
    BatchAppend(a, [text]);
  }

  /** So a page with a BOL number and at least one piece, uploaded twice, puts two
      entries with the same file name into `all_labels`. */
  lemma RepeatedPageRepeatsNames(a: seq<string>, text: string, b: seq<string>)
    requires ExtractFields(text).bol != "" && ExtractFields(text).qty >= 1
    ensures var all := BatchLabels(a + [text] + b + [text]);
      exists k1, k2 :: 0 <= k1 < k2 < |all| && all[k1].name == all[k2].name
  {
    RepeatedPage(a, text, b, []);
    assert a + [text] + b + [text] + [] == a + [text] + b + [text];
    var all := BatchLabels(a + [text] + b + [text]);
    var once := PageLabels(text);
    var f := ExtractFields(text);
    LabelsDistinct(f.bol, f.so, f.scac, f.qty);
    var k1 := |BatchLabels(a)|;
    var k2 := |BatchLabels(a)| + |once| + |BatchLabels(b)|;
    assert all == BatchLabels(a) + once + BatchLabels(b) + once + [];
    assert all[k1] == once[0] && all[k2] == once[0];
  }

  /** The file names of one page's labels start with its BOL number, so with `PLS`. */
  lemma PageNamesStartWithPls(text: string)
    ensures forall l :: l in PageLabels(text) ==> |l.name| > 3 && l.name[..3] == "PLS"
  {
    var f := ExtractFields(text);
    BolShape(text);
    if f.bol != "" {
      NamesStartWithBol(f.bol, f.so, f.scac, f.qty);
      forall l | l in Labels(f.bol, f.so, f.scac, f.qty) ensures l.name[..3] == "PLS" {
        assert l.name[..3] == l.name[..|f.bol|][..3];
      }
    }
  }

  /** Every file name in `all_labels` starts with `PLS`: it comes from a page's BOL number. */
  lemma {:induction false} NamesStartWithPls(pages: seq<string>)
    ensures forall l :: l in BatchLabels(pages) ==> |l.name| > 3 && l.name[..3] == "PLS"
    decreases |pages|
  {
    if pages != [] {
      NamesStartWithPls(pages[..|pages| - 1]);
      PageNamesStartWithPls(pages[|pages| - 1]);
    }
  }
}
