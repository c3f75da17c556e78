# BOL shipping-label generator: extraction and labelling core

`app.py` is a small Streamlit application. The user uploads bill-of-lading (BOL) PDF files and gets back a ZIP archive of shipping labels. This project models the logic between upload and download, from the final copy of the script (lines 174-236):

- **`extract_fields(text)`** reads four fields from one page of text:
  - `bol`, the BOL number `PLS…`;
  - `scac`, the carrier code;
  - `so`, the sales order `SO-…`;
  - `qty`, the number of pieces: the first of the two numbers that come, separated by whitespace, just before `GRAND TOTAL`. The numbers and the literal may sit on one line or be spread over several.

  Each field comes from one `re.search`. A failed search gives `""`, or `1` for `qty`.
- **`make_label_pdf(bol, so, scac, qty)`** makes one label page for each piece `1..qty`. Each page is created with orientation `'L'` and `format=(11, 8.5)` and named `{bol}_{i}_of_{qty}.pdf`.
- **The upload loop** goes over every page of every uploaded file. A page with a non-empty `bol` appends its labels to `all_labels`. At the end the app reports success with the label and file counts when `all_labels` is non-empty, and a warning otherwise.

Modules:

- `Text` (text.dfy): the character classes `\s`, `\d`, `\w` and `[\w-]`, and `RunEnd`, the end of a maximal run of one class. `RunEnd` is what a greedy repetition consumes.
- `Decimal` (decimal.dfy): `int()` on digit strings (`Value`) and `str()` on naturals (`ToDecimal`), with the round trip proved both ways.
- `Patterns` (patterns.dfy): the four regular expressions and `re.search`. Each pattern is modelled twice:
  - a ghost "accepts" predicate lists every way the expression can match at a position;
  - an "At" function computes the match Python's backtracking matcher reports.

  The lemmas prove that the computed match is the greedy one and that `Search` finds the leftmost one. So each search result is characterised without reference to the matcher. The three `key\s*(token)` expressions are one parameterised `Labelled` pattern. `\d+[\w-]*` and `\d[\w-]*` accept the same strings and end at the same place when greedy, so `Sales Order:` is an instance of that pattern too.
- `Extract` (extract.dfy): `ExtractFields`, the model of `extract_fields`, and one lemma per field saying what the field is in terms of the accepts predicates.
- `LabelPages` (labels.dfy): `MakeLabelPdf`, the loop of `make_label_pdf`, proved against `Labels`. A page is a record of the arguments it is made from: the orientation and `format` passed to `FPDF`, the font, and the three text cells.
- `Seqs` (seqs.dfy): three generic facts about concatenation and slicing that the loop proofs use.
- `Batch` (batch.dfy): `ProcessUploads`, the nested file and page loops, proved against `BatchLabels`, the in-order concatenation of each page's labels. `LabelsOfPage` is the body of the page loop and `ExtendWithFile` is the inner loop over one file's pages.

`ExtractFields`, `PiecesQty`, `Labels`, `PageLabels` and `BatchLabels` carry no contracts of their own. They are the specifications the lemmas and methods below are stated against.

## Model

| member | source | states |
|---|---|---|
| Text.RunEnd | app.py:175-178 | A greedy `\s*`, `\d+`, `\w+` or `[\w-]*` from `i` stops at the first character outside the class, or at the end of the text, and everything before that is inside the class |
| Text.RunEndUnique | app.py:175-178 | A run that cannot be extended is the one greedy repetition takes, so backtracking has no other maximal choice |
| Decimal.ToDecimal | app.py:202 | `str(n)` is a non-empty digit string with no leading zero (except `"0"`), and `int()` of it is `n` again |
| Decimal.ToDecimalInjective | app.py:202 | Two different piece numbers never print the same |
| Decimal.ToDecimalOfValue | app.py:184 | A digit string without a leading zero is exactly `str(int(ds))` |
| Decimal.ValuePositive | app.py:184 | `int()` of a digit string that starts with a non-zero digit is at least 1 |
| Patterns.LabelledAt | app.py:175-177 | The match computed at `i` for `key\s*(token)` is one of the ways the expression can match there |
| Patterns.LabelledAtGreedy | app.py:175-177 | When the labelled expression can match at `i` in any way, the computed match exists, skips the same whitespace and captures a token at least as long: it is the greedy match |
| Patterns.PiecesAt | app.py:178 | The computed match of `(\d+)\s+\d{3,}\s+GRAND TOTAL` at `i` captures digits from `i` and is one way the expression matches there |
| Patterns.PiecesAtUnique | app.py:178 | Any way the pieces expression matches at `i` is the computed one: every repetition is maximal and none can give characters back |
| Patterns.PiecesAtExtendsLeft | app.py:178 | A pieces match that starts inside a digit run also matches one character earlier, with the same end |
| Patterns.MatchAt | app.py:175-178 | A match at `i` is a non-empty group span inside the text |
| Patterns.SearchFrom | app.py:175-178 | Scanning from `from`: no result only when no later position matches; otherwise the first matching position and its match |
| Patterns.Search | app.py:175-178 | `re.search` finds nothing exactly when no position matches; otherwise it reports the match at the leftmost matching position |
| Patterns.LabelledSearch | app.py:175-177 | A labelled search fails exactly when the expression matches nowhere; otherwise it reports the leftmost, greedy match, and that match is unique |
| Patterns.LabelledSearchFound | app.py:175-177 | What a labelled search reports satisfies the leftmost-greedy characterisation |
| Patterns.LabelledLeftmostIsFound | app.py:175-177 | The leftmost-greedy match of a labelled expression is exactly what `re.search` reports |
| Patterns.PiecesMatches | app.py:178 | Every way the pieces expression matches is the computed match at its start |
| Patterns.PiecesSearchFound | app.py:178 | The pieces search reports the leftmost match; group 1 starts where the match starts, at the start of a digit run, and ends where that run ends |
| Patterns.PiecesLeftmostFound | app.py:178 | The leftmost way the pieces expression matches is exactly what `re.search` reports |
| Patterns.PiecesLeftmostIsFound | app.py:178 | The previous row, for every leftmost match at once |
| Patterns.PiecesSearch | app.py:178 | The pieces search fails exactly when the expression matches nowhere; otherwise its result is the unique leftmost match, and group 1 is a whole maximal digit run |
| Extract.PiecesDigits | app.py:184 | The pieces group passed to `int()` consists of digits only |
| Extract.AcceptedTokenShape | app.py:175-177 | Group 1 of any labelled match is the prefix, one first-class character, then only rest-class characters |
| Extract.LabelledGroupShape | app.py:181-183 | A labelled field is `""` or has that token shape |
| Extract.BolToken | app.py:175 | A token of `PLS\d+` is `PLS` followed by one or more digits |
| Extract.BolShape | app.py:181 | `bol` is `""` or `PLS` followed by one or more digits |
| Extract.ScacToken | app.py:176 | A token of `\w+` is one or more word characters |
| Extract.ScacShape | app.py:182 | `scac` is `""` or a non-empty run of word characters |
| Extract.SoToken | app.py:177 | A token of `SO-\d+[\w-]*` is `SO-`, a digit, then only word characters and dashes |
| Extract.SoShape | app.py:183 | `so` is `""` or `SO-`, a digit, then only word characters and dashes |
| Extract.LabelledField | app.py:175-183 | A labelled field is `""` exactly when its expression matches nowhere; otherwise it is the text slice of the leftmost, greedy match, which then exists |
| Extract.BolField | app.py:175-181 | `bol` is `""` exactly when no `BOL Number:` is followed by whitespace, `PLS` and a digit; otherwise it is the text slice `PLS` plus all its digits of the leftmost such occurrence |
| Extract.ScacField | app.py:176-182 | `scac` is `""` exactly when no `SCAC:` is followed, after its whitespace, by a word character; otherwise it is the whole word after the leftmost such `SCAC:` |
| Extract.SoField | app.py:177-183 | `so` is `""` exactly when no `Sales Order:` is followed by whitespace, `SO-` and a digit; otherwise it is the text slice of the leftmost occurrence, to the end of its `[\w-]` run |
| Extract.AllDigitsSlice | app.py:184 | A slice inside a digit run is a digit string |
| Extract.QtyField | app.py:178-184 | `qty` is 1 when the pieces expression matches nowhere; otherwise it is `int()` of the first number of the leftmost match, a whole digit run not preceded by a digit, and a leftmost match exists |
| Extract.QtyOfLeftmost | app.py:184 | For the leftmost pieces match, `qty` is `int()` of its first digit run, which starts a run and ends where that run ends |
| Extract.QtyOfFound | app.py:184 | When the pieces search reports digits `text[i..a]`, `qty` is their `int()` |
| Extract.BolAtStart | app.py:175-181 | A page opening with `BOL Number: PLS12345`, the number not running on, has `bol == "PLS12345"` whatever follows |
| Extract.BolSearchAtStart | app.py:175 | On such a page the BOL search reports the match at position 0, group 1 spanning `PLS12345` |
| Extract.QtyCanBeZero | app.py:184 | `qty` is not clamped: a page opening with `0 123 GRAND TOTAL` gives `qty == 0` |
| LabelPages.Stack | app.py:194-197 | Each `cell(11, 2, …, ln=1, align='C')` is an 11 in wide, 2 in tall centred cell placed one cell height below the previous one, starting at `set_y(1.0)` |
| LabelPages.LabelPage | app.py:190-197 | Every page is made with orientation `'L'`, `format=(11, 8.5)` and Arial bold 72 pt. It holds exactly the three lines `SALES ORDER: so`, `SCAC: scac` and `PIECE i of qty`, in that order, in centred 11 × 2 in cells stacked without gaps from 1 in down to 7 in. That is less than either side of the format, so the stack fits vertically whichever side is the page's height |
| LabelPages.MakeLabelPdf | app.py:187-203 | The loop returns `Labels(bol, so, scac, qty)`: `max(qty, 0)` entries, entry `k` being piece `k + 1` named `bol + "_" + str(k+1) + "_of_" + str(qty) + ".pdf"` |
| LabelPages.LabelsByPiece | app.py:188-202 | A list that holds piece `k + 1` at every index `k`, one per piece, is what `make_label_pdf` returns, with the f-string file names |
| LabelPages.FileNameSpelled | app.py:202 | The file name is the f-string `{bol}_{i}_of_{qty}.pdf` read left to right |
| LabelPages.DigitsThenOther | app.py:202 | A digit string followed by a non-digit splits only one way |
| LabelPages.FileNameInjective | app.py:202 | A file name determines its piece number and piece count |
| LabelPages.LabelsDistinct | app.py:188-202 | `make_label_pdf` returns `max(qty, 0)` entries in ascending piece order, and no two share a file name |
| LabelPages.NamesStartWithBol | app.py:202 | Every file name starts with the BOL number it was made from |
| Batch.LabelsOfPage | app.py:213-217 | One page contributes `make_label_pdf` of its fields when its `bol` is non-empty and nothing otherwise, one entry per piece |
| Batch.ExtendWithFile | app.py:212-218 | The page loop of one file appends exactly the labels of its pages, in page order |
| Batch.ProcessUploads | app.py:206-236 | `all_labels` is the in-order concatenation of every page's labels, file by file, and has one entry per piece of every page with a BOL number. No upload does nothing; otherwise success carries `len(all_labels)` and `len(uploaded_files)` exactly when that total is positive, and the warning is shown exactly when it is 0 |
| Batch.BatchStep | app.py:218 | Processing one more page appends its labels |
| Batch.BatchAppend | app.py:209-218 | The labels of two runs of pages are those of the first, then those of the second |
| Batch.BatchCount | app.py:209-218 | `all_labels` holds one entry per piece of every page with a BOL number |
| Batch.SkipWithoutBol | app.py:215 | A page without a BOL number adds nothing, wherever it stands |
| Batch.RepeatedPage | app.py:209-218 | Nothing is deduplicated: a page that occurs twice contributes its labels twice |
| Batch.RepeatedPageRepeatsNames | app.py:209-224 | A page with a BOL number and at least one piece, uploaded twice, puts two entries with the same file name into `all_labels`, and so into the archive |
| Batch.PageNamesStartWithPls | app.py:214-217 | The file names of one page's labels start with `PLS` |
| Batch.NamesStartWithPls | app.py:209-218 | Every file name in `all_labels` starts with `PLS` |

## Left out

- Lines 1-159 of `app.py` are not modelled. They hold two earlier copies of the same script, and neither parses: line 12 opens a call that is never closed, and lines 82-83 split an import across two lines.
- The final copy, lines 160-237, does not parse as written either. Three of its lines are wrapped: the import at lines 160-161, a string literal inside `st.file_uploader` at lines 170-171, and an f-string inside `st.success` at lines 227-228. The model reads that copy with those wrapped lines joined. None of them touches the modelled logic beyond the success message's two counts.
- Streamlit calls are left out: page setup, the uploader, `st.success`, `st.warning` and the download button. They are user interface. The model keeps only which message is shown and the two counts in the success message (`Outcome`).
- PDF reading with `fitz.open` and `page.get_text()` is a foreign library. Each uploaded file arrives as the sequence of its pages' texts.
- FPDF rendering is a foreign library: font metrics, the bytes `pdf.output` writes, and the horizontal position of each cell (the left margin). A page is modelled as the arguments it is made from.
- LabelPages.LabelPage: records the `format` tuple `(11, 8.5)` as passed, not the resulting page size. FPDF reads `format` as portrait width and height and swaps them for orientation `'L'`, which gives a page 8.5 in wide and 11 in tall. The 11 in wide cells, starting at FPDF's default left margin, then run past the right edge. Neither that geometry nor the horizontal overflow is modelled.
- The ZIP packaging with `zipfile` and `BytesIO` is I/O. Entries with the same name are written to the archive one after another; the model stops at `all_labels`.
- Extract.QtyField: `Value` is unbounded. Python's limit on converting long digit strings to `int` is not modelled. From CPython 3.11, and in 3.7.14-3.10.7, `int()` raises `ValueError` on more than 4300 digits, so `extract_fields` would fail on such a page where the model returns a number.
- Python's `\s`, `\d` and `\w` are taken in their ASCII sense. Python's `str` patterns also accept other Unicode whitespace, digits and letters, and `int()` accepts non-ASCII digits.
- The design description of the system differs from the code in several places. The model follows the code in each case:
  - it does not deduplicate pages or labels by order number (see `RepeatedPage`);
  - it does not clamp or reject a piece count of 0, which gives no labels for that page (see `QtyCanBeZero`);
  - it reads the piece count from the number before `GRAND TOTAL`, not from a `Pieces:` field;
  - it names files after the BOL number, not the order number;
  - it matches the field labels case-sensitively.
- Barcodes, tracking and "Pro Number" extraction, manual entry and two-page A/B labels do not occur in this code.
