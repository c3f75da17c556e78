/** `extract_fields`: one page of text to the record {bol, scac, so, qty}. */
module Extract {
  import opened Text
  import opened Decimal
  import opened Patterns

  /** The dictionary `extract_fields` returns. A field whose pattern does not match is
      "", except `qty`, which is 1. */
  datatype Fields = Fields(bol: string, scac: string, so: string, qty: nat)

  /** Group 1 of a labelled pattern has the token's shape: the prefix, one `first`
      character, then only `rest` characters. */
  predicate TokenShape(p: Pattern, g: string)
    requires p.Labelled?
  {
    && |g| > |p.prefix|
    && g[..|p.prefix|] == p.prefix
    && p.first.Has(g[|p.prefix|])
    && forall k :: |p.prefix| < k < |g| ==> p.rest.Has(g[k])
  }

  /** The token of any way a labelled pattern can match has the token's shape. */
  lemma AcceptedTokenShape(p: Pattern, s: string, i: nat, j: nat, e: nat)
    requires LabelledAccepts(p, s, i, j, e)
    ensures TokenShape(p, s[j..e])
  {
    var g := s[j..e];
    assert g[..|p.prefix|] == s[j..j + |p.prefix|];
    forall k | |p.prefix| < k < |g| ensures p.rest.Has(g[k]) {
      assert g[k] == s[j + k];
    }
  }

  lemma LabelledGroupShape(p: Pattern, s: string)
    requires p.Labelled?
    ensures GroupOr(s, Search(p, s)) == "" || TokenShape(p, GroupOr(s, Search(p, s)))
  {
    var r := Search(p, s);
    if r.Some? {
      AcceptedTokenShape(p, s, r.value.start, r.value.group.lo, r.value.group.hi);
    }
  }

  /** The digits group 1 of the pieces pattern captured, when it matched. */
  function PiecesDigits(s: string, r: Option<Found>): (ds: string)
    requires r.Some? ==> r.value.start <= |s| && MatchAt(Pieces, s, r.value.start) == Some(r.value.group)
    ensures IsDigits(ds)
  {
    if r.Some? then
      var g := r.value.group;
      assert PiecesAt(s, r.value.start) == Some(g);
      s[g.lo..g.hi]
    else ""
  }

  /** `extract_fields(text)`: four leftmost searches, group 1 of each or "", and
      `int()` of the pieces group or 1. Total: there is no precondition. */
  function ExtractFields(text: string): Fields {
    Fields(
      GroupOr(text, Search(BolNumber, text)),
      GroupOr(text, Search(ScacCode, text)),
      GroupOr(text, Search(SalesOrder, text)),
      PiecesQty(text))
  }

  /** `int(m.group(1))` of the pieces search, or 1 when it finds nothing. */
  function PiecesQty(text: string): nat {
    var pieces := Search(Pieces, text);
    if pieces.Some? then Value(PiecesDigits(text, pieces)) else 1
  }

  lemma BolToken(g: string)
    requires TokenShape(BolNumber, g)
    ensures |g| > 3 && g[..3] == "PLS" && IsDigits(g[3..])
  {
    forall k | 0 <= k < |g[3..]| ensures IsDigit(g[3..][k]) {
      assert g[3..][k] == g[k + 3];
    }
  }

  /** `bol` is empty or `PLS` followed by one or more digits. */
  lemma BolShape(text: string)
    ensures var bol := ExtractFields(text).bol;
      bol == "" || (|bol| > 3 && bol[..3] == "PLS" && IsDigits(bol[3..]))
  {
    var g := GroupOr(text, Search(BolNumber, text));
    LabelledGroupShape(BolNumber, text);
    if g != "" {
      BolToken(g);
    }
  }

  lemma ScacToken(g: string)
    requires TokenShape(ScacCode, g)
    ensures |g| > 0 && forall k :: 0 <= k < |g| ==> IsWord(g[k])
  {
    assert forall k :: 0 < k < |g| ==> Word.Has(g[k]);
  }

  /** `scac` is empty or a run of word characters. */
  lemma ScacShape(text: string)
    ensures var scac := ExtractFields(text).scac;
      scac == "" || (|scac| > 0 && forall k :: 0 <= k < |scac| ==> IsWord(scac[k]))
  {
    var g := GroupOr(text, Search(ScacCode, text));
    LabelledGroupShape(ScacCode, text);
    if g != "" {
      ScacToken(g);
    }
  }

  lemma SoToken(g: string)
    requires TokenShape(SalesOrder, g)
    ensures |g| > 3 && g[..3] == "SO-" && IsDigit(g[3])
    ensures forall k :: 3 <= k < |g| ==> IsWord(g[k]) || g[k] == '-'
  {
    forall k | 3 <= k < |g| ensures IsWord(g[k]) || g[k] == '-' {
      if k > 3 {
        assert WordOrDash.Has(g[k]);
      }
    }
  }

  /** `so` is empty or `SO-`, a digit, then only word characters and dashes. */
  lemma SoShape(text: string)
    ensures var so := ExtractFields(text).so;
      so == "" || (|so| > 3 && so[..3] == "SO-" && IsDigit(so[3]) &&
        forall k :: 3 <= k < |so| ==> IsWord(so[k]) || so[k] == '-')
  {
    var g := GroupOr(text, Search(SalesOrder, text));
    LabelledGroupShape(SalesOrder, text);
    if g != "" {
      SoToken(g);
    }
  }

  /** Group 1 of a labelled search, stated without the matcher: "" exactly when the
      pattern matches nowhere; otherwise the token of the leftmost, greedy match, which
      always exists then. */
  lemma LabelledField(p: Pattern, text: string)
    requires p.Labelled? && WellFormed(p)
    ensures GroupOr(text, Search(p, text)) == "" <==>
      forall i: nat, j: nat, e: nat :: !LabelledAccepts(p, text, i, j, e)
    ensures forall i: nat, j: nat, e: nat :: LabelledLeftmost(p, text, i, j, e) ==>
      j <= e <= |text| && GroupOr(text, Search(p, text)) == text[j..e]
    ensures GroupOr(text, Search(p, text)) != "" ==>
      exists i: nat, j: nat, e: nat :: LabelledLeftmost(p, text, i, j, e)
  {
    LabelledSearch(p, text);
  }

  /** `bol` is "" exactly when `BOL Number:`, whitespace, `PLS` and a digit occur
      nowhere; otherwise it is the `PLS` token, with all its digits, of the leftmost
      occurrence. */
  lemma BolField(text: string)
    ensures ExtractFields(text).bol == "" <==>
      forall i: nat, j: nat, e: nat :: !LabelledAccepts(BolNumber, text, i, j, e)
    ensures forall i: nat, j: nat, e: nat :: LabelledLeftmost(BolNumber, text, i, j, e) ==>
      j <= e <= |text| && ExtractFields(text).bol == text[j..e]
    ensures ExtractFields(text).bol != "" ==>
      exists i: nat, j: nat, e: nat :: LabelledLeftmost(BolNumber, text, i, j, e)
  {
    PatternsWellFormed();
    LabelledField(BolNumber, text);
  }

  /** `scac` is "" exactly when no `SCAC:` is followed, after its whitespace, by a word
      character; otherwise it is the whole word after the leftmost such `SCAC:`. */
  lemma ScacField(text: string)
    ensures ExtractFields(text).scac == "" <==>
      forall i: nat, j: nat, e: nat :: !LabelledAccepts(ScacCode, text, i, j, e)
    ensures forall i: nat, j: nat, e: nat :: LabelledLeftmost(ScacCode, text, i, j, e) ==>
      j <= e <= |text| && ExtractFields(text).scac == text[j..e]
    ensures ExtractFields(text).scac != "" ==>
      exists i: nat, j: nat, e: nat :: LabelledLeftmost(ScacCode, text, i, j, e)
  {
    PatternsWellFormed();
    LabelledField(ScacCode, text);
  }

  /** `so` is "" exactly when `Sales Order:`, whitespace, `SO-` and a digit occur
      nowhere; otherwise it runs from that `SO-` of the leftmost occurrence to the end
      of its word-or-dash characters. */
  lemma SoField(text: string)
    ensures ExtractFields(text).so == "" <==>
      forall i: nat, j: nat, e: nat :: !LabelledAccepts(SalesOrder, text, i, j, e)
    ensures forall i: nat, j: nat, e: nat :: LabelledLeftmost(SalesOrder, text, i, j, e) ==>
      j <= e <= |text| && ExtractFields(text).so == text[j..e]
    ensures ExtractFields(text).so != "" ==>
      exists i: nat, j: nat, e: nat :: LabelledLeftmost(SalesOrder, text, i, j, e)
  {
    PatternsWellFormed();
    LabelledField(SalesOrder, text);
  }

  lemma AllDigitsSlice(s: string, lo: nat, hi: nat)
    requires lo <= hi <= |s| && AllIn(Digit, s, lo, hi)
    ensures IsDigits(s[lo..hi])
  {
    forall k | 0 <= k < hi - lo ensures IsDigit(s[lo..hi][k]) {
      assert s[lo..hi][k] == s[lo + k];
    }
  }

  /** `qty`, as `extract_fields` stores it, is 1 when the pieces pattern matches
      nowhere; otherwise it is `int()` of
      the first number of the leftmost match, which is a whole digit run of the text
      (it cannot start inside a longer number), and so never negative. */
  lemma QtyField(text: string)
    ensures (forall i: nat, a: nat, b: nat, c: nat, d: nat :: !PiecesAccepts(text, i, a, b, c, d)) ==>
      PiecesQty(text) == 1
    ensures forall i: nat, a: nat, b: nat, c: nat, d: nat :: PiecesLeftmost(text, i, a, b, c, d) ==>
      && i <= a <= |text|
      && IsDigits(text[i..a])
      && PiecesQty(text) == Value(text[i..a])
      && (i == 0 || !IsDigit(text[i - 1]))
      && a == RunEnd(Digit, text, i)
    ensures (exists i: nat, a: nat, b: nat, c: nat, d: nat :: PiecesAccepts(text, i, a, b, c, d)) ==>
      exists i: nat, a: nat, b: nat, c: nat, d: nat :: PiecesLeftmost(text, i, a, b, c, d)
  {
    assert (forall i: nat, a: nat, b: nat, c: nat, d: nat :: !PiecesAccepts(text, i, a, b, c, d)) ==>
      PiecesQty(text) == 1 by {
      PiecesSearch(text);
    }
    forall i: nat, a: nat, b: nat, c: nat, d: nat | PiecesLeftmost(text, i, a, b, c, d)
      ensures && i <= a <= |text| && IsDigits(text[i..a]) && PiecesQty(text) == Value(text[i..a])
              && (i == 0 || !IsDigit(text[i - 1])) && a == RunEnd(Digit, text, i)
    {
      QtyOfLeftmost(text, i, a, b, c, d);
    }
    assert (exists i: nat, a: nat, b: nat, c: nat, d: nat :: PiecesAccepts(text, i, a, b, c, d)) ==>
      exists i: nat, a: nat, b: nat, c: nat, d: nat :: PiecesLeftmost(text, i, a, b, c, d) by {
      PiecesSearch(text);
    }
  }

  /** The leftmost match of the pieces pattern gives `qty`: its first number, a whole
      digit run of the text. */
  lemma QtyOfLeftmost(text: string, i: nat, a: nat, b: nat, c: nat, d: nat)
    requires PiecesLeftmost(text, i, a, b, c, d)
    ensures i <= a <= |text| && IsDigits(text[i..a]) && PiecesQty(text) == Value(text[i..a])
    ensures (i == 0 || !IsDigit(text[i - 1])) && a == RunEnd(Digit, text, i)
  {
    PiecesLeftmostFound(text, i, a, b, c, d);
    QtyOfFound(text, i, a);
    assert (i == 0 || !IsDigit(text[i - 1])) && a == RunEnd(Digit, text, i) by {
      PiecesSearchFound(text);
    }
  }

  lemma QtyOfFound(text: string, i: nat, a: nat)
    requires Search(Pieces, text) == Some(Found(i, Span(i, a)))
    ensures i <= a <= |text| && IsDigits(text[i..a]) && PiecesQty(text) == Value(text[i..a])
  {
    AllDigitsSlice(text, i, a);
  }

  /** A text that opens with `BOL Number: PLS12345`, the number not running on, yields
      that BOL number whatever follows. */
  lemma BolAtStart(s: string)
    requires LitAt(s, 0, "BOL Number: PLS12345")
    requires |s| == 20 || !IsDigit(s[20])
    ensures ExtractFields(s).bol == "PLS12345"
  {
    BolSearchAtStart(s);
    assert s[12..20] == s[..20][12..20];
  }

  /** On such a text the BOL pattern matches at position 0, where no match can start
      further left, so `re.search` reports it, with group 1 spanning `PLS12345`. */
  lemma BolSearchAtStart(s: string)
    requires LitAt(s, 0, "BOL Number: PLS12345")
    requires |s| == 20 || !IsDigit(s[20])
    ensures Search(BolNumber, s) == Some(Found(0, Span(12, 20)))
    ensures s[..20] == "BOL Number: PLS12345"
  {
    assert s[..20] == "BOL Number: PLS12345";
    assert LitAt(s, 0, BolNumber.key) by {
      assert s[..11] == s[..20][..11];
    }
    assert s[11] == s[..20][11] && s[12] == s[..20][12];
    RunEndUnique(Space, s, 11, 12);
    assert LitAt(s, 12, "PLS") by {
      assert s[12..15] == s[..20][12..15];
    }
    forall k | 15 <= k < 20 ensures IsDigit(s[k]) {
      assert s[k] == s[..20][k];
    }
    RunEndUnique(Digit, s, 16, 20);
    assert MatchAt(BolNumber, s, 0) == Some(Span(12, 20));
  }

  /** The pieces number is not clamped: a text that opens with `0 123 GRAND TOTAL`
      yields `qty` 0. */
  lemma QtyCanBeZero(s: string)
    requires LitAt(s, 0, "0 123 GRAND TOTAL")
    ensures ExtractFields(s).qty == 0
  {
    assert s[..17] == "0 123 GRAND TOTAL";
    assert s[6..17] == GrandTotal by {
      assert s[6..17] == s[..17][6..17];
    }
    assert PiecesAccepts(s, 0, 1, 2, 5, 6);
    assert PiecesLeftmost(s, 0, 1, 2, 5, 6);
    QtyOfLeftmost(s, 0, 1, 2, 5, 6);
    assert ExtractFields(s).qty == Value(s[0..1]);
    assert s[0..1] == [s[0]] && s[0] == '0';
    assert Value([s[0]]) == DigitValue(s[0]);
  }
}
