/** The four regular expressions of `extract_fields` and Python's `re.search` over them.

    Each pattern is described twice: by a ghost predicate that lists every way the
    regular expression can match at a position, ignoring greediness (the "accepts"
    predicates), and by a function that computes the one match Python's backtracking
    matcher reports there (the "At" functions). The lemmas prove that the computed
    match is the first one backtracking reaches: greedy repetitions take as much as
    they can, and no match exists exactly when the predicate holds of nothing. */
module Patterns {
  import opened Text

  datatype Option<T> = None | Some(value: T)

  /** The half-open stretch s[lo..hi] of the searched text. */
  datatype Span = Span(lo: nat, hi: nat)

  /** A successful search: where the whole match starts and the span of group 1. */
  datatype Found = Found(start: nat, group: Span)

  datatype Pattern =
      /** `key\s*(prefix F R*)`: a literal key, any whitespace, then group 1: a
          literal prefix, one character of class `first` and every `rest` character
          that follows. */
    | Labelled(key: string, prefix: string, first: CharClass, rest: CharClass)
      /** `(\d+)\s+\d{3,}\s+GRAND TOTAL` */
    | PiecesBeforeTotal

  /** `BOL Number:\s*(PLS\d+)` */
  const BolNumber := Labelled("BOL Number:", "PLS", Digit, Digit)
  /** `SCAC:\s*(\w+)` */
  const ScacCode := Labelled("SCAC:", "", Word, Word)
  /** `Sales Order:\s*(SO-\d+[\w-]*)`. Every digit is a word character, so `\d+[\w-]*`
      spells the same strings as `\d[\w-]*`, and its greedy end is the end of the
      `[\w-]` run in both readings. */
  const SalesOrder := Labelled("Sales Order:", "SO-", Digit, WordOrDash)
  /** `(\d+)\s+\d{3,}\s+GRAND TOTAL` */
  const Pieces := PiecesBeforeTotal

  const GrandTotal := "GRAND TOTAL"

  /** The token cannot start with whitespace (so `\s*` cannot give any back) and its
      first character also belongs to the repeated class. */
  predicate WellFormed(p: Pattern) {
    p.Labelled? ==>
      && (|p.prefix| > 0 ==> !IsSpace(p.prefix[0]))
      && (|p.prefix| == 0 ==> p.first != Space)
      && Within(p.first, p.rest)
  }

  lemma PatternsWellFormed()
    ensures WellFormed(BolNumber) && WellFormed(ScacCode) && WellFormed(SalesOrder)
    ensures WellFormed(Pieces)
  {
  }

  // ---------------------------------------------------------------- `label\s*(token)`

  /** Every way `label\s*(prefix F R*)` can match at `i`: whitespace stretches to `j`
      and group 1 is s[j..e]. */
  ghost predicate LabelledAccepts(p: Pattern, s: string, i: nat, j: nat, e: nat) {
    && p.Labelled?
    && LitAt(s, i, p.key)
    && i + |p.key| <= j
    && j + |p.prefix| < e <= |s|
    && AllIn(Space, s, i + |p.key|, j)
    && LitAt(s, j, p.prefix)
    && p.first.Has(s[j + |p.prefix|])
    && AllIn(p.rest, s, j + |p.prefix| + 1, e)
  }

  /** The match of a labelled pattern at `i`: all the whitespace, then the longest token. */
  function LabelledAt(p: Pattern, s: string, i: nat): (r: Option<Span>)
    requires p.Labelled? && i <= |s|
    ensures r.Some? ==> LabelledAccepts(p, s, i, r.value.lo, r.value.hi)
  {
    if !LitAt(s, i, p.key) then None
    else
      var j := RunEnd(Space, s, i + |p.key|);
      var t := j + |p.prefix|;
      if LitAt(s, j, p.prefix) && t < |s| && p.first.Has(s[t]) then
        Some(Span(j, RunEnd(p.rest, s, t + 1)))
      else None
  }

  /** Whatever way a labelled pattern can match at `i`, the computed match exists, skips
      the same whitespace and its token is at least as long: it is the greedy one. */
  lemma LabelledAtGreedy(p: Pattern, s: string, i: nat)
    requires p.Labelled? && WellFormed(p) && i <= |s|
    ensures forall j: nat, e: nat :: LabelledAccepts(p, s, i, j, e) ==>
      && MatchAt(p, s, i).Some?
      && MatchAt(p, s, i).value.lo == j
      && e <= MatchAt(p, s, i).value.hi
  {
    forall j: nat, e: nat | LabelledAccepts(p, s, i, j, e)
      ensures LabelledAt(p, s, i).Some?
      ensures LabelledAt(p, s, i).value.lo == j && e <= LabelledAt(p, s, i).value.hi
    {
      var t := j + |p.prefix|;
      if |p.prefix| > 0 {
        assert s[j] == s[j..j + |p.prefix|][0];
      } else {
        NotSpace(p.first, s[t]);
      }
      RunEndUnique(Space, s, i + |p.key|, j);
      WithinHas(p.first, p.rest, s[t]);
      RunEndBound(p.rest, s, t + 1, e);
    }
  }

  // ---------------------------------------------------- `(\d+)\s+\d{3,}\s+GRAND TOTAL`

  /** Every way `(\d+)\s+\d{3,}\s+GRAND TOTAL` can match at `i`: group 1 is s[i..a],
      whitespace s[a..b], at least three digits s[b..c], whitespace s[c..d], and the
      literal at `d`. */
  ghost predicate PiecesAccepts(s: string, i: nat, a: nat, b: nat, c: nat, d: nat) {
    && i < a < b && b + 3 <= c < d <= |s|
    && AllIn(Digit, s, i, a)
    && AllIn(Space, s, a, b)
    && AllIn(Digit, s, b, c)
    && AllIn(Space, s, c, d)
    && LitAt(s, d, GrandTotal)
  }

  /** The match at `i`, every repetition taken greedily. */
  function PiecesAt(s: string, i: nat): (r: Option<Span>)
    requires i <= |s|
    ensures r.Some? ==> r.value.lo == i < r.value.hi <= |s| && AllIn(Digit, s, i, r.value.hi)
    ensures r.Some? ==> exists b: nat, c: nat, d: nat :: PiecesAccepts(s, i, r.value.hi, b, c, d)
  {
    var a := RunEnd(Digit, s, i);
    var b := RunEnd(Space, s, a);
    var c := RunEnd(Digit, s, b);
    var d := RunEnd(Space, s, c);
    if i < a < b && b + 3 <= c < d && LitAt(s, d, GrandTotal) then
      assert PiecesAccepts(s, i, a, b, c, d);
      Some(Span(i, a))
    else None
  }

  /** Each repetition is followed by a character of another class, so backtracking can
      never give any of them back: the match at `i`, when there is one, is the only
      way the pattern matches there. */
  lemma PiecesAtUnique(s: string, i: nat, a: nat, b: nat, c: nat, d: nat)
    requires i <= |s|
    requires PiecesAccepts(s, i, a, b, c, d)
    ensures PiecesAt(s, i) == Some(Span(i, a))
    ensures a == RunEnd(Digit, s, i) && b == RunEnd(Space, s, a)
    ensures c == RunEnd(Digit, s, b) && d == RunEnd(Space, s, c)
  {
    RunEndUnique(Digit, s, i, a);
    RunEndUnique(Space, s, a, b);
    RunEndUnique(Digit, s, b, c);
    assert s[d] == s[d..d + |GrandTotal|][0];
    RunEndUnique(Space, s, c, d);
  }

  /** A match that starts inside a digit run also matches one character earlier. */
  lemma PiecesAtExtendsLeft(s: string, i: nat)
    requires 0 < i <= |s| && IsDigit(s[i - 1])
    requires PiecesAt(s, i).Some?
    ensures PiecesAt(s, i - 1) == Some(Span(i - 1, PiecesAt(s, i).value.hi))
  {
    assert RunEnd(Digit, s, i - 1) == RunEnd(Digit, s, i);
  }

  // ------------------------------------------------------------------------ re.search

  /** The match, if any, of pattern `p` starting exactly at `i`. */
  function MatchAt(p: Pattern, s: string, i: nat): (r: Option<Span>)
    requires i <= |s|
    ensures r.Some? ==> r.value.lo < r.value.hi <= |s|
  {
    match p
    case Labelled(_, _, _, _) => LabelledAt(p, s, i)
    case PiecesBeforeTotal => PiecesAt(s, i)
  }

  /** The leftmost match at or after `from`. */
  function SearchFrom(p: Pattern, s: string, from: nat): (r: Option<Found>)
    requires from <= |s|
    ensures r.None? ==> forall i :: from <= i <= |s| ==> MatchAt(p, s, i).None?
    ensures r.Some? ==> from <= r.value.start <= |s| && MatchAt(p, s, r.value.start) == Some(r.value.group)
    ensures r.Some? ==> forall i :: from <= i < r.value.start ==> MatchAt(p, s, i).None?
    decreases |s| - from
  {
    var m := MatchAt(p, s, from);
    if m.Some? then Some(Found(from, m.value))
    else if from == |s| then None else SearchFrom(p, s, from + 1)
  }

  /** `re.search(p, s)`: the match whose start is leftmost. */
  function Search(p: Pattern, s: string): (r: Option<Found>)
    ensures r.None? <==> forall i :: 0 <= i <= |s| ==> MatchAt(p, s, i).None?
    ensures r.Some? ==> r.value.start <= |s| && MatchAt(p, s, r.value.start) == Some(r.value.group)
    ensures r.Some? ==> forall i :: 0 <= i < r.value.start ==> MatchAt(p, s, i).None?
  {
    SearchFrom(p, s, 0)
  }

  /** `match.group(1)` when there is a match, and "" when there is none. */
  function GroupOr(s: string, r: Option<Found>): (g: string)
    requires r.Some? ==> r.value.group.lo <= r.value.group.hi <= |s|
  {
    if r.Some? then s[r.value.group.lo..r.value.group.hi] else ""
  }

  // ------------------------------------------------- what re.search returns, declaratively

  /** The match Python reports for a labelled pattern: it is a way to match, none
      starts further left, and among those starting at `i` backtracking reaches it
      first (the most whitespace, then the longest token). */
  ghost predicate LabelledLeftmost(p: Pattern, s: string, i: nat, j: nat, e: nat) {
    && LabelledAccepts(p, s, i, j, e)
    && (forall k: nat, j': nat, e': nat :: k < i ==> !LabelledAccepts(p, s, k, j', e'))
    && (forall j': nat, e': nat :: LabelledAccepts(p, s, i, j', e') ==> j' < j || (j' == j && e' <= e))
  }

  /** `re.search` on a labelled pattern finds nothing exactly when the pattern matches
      nowhere, and otherwise reports the leftmost, greedy match, which is unique. */
  lemma LabelledSearch(p: Pattern, s: string)
    requires p.Labelled? && WellFormed(p)
    ensures Search(p, s).None? <==> forall i: nat, j: nat, e: nat :: !LabelledAccepts(p, s, i, j, e)
    ensures Search(p, s).Some? ==>
      LabelledLeftmost(p, s, Search(p, s).value.start, Search(p, s).value.group.lo, Search(p, s).value.group.hi)
    ensures forall i: nat, j: nat, e: nat :: LabelledLeftmost(p, s, i, j, e) ==> Search(p, s) == Some(Found(i, Span(j, e)))
  {
    if Search(p, s).Some? {
      LabelledSearchFound(p, s);
    } else {
      forall i: nat, j: nat, e: nat ensures !LabelledAccepts(p, s, i, j, e) {
        if i <= |s| {
          LabelledAtGreedy(p, s, i);
        }
      }
    }
    forall i: nat, j: nat, e: nat | LabelledLeftmost(p, s, i, j, e)
      ensures Search(p, s) == Some(Found(i, Span(j, e)))
    {
      LabelledLeftmostIsFound(p, s, i, j, e);
    }
  }

  /** What `re.search` finds is a leftmost, greedy match. */
  lemma LabelledSearchFound(p: Pattern, s: string)
    requires p.Labelled? && WellFormed(p) && Search(p, s).Some?
    ensures
      var f := Search(p, s).value;
      LabelledLeftmost(p, s, f.start, f.group.lo, f.group.hi)
  {
    var f := Search(p, s).value;
    assert LabelledAccepts(p, s, f.start, f.group.lo, f.group.hi);
    assert forall k: nat, j': nat, e': nat :: k < f.start ==> !LabelledAccepts(p, s, k, j', e') by {
      forall k: nat, j': nat, e': nat | k < f.start ensures !LabelledAccepts(p, s, k, j', e') {
        LabelledAtGreedy(p, s, k);
      }
    }
    assert forall j': nat, e': nat :: LabelledAccepts(p, s, f.start, j', e') ==> j' < f.group.lo || (j' == f.group.lo && e' <= f.group.hi) by {
      LabelledAtGreedy(p, s, f.start);
    }
  }

  /** The leftmost, greedy match is the one `re.search` finds. */
  lemma LabelledLeftmostIsFound(p: Pattern, s: string, i: nat, j: nat, e: nat)
    requires p.Labelled? && WellFormed(p) && LabelledLeftmost(p, s, i, j, e)
    ensures Search(p, s) == Some(Found(i, Span(j, e)))
  {
    LabelledAtGreedy(p, s, i);
    var m := MatchAt(p, s, i).value;
    var r := Search(p, s);
    assert r.Some? && r.value.start <= i;
    var st := r.value.start;
    assert LabelledAccepts(p, s, st, LabelledAt(p, s, st).value.lo, LabelledAt(p, s, st).value.hi);
    assert st == i;
    assert LabelledAccepts(p, s, i, m.lo, m.hi);
    assert m == Span(j, e);
    assert r.value == Found(i, m);
  }

  /** The match Python reports for the pieces pattern: a way to match, none further left. */
  ghost predicate PiecesLeftmost(s: string, i: nat, a: nat, b: nat, c: nat, d: nat) {
    && PiecesAccepts(s, i, a, b, c, d)
    && forall k: nat, a': nat, b': nat, c': nat, d': nat :: k < i ==> !PiecesAccepts(s, k, a', b', c', d')
  }

  /** Every way the pieces pattern can match is the match computed at its start. */
  lemma PiecesMatches(s: string)
    ensures forall i: nat, a: nat, b: nat, c: nat, d: nat :: PiecesAccepts(s, i, a, b, c, d) ==>
      i <= |s| && MatchAt(Pieces, s, i) == Some(Span(i, a))
  {
    forall i: nat, a: nat, b: nat, c: nat, d: nat | PiecesAccepts(s, i, a, b, c, d)
      ensures i <= |s| && MatchAt(Pieces, s, i) == Some(Span(i, a))
    {
      PiecesAtUnique(s, i, a, b, c, d);
    }
  }

  /** What `re.search` finds for the pieces pattern is the leftmost match, and its group
      is a whole digit run. */
  lemma PiecesSearchFound(s: string)
    requires Search(Pieces, s).Some?
    ensures
      var f := Search(Pieces, s).value;
      && f.group.lo == f.start
      && (exists b: nat, c: nat, d: nat :: PiecesLeftmost(s, f.start, f.group.hi, b, c, d))
      && (f.start == 0 || !IsDigit(s[f.start - 1]))
      && f.group.hi == RunEnd(Digit, s, f.start)
  {
    PiecesMatches(s);
    var st, g := Search(Pieces, s).value.start, Search(Pieces, s).value.group;
    var b, c, d :| PiecesAccepts(s, st, g.hi, b, c, d);
    assert PiecesLeftmost(s, st, g.hi, b, c, d);
    PiecesAtUnique(s, st, g.hi, b, c, d);
    if st > 0 && IsDigit(s[st - 1]) {
      PiecesAtExtendsLeft(s, st);
      assert false;
    }
  }

  /** The leftmost match of the pieces pattern is what `re.search` finds. */
  lemma PiecesLeftmostFound(s: string, i: nat, a: nat, b: nat, c: nat, d: nat)
    requires PiecesLeftmost(s, i, a, b, c, d)
    ensures Search(Pieces, s) == Some(Found(i, Span(i, a)))
  {
    PiecesAtUnique(s, i, a, b, c, d);
    assert MatchAt(Pieces, s, i) == Some(Span(i, a));
    var r := Search(Pieces, s);
    assert r.Some? && r.value.start <= i;
    var st := r.value.start;
    var b', c', d' :| PiecesAccepts(s, st, PiecesAt(s, st).value.hi, b', c', d');
    assert st == i;
  }

  lemma PiecesLeftmostIsFound(s: string)
    ensures forall i: nat, a: nat, b: nat, c: nat, d: nat :: PiecesLeftmost(s, i, a, b, c, d) ==>
      Search(Pieces, s) == Some(Found(i, Span(i, a)))
  {
    forall i: nat, a: nat, b: nat, c: nat, d: nat | PiecesLeftmost(s, i, a, b, c, d)
      ensures Search(Pieces, s) == Some(Found(i, Span(i, a)))
    {
      PiecesLeftmostFound(s, i, a, b, c, d);
    }
  }

  /** `re.search` on the pieces pattern finds nothing exactly when it matches nowhere;
      otherwise its match is the unique leftmost one, and group 1 is a whole maximal
      digit run: it starts where a run starts and ends where it ends. */
  lemma PiecesSearch(s: string)
    ensures Search(Pieces, s).None? <==> forall i: nat, a: nat, b: nat, c: nat, d: nat :: !PiecesAccepts(s, i, a, b, c, d)
    ensures Search(Pieces, s).Some? ==>
      var f := Search(Pieces, s).value;
      && f.group.lo == f.start
      && (exists b: nat, c: nat, d: nat :: PiecesLeftmost(s, f.start, f.group.hi, b, c, d))
      && (f.start == 0 || !IsDigit(s[f.start - 1]))
      && f.group.hi == RunEnd(Digit, s, f.start)
    ensures forall i: nat, a: nat, b: nat, c: nat, d: nat :: PiecesLeftmost(s, i, a, b, c, d) ==> Search(Pieces, s) == Some(Found(i, Span(i, a)))
  {
    PiecesMatches(s);
    if Search(Pieces, s).Some? {
      PiecesSearchFound(s);
    }
    PiecesLeftmostIsFound(s);
  }
}
