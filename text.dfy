/** The cell normalisation `.strip().strip('"')` applied to every header cell
    and field (penguin_analysis.py:17, 29-35, 67-69), the missing-value test
    and ASCII lower-casing. */
module Text {
  import opened Seqs

  /** The characters Python's `str.strip()` removes: those for which
      `str.isspace()` holds. */
  predicate IsSpace(c: char)
  {
    || '\t' <= c <= '\r'
    || '\U{1C}' <= c <= ' '
    || c == '\U{85}' || c == '\U{A0}' || c == '\U{1680}'
    || '\U{2000}' <= c <= '\U{200A}'
    || c == '\U{2028}' || c == '\U{2029}' || c == '\U{202F}' || c == '\U{205F}' || c == '\U{3000}'
  }

  predicate IsQuote(c: char)
  {
    c == '"'
  }

  /** How many characters at the front of `s` satisfy `p`. */
  function LeadingCount(s: string, p: char -> bool): (k: nat)
    ensures k <= |s|
  {
    if s == [] || !p(s[0]) then 0 else 1 + LeadingCount(s[1..], p)
  }

  /** The leading count is the length of the longest prefix all of whose
      characters satisfy `p`. */
  lemma {:induction false} LeadingCountSpec(s: string, p: char -> bool)
    ensures forall i :: 0 <= i < LeadingCount(s, p) ==> p(s[i])
    ensures LeadingCount(s, p) < |s| ==> !p(s[LeadingCount(s, p)])
  {
    if s != [] && p(s[0]) {
      LeadingCountSpec(s[1..], p);
      assert forall i :: 1 <= i < |s| ==> s[i] == s[1..][i - 1];
    }
  }

  /** How many characters at the back of `s` satisfy `p`. */
  function TrailingCount(s: string, p: char -> bool): (k: nat)
    ensures k <= |s|
  {
    if s == [] || !p(s[|s| - 1]) then 0 else 1 + TrailingCount(s[..|s| - 1], p)
  }

  /** The mirror image of `LeadingCountSpec`. */
  lemma {:induction false} TrailingCountSpec(s: string, p: char -> bool)
    ensures forall i :: |s| - TrailingCount(s, p) <= i < |s| ==> p(s[i])
    ensures TrailingCount(s, p) < |s| ==> !p(s[|s| - 1 - TrailingCount(s, p)])
  {
    if s != [] && p(s[|s| - 1]) {
      TrailingCountSpec(s[..|s| - 1], p);
      assert forall i :: 0 <= i < |s| - 1 ==> s[i] == s[..|s| - 1][i];
    }
  }

  /** Python's `s.strip(chars)`: drop every leading and every trailing
      character that satisfies `p`. */
  function StripBy(s: string, p: char -> bool): string
  {
    var t := s[LeadingCount(s, p)..];
    t[..|t| - TrailingCount(t, p)]
  }

  /** What stripping leaves runs from the first to the last character of
      `s` that does not satisfy `p`. */
  lemma StripByRange(s: string, p: char -> bool)
    ensures var r := StripBy(s, p);
      r != [] ==> LeadingCount(s, p) + TrailingCount(s, p) < |s|
                  && r == s[LeadingCount(s, p)..|s| - TrailingCount(s, p)]
  {
    var a := LeadingCount(s, p);
    var t := s[a..];
    if t != [] {
      TrailingOfSuffix(s, p);
      var b := TrailingCount(s, p);
      SliceOfSuffix(s, a, |t| - b);
    }
  }

  /** Nothing is left exactly when every character satisfies `p`. */
  lemma StripByEmpty(s: string, p: char -> bool)
    ensures StripBy(s, p) == [] <==> forall i :: 0 <= i < |s| ==> p(s[i])
  {
    var a := LeadingCount(s, p);
    var t := s[a..];
    LeadingCountSpec(s, p);
    if t != [] {
      TrailingOfSuffix(s, p);
      assert StripBy(s, p) != [];
      assert !p(s[a]);
    }
  }

  /** What is left begins and ends with characters outside `p`. */
  lemma StripByEdges(s: string, p: char -> bool)
    ensures var r := StripBy(s, p);
      r != [] ==> !p(r[0]) && !p(r[|r| - 1])
  {
    var r := StripBy(s, p);
    if r != [] {
      StripByRange(s, p);
      LeadingCountSpec(s, p);
      TrailingCountSpec(s, p);
      var a, b := LeadingCount(s, p), TrailingCount(s, p);
      assert r[0] == s[a];
      assert r[|r| - 1] == s[|s| - 1 - b];
    }
  }

  /** Once the leading run is gone, the trailing run is the one of the whole
      cell, unless nothing is left. */
  lemma {:induction false} TrailingOfSuffix(s: string, p: char -> bool)
    ensures var t := s[LeadingCount(s, p)..];
      t != [] ==> TrailingCount(t, p) == TrailingCount(s, p) < |t|
  {
    var a := LeadingCount(s, p);
    var t := s[a..];
    if t != [] {
      LeadingCountSpec(s, p);
      TrailingCountSpec(t, p);
      TrailingCountSpec(s, p);
      var b := TrailingCount(t, p);
      assert b < |t| by {
        assert !p(t[0]);
      }
      assert forall i :: |s| - b <= i < |s| ==> p(s[i]) by {
        assert forall i :: |s| - b <= i < |s| ==> s[i] == t[i - a];
      }
      assert !p(s[|s| - 1 - b]) by {
        assert t[|t| - 1 - b] == s[|s| - 1 - b];
      }
    }
  }

  /** `cell.strip().strip('"')`: surrounding whitespace first, then every
      leading and trailing double quote, not just one enclosing pair. */
  function Normalize(s: string): string
  {
    StripBy(StripBy(s, IsSpace), IsQuote)
  }

  /** A normalised cell neither begins nor ends with a quote. */
  lemma NormalizeNoEdgeQuotes(s: string)
    ensures var r := Normalize(s);
      r == [] || (!IsQuote(r[0]) && !IsQuote(r[|r| - 1]))
  {
    StripByEdges(StripBy(s, IsSpace), IsQuote);
  }

  /** A leading run of characters satisfying `p` before a character that
      does not is exactly what `LeadingCount` counts. */
  lemma LeadingCountOfRun(a: string, b: string, p: char -> bool)
    requires forall i :: 0 <= i < |a| ==> p(a[i])
    requires b != [] && !p(b[0])
    ensures LeadingCount(a + b, p) == |a|
  {
    LeadingCountSpec(a + b, p);
    assert forall i :: 0 <= i < |a| ==> (a + b)[i] == a[i];
    assert (a + b)[|a|] == b[0];
  }

  /** The mirror image of `LeadingCountOfRun`. */
  lemma TrailingCountOfRun(a: string, b: string, p: char -> bool)
    requires forall i :: 0 <= i < |b| ==> p(b[i])
    requires a != [] && !p(a[|a| - 1])
    ensures TrailingCount(a + b, p) == |b|
  {
    var s := a + b;
    TrailingCountSpec(s, p);
    assert forall i :: 0 <= i < |b| ==> s[|a| + i] == b[i];
    assert s[|s| - 1 - |b|] == a[|a| - 1];
  }

  /** Stripping a run of `p` characters from each side of a word that begins
      and ends with other characters gives back the word. */
  lemma StripRuns(front: string, w: string, back: string, p: char -> bool)
    requires forall i :: 0 <= i < |front| ==> p(front[i])
    requires forall i :: 0 <= i < |back| ==> p(back[i])
    requires w != [] && !p(w[0]) && !p(w[|w| - 1])
    ensures StripBy(front + w + back, p) == w
  {
    var s := front + w + back;
    assert s == front + (w + back);
    LeadingCountOfRun(front, w + back, p);
    assert s[|front|..] == w + back;
    TrailingCountOfRun(w, back, p);
    assert (w + back)[..|w|] == w;
  }

  /** A cell that begins and ends with characters outside `p` is kept whole. */
  lemma StripKeepsWhole(s: string, p: char -> bool)
    requires s != [] && !p(s[0]) && !p(s[|s| - 1])
    ensures StripBy(s, p) == s
  {
    var none: string := [];
    assert none + s + none == s;
    StripRuns(none, s, none, p);
  }

  /** Normalisation removes surrounding whitespace and then ALL the quotes
      around a word, however many there are on either side. */
  lemma NormalizeStripsAllQuotes(pad1: string, q1: string, w: string, q2: string, pad2: string)
    requires forall i :: 0 <= i < |pad1| ==> IsSpace(pad1[i])
    requires forall i :: 0 <= i < |pad2| ==> IsSpace(pad2[i])
    requires forall i :: 0 <= i < |q1| ==> IsQuote(q1[i])
    requires forall i :: 0 <= i < |q2| ==> IsQuote(q2[i])
    requires w != [] && !IsQuote(w[0]) && !IsQuote(w[|w| - 1])
    requires !IsSpace(w[0]) && !IsSpace(w[|w| - 1])
    ensures Normalize(pad1 + q1 + w + q2 + pad2) == w
  {
    var inner := q1 + w + q2;
    assert inner != [] && !IsSpace(inner[0]) && !IsSpace(inner[|inner| - 1]) by {
      assert inner[0] == if q1 == [] then w[0] else q1[0];
      assert inner[|inner| - 1] == if q2 == [] then w[|w| - 1] else q2[|q2| - 1];
    }
    assert pad1 + q1 + w + q2 + pad2 == pad1 + inner + pad2;
    StripRuns(pad1, inner, pad2, IsSpace);
    StripRuns(q1, w, q2, IsQuote);
  }

  /** A cell that already begins and ends with a character that is neither
      whitespace nor a quote is left as it is. */
  lemma NormalizeKeepsClean(s: string)
    requires s != [] && !IsQuote(s[0]) && !IsQuote(s[|s| - 1])
    requires !IsSpace(s[0]) && !IsSpace(s[|s| - 1])
    ensures Normalize(s) == s
  {
    StripKeepsWhole(s, IsSpace);
    StripKeepsWhole(s, IsQuote);
  }

  /** Quotes shield the whitespace inside them from the first strip. */
  lemma NormalizeKeepsQuotedSpace(q1: string, sp: string, w: string, q2: string)
    requires q1 != [] && forall i :: 0 <= i < |q1| ==> IsQuote(q1[i])
    requires q2 != [] && forall i :: 0 <= i < |q2| ==> IsQuote(q2[i])
    requires sp != [] && forall i :: 0 <= i < |sp| ==> IsSpace(sp[i])
    requires w != [] && !IsQuote(w[|w| - 1])
    ensures Normalize(q1 + (sp + w) + q2) == sp + w
  {
    var inner := sp + w;
    var cell := q1 + inner + q2;
    assert cell[0] == q1[0] && cell[|cell| - 1] == q2[|q2| - 1];
    StripKeepsWhole(cell, IsSpace);
    assert StripBy(cell, IsQuote) == inner by {
      assert inner[0] == sp[0] && inner[|inner| - 1] == w[|w| - 1];
      StripRuns(q1, inner, q2, IsQuote);
    }
  }

  /** Whitespace in front of a clean word is dropped. */
  lemma NormalizeDropsLeadingSpace(sp: string, w: string)
    requires forall i :: 0 <= i < |sp| ==> IsSpace(sp[i])
    requires w != [] && !IsQuote(w[0]) && !IsQuote(w[|w| - 1])
    requires !IsSpace(w[0]) && !IsSpace(w[|w| - 1])
    ensures Normalize(sp + w) == w
  {
    var none: string := [];
    assert sp + w + none == sp + w;
    StripRuns(sp, w, none, IsSpace);
    assert none + w + none == w;
    StripRuns(none, w, none, IsQuote);
  }

  /** Normalising twice can differ from normalising once: quotes shield the
      whitespace inside them, which only a second pass removes. The
      mass-ratio aggregation re-normalises cells the loader already
      normalised, so it sees `w` where the loader stored `sp + w`. */
  lemma NormalizeNotIdempotent(sp: string, w: string)
    requires sp != [] && forall i :: 0 <= i < |sp| ==> IsSpace(sp[i])
    requires w != [] && !IsQuote(w[0]) && !IsQuote(w[|w| - 1])
    requires !IsSpace(w[0]) && !IsSpace(w[|w| - 1])
    ensures var once := Normalize("\"" + (sp + w) + "\"");
      once == sp + w && Normalize(once) == w && Normalize(once) != once
  {
    NormalizeKeepsQuotedSpace("\"", sp, w, "\"");
    NormalizeDropsLeadingSpace(sp, w);
  }

  /** The missing-value markers of penguin_analysis.py:71 and :101. */
  predicate IsMissing(s: string)
  {
    s == "" || s == "NA"
  }

  function LowerChar(c: char): char
  {
    if 'A' <= c <= 'Z' then (c as int - 'A' as int + 'a' as int) as char else c
  }

  /** `str.lower()` on ASCII letters. */
  function Lower(s: string): (r: string)
    ensures |r| == |s|
  {
    seq(|s|, i requires 0 <= i < |s| => LowerChar(s[i]))
  }

  /** A sex cell is classified exactly when it spells the category in any
      mix of upper and lower case. */
  lemma LowerMatchesAnyCase(s: string)
    ensures Lower(s) == "male" <==> |s| == 4 && s[0] in "mM" && s[1] in "aA" && s[2] in "lL" && s[3] in "eE"
  {
    if Lower(s) == "male" {
      assert Lower(s)[0] == LowerChar(s[0]) == 'm';
      assert Lower(s)[1] == LowerChar(s[1]) == 'a';
      assert Lower(s)[2] == LowerChar(s[2]) == 'l';
      assert Lower(s)[3] == LowerChar(s[3]) == 'e';
    }
  }
}
