/**
 * The hand-written equivalent of `Regex::new(r#""(.*?)""#)` with `captures_iter` and the
 * first capture group, as used by `extract_all_quoted_strings` in every revision.
 * `.` does not match a newline, and `.*?` is lazy, so a match that starts at a quote ends
 * at the next quote, unless a newline comes first: then no match starts at that quote and
 * the search resumes one character later. After a match the search resumes after its
 * closing quote, so matches never overlap.
 */
module QuotedStrings {

  predicate Clean(p: string)
  {
    forall i :: 0 <= i < |p| ==> p[i] != '"' && p[i] != '\n'
  }

  /** Position of the first quote or newline in `s`, or `|s|` when there is none. */
  function StopAt(s: string): (k: nat)
    ensures k <= |s|
    ensures Clean(s[..k])
    ensures k < |s| ==> s[k] == '"' || s[k] == '\n'
  {
    if |s| == 0 then 0
    else if s[0] == '"' || s[0] == '\n' then 0
    else
      var k := 1 + StopAt(s[1..]);
      assert s[..k] == [s[0]] + s[1..][..k - 1];
      k
  }

  /** The text between successive matched quote pairs, left to right. */
  function Extract(s: string): (pieces: seq<string>)
    ensures forall j :: 0 <= j < |pieces| ==> Clean(pieces[j])
    decreases |s|
  {
    if |s| == 0 then []
    else if s[0] != '"' then Extract(s[1..])
    else
      var k := StopAt(s[1..]);
      if k < |s| - 1 && s[1 + k] == '"' then
        assert s[1..1 + k] == s[1..][..k];
        [s[1..1 + k]] + Extract(s[2 + k..])
      else Extract(s[1..])
  }

  function CountQuotes(s: string): nat
  {
    if |s| == 0 then 0 else (if s[0] == '"' then 1 else 0) + CountQuotes(s[1..])
  }

  predicate NoNewline(s: string)
  {
    forall i :: 0 <= i < |s| ==> s[i] != '\n'
  }

  predicate NoQuote(s: string)
  {
    forall i :: 0 <= i < |s| ==> s[i] != '"'
  }

  lemma {:induction false} CountSkipsQuoteFree(s: string, k: nat)
    requires k <= |s| && NoQuote(s[..k])
    ensures CountQuotes(s) == CountQuotes(s[k..])
    decreases k
  {
    if k > 0 {
      assert s[0] == s[..k][0];
      assert s[1..][..k - 1] == s[..k][1..];
      CountSkipsQuoteFree(s[1..], k - 1);
      assert s[1..][k - 1..] == s[k..];
    }
  }

  /** Without newlines every pair of quotes yields one piece: |pieces| = ⌊quotes / 2⌋. */
  lemma {:induction false} PieceCountWithoutNewlines(s: string)
    requires NoNewline(s)
    ensures |Extract(s)| == CountQuotes(s) / 2
    decreases |s|
  {
    if |s| > 0 {
      if s[0] != '"' {
        PieceCountWithoutNewlines(s[1..]);
      } else if StopAt(s[1..]) < |s| - 1 {
        var k := StopAt(s[1..]);
        MatchedPair(s, k);
        PieceCountWithoutNewlines(s[2 + k..]);
      } else {
        UnmatchedQuote(s);
        PieceCountWithoutNewlines(s[1..]);
      }
    }
  }

  /** Fewer than six quotes, and no newline, give fewer than three pieces. */
  lemma FewQuotesFewPieces(s: string)
    requires NoNewline(s) && CountQuotes(s) < 6
    ensures |Extract(s)| < 3
  {
    PieceCountWithoutNewlines(s);
  }

  /** A quote whose partner follows before any newline: one piece, two quotes consumed. */
  lemma MatchedPair(s: string, k: nat)
    requires NoNewline(s) && |s| > 0 && s[0] == '"'
    requires k == StopAt(s[1..]) && k < |s| - 1
    ensures Extract(s) == [s[1..1 + k]] + Extract(s[2 + k..])
    ensures CountQuotes(s) == 2 + CountQuotes(s[2 + k..])
    ensures NoNewline(s[2 + k..])
  {
    PairCloses(s, k);
    PairCount(s, k);
    PairPiece(s, k);
    NoNewlineSuffix(s, 2 + k);
  }

  /** The text between the pair is the piece, and the scan resumes after the pair. */
  lemma PairPiece(s: string, k: nat)
    requires |s| > 0 && s[0] == '"'
    requires k == StopAt(s[1..]) && k < |s| - 1 && s[1 + k] == '"'
    ensures Extract(s) == [s[1..1 + k]] + Extract(s[2 + k..])
  {
  }

  lemma NoNewlineSuffix(s: string, n: nat)
    requires NoNewline(s) && n <= |s|
    ensures NoNewline(s[n..])
  {
    forall i | 0 <= i < |s[n..]|
      ensures s[n..][i] != '\n'
    {
      assert s[n..][i] == s[n + i];
    }
  }

  /** Without newlines, the stop after an opening quote is the closing quote. */
  lemma PairCloses(s: string, k: nat)
    requires NoNewline(s) && |s| > 0 && s[0] == '"'
    requires k == StopAt(s[1..]) && k < |s| - 1
    ensures s[1 + k] == '"'
  {
    assert s[1..][k] == s[1 + k];
  }

  /** The pair accounts for two quotes; nothing between them is one. */
  lemma PairCount(s: string, k: nat)
    requires |s| > 0 && s[0] == '"'
    requires k == StopAt(s[1..]) && k < |s| - 1 && s[1 + k] == '"'
    ensures CountQuotes(s) == 2 + CountQuotes(s[2 + k..])
  {
    var t := s[1..];
    assert NoQuote(t[..k]);
    CountSkipsQuoteFree(t, k);
    assert t[k..][1..] == s[2 + k..];
  }

  /** A quote with no partner after it: no piece, and no quote left in the rest. */
  lemma UnmatchedQuote(s: string)
    requires NoNewline(s) && |s| > 0 && s[0] == '"'
    requires StopAt(s[1..]) == |s| - 1
    ensures Extract(s) == Extract(s[1..])
    ensures CountQuotes(s) == 1 + CountQuotes(s[1..])
    ensures CountQuotes(s[1..]) == 0
    ensures NoNewline(s[1..])
  {
    var t := s[1..];
    assert t[..|t|] == t;
    CountSkipsQuoteFree(t, |t|);
    assert t[|t|..] == [];
  }

  /** Membership forms of Clean and NoQuote, which literals discharge directly. */
  lemma CleanByMembership(p: string)
    requires '"' !in p && '\n' !in p
    ensures Clean(p)
  {
    forall i | 0 <= i < |p| ensures p[i] != '"' && p[i] != '\n' {
      assert p[i] in p;
    }
  }

  lemma NoQuoteByMembership(s: string)
    requires '"' !in s
    ensures NoQuote(s)
  {
    forall i | 0 <= i < |s| ensures s[i] != '"' {
      assert s[i] in s;
    }
  }

  function Quote(p: string): string
  {
    "\"" + p + "\""
  }

  /**
   * Left-to-right decomposition: text without quotes, then one quoted clean piece, then the
   * rest, yields that piece followed by the pieces of the rest.
   */
  lemma {:induction false} ExtractQuotedThenRest(lead: string, p: string, rest: string)
    requires NoQuote(lead) && Clean(p)
    ensures Extract(lead + Quote(p) + rest) == [p] + Extract(rest)
  {
    ExtractAfterQuoteFree(lead, Quote(p) + rest);
    assert lead + Quote(p) + rest == lead + (Quote(p) + rest);
    ExtractQuotedFirst(p, rest);
  }

  lemma ExtractQuotedFirst(p: string, rest: string)
    requires Clean(p)
    ensures Extract(Quote(p) + rest) == [p] + Extract(rest)
  {
    var s := Quote(p) + rest;
    assert s[0] == '"';
    assert s[1..] == p + ("\"" + rest);
    StopAtClean(p, "\"" + rest);
    var k := StopAt(s[1..]);
    assert k == |p|;
    assert s[1 + k] == '"';
    assert s[1..1 + k] == p;
    assert s[2 + k..] == rest;
  }

  lemma {:induction false} StopAtClean(p: string, t: string)
    requires Clean(p) && |t| > 0 && (t[0] == '"' || t[0] == '\n')
    ensures StopAt(p + t) == |p|
    decreases |p|
  {
    if |p| > 0 {
      assert (p + t)[1..] == p[1..] + t;
      StopAtClean(p[1..], t);
    }
  }

  lemma {:induction false} ExtractQuoteFree(s: string)
    requires NoQuote(s)
    ensures Extract(s) == []
    decreases |s|
  {
    if |s| > 0 { ExtractQuoteFree(s[1..]); }
  }

  /** Quoted pieces separated by quote-free text: the form a challenge header is written in. */
  function Render(pieces: seq<string>, sep: string): string
  {
    if |pieces| == 0 then "" else Quote(pieces[0]) + sep + Render(pieces[1..], sep)
  }

  /** Extraction undoes Render for clean pieces and quote-free separators. */
  lemma {:induction false} ExtractRender(pieces: seq<string>, sep: string)
    requires forall j :: 0 <= j < |pieces| ==> Clean(pieces[j])
    requires NoQuote(sep)
    ensures Extract(Render(pieces, sep)) == pieces
  {
    if |pieces| > 0 {
      ExtractRender(pieces[1..], sep);
      assert Render(pieces, sep) == "" + Quote(pieces[0]) + (sep + Render(pieces[1..], sep));
      ExtractQuotedThenRest("", pieces[0], sep + Render(pieces[1..], sep));
      ExtractAfterQuoteFree(sep, Render(pieces[1..], sep));
    } else {
      ExtractQuoteFree("");
    }
  }

  lemma {:induction false} ExtractAfterQuoteFree(lead: string, rest: string)
    requires NoQuote(lead)
    ensures Extract(lead + rest) == Extract(rest)
    decreases |lead|
  {
    if |lead| > 0 {
      assert (lead + rest)[0] == lead[0] != '"';
      assert (lead + rest)[1..] == lead[1..] + rest;
      ExtractAfterQuoteFree(lead[1..], rest);
    } else {
      assert lead + rest == rest;
    }
  }

  /** A challenge with three quoted attribute values yields exactly those three values. */
  lemma {:induction false} ExtractThree(l1: string, p1: string, l2: string, p2: string, l3: string, p3: string)
    requires NoQuote(l1) && NoQuote(l2) && NoQuote(l3)
    requires Clean(p1) && Clean(p2) && Clean(p3)
    ensures Extract(l1 + Quote(p1) + l2 + Quote(p2) + l3 + Quote(p3)) == [p1, p2, p3]
  {
    var tail3 := l3 + Quote(p3) + "";
    var tail2 := l2 + Quote(p2) + tail3;
    assert l1 + Quote(p1) + l2 + Quote(p2) + l3 + Quote(p3) == l1 + Quote(p1) + tail2;
    ExtractQuotedThenRest(l1, p1, tail2);
    ExtractQuotedThenRest(l2, p2, tail3);
    ExtractQuotedThenRest(l3, p3, "");
    ExtractQuoteFree("");
  }

  /** A newline between two quotes stops the first match; the second quote can still open one. */
  lemma NewlineBreaksMatch()
    ensures Extract("\"a\n\"b\"") == ["b"]
  {
    var s := "\"a\n\"b\"";
    assert StopAt(s[1..]) == 1;
    assert s[1..][1..] == "\n\"b\"";
    assert s[3..] == "\"b\"";
    ExtractQuotedThenRest("", "b", "");
    assert "" + Quote("b") + "" == s[3..];
    assert Extract(s[2..]) == Extract(s[3..]);
  }
}
