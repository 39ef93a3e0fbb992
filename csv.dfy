/** The text of the downloaded summary.csv: a header line and one field holding the
    summary, enclosed in double quotes, with every embedded double quote doubled
    (section 2, rules 5 to 7, of RFC 4180). */
module CsvExport {
  import opened Wrappers

  const Quote: char := '"'

  /** The header line, newline included. */
  const Header: string := "Summary\n"

  /** The number of double quotes in s. */
  function QuoteCount(s: string): nat {
    multiset(s)[Quote]
  }

  /** The quote doubling `replace(/"/g, '""')`: each double quote becomes two,
      every other character is kept; the result is longer by the number of quotes. */
  function EscapeQuotes(s: string): (r: string)
    ensures |r| == |s| + QuoteCount(s)
  {
    if s == [] then []
    else
      assert s == [s[0]] + s[1..];
      (if s[0] == Quote then [Quote, Quote] else [s[0]]) + EscapeQuotes(s[1..])
  }

  /** The text an RFC 4180 parser accepts between the enclosing quotes of a field:
      every double quote is one of an adjacent pair. */
  predicate QuotesPaired(t: string)
    decreases |t|
  {
    t == [] ||
    (t[0] != Quote && QuotesPaired(t[1..])) ||
    (|t| >= 2 && t[0] == Quote && t[1] == Quote && QuotesPaired(t[2..]))
  }

  /** The inverse of the doubling, scanning left to right: each pair `""`
      collapses to one `"`. */
  function CollapseQuotes(t: string): (r: string)
    ensures |r| <= |t|
    decreases |t|
  {
    if t == [] then []
    else if |t| >= 2 && t[0] == Quote && t[1] == Quote then [Quote] + CollapseQuotes(t[2..])
    else [t[0]] + CollapseQuotes(t[1..])
  }

  lemma {:induction false} EscapedIsPaired(s: string)
    ensures QuotesPaired(EscapeQuotes(s))
  {
    if s != [] {
      EscapedIsPaired(s[1..]);
      var t := EscapeQuotes(s);
      if s[0] == Quote {
        assert t[2..] == EscapeQuotes(s[1..]);
      } else {
        assert t[1..] == EscapeQuotes(s[1..]);
      }
    }
  }

  /** Collapsing the doubled quotes gives back the summary exactly. */
  lemma {:induction false} CollapseEscape(s: string)
    ensures CollapseQuotes(EscapeQuotes(s)) == s
  {
    if s != [] {
      CollapseEscape(s[1..]);
      var t := EscapeQuotes(s);
      if s[0] == Quote {
        assert t[2..] == EscapeQuotes(s[1..]);
      } else {
        assert t[1..] == EscapeQuotes(s[1..]);
      }
    }
  }

  /** Every correctly escaped field body is the escaping of exactly one string. */
  lemma {:induction false} EscapeCollapse(t: string)
    requires QuotesPaired(t)
    ensures EscapeQuotes(CollapseQuotes(t)) == t
    decreases |t|
  {
    if t == [] {
    } else if |t| >= 2 && t[0] == Quote && t[1] == Quote {
      var rest := CollapseQuotes(t[2..]);
      assert CollapseQuotes(t) == [Quote] + rest;
      EscapeCollapse(t[2..]);
      EscapeCons(Quote, rest);
      assert t == [Quote, Quote] + t[2..];
    } else {
      var rest := CollapseQuotes(t[1..]);
      assert t[0] != Quote;
      assert CollapseQuotes(t) == [t[0]] + rest;
      EscapeCollapse(t[1..]);
      EscapeCons(t[0], rest);
      assert t == [t[0]] + t[1..];
    }
  }

  /** Escaping a string that starts with c escapes c, then the rest. */
  lemma EscapeCons(c: char, s: string)
    ensures EscapeQuotes([c] + s) == (if c == Quote then [Quote, Quote] else [c]) + EscapeQuotes(s)
  {
    assert ([c] + s)[1..] == s;
  }

  /** The content written to summary.csv for a given summary. */
  function SummaryCsv(summary: string): (r: string)
    ensures |r| == |Header| + |summary| + QuoteCount(summary) + 2
  {
    Header + [Quote] + EscapeQuotes(summary) + [Quote]
  }

  /** Reads a summary back from the content of summary.csv, failing on anything
      that is not the header followed by one correctly quoted field. */
  function ParseSummaryCsv(content: string): (r: Option<string>)
  {
    var n := |Header|;
    if |content| >= n + 2 && content[..n] == Header && content[n] == Quote
       && content[|content| - 1] == Quote && QuotesPaired(content[n + 1..|content| - 1])
    then Some(CollapseQuotes(content[n + 1..|content| - 1]))
    else None
  }

  /** Reading the file back recovers the summary (section 2, rule 7, of RFC 4180). */
  lemma SummaryCsvRoundTrip(summary: string)
    ensures ParseSummaryCsv(SummaryCsv(summary)) == Some(summary)
  {
    var n := |Header|;
    var c := SummaryCsv(summary);
    assert c[..n] == Header;
    assert c[n] == Quote;
    assert c[n + 1..|c| - 1] == EscapeQuotes(summary);
    EscapedIsPaired(summary);
    CollapseEscape(summary);
  }

  /** The file written for a summary is the only content that reads back as it. */
  lemma SummaryCsvUnique(content: string, summary: string)
    requires ParseSummaryCsv(content) == Some(summary)
    ensures content == SummaryCsv(summary)
  {
    var n := |Header|;
    var body := content[n + 1..|content| - 1];
    EscapeCollapse(body);
    Enclosed(content, n);
  }

  /** A string of at least n + 2 characters is its first n, one character, the
      middle and its last character. */
  lemma Enclosed(s: string, n: nat)
    requires |s| >= n + 2
    ensures s == s[..n] + [s[n]] + s[n + 1..|s| - 1] + [s[|s| - 1]]
  {
    assert s[..n] + [s[n]] == s[..n + 1];
    assert s[..n + 1] + s[n + 1..|s| - 1] == s[..|s| - 1];
  }
}
