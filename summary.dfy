/** `makeSummary`: the text of one notification, before it is cut into chunks. */
module Summary {
  import opened Text
  import opened Markdown
  import opened Products

  datatype Mode = Automatic | Requested

  /** The separator the source writes between fields, kept as the three characters it holds. */
  const Bullet: string := "â€¢"

  function Header(mode: Mode): string
  {
    if mode == Automatic then "automatic update" else "requested update"
  }

  /** `Total: … • Available: … • Sold Out: …`, the sold-out figure being total minus available. */
  function CountsLine(ps: seq<Product>): string
  {
    "Total: " + Decimal(|ps|) + " " + Bullet + " Available: " + Decimal(CountAvailable(ps))
      + " " + Bullet + " Sold Out: " + Decimal(|ps| - CountAvailable(ps))
  }

  /** `[name](url) is status • Price: price`, with name and price escaped and the url raw. */
  function EntryLine(p: Product): string
  {
    "[" + Escape(p.name) + "](" + p.url + ") is " + StatusWord(p.status) + " " + Bullet + " Price: " + Escape(p.priceJPY)
  }

  function EntryLines(ps: seq<Product>): seq<string>
  {
    if ps == [] then [] else [EntryLine(ps[0])] + EntryLines(ps[1..])
  }

  /** The header (escaped), the counts, then one entry per product. */
  function SummaryLines(ps: seq<Product>, mode: Mode): seq<string>
  {
    [Escape(Header(mode)), CountsLine(ps)] + EntryLines(ps)
  }

  /** `makeSummary(products, mode)`. */
  function MakeSummary(ps: seq<Product>, mode: Mode): string
  {
    JoinLines(SummaryLines(ps, mode))
  }

  /** A product whose texts hold no line break renders on one line. */
  predicate SingleLine(p: Product)
  {
    '\n' !in p.name && '\n' !in p.url && '\n' !in p.priceJPY
  }

  lemma EscapeKeepsSingleLine(s: string)
    requires '\n' !in s
    ensures '\n' !in Escape(s)
  {
    EscapeAddsOnlyBackslashes(s);
  }

  lemma {:induction false} EntryLinesShape(ps: seq<Product>)
    ensures |EntryLines(ps)| == |ps|
    ensures forall k :: 0 <= k < |ps| ==> EntryLines(ps)[k] == EntryLine(ps[k])
  {
    if ps != [] {
      var rest := EntryLines(ps[1..]);
      EntryLinesShape(ps[1..]);
      var e := EntryLines(ps);
      assert e == [EntryLine(ps[0])] + rest;
      forall k | 1 <= k < |ps| ensures e[k] == EntryLine(ps[k]) {
        assert e[k] == rest[k - 1] && ps[1..][k - 1] == ps[k];
      }
    }
  }

  /**
   * Splitting the summary at line breaks gives the header, the counts line
   * and one entry per product in input order, as long as no product text
   * holds a line break itself.
   */
  lemma SummaryLayout(ps: seq<Product>, mode: Mode)
    requires forall k :: 0 <= k < |ps| ==> SingleLine(ps[k])
    ensures var lines := SplitLines(MakeSummary(ps, mode));
      && |lines| == |ps| + 2
      && lines[0] == Header(mode)
      && lines[1] == CountsLine(ps)
      && forall k :: 0 <= k < |ps| ==> lines[k + 2] == EntryLine(ps[k])
  {
    SummaryLinesShape(ps, mode);
    SplitJoin(SummaryLines(ps, mode));
  }

  lemma SummaryLinesShape(ps: seq<Product>, mode: Mode)
    requires forall k :: 0 <= k < |ps| ==> SingleLine(ps[k])
    ensures var lines := SummaryLines(ps, mode);
      && |lines| == |ps| + 2
      && lines[0] == Header(mode)
      && lines[1] == CountsLine(ps)
      && (forall k :: 0 <= k < |ps| ==> lines[k + 2] == EntryLine(ps[k]))
      && NoNewlines(lines)
  {
    var lines := SummaryLines(ps, mode);
    var entries := EntryLines(ps);
    EntryLinesShape(ps);
    HeaderNeedsNoEscape(mode);
    assert lines[2..] == entries;
    forall k | 0 <= k < |ps| ensures lines[k + 2] == EntryLine(ps[k]) {
      assert lines[k + 2] == entries[k];
    }
    SummaryLinesSingle(ps, mode);
  }

  lemma SummaryLinesSingle(ps: seq<Product>, mode: Mode)
    requires forall k :: 0 <= k < |ps| ==> SingleLine(ps[k])
    ensures NoNewlines(SummaryLines(ps, mode))
  {
    HeaderNeedsNoEscape(mode);
    HeaderSingle(mode);
    CountsLineSingle(ps);
    EntryLinesSingle(ps);
    NoNewlinesPrepend(Escape(Header(mode)), CountsLine(ps), EntryLines(ps));
  }

  lemma NoNewlinesPrepend(a: string, b: string, rest: seq<string>)
    requires '\n' !in a && '\n' !in b && NoNewlines(rest)
    ensures NoNewlines([a, b] + rest)
  {
    var lines := [a, b] + rest;
    forall k | 0 <= k < |lines| ensures '\n' !in lines[k] {
      if k >= 2 {
        assert lines[k] == rest[k - 2];
      }
    }
  }

  lemma {:induction false} EntryLinesSingle(ps: seq<Product>)
    requires forall k :: 0 <= k < |ps| ==> SingleLine(ps[k])
    ensures NoNewlines(EntryLines(ps))
  {
    if ps != [] {
      EntryLinesSingle(ps[1..]);
      EntryLineSingle(ps[0]);
      var rest := EntryLines(ps[1..]);
      var e := [EntryLine(ps[0])] + rest;
      forall k | 0 <= k < |e| ensures '\n' !in e[k] {
        if k >= 1 {
          assert e[k] == rest[k - 1];
        }
      }
    }
  }

  lemma HeaderSingle(mode: Mode)
    ensures '\n' !in Header(mode)
  {
    var h := Header(mode);
    forall k | 0 <= k < |h| ensures h[k] != '\n' {
    }
  }

  lemma DecimalSingle(n: nat)
    ensures '\n' !in Decimal(n)
  {
    var d := Decimal(n);
    forall k | 0 <= k < |d| ensures d[k] != '\n' {
      assert IsDigit(d[k]);
    }
  }

  lemma CountsLineSingle(ps: seq<Product>)
    ensures '\n' !in CountsLine(ps)
  {
    DecimalSingle(|ps|);
    DecimalSingle(CountAvailable(ps));
    DecimalSingle(|ps| - CountAvailable(ps));
    assert '\n' !in "Total: " && '\n' !in " " && '\n' !in Bullet;
    assert '\n' !in " Available: " && '\n' !in " Sold Out: ";
  }

  lemma EntryLineSingle(p: Product)
    requires SingleLine(p)
    ensures '\n' !in EntryLine(p)
  {
    EscapeKeepsSingleLine(p.name);
    EscapeKeepsSingleLine(p.priceJPY);
    assert '\n' !in StatusWord(p.status);
    assert '\n' !in "[" && '\n' !in "](" && '\n' !in ") is " && '\n' !in " " && '\n' !in Bullet && '\n' !in " Price: ";
  }

  /** Neither header holds a reserved character, so escaping leaves it as it is. */
  lemma HeaderNeedsNoEscape(mode: Mode)
    ensures Escape(Header(mode)) == Header(mode)
  {
    var h := Header(mode);
    assert forall k :: 0 <= k < |h| ==> !IsReserved(h[k]);
    NoReservedNoEscape(h);
  }

  lemma {:induction false} NoReservedNoEscape(s: string)
    requires forall k :: 0 <= k < |s| ==> !IsReserved(s[k])
    ensures Escape(s) == s
  {
    if s != [] {
      NoReservedNoEscape(s[1..]);
    }
  }

  /** The counts line's three figures: total, available, and sold out, which add up. */
  lemma CountsLineFigures(ps: seq<Product>)
    ensures CountsLine(ps) == "Total: " + Decimal(|ps|) + " " + Bullet + " Available: " + Decimal(CountAvailable(ps))
      + " " + Bullet + " Sold Out: " + Decimal(CountSoldOut(ps))
    ensures ParseDecimal(Decimal(CountAvailable(ps))) + ParseDecimal(Decimal(CountSoldOut(ps))) == |ps|
  {
    CountsPartition(ps);
    ParseDecimalInverse(CountAvailable(ps));
    ParseDecimalInverse(CountSoldOut(ps));
  }
}
