/**
 * The file-backed quote repository: `NewQuote` scans the corpus text line by line
 * (the rules of `bufio.ScanLines`), trims each line with `strings.TrimSpace`, and keeps
 * the non-blank ones in order; `GetQuote` returns the quote at a random index.
 */
module QuoteFile {
  import opened Outcomes

  /** Go's `unicode.IsSpace`: the Latin-1 spaces, then the Unicode White_Space set. */
  predicate IsSpace(c: char)
  {
    c == '\t' || c == '\n' || c == '\U{000B}' || c == '\U{000C}' || c == '\r' || c == ' '
    || c == '\U{0085}' || c == '\U{00A0}' || c == '\U{1680}'
    || ('\U{2000}' <= c <= '\U{200A}')
    || c == '\U{2028}' || c == '\U{2029}' || c == '\U{202F}' || c == '\U{205F}' || c == '\U{3000}'
  }

  predicate AllSpace(s: string)
  {
    forall i :: 0 <= i < |s| ==> IsSpace(s[i])
  }

  /** Neither end of `s` is white space. */
  predicate IsTrimmed(s: string)
  {
    s == [] || (!IsSpace(s[0]) && !IsSpace(s[|s| - 1]))
  }

  /** `strings.TrimLeftFunc(s, unicode.IsSpace)`: drop the leading white space. */
  function TrimLeft(s: string): (r: string)
    ensures |r| <= |s| && r == s[|s| - |r|..]
    ensures r == [] || !IsSpace(r[0])
  {
    if s != [] && IsSpace(s[0]) then TrimLeft(s[1..]) else s
  }

  /** `strings.TrimRightFunc(s, unicode.IsSpace)`: drop the trailing white space. */
  function TrimRight(s: string): (r: string)
    ensures |r| <= |s| && r == s[..|r|]
    ensures r == [] || !IsSpace(r[|r| - 1])
  {
    if s != [] && IsSpace(s[|s| - 1]) then TrimRight(s[..|s| - 1]) else s
  }

  lemma AllSpaceCons(c: char, t: string)
    requires IsSpace(c) && AllSpace(t)
    ensures AllSpace([c] + t)
  {
  }

  lemma AllSpaceSnoc(t: string, c: char)
    requires AllSpace(t) && IsSpace(c)
    ensures AllSpace(t + [c])
  {
  }

  /** What `TrimLeft` drops is white space. */
  lemma {:induction false} TrimLeftDropsSpace(s: string)
    ensures AllSpace(s[..|s| - |TrimLeft(s)|])
  {
    if s != [] && IsSpace(s[0]) {
      var t := s[1..];
      TrimLeftDropsSpace(t);
      var d := |t| - |TrimLeft(t)|;
      assert |s| - |TrimLeft(s)| == d + 1;
      assert s[..d + 1] == [s[0]] + t[..d];
      AllSpaceCons(s[0], t[..d]);
    }
  }

  /** What `TrimRight` drops is white space. */
  lemma {:induction false} TrimRightDropsSpace(s: string)
    ensures AllSpace(s[|TrimRight(s)|..])
  {
    if s != [] && IsSpace(s[|s| - 1]) {
      var t := s[..|s| - 1];
      TrimRightDropsSpace(t);
      var k := |TrimRight(t)|;
      assert |TrimRight(s)| == k;
      assert s[k..] == t[k..] + [s[|s| - 1]];
      AllSpaceSnoc(t[k..], s[|s| - 1]);
    }
  }

  /** `strings.TrimSpace`: `s` without the white space at either end. */
  function TrimSpace(s: string): (r: string)
    ensures IsTrimmed(r)
  {
    TrimRight(TrimLeft(s))
  }

  /** What `TrimSpace` removes is white space at the two ends, and nothing else. */
  lemma TrimSpaceIsInfix(s: string)
    ensures var r := TrimSpace(s);
            exists i, j :: 0 <= i <= j <= |s| && r == s[i..j] && AllSpace(s[..i]) && AllSpace(s[j..])
  {
    var l := TrimLeft(s);
    var r := TrimRight(l);
    var i := |s| - |l|;
    TrimLeftDropsSpace(s);
    TrimRightDropsSpace(l);
    assert r == s[i..i + |r|];
    assert s[i + |r|..] == l[|r|..];
    assert 0 <= i <= i + |r| <= |s| && r == s[i..i + |r|] && AllSpace(s[..i]) && AllSpace(s[i + |r|..]);
  }

  /** A line trims to the empty string exactly when it is all white space. */
  lemma TrimSpaceEmpty(s: string)
    ensures TrimSpace(s) == [] <==> AllSpace(s)
  {
    var l := TrimLeft(s);
    TrimLeftDropsSpace(s);
    TrimRightDropsSpace(l);
    if TrimSpace(s) == [] {
      assert s == s[..|s| - |l|] + l;
      assert l == l[|TrimRight(l)|..];
    }
  }

  /** Trimming a trimmed string changes nothing. */
  lemma TrimSpaceIdempotent(s: string)
    ensures TrimSpace(TrimSpace(s)) == TrimSpace(s)
  {
    var t := TrimSpace(s);
    assert TrimLeft(t) == t;
    assert TrimRight(t) == t;
  }

  /** The position of the first line feed in `s`, if any. */
  function IndexOfNewline(s: string): (r: Option<nat>)
    ensures r.Some? ==> r.value < |s| && s[r.value] == '\n' && '\n' !in s[..r.value]
    ensures r.None? ==> '\n' !in s
  {
    if s == [] then None
    else if s[0] == '\n' then Some(0)
    else
      var k := IndexOfNewline(s[1..]);
      if k.None? then None
      else assert s[..k.value + 1] == [s[0]] + s[1..][..k.value]; Some(k.value + 1)
  }

  /** `dropCR`: one trailing carriage return is not part of the line. */
  function DropCR(s: string): (r: string)
    ensures s != [] && s[|s| - 1] == '\r' ==> s == r + ['\r']
    ensures s == [] || s[|s| - 1] != '\r' ==> r == s
  {
    if s != [] && s[|s| - 1] == '\r' then s[..|s| - 1] else s
  }

  /** One `Scan` of `bufio.ScanLines` over a non-empty remaining input: the token up to
      the next line feed (or up to the end, for a last line without one), and the input
      left after it. */
  function NextLine(text: string): (r: (string, string))
    requires text != []
    ensures |r.1| < |text|
    ensures '\n' in text ==>
              exists k :: 0 <= k < |text| && text[k] == '\n' && '\n' !in text[..k]
                          && r.0 == DropCR(text[..k]) && r.1 == text[k + 1..]
    ensures '\n' !in text ==> r.0 == DropCR(text) && r.1 == []
    ensures '\n' !in r.0 && r.0 <= text
  {
    var k := IndexOfNewline(text);
    if k.Some? then (DropCR(text[..k.value]), text[k.value + 1..])
    else (DropCR(text), [])
  }

  /** The tokens `bufio.ScanLines` yields for `text`, in order. */
  function SplitLines(text: string): (lines: seq<string>)
    ensures |lines| <= |text|
    decreases |text|
  {
    if text == [] then [] else [NextLine(text).0] + SplitLines(NextLine(text).1)
  }

  /** Each line followed by a line feed: the text whose lines they are. */
  function JoinLines(lines: seq<string>): string
  {
    if lines == [] then [] else lines[0] + ['\n'] + JoinLines(lines[1..])
  }

  /** A line `ScanLines` can give back unchanged: no line feed inside and no trailing
      carriage return. */
  predicate PlainLine(l: string)
  {
    '\n' !in l && (l == [] || l[|l| - 1] != '\r')
  }

  /** Scanning the lines back out of their joined text gives the same lines. */
  lemma {:induction false} SplitJoin(lines: seq<string>)
    requires forall i :: 0 <= i < |lines| ==> PlainLine(lines[i])
    ensures SplitLines(JoinLines(lines)) == lines
  {
    if lines != [] {
      var l := lines[0];
      var rest := JoinLines(lines[1..]);
      var text := l + ['\n'] + rest;
      assert text[|l|] == '\n';
      assert text[..|l|] == l;
      IndexOfNewlineAt(text, |l|);
      assert text[|l| + 1..] == rest;
      SplitJoin(lines[1..]);
    }
  }

  /** `segs` are the raw pieces of `text` between line feeds, the last of them a
      non-empty piece without one when the text does not end in a line feed, and `lines`
      are those pieces with one trailing carriage return dropped. */
  predicate Covers(text: string, lines: seq<string>, segs: seq<string>)
  {
    && |segs| == |lines|
    && (forall i :: 0 <= i < |segs| ==> '\n' !in segs[i] && lines[i] == DropCR(segs[i]))
    && (text == JoinLines(segs) || (segs != [] && segs[|segs| - 1] != [] && text == JoinLines(segs[..|segs| - 1]) + segs[|segs| - 1]))
  }

  /** Every text, CRLF line ends and a last line without a line feed included, is
      covered by the lines `ScanLines` yields for it. */
  lemma {:induction false} SplitLinesCover(text: string) returns (segs: seq<string>)
    ensures Covers(text, SplitLines(text), segs)
    decreases |text|
  {
    if text == [] {
      segs := [];
    } else {
      var (line, next) := NextLine(text);
      assert SplitLines(text) == [line] + SplitLines(next);
      if '\n' in text {
        var k :| 0 <= k < |text| && text[k] == '\n' && '\n' !in text[..k]
                 && line == DropCR(text[..k]) && next == text[k + 1..];
        SplitAround(text, k);
        assert SplitLines(text) == [DropCR(text[..k])] + SplitLines(next);
        var rest := SplitLinesCover(next);
        CoversCons(text, text[..k], next, SplitLines(next), rest);
        segs := [text[..k]] + rest;
      } else {
        segs := LastLineCover(text);
      }
    }
  }

  /** A text without a line feed is one last piece. */
  lemma LastLineCover(text: string) returns (segs: seq<string>)
    requires text != [] && '\n' !in text
    ensures Covers(text, SplitLines(text), segs)
  {
    var (line, next) := NextLine(text);
    assert next == [];
    assert SplitLines(text) == [line];
    assert JoinLines([text][..0]) == [];
    segs := [text];
  }

  /** A piece ended by a line feed, in front of a covered text. */
  lemma CoversCons(text: string, seg: string, next: string, lines: seq<string>, rest: seq<string>)
    requires text == seg + ['\n'] + next && '\n' !in seg
    requires Covers(next, lines, rest)
    ensures Covers(text, [DropCR(seg)] + lines, [seg] + rest)
  {
    var segs := [seg] + rest;
    JoinLinesCons(seg, rest);
    if next != JoinLines(rest) {
      var m := |rest|;
      assert segs[..|segs| - 1] == [seg] + rest[..m - 1];
      JoinLinesCons(seg, rest[..m - 1]);
    }
  }

  lemma SplitAround(s: string, k: nat)
    requires k < |s|
    ensures s == s[..k] + [s[k]] + s[k + 1..]
  {
  }

  lemma JoinLinesCons(l: string, ls: seq<string>)
    ensures JoinLines([l] + ls) == l + ['\n'] + JoinLines(ls)
  {
    assert ([l] + ls)[1..] == ls;
  }

  /** The first line feed is found where it is. */
  lemma IndexOfNewlineAt(s: string, k: nat)
    requires k < |s| && s[k] == '\n' && '\n' !in s[..k]
    ensures IndexOfNewline(s) == Some(k)
  {
  }

  /** The quotes kept from `lines`: each line trimmed, blank ones dropped, in order. */
  function Quotes(lines: seq<string>): (qs: seq<string>)
    ensures |qs| <= |lines|
  {
    if lines == [] then []
    else
      var q := TrimSpace(lines[0]);
      (if q != [] then [q] else []) + Quotes(lines[1..])
  }

  /** Every element is a non-empty string with no white space at either end. */
  predicate AllQuotable(qs: seq<string>)
  {
    forall i :: 0 <= i < |qs| ==> qs[i] != [] && IsTrimmed(qs[i])
  }

  lemma AllQuotableConcat(h: seq<string>, rest: seq<string>)
    requires AllQuotable(h) && AllQuotable(rest)
    ensures AllQuotable(h + rest)
  {
    forall i | 0 <= i < |h + rest|
      ensures (h + rest)[i] != [] && IsTrimmed((h + rest)[i])
    {
      if i < |h| {
        assert (h + rest)[i] == h[i];
      } else {
        assert (h + rest)[i] == rest[i - |h|];
      }
    }
  }

  /** Every kept quote is non-empty and has no white space at either end. */
  lemma {:induction false} QuotesAreTrimmed(lines: seq<string>)
    ensures AllQuotable(Quotes(lines))
  {
    if lines != [] {
      var q := TrimSpace(lines[0]);
      var h := if q != [] then [q] else [];
      var rest := Quotes(lines[1..]);
      QuotesAreTrimmed(lines[1..]);
      assert Quotes(lines) == h + rest;
      assert AllQuotable(h);
      AllQuotableConcat(h, rest);
    }
  }

  /** Quotes of consecutive pieces of the corpus come out consecutively, in order. */
  lemma {:induction false} QuotesAppend(a: seq<string>, b: seq<string>)
    ensures Quotes(a + b) == Quotes(a) + Quotes(b)
  {
    if a == [] {
      assert a + b == b;
    } else {
      var q := TrimSpace(a[0]);
      var h := if q != [] then [q] else [];
      assert (a + b)[0] == a[0];
      assert (a + b)[1..] == a[1..] + b;
      assert Quotes(a + b) == h + Quotes(a[1..] + b);
      QuotesAppend(a[1..], b);
      assert Quotes(a) == h + Quotes(a[1..]);
      AppendAssoc(h, Quotes(a[1..]), Quotes(b));
    }
  }

  /** A single line becomes one quote, its trimmed text, unless it is blank. */
  lemma QuotesOfLine(l: string)
    ensures AllSpace(l) ==> Quotes([l]) == []
    ensures !AllSpace(l) ==> Quotes([l]) == [TrimSpace(l)]
  {
    TrimSpaceEmpty(l);
    assert [l][1..] == [];
  }

  /** One iteration of the scanning loop of `NewQuote`: the first line of the
      remaining input contributes its quote, if any, ahead of the rest. */
  lemma ScanStep(rest: string)
    requires rest != []
    ensures var (line, next) := NextLine(rest);
            var q := TrimSpace(line);
            Quotes(SplitLines(rest)) == (if q != [] then [q] else []) + Quotes(SplitLines(next))
  {
    var (line, next) := NextLine(rest);
    var lines := SplitLines(rest);
    assert lines[0] == line && lines[1..] == SplitLines(next);
  }

  lemma AppendAssoc<T>(a: seq<T>, b: seq<T>, c: seq<T>)
    ensures a + (b + c) == (a + b) + c
  {
  }

  lemma AppendOne<T>(a: seq<T>, x: T, b: seq<T>)
    ensures a + ([x] + b) == (a + [x]) + b
  {
  }

  /** The loop of `NewQuote` keeps its invariant: the quotes kept so far, followed by
      those of the input not yet scanned, are the quotes of the whole text. */
  lemma ScanInvariant(text: string, kept: seq<string>, rest: string)
    requires rest != []
    requires Quotes(SplitLines(text)) == kept + Quotes(SplitLines(rest))
    ensures var (line, next) := NextLine(rest);
            var q := TrimSpace(line);
            Quotes(SplitLines(text)) == (if q != [] then kept + [q] else kept) + Quotes(SplitLines(next))
  {
    var (line, next) := NextLine(rest);
    ScanStep(rest);
    var q := TrimSpace(line);
    if q != [] {
      AppendOne(kept, q, Quotes(SplitLines(next)));
    } else {
      assert [] + Quotes(SplitLines(next)) == Quotes(SplitLines(next));
    }
  }

  /** The corpus: `NewQuote` fills it, `GetQuote` reads it. */
  class QuoteRepo {
    var quotes: seq<string>

    /** Every stored quote is non-empty and trimmed. */
    predicate Valid()
      reads this
    {
      AllQuotable(quotes)
    }

    /** `NewQuote()` over the corpus text `text` (the embedded `quotes.txt`). */
    constructor NewQuote(text: string)
      ensures quotes == Quotes(SplitLines(text))
      ensures Valid()
    {
      var qs: seq<string> := [];
      var rest := text;
      while rest != []
        invariant Quotes(SplitLines(text)) == qs + Quotes(SplitLines(rest))
        decreases |rest|
      {
        var (line, next) := NextLine(rest);
        ScanInvariant(text, qs, rest);
        var q := TrimSpace(line);
        if q != [] {
          qs := qs + [q];
        }
        rest := next;
      }
      QuotesAreTrimmed(SplitLines(text));
      quotes := qs;
    }

    /** `GetQuote()` with `rand.Intn(len(quotes))` drawn as `i`: the quote at `i`, and
        never an error. */
    method GetQuote(i: nat) returns (q: string, err: Option<string>)
      requires Valid()
      requires i < |quotes|
      ensures q == quotes[i] && q != [] && IsTrimmed(q)
      ensures err == None
    {
      q := quotes[i];
      err := None;
    }
  }
}
