/**
  What the two scripts share about the playlist text: the kinds of line the
  parsers tell apart, the regular expression `#EXTINF:-?\d+\s*(.+)` that
  pulls the channel name out of an `#EXTINF:` line, and the output text
  `#EXTM3U\n` followed by `line\nurl\n` for every channel kept.
 */
module Playlist {
  import opened Text

  const Tag: string := "#EXTINF:"
  const Header: string := "#EXTM3U\n"

  /** A trimmed line that starts a channel entry. */
  predicate IsExtInfLine(t: string) {
    StartsWith(t, Tag)
  }

  /** A trimmed line that the parsers take as a channel address. */
  predicate IsUrlLine(t: string) {
    t != [] && t[0] != '#'
  }

  /** The two kinds of line exclude each other: an `#EXTINF:` line starts
      with `#`. */
  lemma UrlNotExtInf(t: string)
    ensures IsUrlLine(t) ==> !IsExtInfLine(t)
  {
    if IsExtInfLine(t) {
      assert t[0] == t[..8][0] == Tag[0] == '#';
    }
  }

  // ---------------------------------------------------------------------
  // The regular expression #EXTINF:-?\d+\s*(.+)

  /** Length of the run of ASCII digits at the start of `s`. */
  function DigitRun(s: string): (n: nat)
    ensures n <= |s|
    ensures forall k :: 0 <= k < n ==> IsDigit(s[k])
    ensures n < |s| ==> !IsDigit(s[n])
  {
    if s != [] && IsDigit(s[0]) then 1 + DigitRun(s[1..]) else 0
  }

  /** `(.+)` at the start of `s`, greedy: the longest prefix free of line
      terminators (empty when `s` starts with one). */
  function VisibleRun(s: string): (r: string)
    ensures |r| <= |s| && r == s[..|r|]
    ensures forall k :: 0 <= k < |r| ==> !IsLineTerminator(r[k])
    ensures |r| < |s| ==> IsLineTerminator(s[|r|])
  {
    if s != [] && !IsLineTerminator(s[0]) then [s[0]] + VisibleRun(s[1..]) else []
  }

  /** `\s*(.+)` from index `at`, the `\s*` having taken `w` spaces: the capture
      needs one character that is not a line terminator, and on failure the
      `\s*` gives back one space at a time. */
  function TrySpaces(s: string, at: nat, w: nat): (r: Option<string>)
    requires at + w <= |s|
    ensures r.Some? ==> r.value != []
    decreases w
  {
    if at + w < |s| && !IsLineTerminator(s[at + w]) then Some(VisibleRun(s[at + w..]))
    else if w == 0 then None
    else TrySpaces(s, at, w - 1)
  }

  /** `\d+\s*(.+)` from index `p`, the `\d+` having taken `d` digits; on
      failure `\d+` gives back one digit at a time, down to one. */
  function TryDigits(s: string, p: nat, d: nat): (r: Option<string>)
    requires p + d <= |s|
    ensures r.Some? ==> r.value != []
    decreases d
  {
    if d == 0 then None
    else match TrySpaces(s, p + d, SpaceRun(s[p + d..]))
      case Some(name) => Some(name)
      case None => TryDigits(s, p, d - 1)
  }

  /** The first capture group of the pattern matched at the start of `s`.
      When `s` continues `#EXTINF:-` the optional minus is taken; giving it
      back cannot help, since `\d+` would then have to start at the minus. */
  function ExtInfAt(s: string): (r: Option<string>)
    ensures r.Some? ==> r.value != [] && StartsWith(s, Tag)
  {
    if !StartsWith(s, Tag) then None
    else
      var p := if 8 < |s| && s[8] == '-' then 9 else 8;
      TryDigits(s, p, DigitRun(s[p..]))
  }

  /** `line.match(/#EXTINF:-?\d+\s*(.+)/)[1]`: the pattern is not anchored,
      so the leftmost position where it matches decides. */
  function ExtInfSearch(s: string): (r: Option<string>)
    ensures ExtInfAt(s).Some? ==> r == ExtInfAt(s)
    ensures r.Some? ==> r.value != [] && forall k :: 0 <= k < |r.value| ==> !IsLineTerminator(r.value[k])
  {
    if s == [] then None
    else match ExtInfAt(s)
      case Some(name) => ExtInfCapture(s); Some(name)
      case None =>
        ExtInfSearch(s[1..])
  }

  /** The search reports the match at the leftmost position where the
      pattern matches, and fails exactly when it matches nowhere. */
  lemma {:induction false} ExtInfSearchLeftmost(s: string)
    ensures ExtInfSearch(s).None? <==> forall i :: 0 <= i < |s| ==> ExtInfAt(s[i..]).None?
    ensures ExtInfSearch(s).Some? ==>
      exists i :: 0 <= i < |s| && ExtInfAt(s[i..]) == ExtInfSearch(s) && (forall j :: 0 <= j < i ==> ExtInfAt(s[j..]).None?)
    decreases |s|
  {
    if s != [] {
      assert s[0..] == s;
      if ExtInfAt(s).None? {
        var rest := s[1..];
        ExtInfSearchLeftmost(rest);
        assert forall i :: 1 <= i < |s| ==> s[i..] == rest[i - 1..];
        if ExtInfSearch(rest).Some? {
          var i :| 0 <= i < |rest| && ExtInfAt(rest[i..]) == ExtInfSearch(rest) && (forall j :: 0 <= j < i ==> ExtInfAt(rest[j..]).None?);
          assert ExtInfAt(s[i + 1..]) == ExtInfSearch(s);
          forall j | 0 <= j < i + 1 ensures ExtInfAt(s[j..]).None? {
            if j > 0 {
              assert s[j..] == rest[j - 1..];
            }
          }
        }
      }
    }
  }

  /** A capture never holds a line terminator. */
  lemma ExtInfCapture(s: string)
    ensures ExtInfAt(s).Some? ==> forall k :: 0 <= k < |ExtInfAt(s).value| ==> !IsLineTerminator(ExtInfAt(s).value[k])
  {
    if StartsWith(s, Tag) {
      var p := if 8 < |s| && s[8] == '-' then 9 else 8;
      TryDigitsCapture(s, p, DigitRun(s[p..]));
    }
  }

  lemma {:induction false} TryDigitsCapture(s: string, p: nat, d: nat)
    requires p + d <= |s|
    ensures TryDigits(s, p, d).Some? ==> forall k :: 0 <= k < |TryDigits(s, p, d).value| ==> !IsLineTerminator(TryDigits(s, p, d).value[k])
    decreases d
  {
    if d > 0 {
      TrySpacesCapture(s, p + d, SpaceRun(s[p + d..]));
      TryDigitsCapture(s, p, d - 1);
    }
  }

  lemma {:induction false} TrySpacesCapture(s: string, at: nat, w: nat)
    requires at + w <= |s|
    ensures TrySpaces(s, at, w).Some? ==> forall k :: 0 <= k < |TrySpaces(s, at, w).value| ==> !IsLineTerminator(TrySpaces(s, at, w).value[k])
    decreases w
  {
    if !(at + w < |s| && !IsLineTerminator(s[at + w])) && w > 0 {
      TrySpacesCapture(s, at, w - 1);
    }
  }

  /** Index of the first digit the pattern can use in an `#EXTINF:` line. */
  function DigitStart(s: string): nat {
    if 8 < |s| && s[8] == '-' then 9 else 8
  }

  /** On a trimmed `#EXTINF:` line the pattern matches at the start exactly
      when a digit follows the tag (and its optional minus) and the line has
      at least one more character after that digit. */
  lemma ExtInfTrimmed(s: string)
    requires Trimmed(s) && IsExtInfLine(s)
    ensures ExtInfAt(s).Some? <==> DigitStart(s) + 1 < |s| && IsDigit(s[DigitStart(s)])
  {
    var p := DigitStart(s);
    var d := DigitRun(s[p..]);
    if d > 0 {
      var q := p + d;
      var w := SpaceRun(s[q..]);
      if q + w < |s| {
        assert !IsSpace(s[q + w]) by { assert s[q..][w] == s[q + w]; }
      } else {
        assert q == |s|;
        assert TrySpaces(s, q, w).None?;
        if d > 1 {
          assert s[p..][d - 1] == s[q - 1];
          assert SpaceRun(s[q - 1..]) == 0;
          assert TrySpaces(s, q - 1, 0).Some?;
          assert TryDigits(s, p, d - 1).Some?;
        }
      }
    }
  }

  // ---------------------------------------------------------------------
  // The output text

  datatype Entry = Entry(line: string, url: string)

  /** One entry's share of the text: `line\nurl\n`. */
  function Chunk(e: Entry): string {
    e.line + "\n" + e.url + "\n"
  }

  /** The text after the header, one chunk per entry, in order. */
  function Body(es: seq<Entry>): string {
    if es == [] then [] else Body(es[..|es| - 1]) + Chunk(es[|es| - 1])
  }

  function Render(es: seq<Entry>): string {
    Header + Body(es)
  }

  /** `(line + '\n' + url + '\n').length`. */
  function EntrySize(e: Entry): nat {
    |e.line| + |e.url| + 2
  }

  /** The sum of the entry sizes. */
  function Size(es: seq<Entry>): nat {
    if es == [] then 0 else Size(es[..|es| - 1]) + EntrySize(es[|es| - 1])
  }

  /** The text is the header and the entries, so its length is the header's
      plus the entry sizes. */
  lemma RenderLength(es: seq<Entry>)
    ensures |Render(es)| == |Header| + Size(es)
  {
    BodyLength(es);
  }

  lemma {:induction false} BodyLength(es: seq<Entry>)
    ensures |Body(es)| == Size(es)
  {
    if es != [] {
      BodyLength(es[..|es| - 1]);
    }
  }

  /** The body read from the front: the first entry, then the others. */
  lemma {:induction false} BodyCons(es: seq<Entry>)
    requires es != []
    ensures Body(es) == Chunk(es[0]) + Body(es[1..])
  {
    var n := |es|;
    if n == 1 {
      assert es[..0] == [] && es[1..] == [];
    } else {
      var init := es[..n - 1];
      BodyCons(init);
      assert init[0] == es[0];
      assert es[1..][..n - 2] == init[1..];
      assert es[1..][n - 2] == es[n - 1];
      assert Body(es[1..]) == Body(init[1..]) + Chunk(es[n - 1]);
      AppendAssoc(Chunk(es[0]), Body(init[1..]), Chunk(es[n - 1]));
    }
  }

  /** The lines of the output, in order: each entry's line, then its url. */
  function Flatten(es: seq<Entry>): seq<string> {
    if es == [] then [] else [es[0].line, es[0].url] + Flatten(es[1..])
  }

  predicate SingleLine(e: Entry) {
    '\n' !in e.line && '\n' !in e.url
  }

  lemma {:induction false} SplitBody(es: seq<Entry>, t: string)
    requires forall k :: 0 <= k < |es| ==> SingleLine(es[k])
    ensures SplitLines(Body(es) + t) == Flatten(es) + SplitLines(t)
  {
    if es != [] {
      var head, tail := es[0], es[1..];
      var rest := Body(tail) + t;
      assert Body(es) + t == Chunk(head) + rest by {
        BodyCons(es);
        AppendAssoc(Chunk(head), Body(tail), t);
      }
      assert SplitLines(Chunk(head) + rest) == [head.line, head.url] + SplitLines(rest) by {
        SplitChunk(head, rest);
      }
      assert SplitLines(rest) == Flatten(tail) + SplitLines(t) by {
        assert forall k :: 0 <= k < |tail| ==> tail[k] == es[k + 1];
        SplitBody(tail, t);
      }
      AppendAssoc([head.line, head.url], Flatten(tail), SplitLines(t));
    } else {
      assert Body(es) + t == t;
    }
  }

  lemma SplitChunk(e: Entry, rest: string)
    requires SingleLine(e)
    ensures SplitLines(Chunk(e) + rest) == [e.line, e.url] + SplitLines(rest)
  {
    var tail := e.url + "\n" + rest;
    assert Chunk(e) + rest == e.line + "\n" + tail;
    SplitAfterLine(e.line, tail);
    SplitAfterLine(e.url, rest);
  }

  /** Splitting the output at its newlines gives back the header line, each
      entry's line and url, and the empty piece after the final newline. */
  lemma SplitRender(es: seq<Entry>)
    requires forall k :: 0 <= k < |es| ==> SingleLine(es[k])
    ensures SplitLines(Render(es)) == ["#EXTM3U"] + Flatten(es) + [""]
  {
    SplitWholeBody(es);
    SplitHeader(Body(es));
    AppendAssoc(["#EXTM3U"], Flatten(es), [""]);
  }

  lemma SplitWholeBody(es: seq<Entry>)
    requires forall k :: 0 <= k < |es| ==> SingleLine(es[k])
    ensures SplitLines(Body(es)) == Flatten(es) + [""]
  {
    SplitBody(es, "");
    assert Body(es) + "" == Body(es);
  }

  lemma SplitHeader(b: string)
    ensures SplitLines(Header + b) == ["#EXTM3U"] + SplitLines(b)
  {
    var h := "#EXTM3U";
    assert Header == h + "\n";
    SplitAfterLine(h, b);
  }
}
