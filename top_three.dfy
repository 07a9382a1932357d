/**
  `M3UProcessor` of m3u-processor.js: it parses a playlist into channels,
  groups them by a normalised base name, keeps the three best-ranked channels
  of every group and writes the survivors back as a playlist.
 */
module TopThree {
  import opened Text
  import opened Patterns
  import opened Sorting
  import opened Playlist
  import opened Grouping

  // ---------------------------------------------------------------------
  // Records

  /** What `extractResolution` returns. For `<n>p` names `pixels` is
      `16 * n * n`, nine times the source's `n * 16 / 9 * n`: the two order
      names the same way, and pixels are only compared within one priority. */
  datatype Resolution = Resolution(pixels: int, priority: int, original: string)

  const Unknown: Resolution := Resolution(0, -1, "Unknown")

  datatype ChannelInfo = ChannelInfo(
    originalName: string, baseName: string, resolution: Resolution, originalLine: string)

  /** A parsed channel; its url is set by the time it is stored. */
  datatype Channel = Channel(info: ChannelInfo, url: string)

  // ---------------------------------------------------------------------
  // extractResolution

  const Hd: Core := Literal(["HD"])
  const Fhd: Core := Literal(["FHD"])
  const UhdOr4K: Core := Literal(["UHD", "4K"])
  const Sd: Core := Literal(["SD"])

  /** `parseInt(match[1])` for `(\d{3,4})p` matched at the start of `s`. */
  function LineHeight(s: string): nat
    requires MatchAt(LineCount, s).Some?
  {
    DigitsValue(s[..DigitsBefore(s, 'p').value])
  }

  /** `parseInt(match[1])` and `parseInt(match[2])` for `(\d{3,4})x(\d{3,4})`
      matched at the start of `s`. */
  function DimensionsValue(s: string): (nat, nat)
    requires MatchAt(Dimensions, s).Some?
  {
    var (w, h) := DimensionsAt(s).value;
    (DigitsValue(s[..w]), DigitsValue(s[w + 1..][..h]))
  }

  /** `toUpperCase` on the text of a match, which has only ASCII letters and
      digits. */
  function UpperAscii(s: string): string {
    seq(|s|, i requires 0 <= i < |s| => if 'a' <= s[i] <= 'z' then (s[i] as int - 32) as char else s[i])
  }

  /** `resolutionMap[key] || 0`. */
  function MapPixels(key: string): int {
    if key == "HD" then 720 * 1280
    else if key == "FHD" then 1080 * 1920
    else if key == "UHD" || key == "4K" then 2160 * 3840
    else if key == "SD" then 480 * 640
    else 0
  }

  /** One of the keyword patterns, matched with `channelName.match`. */
  function Keyword(name: string, c: Core, priority: int): (r: Option<Resolution>)
    ensures r.Some? <==> Matches(c, name)
    ensures r.Some? ==> r.value.priority == priority
  {
    match First(c, name)
    case None => None
    case Some((i, n)) =>
      var t := name[i..i + n];
      Some(Resolution(MapPixels(UpperAscii(t)), priority, t))
  }

  /** The patterns in their order, the first that matches deciding. */
  function ExtractResolution(name: string): (r: Resolution)
    ensures r.priority == -1 ==> r == Unknown
  {
    match First(LineCount, name)
    case Some((i, n)) =>
      var h := LineHeight(name[i..]);
      Resolution(16 * h * h, 1, name[i..i + n])
    case None =>
      match First(Dimensions, name)
      case Some((i, n)) =>
        var (w, h) := DimensionsValue(name[i..]);
        Resolution(w * h, 2, name[i..i + n])
      case None => ByKeyword(name)
  }

  /** The keyword half of the ladder, tried once no `<n>p` or `WxH` token
      matched. */
  function ByKeyword(name: string): (r: Resolution)
    ensures r.priority == -1 ==> r == Unknown
  {
    match Keyword(name, Hd, 3)
    case Some(r) => r
    case None =>
      match Keyword(name, Fhd, 4)
      case Some(r) => r
      case None =>
        match Keyword(name, UhdOr4K, 5)
        case Some(r) => r
        case None =>
          match Keyword(name, Sd, 0)
          case Some(r) => r
          case None => Unknown
  }

  /** Which keyword decides: `FHD` and `UHD` contain `HD`, so priority 4 never
      occurs and priority 5 only comes from `4K`. */
  lemma KeywordLadder(name: string)
    ensures var r := ByKeyword(name);
      && (r.priority == 3 <==> ContainsCI(name, "HD"))
      && r.priority != 4
      && (r.priority == 5 <==> !ContainsCI(name, "HD") && ContainsCI(name, "4K"))
      && (r.priority == 0 <==> !ContainsCI(name, "HD") && !ContainsCI(name, "4K") && ContainsCI(name, "SD"))
      && (r.priority == -1 <==> !ContainsCI(name, "HD") && !ContainsCI(name, "4K") && !ContainsCI(name, "SD"))
  {
    var hd, fhd, uhd, k4 := ContainsCI(name, "HD"), ContainsCI(name, "FHD"), ContainsCI(name, "UHD"), ContainsCI(name, "4K");
    assert Keyword(name, Hd, 3).Some? <==> hd by { WordMatches("HD", name); }
    assert Keyword(name, Fhd, 4).Some? <==> fhd by { WordMatches("FHD", name); }
    assert Keyword(name, Sd, 0).Some? <==> ContainsCI(name, "SD") by { WordMatches("SD", name); }
    assert Keyword(name, UhdOr4K, 5).Some? <==> uhd || k4 by {
      var ws: seq<Word> := ["UHD", "4K"];
      LiteralMatches(ws, name);
      assert ws[0] == "UHD" && ws[1] == "4K";
    }
    FhdHasHd(name);
    UhdHasHd(name);
  }

  lemma FhdHasHd(name: string)
    ensures ContainsCI(name, "FHD") ==> ContainsCI(name, "HD")
  {
    if ContainsCI(name, "FHD") {
      assert "F" + "HD" == "FHD";
      ContainsSuffix(name, "F", "HD");
    }
  }

  lemma UhdHasHd(name: string)
    ensures ContainsCI(name, "UHD") ==> ContainsCI(name, "HD")
  {
    if ContainsCI(name, "UHD") {
      assert "U" + "HD" == "UHD";
      ContainsSuffix(name, "U", "HD");
    }
  }

  /** The ladder as the source promises it: which priority a name gets is
      decided by which patterns occur in it, earlier patterns winning. */
  lemma ResolutionLadder(name: string)
    ensures var r := ExtractResolution(name);
      && (r.priority == 1 <==> Matches(LineCount, name))
      && (r.priority == 2 <==> !Matches(LineCount, name) && Matches(Dimensions, name))
      && (!Matches(LineCount, name) && !Matches(Dimensions, name) ==> r == ByKeyword(name))
      && (Matches(LineCount, name) || Matches(Dimensions, name) ==> r.priority == 1 || r.priority == 2)
    ensures Matches(LineCount, name) ==>
      ExtractResolution(name).pixels == 16 * Height(name) * Height(name)
    ensures ExtractResolution(name).priority == 2 ==>
      var (w, h) := DimensionsValue(name[First(Dimensions, name).value.0..]);
      ExtractResolution(name).pixels == w * h
  {
    if Matches(LineCount, name) {
      LinePixelsOf(name);
    }
    if ExtractResolution(name).priority == 2 {
      DimensionsPixels(name);
    }
  }

  /** A keyword pattern fixes the pixel count: the matched text, upper-cased,
      is always a key of the map, so `|| 0` never applies. */
  lemma KeywordPixels(name: string)
    ensures var r := ExtractResolution(name);
      && (r.priority == 3 ==> r.pixels == 720 * 1280)
      && (r.priority == 5 ==> r.pixels == 2160 * 3840)
      && (r.priority == 0 ==> r.pixels == 480 * 640)
  {
    ResolutionLadder(name);
    ByKeywordPixels(name);
  }

  lemma ByKeywordPixels(name: string)
    ensures var r := ByKeyword(name);
      && (r.priority == 3 ==> r.pixels == 720 * 1280)
      && (r.priority == 5 ==> r.pixels == 2160 * 3840)
      && (r.priority == 0 ==> r.pixels == 480 * 640)
  {
    KeywordPixelsOf(name, Hd, 3, 720 * 1280);
    KeywordPixelsOf(name, UhdOr4K, 5, 2160 * 3840);
    KeywordPixelsOf(name, Sd, 0, 480 * 640);
  }

  /** When every word of the pattern maps to `pixels`, a match of it has
      that many pixels. */
  lemma KeywordPixelsOf(name: string, c: Core, priority: int, pixels: int)
    requires c.Literal?
    requires forall k :: 0 <= k < |c.alternatives| ==>
      PlainUpper(c.alternatives[k]) && MapPixels(c.alternatives[k]) == pixels
    ensures Keyword(name, c, priority).Some? ==> Keyword(name, c, priority).value.pixels == pixels
  {
    if Keyword(name, c, priority).Some? {
      var j := KeywordText(name, c, priority);
    }
  }

  /** Every letter of `w` is an upper-case ASCII letter or a digit. */
  predicate PlainUpper(w: string) {
    forall k :: 0 <= k < |w| ==> IsAsciiUpper(w[k]) || IsDigit(w[k])
  }

  /** The upper-cased text of a keyword match is one of the pattern's words,
      so its pixel count is that word's entry in the map. */
  lemma KeywordText(name: string, c: Core, priority: int) returns (j: nat)
    requires c.Literal? && forall k :: 0 <= k < |c.alternatives| ==> PlainUpper(c.alternatives[k])
    requires Keyword(name, c, priority).Some?
    ensures j < |c.alternatives|
    ensures Keyword(name, c, priority).value.pixels == MapPixels(c.alternatives[j])
  {
    var (i, n) := First(c, name).value;
    j := LiteralIndex(name[i..], c.alternatives);
    UpperOfPrefix(name[i..], c.alternatives[j]);
    assert name[i..][..n] == name[i..i + n];
  }

  /** The index of the alternative `LiteralAt` takes. */
  lemma {:induction false} LiteralIndex(s: string, ws: seq<Word>) returns (j: nat)
    requires LiteralAt(s, ws).Some?
    ensures j < |ws| && PrefixCI(s, ws[j]) && LiteralAt(s, ws).value == |ws[j]|
  {
    if PrefixCI(s, ws[0]) {
      j := 0;
    } else {
      var k := LiteralIndex(s, ws[1..]);
      j := k + 1;
    }
  }

  lemma UpperOfPrefix(s: string, w: string)
    requires PrefixCI(s, w) && PlainUpper(w)
    ensures UpperAscii(s[..|w|]) == w
  {
    forall k | 0 <= k < |w| ensures UpperAscii(s[..|w|])[k] == w[k] {
      assert FoldChar(s[k]) == FoldChar(w[k]);
    }
  }

  /** The number of the first `<n>p` token of a name. */
  function Height(name: string): nat
    requires Matches(LineCount, name)
  {
    LineHeight(name[First(LineCount, name).value.0..])
  }

  /** A name with a `<n>p` token gets priority 1 and `16 * n * n` pixels. */
  lemma LinePixelsOf(name: string)
    requires Matches(LineCount, name)
    ensures ExtractResolution(name).priority == 1
    ensures ExtractResolution(name).pixels == 16 * Height(name) * Height(name)
  {
  }

  /** A `<n>p` token ranks by its number: within priority 1 more pixels means
      a larger `n`. */
  lemma LinePixels(a: string, b: string)
    requires Matches(LineCount, a) && Matches(LineCount, b)
    ensures ExtractResolution(a).pixels < ExtractResolution(b).pixels <==> Height(a) < Height(b)
  {
    LinePixelsOf(a);
    LinePixelsOf(b);
    SquareMonotone(Height(a), Height(b));
  }

  lemma SquareMonotone(x: nat, y: nat)
    ensures x < y <==> 16 * x * x < 16 * y * y
  {
    if x < y {
      assert x * x <= x * y < y * y;
    } else {
      assert y * y <= y * x <= x * x;
    }
  }

  /** A `WxH` token ranks by its area. */
  lemma DimensionsPixels(name: string)
    requires ExtractResolution(name).priority == 2
    ensures var (w, h) := DimensionsValue(name[First(Dimensions, name).value.0..]);
      ExtractResolution(name).pixels == w * h
  {
  }

  // ---------------------------------------------------------------------
  // extractBaseName

  /** The rewrites of `extractBaseName`, in the order they are applied. */
  const BaseNameSteps: seq<Core> := [LineCount, Dimensions] + QualityTokens

  function ExtractBaseName(name: string): (r: string)
    ensures forall i :: 0 <= i < |r| ==> !IsUpper(r[i])
    ensures Trimmed(r)
    ensures NoDoubleSpace(r)
  {
    Normalise(BaseNameSteps, name)
  }

  /** Names that differ only in ASCII letter case share a base name. */
  lemma BaseNameIgnoresCase(a: string, b: string)
    requires Fold(a) == Fold(b)
    ensures ExtractBaseName(a) == ExtractBaseName(b)
  {
    NormaliseIgnoresCase(BaseNameSteps, a, b);
  }

  /** The resolution patterns find no digits in `TV FHD` or `TV HD`. */
  lemma DigitStepsInert(s: string)
    requires s == "TV FHD" || s == "TV HD"
    ensures StripAll(BaseNameSteps, s) == StripAll(QualityTokens, s)
  {
    assert BaseNameSteps == [LineCount] + ([Dimensions] + QualityTokens);
    TvNoDigits(s);
    StripAllCons(LineCount, [Dimensions] + QualityTokens, s);
    NoStartInert(LineCount, s);
    StripAllCons(Dimensions, QualityTokens, s);
    NoStartInert(Dimensions, s);
  }

  /** `HD` is removed before `FHD`, so an `FHD` name keeps its `F`: the `HD`
      and `FHD` names of one channel have different base names and fall
      into different groups. */
  lemma FhdKeepsLetter(fhd: string, hd: string)
    requires fhd == "TV FHD" && hd == "TV HD"
    ensures ExtractBaseName(fhd) == "tv f"
    ensures ExtractBaseName(hd) == "tv"
  {
    DigitStepsInert(fhd);
    TokensKeepLetter(fhd);
    TvTail("TV F ");
    DigitStepsInert(hd);
    TokensKeepLetter(hd);
    TvTail("TV ");
  }

  // ---------------------------------------------------------------------
  // parseExtInf

  function ParseExtInf(line: string): (r: ChannelInfo)
    ensures r.originalLine == line
    ensures ExtInfSearch(line).None? ==> r.originalName == line && r.resolution == Unknown
  {
    match ExtInfSearch(line)
    case Some(capture) =>
      var name := Trim(capture);
      ChannelInfo(name, ExtractBaseName(name), ExtractResolution(name), line)
    case None =>
      ChannelInfo(line, ToLower(line), Unknown, line)
  }

  /** On a trimmed `#EXTINF:` line the name comes from the pattern exactly
      when there is a digit after the tag and something after that digit;
      a line where the pattern matches nowhere falls back to the whole line,
      lower-cased, with an unknown resolution. */
  lemma ParseExtInfCases(line: string)
    requires Trimmed(line) && IsExtInfLine(line)
    ensures DigitStart(line) + 1 < |line| && IsDigit(line[DigitStart(line)]) ==>
      ExtInfAt(line).Some? && ParseExtInf(line).originalName == Trim(ExtInfAt(line).value)
    ensures ExtInfSearch(line).None? ==>
      ParseExtInf(line) == ChannelInfo(line, ToLower(line), Unknown, line)
  {
    ExtInfTrimmed(line);
  }

  // ---------------------------------------------------------------------
  // parseM3U, as a function of the lines still to read

  /** What one trimmed line `t` adds to the pairs when `pending` holds the
      trimmed `#EXTINF:` line read before it (the line `currentChannel` was
      made from). */
  function Emit(t: string, pending: Option<string>): seq<Entry> {
    if !IsExtInfLine(t) && IsUrlLine(t) && pending.Some? then [Entry(pending.value, t)] else []
  }

  /** The pending line after `t`: a new `#EXTINF:` line replaces it, an
      address consumes it, anything else leaves it. */
  function Next(t: string, pending: Option<string>): Option<string> {
    if IsExtInfLine(t) then Some(t)
    else if IsUrlLine(t) && pending.Some? then None
    else pending
  }

  /** The (entry line, address) pairs that the lines produce, given what is
      pending before them. */
  function PairsFrom(lines: seq<string>, pending: Option<string>): seq<Entry>
    decreases |lines|
  {
    if lines == [] then []
    else
      var t := Trim(lines[0]);
      Emit(t, pending) + PairsFrom(lines[1..], Next(t, pending))
  }

  /** The pairs found and the line pending after reading `lines` from the
      start, one line at a time, as the loop of `parseM3U` does. */
  function Scan(lines: seq<string>): (seq<Entry>, Option<string>)
    decreases |lines|
  {
    if lines == [] then ([], None)
    else
      var (done, pending) := Scan(lines[..|lines| - 1]);
      var t := Trim(lines[|lines| - 1]);
      (done + Emit(t, pending), Next(t, pending))
  }

  /** Reading from the start and reading what is left agree: the pairs found
      so far, then the pairs of the remaining lines read with the pending
      line, are all the pairs. */
  lemma {:induction false} ScanPairs(lines: seq<string>, rest: seq<string>)
    ensures Scan(lines).0 + PairsFrom(rest, Scan(lines).1) == PairsFrom(lines + rest, None)
    decreases |lines|
  {
    if lines == [] {
      assert lines + rest == rest;
    } else {
      var init, last := lines[..|lines| - 1], lines[|lines| - 1];
      assert lines == init + [last];
      var (done, pending) := Scan(init);
      var t := Trim(last);
      assert done + PairsFrom([last] + rest, pending) == PairsFrom(lines + rest, None) by {
        ScanPairs(init, [last] + rest);
        AppendAssoc(init, [last], rest);
      }
      PairsCons(last, rest, pending);
      AppendAssoc(done, Emit(t, pending), PairsFrom(rest, Next(t, pending)));
    }
  }

  /** The pairs of all the lines are the pairs `Scan` finds. */
  lemma ScanAll(lines: seq<string>)
    ensures Scan(lines).0 == PairsFrom(lines, None)
  {
    ScanPairs(lines, []);
    assert lines + [] == lines;
  }

  /** The channel of each pair: `parseExtInf` of its entry line, with the
      address as url. */
  function ChannelsOf(ps: seq<Entry>): (r: seq<Channel>)
    ensures |r| == |ps|
  {
    ChannelsWith(ParseExtInf, ps)
  }

  /** The channel of each pair when its entry line is read by `parse`. */
  function ChannelsWith(parse: string -> ChannelInfo, ps: seq<Entry>): (r: seq<Channel>)
    ensures |r| == |ps|
  {
    seq(|ps|, i requires 0 <= i < |ps| => Channel(parse(ps[i].line), ps[i].url))
  }

  /** What `parseM3U` appends to `this.channels`. */
  function Parse(lines: seq<string>): seq<Channel> {
    ChannelsOf(PairsFrom(lines, None))
  }

  /** A line neither starts an entry nor gives an address: blank, or a `#`
      line other than `#EXTINF:`. */
  predicate Inert(line: string) {
    var t := Trim(line);
    !IsExtInfLine(t) && !IsUrlLine(t)
  }

  predicate AllInert(lines: seq<string>) {
    forall k :: 0 <= k < |lines| ==> Inert(lines[k])
  }

  /** Inert lines leave the pending entry where it is. */
  lemma {:induction false} SkipInert(block: seq<string>, rest: seq<string>, pending: Option<string>)
    requires AllInert(block)
    ensures PairsFrom(block + rest, pending) == PairsFrom(rest, pending)
  {
    if block != [] {
      assert (block + rest)[0] == block[0];
      assert (block + rest)[1..] == block[1..] + rest;
      assert Inert(block[0]);
      SkipInert(block[1..], rest, pending);
    } else {
      assert block + rest == rest;
    }
  }

  /** An `#EXTINF:` line, then only inert lines, then an address: one channel
      made of the two, whatever was pending before. */
  lemma Pairing(e: string, mid: seq<string>, u: string, rest: seq<string>, pending: Option<string>)
    requires IsExtInfLine(Trim(e)) && AllInert(mid) && IsUrlLine(Trim(u))
    ensures PairsFrom([e] + mid + [u] + rest, pending)
         == [Entry(Trim(e), Trim(u))] + PairsFrom(rest, None)
  {
    var tail := [u] + rest;
    assert [e] + mid + [u] + rest == [e] + (mid + tail);
    assert PairsFrom([e] + (mid + tail), pending) == PairsFrom(mid + tail, Some(Trim(e))) by {
      PairsCons(e, mid + tail, pending);
    }
    SkipInert(mid, tail, Some(Trim(e)));
    assert PairsFrom(tail, Some(Trim(e))) == [Entry(Trim(e), Trim(u))] + PairsFrom(rest, None) by {
      UrlNotExtInf(Trim(u));
      PairsCons(u, rest, Some(Trim(e)));
    }
  }

  /** A second `#EXTINF:` line before any address replaces the first, which
      produces no channel. */
  lemma Overwrite(e1: string, mid: seq<string>, e2: string, rest: seq<string>, pending: Option<string>)
    requires IsExtInfLine(Trim(e1)) && AllInert(mid) && IsExtInfLine(Trim(e2))
    ensures PairsFrom([e1] + mid + [e2] + rest, pending) == PairsFrom([e2] + rest, None)
  {
    var tail := [e2] + rest;
    assert [e1] + mid + [e2] + rest == [e1] + (mid + tail);
    assert PairsFrom([e1] + (mid + tail), pending) == PairsFrom(mid + tail, Some(Trim(e1))) by {
      PairsCons(e1, mid + tail, pending);
    }
    SkipInert(mid, tail, Some(Trim(e1)));
    assert PairsFrom(tail, Some(Trim(e1))) == PairsFrom(tail, None) by {
      PairsCons(e2, rest, Some(Trim(e1)));
      PairsCons(e2, rest, None);
    }
  }

  /** An address with no entry pending is ignored. */
  lemma Orphan(mid: seq<string>, u: string, rest: seq<string>)
    requires AllInert(mid) && IsUrlLine(Trim(u))
    ensures PairsFrom(mid + [u] + rest, None) == PairsFrom(rest, None)
  {
    var tail := [u] + rest;
    assert mid + [u] + rest == mid + tail;
    SkipInert(mid, tail, None);
    assert PairsFrom(tail, None) == PairsFrom(rest, None) by {
      UrlNotExtInf(Trim(u));
      PairsCons(u, rest, None);
    }
  }

  /** The number of lines that start an entry. */
  function ExtInfCount(lines: seq<string>): nat {
    if lines == [] then 0
    else (if IsExtInfLine(Trim(lines[0])) then 1 else 0) + ExtInfCount(lines[1..])
  }

  /** Each channel needs an `#EXTINF:` line of its own (or the entry pending
      at the start). */
  lemma {:induction false} ParseCount(lines: seq<string>, pending: Option<string>)
    ensures |PairsFrom(lines, pending)| <= ExtInfCount(lines) + (if pending.Some? then 1 else 0)
    decreases |lines|
  {
    if lines != [] {
      var t := Trim(lines[0]);
      if IsExtInfLine(t) {
        ParseCount(lines[1..], Some(t));
      } else if IsUrlLine(t) && pending.Some? {
        ParseCount(lines[1..], None);
      } else {
        ParseCount(lines[1..], pending);
      }
    }
  }

  /** A pair as the parser makes it: a trimmed `#EXTINF:` line and a trimmed
      address that is not blank and does not start with `#`, neither holding
      a newline. */
  predicate GoodPair(e: Entry) {
    && Trimmed(e.line) && IsExtInfLine(e.line) && '\n' !in e.line
    && Trimmed(e.url) && IsUrlLine(e.url) && '\n' !in e.url
  }

  predicate NoNewlines(lines: seq<string>) {
    forall k :: 0 <= k < |lines| ==> '\n' !in lines[k]
  }

  lemma {:induction false} PairsWellFormed(lines: seq<string>, pending: Option<string>)
    requires NoNewlines(lines)
    requires pending.Some? ==> Trimmed(pending.value) && IsExtInfLine(pending.value) && '\n' !in pending.value
    ensures forall k :: 0 <= k < |PairsFrom(lines, pending)| ==> GoodPair(PairsFrom(lines, pending)[k])
    decreases |lines|
  {
    if lines != [] {
      var t := Trim(lines[0]);
      assert '\n' !in t by { TrimKeeps(lines[0]); }
      if IsExtInfLine(t) {
        PairsWellFormed(lines[1..], Some(t));
      } else if IsUrlLine(t) && pending.Some? {
        PairsWellFormed(lines[1..], None);
      } else {
        PairsWellFormed(lines[1..], pending);
      }
    }
  }

  /** Reading the pairs back from their own text gives the same pairs. */
  lemma {:induction false} PairsOfBody(es: seq<Entry>)
    requires forall k :: 0 <= k < |es| ==> GoodPair(es[k])
    ensures PairsFrom(Flatten(es) + [""], None) == es
  {
    if es == [] {
      assert Flatten(es) + [""] == [""] + [];
      assert Trim("") == "";
      PairsCons("", [], None);
    } else {
      var e, later := es[0], es[1..];
      var tail := Flatten(later) + [""];
      assert Flatten(es) + [""] == [e.line, e.url] + tail;
      assert PairsFrom(tail, None) == later by {
        assert forall k :: 0 <= k < |later| ==> GoodPair(later[k]) by {
          forall k | 0 <= k < |later| ensures GoodPair(later[k]) {
            assert later[k] == es[k + 1];
          }
        }
        PairsOfBody(later);
      }
      PairsOfChunk(e, tail);
      assert [e] + later == es;
    }
  }

  /** A well-formed entry's two lines read back as that entry. */
  lemma PairsOfChunk(e: Entry, rest: seq<string>)
    requires GoodPair(e)
    ensures PairsFrom([e.line, e.url] + rest, None) == [e] + PairsFrom(rest, None)
  {
    var tail := [e.url] + rest;
    assert [e.line, e.url] + rest == [e.line] + tail;
    EntryLineRead(e.line, tail);
    AddressRead(e, rest);
  }

  /** A trimmed `#EXTINF:` line emits nothing and becomes the pending line. */
  lemma EntryLineRead(line: string, rest: seq<string>)
    requires Trimmed(line) && IsExtInfLine(line)
    ensures PairsFrom([line] + rest, None) == PairsFrom(rest, Some(line))
  {
    assert Trim(line) == line;
    PairsCons(line, rest, None);
    assert Emit(line, None) == [] && Next(line, None) == Some(line);
  }

  /** A trimmed address after its pending line emits the pair. */
  lemma AddressRead(e: Entry, rest: seq<string>)
    requires GoodPair(e)
    ensures PairsFrom([e.url] + rest, Some(e.line)) == [e] + PairsFrom(rest, None)
  {
    UrlNotExtInf(e.url);
    assert Emit(e.url, Some(e.line)) == [e];
    assert Next(e.url, Some(e.line)) == None;
    assert Trim(e.url) == e.url;
    PairsCons(e.url, rest, Some(e.line));
  }

  /** `PairsFrom` read one line at a time from the front. */
  lemma PairsCons(line: string, rest: seq<string>, pending: Option<string>)
    ensures PairsFrom([line] + rest, pending)
         == Emit(Trim(line), pending) + PairsFrom(rest, Next(Trim(line), pending))
  {
    var lines := [line] + rest;
    assert lines[0] == line;
    assert lines[1..] == rest;
  }

  /** The header line is inert. */
  lemma HeaderInert()
    ensures Inert("#EXTM3U")
  {
    var h := "#EXTM3U";
    assert Trimmed(h) by { assert h[0] == '#' && h[|h| - 1] == 'U'; }
  }

  /** The pairs of a rendered playlist are the rendered entries. */
  lemma PairsOfRender(es: seq<Entry>)
    requires forall k :: 0 <= k < |es| ==> GoodPair(es[k])
    ensures PairsFrom(SplitLines(Render(es)), None) == es
  {
    SplitRender(es);
    var body := Flatten(es) + [""];
    assert ["#EXTM3U"] + Flatten(es) + [""] == ["#EXTM3U"] + body;
    HeaderInert();
    SkipInert(["#EXTM3U"], body, None);
    PairsOfBody(es);
  }

  // ---------------------------------------------------------------------
  // processChannels, as functions of the parsed channels

  /** The sort key: priority first, then pixels, both descending. */
  function Key(c: Channel): Rank {
    Rank(c.info.resolution.priority, c.info.resolution.pixels)
  }

  /** The label channels are grouped by. */
  function BaseNameOf(c: Channel): string {
    c.info.baseName
  }

  function Take<T>(s: seq<T>, n: nat): seq<T> {
    if |s| <= n then s else s[..n]
  }

  /** The group sorted best first. */
  function Ranked(s: seq<Channel>, b: string): seq<Channel> {
    SortDesc(Group(s, BaseNameOf, b), Key)
  }

  /** `channels.slice(0, 3)` after the sort. */
  function Kept(s: seq<Channel>, b: string): seq<Channel> {
    Take(Ranked(s, b), 3)
  }

  /** The kept channels of the groups `names`, one group after another. */
  function ReduceOver(s: seq<Channel>, names: seq<string>): seq<Channel> {
    if names == [] then []
    else ReduceOver(s, names[..|names| - 1]) + Kept(s, names[|names| - 1])
  }

  /** One more group handled: its kept channels join the others. */
  lemma ReduceOverStep(s: seq<Channel>, names: seq<string>, k: nat, kept: seq<Channel>, top: seq<Channel>)
    requires k < |names|
    requires kept == ReduceOver(s, names[..k])
    requires top == Take(SortDesc(Group(s, BaseNameOf, names[k]), Key), 3)
    ensures ReduceOver(s, names[..k + 1]) == kept + top
  {
    var prefix := names[..k + 1];
    assert prefix[..k] == names[..k] && prefix[k] == names[k];
  }

  /** What `processChannels` appends to `processedChannels`. */
  function Reduce(s: seq<Channel>): seq<Channel> {
    ReduceOver(s, Labels(s, BaseNameOf))
  }

  /** Everything kept for base name `b` has base name `b`. */
  lemma KeptNames(s: seq<Channel>, b: string)
    ensures forall k :: 0 <= k < |Kept(s, b)| ==> Kept(s, b)[k].info.baseName == b
  {
    var g := Group(s, BaseNameOf, b);
    SortDescCorrect(g, Key);
    var r := Ranked(s, b);
    forall k | 0 <= k < |Kept(s, b)| ensures Kept(s, b)[k].info.baseName == b {
      var c := r[k];
      assert c in multiset(r);
      GroupMultiset(s, BaseNameOf, b, c);
    }
  }

  lemma {:induction false} GroupOfReduceOver(s: seq<Channel>, names: seq<string>, b: string)
    requires forall i, j :: 0 <= i < j < |names| ==> names[i] != names[j]
    ensures Group(ReduceOver(s, names), BaseNameOf, b) == if b in names then Kept(s, b) else []
  {
    if names != [] {
      var init, last := names[..|names| - 1], names[|names| - 1];
      assert names == init + [last];
      var before, top := ReduceOver(s, init), Kept(s, last);
      assert forall i :: 0 <= i < |init| ==> init[i] == names[i];
      assert Group(before, BaseNameOf, b) == if b in init then Kept(s, b) else [] by {
        GroupOfReduceOver(s, init, b);
      }
      assert Group(before + top, BaseNameOf, b) == Group(before, BaseNameOf, b) + (if last == b then top else []) by {
        KeptNames(s, last);
        GroupJoin(before, top, last, b);
      }
      assert b in names <==> b in init || b == last;
      assert last == b ==> b !in init;
    }
  }

  /** Appending channels that all share the base name `last`. */
  lemma GroupJoin(before: seq<Channel>, top: seq<Channel>, last: string, b: string)
    requires forall k :: 0 <= k < |top| ==> top[k].info.baseName == last
    ensures Group(before + top, BaseNameOf, b) == Group(before, BaseNameOf, b) + (if last == b then top else [])
  {
    GroupConcat(before, top, BaseNameOf, b);
    if last == b {
      GroupSame(top, BaseNameOf, b);
    } else {
      GroupOther(top, BaseNameOf, b);
    }
  }

  /** In the output, the channels of each base name are exactly the first
      three of its group after the sort; so each group contributes
      `min(3, size)` channels. */
  lemma GroupOfReduce(s: seq<Channel>, b: string)
    ensures Group(Reduce(s), BaseNameOf, b) == Kept(s, b)
    ensures |Group(Reduce(s), BaseNameOf, b)| == if |Group(s, BaseNameOf, b)| < 3 then |Group(s, BaseNameOf, b)| else 3
  {
    GroupOfReduceOver(s, Labels(s, BaseNameOf), b);
    if b !in Labels(s, BaseNameOf) {
      GroupOther(s, BaseNameOf, b);
    }
  }

  /** The kept channels of a group rank at least as high as the dropped
      ones, and kept and dropped together are the group. */
  lemma KeptDominates(s: seq<Channel>, b: string)
    ensures var r := Ranked(s, b);
      forall i, j :: 0 <= i < |Kept(s, b)| <= j < |r| ==> !Below(Key(r[i]), Key(r[j]))
    ensures var r := Ranked(s, b);
      multiset(Kept(s, b)) + multiset(r[|Kept(s, b)|..]) == multiset(Group(s, BaseNameOf, b))
  {
    var r := Ranked(s, b);
    SortDescCorrect(Group(s, BaseNameOf, b), Key);
    assert r == Kept(s, b) + r[|Kept(s, b)|..];
  }

  /** Nothing is invented or duplicated: the output is a sub-multiset of
      the parsed channels. */
  lemma ReduceSubMultiset(s: seq<Channel>)
    ensures multiset(Reduce(s)) <= multiset(s)
  {
    forall c ensures multiset(Reduce(s))[c] <= multiset(s)[c] {
      var b := BaseNameOf(c);
      var g, r := Group(s, BaseNameOf, b), Ranked(s, b);
      assert multiset(Reduce(s))[c] == multiset(Kept(s, b))[c] by {
        GroupMultiset(Reduce(s), BaseNameOf, b, c);
        GroupOfReduce(s, b);
      }
      assert multiset(Kept(s, b)) <= multiset(r) by {
        TakeWithin(r, 3);
      }
      assert multiset(r) == multiset(g) by {
        SortDescCorrect(g, Key);
      }
      GroupMultiset(s, BaseNameOf, b, c);
    }
  }

  lemma TakeWithin<T>(s: seq<T>, n: nat)
    ensures multiset(Take(s, n)) <= multiset(s)
  {
    if n < |s| {
      assert s == s[..n] + s[n..];
    }
  }

  // ---------------------------------------------------------------------
  // The output text

  function Entries(s: seq<Channel>): (r: seq<Entry>)
    ensures |r| == |s|
  {
    seq(|s|, i requires 0 <= i < |s| => Entry(s[i].info.originalLine, s[i].url))
  }

  /** A channel as the parser makes it. */
  predicate WellFormed(c: Channel) {
    GoodPair(Entry(c.info.originalLine, c.url)) && c.info == ParseExtInf(c.info.originalLine)
  }

  /** Every parsed channel is well formed. */
  lemma ParseWellFormed(lines: seq<string>)
    requires NoNewlines(lines)
    ensures forall k :: 0 <= k < |Parse(lines)| ==> WellFormed(Parse(lines)[k])
  {
    var ps := PairsFrom(lines, None);
    PairsWellFormed(lines, None);
    forall k | 0 <= k < |ps| ensures WellFormed(Parse(lines)[k]) {
      assert Parse(lines)[k] == Channel(ParseExtInf(ps[k].line), ps[k].url);
    }
  }

  /** Parsing the output again gives back the same channels, in order. */
  lemma RoundTrip(s: seq<Channel>)
    requires forall k :: 0 <= k < |s| ==> WellFormed(s[k])
    ensures Parse(SplitLines(Render(Entries(s)))) == s
  {
    var es := Entries(s);
    assert forall k :: 0 <= k < |es| ==> GoodPair(es[k]);
    PairsOfRender(es);
    assert forall k :: 0 <= k < |s| ==> ChannelsOf(es)[k] == s[k];
  }

  // ---------------------------------------------------------------------
  // The processor

  /** One group's share: sorted in place, best first, then its first three. */
  method TopOfGroup(g: seq<Channel>) returns (top: seq<Channel>)
    ensures top == Take(SortDesc(g, Key), 3)
  {
    var a := new Channel[|g|](j requires 0 <= j < |g| => g[j]);
    assert a[..] == g;
    SortInPlace(a, Key);
    top := if a.Length <= 3 then a[..] else a[..3];
  }

  /** One line read by `parseM3U`: the pairs found so far grow by what the
      line completes, and the channels with them. */
  lemma ReadStep(lines: seq<string>, i: nat, parse: string -> ChannelInfo)
    requires i < |lines|
    ensures var (done, pending) := Scan(lines[..i]);
      var t := Trim(lines[i]);
      && Scan(lines[..i + 1]) == (done + Emit(t, pending), Next(t, pending))
      && ChannelsWith(parse, done + Emit(t, pending))
         == ChannelsWith(parse, done) + if Emit(t, pending) == [] then [] else [Channel(parse(pending.value), t)]
  {
    assert lines[..i + 1][..i] == lines[..i];
    var (done, pending) := Scan(lines[..i]);
    ChannelsAppend(parse, done, Emit(Trim(lines[i]), pending));
  }

  lemma ChannelsAppend(parse: string -> ChannelInfo, ps: seq<Entry>, qs: seq<Entry>)
    ensures ChannelsWith(parse, ps + qs) == ChannelsWith(parse, ps) + ChannelsWith(parse, qs)
  {
    var whole, parts := ChannelsWith(parse, ps + qs), ChannelsWith(parse, ps) + ChannelsWith(parse, qs);
    forall k | 0 <= k < |whole| ensures whole[k] == parts[k] {
      if k < |ps| {
        assert (ps + qs)[k] == ps[k];
      } else {
        assert (ps + qs)[k] == qs[k - |ps|];
      }
    }
  }

  /** The loop of `parseM3U`: the latest `#EXTINF:` line, read by `parse`
      when it is met, stays pending until an address line completes it. */
  method ReadChannels(lines: seq<string>, parse: string -> ChannelInfo) returns (found: seq<Channel>)
    ensures found == ChannelsWith(parse, PairsFrom(lines, None))
  {
    found := [];
    var current: Option<ChannelInfo> := None;
    ghost var pendingLine: Option<string> := None;
    ghost var done: seq<Entry> := [];
    var i := 0;
    while i < |lines|
      invariant 0 <= i <= |lines|
      invariant done == Scan(lines[..i]).0
      invariant pendingLine == Scan(lines[..i]).1
      invariant found == ChannelsWith(parse, done)
      invariant current.Some? <==> pendingLine.Some?
      invariant current.Some? ==> current.value == parse(pendingLine.value)
    {
      var trimmed := Trim(lines[i]);
      ghost var emitted, next := Emit(trimmed, pendingLine), Next(trimmed, pendingLine);
      ReadStep(lines, i, parse);
      if IsExtInfLine(trimmed) {
        current := Some(parse(trimmed));
      } else if IsUrlLine(trimmed) && current.Some? {
        found := found + [Channel(current.value, trimmed)];
        current := None;
      }
      done := done + emitted;
      pendingLine := next;
      i := i + 1;
    }
    assert lines[..i] == lines;
    ScanAll(lines);
  }

  class M3UProcessor {
    var channels: seq<Channel>
    var processedChannels: seq<Channel>

    constructor()
      ensures channels == [] && processedChannels == []
    {
      channels := [];
      processedChannels := [];
    }

    /** Reads the lines once with `parseExtInf` as the entry parser and
        appends the channels found. */
    method ParseM3U(lines: seq<string>)
      modifies this
      ensures channels == old(channels) + Parse(lines)
      ensures processedChannels == old(processedChannels)
    {
      var found := ReadChannels(lines, ParseExtInf);
      channels := channels + found;
    }

    /** Groups the channels by base name, sorts each group best first and
        appends its first three to `processedChannels`. */
    method ProcessChannels()
      modifies this
      ensures channels == old(channels)
      ensures processedChannels == old(processedChannels) + Reduce(channels)
    {
      var groups, order := GroupBy(channels, BaseNameOf);
      ghost var kept: seq<Channel> := [];
      var k := 0;
      while k < |order|
        invariant 0 <= k <= |order|
        invariant channels == old(channels)
        invariant kept == ReduceOver(channels, order[..k])
        invariant processedChannels == old(processedChannels) + kept
      {
        var top := TopOfGroup(groups[order[k]]);
        ReduceOverStep(channels, order, k, kept, top);
        AppendAssoc(old(processedChannels), kept, top);
        processedChannels := processedChannels + top;
        kept := kept + top;
        k := k + 1;
      }
      assert order[..k] == order;
    }

    /** The text `generateOutputFile` writes. */
    method GenerateOutput() returns (output: string)
      ensures output == Render(Entries(processedChannels))
    {
      output := Header;
      var i := 0;
      while i < |processedChannels|
        invariant 0 <= i <= |processedChannels|
        invariant output == Header + Body(Entries(processedChannels[..i]))
      {
        var c := processedChannels[i];
        assert Entries(processedChannels[..i + 1])[..i] == Entries(processedChannels[..i]);
        output := output + c.info.originalLine + "\n";
        output := output + c.url + "\n";
        i := i + 1;
      }
      assert processedChannels[..i] == processedChannels;
    }

    /** `processFile` without the file system: the content is split at its
        newlines, parsed, reduced and written out again. */
    method ProcessContent(content: string) returns (output: string)
      modifies this
      ensures channels == old(channels) + Parse(SplitLines(content))
      ensures processedChannels == old(processedChannels) + Reduce(channels)
      ensures output == Render(Entries(processedChannels))
    {
      ParseM3U(SplitLines(content));
      ProcessChannels();
      output := GenerateOutput();
    }
  }

  /** A freshly parsed playlist goes through the processor and back: the
      output parses to exactly the channels kept. */
  lemma OutputParses(lines: seq<string>)
    requires NoNewlines(lines)
    ensures Parse(SplitLines(Render(Entries(Reduce(Parse(lines)))))) == Reduce(Parse(lines))
  {
    var s := Parse(lines);
    ParseWellFormed(lines);
    ReduceSubMultiset(s);
    var r := Reduce(s);
    forall k | 0 <= k < |r| ensures WellFormed(r[k]) {
      assert r[k] in multiset(r);
      assert r[k] in multiset(s);
    }
    RoundTrip(r);
  }
}
