/**
  `processM3UFile` of process-m3u.js: it parses a playlist, classifies every
  channel name into a quality rank and a base name, drops everything below
  HD, keeps the best channel of every base name, orders the survivors best
  first and admits them greedily while the output stays within a size
  budget.
 */
module ProcessM3U {
  import opened Text
  import opened Patterns
  import opened Sorting
  import opened Playlist
  import opened Grouping
  import TopThree

  // ---------------------------------------------------------------------
  // Records

  /** `currentChannel` before its address is read: the trimmed capture of the
      `#EXTINF:` pattern and the trimmed line. */
  datatype Pending = Pending(name: string, line: string)

  /** A channel as the parse loop pushes it. */
  datatype Parsed = Parsed(name: string, line: string, url: string)

  /** A channel once the classification pass has set `baseName`,
      `resolution`, `resolutionText` and `isHighQuality`. */
  datatype Channel = Channel(
    name: string, line: string, url: string, baseName: string,
    resolution: int, resolutionText: string, isHighQuality: bool)

  // ---------------------------------------------------------------------
  // The parse loop

  /** The entry a trimmed `#EXTINF:` line starts, if the pattern matches it. */
  function Start(t: string): (r: Option<Pending>)
    ensures r.Some? <==> ExtInfSearch(t).Some?
    ensures r.Some? ==> r.value.line == t && r.value.name == Trim(ExtInfSearch(t).value)
  {
    match ExtInfSearch(t)
    case Some(capture) => Some(Pending(Trim(capture), t))
    case None => None
  }

  /** A line starts an entry exactly when the pattern matches at some
      position of it. */
  lemma StartSomewhere(t: string)
    ensures Start(t).Some? <==> exists i :: 0 <= i < |t| && ExtInfAt(t[i..]).Some?
  {
    ExtInfSearchLeftmost(t);
  }

  /** A trimmed `#EXTINF:` line with a digit after the tag (and its optional
      minus) and one more character after that digit starts an entry, named by
      the trimmed capture of the match at the start of the line. */
  lemma StartTrimmed(t: string)
    requires Trimmed(t) && IsExtInfLine(t)
    requires DigitStart(t) + 1 < |t| && IsDigit(t[DigitStart(t)])
    ensures ExtInfAt(t).Some?
    ensures Start(t) == Some(Pending(Trim(ExtInfAt(t).value), t))
  {
    ExtInfTrimmed(t);
  }

  /** What the trimmed line `t` pushes while `pending` is `currentChannel`. */
  function Emit(t: string, pending: Option<Pending>): seq<Parsed> {
    if !IsExtInfLine(t) && IsUrlLine(t) && pending.Some? then
      [Parsed(pending.value.name, pending.value.line, t)]
    else []
  }

  /** `currentChannel` after `t`: an `#EXTINF:` line replaces it only when the
      pattern matches, an address consumes it, anything else leaves it. */
  function Next(t: string, pending: Option<Pending>): Option<Pending> {
    if IsExtInfLine(t) then (if Start(t).Some? then Start(t) else pending)
    else if IsUrlLine(t) && pending.Some? then None
    else pending
  }

  /** The channels pushed and the entry pending after reading `lines`. */
  function Scan(lines: seq<string>): (seq<Parsed>, Option<Pending>)
    decreases |lines|
  {
    if lines == [] then ([], None)
    else
      var (done, pending) := Scan(lines[..|lines| - 1]);
      var t := Trim(lines[|lines| - 1]);
      (done + Emit(t, pending), Next(t, pending))
  }

  function Parse(lines: seq<string>): seq<Parsed> {
    Scan(lines).0
  }

  /** The parse loop: one pass with `currentChannel` as its only state. */
  method ParseLines(lines: seq<string>) returns (channels: seq<Parsed>)
    ensures channels == Parse(lines)
  {
    channels := [];
    var current: Option<Pending> := None;
    var i := 0;
    while i < |lines|
      invariant 0 <= i <= |lines|
      invariant channels == Scan(lines[..i]).0
      invariant current == Scan(lines[..i]).1
    {
      var trimmed := Trim(lines[i]);
      ghost var emitted, next := Emit(trimmed, current), Next(trimmed, current);
      assert Scan(lines[..i + 1]) == (channels + emitted, next) by {
        assert lines[..i + 1][..i] == lines[..i];
      }
      if IsExtInfLine(trimmed) {
        var m := ExtInfSearch(trimmed);
        if m.Some? {
          current := Some(Pending(Trim(m.value), trimmed));
        }
        assert emitted == [] && current == next;
        assert channels + emitted == channels;
      } else if IsUrlLine(trimmed) && current.Some? {
        assert emitted == [Parsed(current.value.name, current.value.line, trimmed)];
        channels := channels + [Parsed(current.value.name, current.value.line, trimmed)];
        current := None;
        assert current == next;
      } else {
        assert emitted == [] && current == next;
        assert channels + emitted == channels;
      }
      i := i + 1;
    }
    assert lines[..i] == lines;
  }

  /** An `#EXTINF:` line the pattern does not match changes nothing: the
      entry pending before it stays pending. */
  lemma FailedEntryIgnored(pre: seq<string>, bad: string)
    requires IsExtInfLine(Trim(bad)) && ExtInfSearch(Trim(bad)).None?
    ensures Scan(pre + [bad]) == Scan(pre)
  {
    var lines := pre + [bad];
    assert lines[..|lines| - 1] == pre && lines[|lines| - 1] == bad;
    var (done, pending) := Scan(pre);
    var t := Trim(bad);
    assert Emit(t, pending) == [] && Next(t, pending) == pending;
    assert done + [] == done;
  }

  /** An address completes the pending entry, whichever `#EXTINF:` line it
      came from. */
  lemma AddressCompletes(pre: seq<string>, u: string)
    requires IsUrlLine(Trim(u)) && Scan(pre).1.Some?
    ensures var p := Scan(pre).1.value;
      Scan(pre + [u]) == (Scan(pre).0 + [Parsed(p.name, p.line, Trim(u))], None)
  {
    assert (pre + [u])[..|pre|] == pre;
    UrlNotExtInf(Trim(u));
  }

  /** Where the two scripts part: after an entry, an `#EXTINF:` line the
      pattern rejects and then an address, this script pairs the address
      with the earlier entry, while `parseM3U` pairs it with the rejected
      line. */
  lemma Divergence(pre: seq<string>, bad: string, u: string)
    requires IsExtInfLine(Trim(bad)) && ExtInfSearch(Trim(bad)).None?
    requires IsUrlLine(Trim(u)) && Scan(pre).1.Some?
    ensures var p := Scan(pre).1.value;
      Parse(pre + [bad, u]) == Parse(pre) + [Parsed(p.name, p.line, Trim(u))]
    ensures TopThree.Scan(pre + [bad, u]).0 == TopThree.Scan(pre).0 + [Entry(Trim(bad), Trim(u))]
  {
    assert pre + [bad, u] == (pre + [bad]) + [u];
    FailedEntryIgnored(pre, bad);
    AddressCompletes(pre + [bad], u);
    TopThreeTakesEntry(pre, bad);
    TopThreeCompletes(pre + [bad], u);
  }

  /** `parseM3U` makes any `#EXTINF:` line the pending one. */
  lemma TopThreeTakesEntry(pre: seq<string>, e: string)
    requires IsExtInfLine(Trim(e))
    ensures TopThree.Scan(pre + [e]) == (TopThree.Scan(pre).0, Some(Trim(e)))
  {
    var lines := pre + [e];
    assert lines[..|lines| - 1] == pre && lines[|lines| - 1] == e;
    var (done, pending) := TopThree.Scan(pre);
    assert TopThree.Emit(Trim(e), pending) == [];
    assert done + [] == done;
  }

  /** `parseM3U` completes its pending line with an address. */
  lemma TopThreeCompletes(pre: seq<string>, u: string)
    requires IsUrlLine(Trim(u)) && TopThree.Scan(pre).1.Some?
    ensures TopThree.Scan(pre + [u]).0 == TopThree.Scan(pre).0 + [Entry(TopThree.Scan(pre).1.value, Trim(u))]
  {
    var lines := pre + [u];
    assert lines[..|lines| - 1] == pre && lines[|lines| - 1] == u;
    UrlNotExtInf(Trim(u));
  }

  /** The entry line and address of each channel. */
  function Lines(ps: seq<Parsed>): (r: seq<Entry>)
    ensures |r| == |ps|
  {
    seq(|ps|, i requires 0 <= i < |ps| => Entry(ps[i].line, ps[i].url))
  }

  function LineOf(p: Option<Pending>): Option<string> {
    match p
    case None => None
    case Some(q) => Some(q.line)
  }

  /** Every `#EXTINF:` line of `lines` matches the pattern. */
  predicate AllMatch(lines: seq<string>) {
    forall k :: 0 <= k < |lines| ==> IsExtInfLine(Trim(lines[k])) ==> ExtInfSearch(Trim(lines[k])).Some?
  }

  /** When every `#EXTINF:` line matches the pattern, the two scripts pair
      the same lines with the same addresses. */
  lemma {:induction false} ScanAgrees(lines: seq<string>)
    requires AllMatch(lines)
    ensures Lines(Scan(lines).0) == TopThree.Scan(lines).0
    ensures LineOf(Scan(lines).1) == TopThree.Scan(lines).1
    decreases |lines|
  {
    if lines != [] {
      var init := lines[..|lines| - 1];
      var t := Trim(lines[|lines| - 1]);
      var (done, pending) := Scan(init);
      assert AllMatch(init) by {
        assert forall k :: 0 <= k < |init| ==> init[k] == lines[k];
      }
      ScanAgrees(init);
      var last := lines[|lines| - 1];
      assert IsExtInfLine(t) ==> Start(t).Some? by {
        assert lines[|lines| - 1] == last;
      }
      assert TopThree.Scan(lines) == (TopThree.Scan(init).0 + TopThree.Emit(t, LineOf(pending)), TopThree.Next(t, LineOf(pending)));
      EmitAgrees(t, pending);
      LinesAppend(done, Emit(t, pending));
    }
  }

  /** One line read by both loops, when an `#EXTINF:` line matches. */
  lemma EmitAgrees(t: string, pending: Option<Pending>)
    requires IsExtInfLine(t) ==> Start(t).Some?
    ensures Lines(Emit(t, pending)) == TopThree.Emit(t, LineOf(pending))
    ensures LineOf(Next(t, pending)) == TopThree.Next(t, LineOf(pending))
  {
  }

  lemma LinesAppend(a: seq<Parsed>, b: seq<Parsed>)
    ensures Lines(a + b) == Lines(a) + Lines(b)
  {
  }

  // ---------------------------------------------------------------------
  // Classification and base name

  const FourK: Core := Literal(["4K", "UHD"])
  const FullHd: Core := Literal(["1080p", "FHD"])
  const Hd: Core := Literal(["720p", "HD"])

  datatype Quality = Quality(resolution: int, text: string, isHighQuality: bool)

  /** The `if`/`else if` ladder of the classification pass. */
  function Classify(name: string): (q: Quality)
    ensures q.isHighQuality <==> q.resolution >= 2
    ensures q.resolution == 0 || q.resolution == 2 || q.resolution == 3 || q.resolution == 4
  {
    if Matches(FourK, name) then Quality(4, "4K/UHD", true)
    else if Matches(FullHd, name) then Quality(3, "1080p/FHD", true)
    else if Matches(Hd, name) then Quality(2, "720p/HD", true)
    else Quality(0, "SD/Unknown", false)
  }

  /** The rank a name gets, in terms of the words it contains: the first
      test that finds one of its words decides. Every name containing `HD`
      (so every `FHD` or `UHD` name too) is high quality. */
  lemma ClassifyLadder(name: string)
    ensures var four, full, hd := ContainsCI(name, "4K") || ContainsCI(name, "UHD"),
                                  ContainsCI(name, "1080p") || ContainsCI(name, "FHD"),
                                  ContainsCI(name, "720p") || ContainsCI(name, "HD");
      && (Classify(name).resolution == 4 <==> four)
      && (Classify(name).resolution == 3 <==> !four && full)
      && (Classify(name).resolution == 2 <==> !four && !full && hd)
      && (Classify(name).resolution == 0 <==> !four && !full && !hd)
    ensures ContainsCI(name, "HD") ==> Classify(name).isHighQuality
  {
    AlternativesMatch(name, "4K", "UHD");
    AlternativesMatch(name, "1080p", "FHD");
    AlternativesMatch(name, "720p", "HD");
  }

  /** `/a|b/i` finds a match exactly when `a` or `b` occurs. */
  lemma AlternativesMatch(name: string, a: Word, b: Word)
    ensures Matches(Literal([a, b]), name) <==> ContainsCI(name, a) || ContainsCI(name, b)
  {
    var ws: seq<Word> := [a, b];
    LiteralMatches(ws, name);
    assert ws[0] == a && ws[1] == b;
  }

  /** The rewrites of the base-name chain, in their order. */
  const BaseNameSteps: seq<Core> := [LineCount] + QualityTokens

  function BaseName(name: string): (r: string)
    ensures forall i :: 0 <= i < |r| ==> !IsUpper(r[i])
    ensures Trimmed(r)
    ensures NoDoubleSpace(r)
  {
    Normalise(BaseNameSteps, name)
  }

  /** Names that differ only in ASCII letter case share a base name. */
  lemma BaseNameIgnoresCase(a: string, b: string)
    requires Fold(a) == Fold(b)
    ensures BaseName(a) == BaseName(b)
  {
    NormaliseIgnoresCase(BaseNameSteps, a, b);
  }

  /** The `\d{3,4}p` pattern finds no digits in `TV FHD` or `TV HD`. */
  lemma DigitStepInert(s: string)
    requires s == "TV FHD" || s == "TV HD"
    ensures StripAll(BaseNameSteps, s) == StripAll(QualityTokens, s)
  {
    TvNoDigits(s);
    StripAllCons(LineCount, QualityTokens, s);
    NoStartInert(LineCount, s);
  }

  /** `HD` is removed before `FHD`, so an `FHD` name keeps its `F`: the `HD`
      and `FHD` names of one channel have different base names, and
      deduplication keeps one of each. */
  lemma FhdKeepsLetter(fhd: string, hd: string)
    requires fhd == "TV FHD" && hd == "TV HD"
    ensures BaseName(fhd) == "tv f"
    ensures BaseName(hd) == "tv"
  {
    DigitStepInert(fhd);
    TokensKeepLetter(fhd);
    TvTail("TV F ");
    DigitStepInert(hd);
    TokensKeepLetter(hd);
    TvTail("TV ");
  }

  function Describe(p: Parsed): Channel {
    var q := Classify(p.name);
    Channel(p.name, p.line, p.url, BaseName(p.name), q.resolution, q.text, q.isHighQuality)
  }

  lemma DescribeKeeps(p: Parsed)
    ensures Stripped(Describe(p)) == p
  {
  }

  function Annotated(ps: seq<Parsed>): (r: seq<Channel>)
    ensures |r| == |ps|
  {
    if ps == [] then [] else Annotated(ps[..|ps| - 1]) + [Describe(ps[|ps| - 1])]
  }

  /** The classification pass: every channel gets its base name and rank. */
  method Annotate(ps: seq<Parsed>) returns (cs: seq<Channel>)
    ensures cs == Annotated(ps)
  {
    cs := [];
    var i := 0;
    while i < |ps|
      invariant 0 <= i <= |ps|
      invariant cs == Annotated(ps[..i])
    {
      assert ps[..i + 1][..i] == ps[..i];
      assert Annotated(ps[..i + 1]) == Annotated(ps[..i]) + [Describe(ps[i])];
      cs := cs + [Describe(ps[i])];
      i := i + 1;
    }
    assert ps[..i] == ps;
  }

  // ---------------------------------------------------------------------
  // Filter, groups and the best of each group

  /** `channels.filter(channel => channel.isHighQuality)`. */
  function HighQuality(cs: seq<Channel>): (r: seq<Channel>)
    ensures forall c :: c in r <==> c in cs && c.isHighQuality
    ensures |r| <= |cs|
  {
    if cs == [] then []
    else
      var r := HighQuality(cs[..|cs| - 1]);
      var c := cs[|cs| - 1];
      assert cs == cs[..|cs| - 1] + [c];
      if c.isHighQuality then r + [c] else r
  }

  /** The filter keeps one channel or none. */
  lemma HighQualitySingle(c: Channel)
    ensures HighQuality([c]) == if c.isHighQuality then [c] else []
  {
    assert [c][..0] == [];
  }

  /** The filter works channel by channel and keeps their order. */
  lemma {:induction false} HighQualityAppend(a: seq<Channel>, b: seq<Channel>)
    ensures HighQuality(a + b) == HighQuality(a) + HighQuality(b)
    decreases |b|
  {
    if b == [] {
      assert a + b == a;
    } else {
      var b' := b[..|b| - 1];
      assert (a + b)[..|a + b| - 1] == a + b';
      assert (a + b)[|a + b| - 1] == b[|b| - 1];
      HighQualityAppend(a, b');
    }
  }

  function BaseNameOf(c: Channel): string {
    c.baseName
  }

  /** The comparator `b.resolution - a.resolution`. */
  function Key(c: Channel): Rank {
    Rank(c.resolution, 0)
  }

  /** `groupChannels[0]` after the group is sorted. */
  function Best(g: seq<Channel>): Channel
    requires g != []
  {
    SortDesc(g, Key)[0]
  }

  /** `c` is, of the channels of `g`, the earliest one of highest rank. */
  predicate Winner(g: seq<Channel>, c: Channel) {
    exists i :: 0 <= i < |g| && g[i] == c
      && (forall j :: 0 <= j < |g| ==> g[j].resolution <= c.resolution)
      && (forall j :: 0 <= j < i ==> g[j].resolution < c.resolution)
  }

  /** The stable sort puts the earliest channel of highest rank first. */
  lemma BestWins(g: seq<Channel>)
    requires g != []
    ensures Winner(g, Best(g))
  {
    var i := SortDescHead(g, Key);
  }

  /** The best channels of the groups `names`, one per name. */
  function BestOver(s: seq<Channel>, names: seq<string>): (r: seq<Channel>)
    requires forall k :: 0 <= k < |names| ==> Group(s, BaseNameOf, names[k]) != []
    ensures |r| == |names|
  {
    if names == [] then []
    else BestOver(s, names[..|names| - 1]) + [Best(Group(s, BaseNameOf, names[|names| - 1]))]
  }

  /** `processedChannels` before the global sort. */
  function Dedup(s: seq<Channel>): seq<Channel> {
    LabelsPresent(s, BaseNameOf);
    BestOver(s, Labels(s, BaseNameOf))
  }

  lemma {:induction false} BestOverPicks(s: seq<Channel>, names: seq<string>)
    requires forall k :: 0 <= k < |names| ==> Group(s, BaseNameOf, names[k]) != []
    ensures forall k :: 0 <= k < |names| ==> BestOver(s, names)[k] == Best(Group(s, BaseNameOf, names[k]))
  {
    if names != [] {
      var init := names[..|names| - 1];
      BestOverPicks(s, init);
      assert forall k :: 0 <= k < |init| ==> init[k] == names[k];
    }
  }

  /** The best of a group is one of its channels, so it carries the group's
      base name and is one of the channels grouped. */
  lemma BestInGroup(s: seq<Channel>, b: string)
    requires Group(s, BaseNameOf, b) != []
    ensures Best(Group(s, BaseNameOf, b)).baseName == b
    ensures Best(Group(s, BaseNameOf, b)) in s
  {
    var g := Group(s, BaseNameOf, b);
    BestWins(g);
    var c := Best(g);
    GroupMultiset(s, BaseNameOf, b, c);
    assert c in multiset(g);
  }

  /** Exactly one channel per base name, in the order the base names first
      appear, and each is the earliest channel of highest rank among those
      sharing its base name. */
  lemma OnePerBaseName(s: seq<Channel>)
    ensures |Dedup(s)| == |Labels(s, BaseNameOf)|
    ensures forall k :: 0 <= k < |Dedup(s)| ==> Dedup(s)[k].baseName == Labels(s, BaseNameOf)[k]
    ensures forall i, j :: 0 <= i < j < |Dedup(s)| ==> Dedup(s)[i].baseName != Dedup(s)[j].baseName
    ensures forall j :: 0 <= j < |s| ==> exists k :: 0 <= k < |Dedup(s)| && Dedup(s)[k].baseName == s[j].baseName
    ensures forall k :: 0 <= k < |Dedup(s)| ==>
      Dedup(s)[k] in s && Winner(Group(s, BaseNameOf, Dedup(s)[k].baseName), Dedup(s)[k])
  {
    var names := Labels(s, BaseNameOf);
    LabelsPresent(s, BaseNameOf);
    BestOverPicks(s, names);
    forall k | 0 <= k < |names|
      ensures Dedup(s)[k].baseName == names[k]
      ensures Dedup(s)[k] in s && Winner(Group(s, BaseNameOf, names[k]), Dedup(s)[k])
    {
      BestInGroup(s, names[k]);
      BestWins(Group(s, BaseNameOf, names[k]));
    }
    forall j | 0 <= j < |s| ensures exists k :: 0 <= k < |names| && names[k] == s[j].baseName {
      assert BaseNameOf(s[j]) in names;
    }
  }

  /** Each kept channel is one of the channels it was chosen from. */
  lemma DedupWithin(s: seq<Channel>)
    ensures forall c :: c in Dedup(s) ==> c in s
  {
    OnePerBaseName(s);
    forall c | c in Dedup(s) ensures c in s {
      var k :| 0 <= k < |Dedup(s)| && Dedup(s)[k] == c;
    }
  }

  /** One group's share: sorted in place, then its first channel. */
  method BestOfGroup(g: seq<Channel>) returns (best: Channel)
    requires g != []
    ensures best == Best(g)
  {
    var a := new Channel[|g|](j requires 0 <= j < |g| => g[j]);
    assert a[..] == g;
    SortInPlace(a, Key);
    best := a[0];
  }

  lemma PrefixPresent(s: seq<Channel>, names: seq<string>, k: nat)
    requires k <= |names|
    requires forall j :: 0 <= j < |names| ==> Group(s, BaseNameOf, names[j]) != []
    ensures forall j :: 0 <= j < k ==> Group(s, BaseNameOf, names[..k][j]) != []
  {
  }

  /** One more group's best joins the list. */
  lemma BestOverStep(s: seq<Channel>, names: seq<string>, k: nat)
    requires k < |names|
    requires forall j :: 0 <= j < |names| ==> Group(s, BaseNameOf, names[j]) != []
    ensures BestOver(s, names[..k + 1]) == BestOver(s, names[..k]) + [Best(Group(s, BaseNameOf, names[k]))]
  {
    PrefixPresent(s, names, k);
    PrefixPresent(s, names, k + 1);
    assert names[..k + 1][..k] == names[..k];
  }

  /** Groups the high-quality channels and keeps the best of each group. */
  method KeepBest(hq: seq<Channel>) returns (processed: seq<Channel>)
    ensures processed == Dedup(hq)
  {
    var groups, order := GroupBy(hq, BaseNameOf);
    LabelsPresent(hq, BaseNameOf);
    processed := [];
    var k := 0;
    PrefixPresent(hq, order, 0);
    while k < |order|
      invariant 0 <= k <= |order|
      invariant forall j :: 0 <= j < k ==> Group(hq, BaseNameOf, order[..k][j]) != []
      invariant processed == BestOver(hq, order[..k])
    {
      var best := BestOfGroup(groups[order[k]]);
      BestOverStep(hq, order, k);
      PrefixPresent(hq, order, k + 1);
      processed := processed + [best];
      k := k + 1;
    }
    assert order[..k] == order;
  }

  /** `processedChannels.sort(...)`, in place. */
  method SortByResolution(cs: seq<Channel>) returns (sorted: seq<Channel>)
    ensures sorted == SortDesc(cs, Key)
  {
    var a := new Channel[|cs|](j requires 0 <= j < |cs| => cs[j]);
    assert a[..] == cs;
    SortInPlace(a, Key);
    sorted := a[..];
  }

  // ---------------------------------------------------------------------
  // The size budget

  /** The entry line and address of each classified channel. */
  function Entries(cs: seq<Channel>): (r: seq<Entry>)
    ensures |r| == |cs|
    ensures forall k :: 0 <= k < |cs| ==> r[k] == Entry(cs[k].line, cs[k].url)
  {
    Lines(Strip(cs))
  }

  /** `(channel.line + '\n' + channel.url + '\n').length`. */
  function ChannelSize(c: Channel): nat {
    |c.line| + |c.url| + 2
  }

  /** The size of the text made of the header and the first `n` channels. */
  function PrefixSize(s: seq<Channel>, n: nat): nat
    requires n <= |s|
  {
    |Header| + Size(Entries(s[..n]))
  }

  /** Admitting one more channel adds its size. */
  lemma PrefixSizeStep(s: seq<Channel>, n: nat)
    requires n < |s|
    ensures PrefixSize(s, n + 1) == PrefixSize(s, n) + ChannelSize(s[n])
  {
    var es := Entries(s[..n + 1]);
    assert es[..n] == Entries(s[..n]);
  }

  /** Longer prefixes are never smaller. */
  lemma {:induction false} PrefixSizeMonotone(s: seq<Channel>, m: nat, n: nat)
    requires m <= n <= |s|
    ensures PrefixSize(s, m) <= PrefixSize(s, n)
    decreases n - m
  {
    if m < n {
      PrefixSizeStep(s, m);
      PrefixSizeMonotone(s, m + 1, n);
    }
  }

  /** The number of channels the greedy loop admits when it has admitted `n`
      so far: it goes on while the next channel fits. */
  function CutoffFrom(s: seq<Channel>, n: nat, maxSizeBytes: int): (r: nat)
    requires n <= |s|
    ensures n <= r <= |s|
    decreases |s| - n
  {
    if n < |s| && PrefixSize(s, n + 1) <= maxSizeBytes then CutoffFrom(s, n + 1, maxSizeBytes) else n
  }

  function Cutoff(s: seq<Channel>, maxSizeBytes: int): nat {
    CutoffFrom(s, 0, maxSizeBytes)
  }

  lemma {:induction false} CutoffFromFits(s: seq<Channel>, n: nat, maxSizeBytes: int)
    requires n <= |s|
    requires n > 0 ==> PrefixSize(s, n) <= maxSizeBytes
    ensures CutoffFrom(s, n, maxSizeBytes) > 0 ==> PrefixSize(s, CutoffFrom(s, n, maxSizeBytes)) <= maxSizeBytes
    ensures CutoffFrom(s, n, maxSizeBytes) < |s| ==> PrefixSize(s, CutoffFrom(s, n, maxSizeBytes) + 1) > maxSizeBytes
    decreases |s| - n
  {
    if n < |s| && PrefixSize(s, n + 1) <= maxSizeBytes {
      assert CutoffFrom(s, n, maxSizeBytes) == CutoffFrom(s, n + 1, maxSizeBytes);
      CutoffFromFits(s, n + 1, maxSizeBytes);
    } else {
      assert CutoffFrom(s, n, maxSizeBytes) == n;
    }
  }

  /** The admitted channels are the longest prefix of the sorted list whose
      text fits the budget: a non-empty prefix fits, and every longer prefix,
      starting with the one that adds the next channel, overflows. */
  lemma CutoffLongest(s: seq<Channel>, maxSizeBytes: int)
    ensures Cutoff(s, maxSizeBytes) <= |s|
    ensures Cutoff(s, maxSizeBytes) > 0 ==> PrefixSize(s, Cutoff(s, maxSizeBytes)) <= maxSizeBytes
    ensures forall j :: Cutoff(s, maxSizeBytes) < j <= |s| ==> PrefixSize(s, j) > maxSizeBytes
  {
    var n := Cutoff(s, maxSizeBytes);
    CutoffFromFits(s, 0, maxSizeBytes);
    forall j | n < j <= |s| ensures PrefixSize(s, j) > maxSizeBytes {
      PrefixSizeMonotone(s, n + 1, j);
    }
  }

  /** The size-control loop: it admits channels in order while the next one
      fits, and stops at the first that does not. */
  method Admit(sorted: seq<Channel>, maxSizeBytes: int) returns (finalChannels: seq<Channel>, currentSize: int)
    ensures finalChannels == sorted[..Cutoff(sorted, maxSizeBytes)]
    ensures currentSize == |Header| + Size(Entries(finalChannels))
  {
    finalChannels := [];
    currentSize := |Header|;
    var i := 0;
    while i < |sorted|
      invariant 0 <= i <= |sorted|
      invariant CutoffFrom(sorted, i, maxSizeBytes) == Cutoff(sorted, maxSizeBytes)
      invariant finalChannels == sorted[..i]
      invariant currentSize == PrefixSize(sorted, i)
    {
      var channel := sorted[i];
      var channelSize := |channel.line| + |channel.url| + 2;
      PrefixSizeStep(sorted, i);
      if currentSize + channelSize <= maxSizeBytes {
        finalChannels := finalChannels + [channel];
        currentSize := currentSize + channelSize;
        assert sorted[..i + 1] == sorted[..i] + [channel];
      } else {
        break;
      }
      i := i + 1;
    }
  }

  // ---------------------------------------------------------------------
  // Output

  /** The output loop: the header, then `line\nurl\n` for every channel
      admitted. */
  method Output(finalChannels: seq<Channel>) returns (output: string)
    ensures output == Render(Entries(finalChannels))
    ensures |output| == |Header| + Size(Entries(finalChannels))
  {
    output := Header;
    var i := 0;
    while i < |finalChannels|
      invariant 0 <= i <= |finalChannels|
      invariant output == Header + Body(Entries(finalChannels[..i]))
    {
      var channel := finalChannels[i];
      assert Entries(finalChannels[..i + 1])[..i] == Entries(finalChannels[..i]);
      output := output + channel.line + "\n";
      output := output + channel.url + "\n";
      i := i + 1;
    }
    assert finalChannels[..i] == finalChannels;
    RenderLength(Entries(finalChannels));
  }

  // ---------------------------------------------------------------------
  // The whole script

  /** `maxSizeMB * 1024 * 1024`. */
  function Budget(maxSizeMB: int): int {
    maxSizeMB * 1024 * 1024
  }

  /** The channels the list is cut from: best per base name, best first. */
  function Ranked(lines: seq<string>): seq<Channel> {
    SortDesc(Dedup(HighQuality(Annotated(Parse(lines)))), Key)
  }

  /** `finalChannels`. */
  function Final(lines: seq<string>, maxSizeMB: int): seq<Channel> {
    var sorted := Ranked(lines);
    sorted[..Cutoff(sorted, Budget(maxSizeMB))]
  }

  /** `processM3UFile` without the file system: the content is split at its
      newlines and the output text is returned with `currentSize`. */
  method ProcessContent(content: string, maxSizeMB: int) returns (output: string, finalChannels: seq<Channel>, currentSize: int)
    ensures finalChannels == Final(SplitLines(content), maxSizeMB)
    ensures output == Render(Entries(finalChannels))
    ensures currentSize == |output|
  {
    var channels := ParseLines(SplitLines(content));
    var annotated := Annotate(channels);
    var highQuality := HighQuality(annotated);
    var processed := KeepBest(highQuality);
    var sorted := SortByResolution(processed);
    finalChannels, currentSize := Admit(sorted, maxSizeMB * 1024 * 1024);
    output := Output(finalChannels);
  }

  // ---------------------------------------------------------------------
  // What the output is

  /** A channel whose rank, label and base name are those of its name. */
  predicate Classified(c: Channel) {
    var q := Classify(c.name);
    && c.resolution == q.resolution && c.resolutionText == q.text
    && c.isHighQuality == q.isHighQuality && c.baseName == BaseName(c.name)
  }

  lemma {:induction false} AnnotatedClassified(ps: seq<Parsed>)
    ensures forall k :: 0 <= k < |Annotated(ps)| ==> Classified(Annotated(ps)[k])
  {
    if ps != [] {
      AnnotatedClassified(ps[..|ps| - 1]);
    }
  }

  /** The name, line and address a channel was made from. */
  function Stripped(c: Channel): Parsed {
    Parsed(c.name, c.line, c.url)
  }

  /** The classification pass keeps each channel's name, line and address. */
  lemma {:induction false} AnnotatedKeeps(ps: seq<Parsed>)
    ensures Strip(Annotated(ps)) == ps
  {
    if ps != [] {
      var init, last := ps[..|ps| - 1], ps[|ps| - 1];
      assert init + [last] == ps;
      AnnotatedKeeps(init);
      var before, channel := Annotated(init), Describe(last);
      DescribeKeeps(last);
      StripAppend(before, channel);
    }
  }

  lemma StripAppend(cs: seq<Channel>, c: Channel)
    ensures Strip(cs + [c]) == Strip(cs) + [Stripped(c)]
  {
  }

  /** The filter keeps only high-quality channels, so each has rank 2, 3
      or 4. */
  lemma HighQualityRanks(cs: seq<Channel>)
    requires forall k :: 0 <= k < |cs| ==> Classified(cs[k])
    ensures forall c :: c in HighQuality(cs) ==> c.isHighQuality && 2 <= c.resolution <= 4
  {
    forall c | c in HighQuality(cs) ensures c.isHighQuality && 2 <= c.resolution <= 4 {
      var n :| 0 <= n < |cs| && cs[n] == c;
      var q := Classify(c.name);
      assert c.resolution == q.resolution && c.isHighQuality == q.isHighQuality by {
        assert Classified(cs[n]);
      }
    }
  }

  /** Every channel of the output passed the filter. */
  lemma FinalFiltered(lines: seq<string>, maxSizeMB: int)
    ensures var f := Final(lines, maxSizeMB);
      forall k :: 0 <= k < |f| ==> f[k] in HighQuality(Annotated(Parse(lines)))
  {
    var hq := HighQuality(Annotated(Parse(lines)));
    var d := Dedup(hq);
    var r := Ranked(lines);
    var f := Final(lines, maxSizeMB);
    DedupWithin(hq);
    SortDescCorrect(d, Key);
    forall k | 0 <= k < |f| ensures f[k] in hq {
      var c := f[k];
      assert c == r[k];
      assert c in multiset(d);
    }
  }

  /** Only HD, Full HD and 4K channels reach the output. */
  lemma FinalQuality(lines: seq<string>, maxSizeMB: int)
    ensures var f := Final(lines, maxSizeMB);
      forall k :: 0 <= k < |f| ==> f[k].isHighQuality && 2 <= f[k].resolution <= 4
  {
    AnnotatedClassified(Parse(lines));
    HighQualityRanks(Annotated(Parse(lines)));
    FinalFiltered(lines, maxSizeMB);
  }

  /** No two channels of the output share a base name. */
  lemma FinalDistinct(lines: seq<string>, maxSizeMB: int)
    ensures var f := Final(lines, maxSizeMB);
      forall i, j :: 0 <= i < j < |f| ==> f[i].baseName != f[j].baseName
  {
    var hq := HighQuality(Annotated(Parse(lines)));
    var d := Dedup(hq);
    var f := Final(lines, maxSizeMB);
    OnePerBaseName(hq);
    forall i, j | 0 <= i < j < |f| ensures f[i].baseName != f[j].baseName {
      DistinctAfterSort(d, i, j);
    }
  }

  /** The output is in non-increasing rank order, 4K first. */
  lemma FinalOrdered(lines: seq<string>, maxSizeMB: int)
    ensures var f := Final(lines, maxSizeMB);
      forall i, j :: 0 <= i < j < |f| ==> f[j].resolution <= f[i].resolution
  {
    var d := Dedup(HighQuality(Annotated(Parse(lines))));
    var r := Ranked(lines);
    var f := Final(lines, maxSizeMB);
    SortDescCorrect(d, Key);
    forall i, j | 0 <= i < j < |f| ensures f[j].resolution <= f[i].resolution {
      assert f[i] == r[i] && f[j] == r[j];
      assert !Below(Key(r[i]), Key(r[j]));
    }
  }

  /** The output is a prefix of the ranked list; once something is admitted
      its text fits the budget, and the channel after the prefix, if any,
      would overflow it. */
  lemma FinalBudget(lines: seq<string>, maxSizeMB: int)
    ensures var f, r := Final(lines, maxSizeMB), Ranked(lines);
      && f == r[..|f|]
      && (f != [] ==> |Header| + Size(Entries(f)) <= Budget(maxSizeMB))
      && (|f| < |r| ==> |Header| + Size(Entries(f)) + ChannelSize(r[|f|]) > Budget(maxSizeMB))
  {
    var r := Ranked(lines);
    var n := Cutoff(r, Budget(maxSizeMB));
    CutoffLongest(r, Budget(maxSizeMB));
    if n < |r| {
      PrefixSizeStep(r, n);
    }
  }

  /** Sorting keeps the base names distinct. */
  lemma DistinctAfterSort(d: seq<Channel>, i: nat, j: nat)
    requires forall x, y :: 0 <= x < y < |d| ==> d[x].baseName != d[y].baseName
    requires i < j < |SortDesc(d, Key)|
    ensures SortDesc(d, Key)[i].baseName != SortDesc(d, Key)[j].baseName
  {
    var r := SortDesc(d, Key);
    SortDescCorrect(d, Key);
    assert r[i] in multiset(d) && r[j] in multiset(d);
    var x :| 0 <= x < |d| && d[x] == r[i];
    var y :| 0 <= y < |d| && d[y] == r[j];
    if x == y {
      TwiceCounted(r, i, j);
      NoRepeat(d, x);
      assert false;
    }
  }

  /** An element at two positions is counted twice. */
  lemma TwiceCounted<T>(s: seq<T>, i: nat, j: nat)
    requires i < j < |s| && s[i] == s[j]
    ensures multiset(s)[s[i]] >= 2
  {
    assert s == s[..j] + s[j..];
    assert s[i] in s[..j] && s[j] in s[j..];
  }

  /** In a list without repeated base names a channel occurs once. */
  lemma NoRepeat(d: seq<Channel>, x: nat)
    requires forall a, b :: 0 <= a < b < |d| ==> d[a].baseName != d[b].baseName
    requires x < |d|
    ensures multiset(d)[d[x]] == 1
  {
    assert d == d[..x] + [d[x]] + d[x + 1..];
    var before, after := d[..x], d[x + 1..];
    assert forall a :: 0 <= a < |before| ==> before[a].baseName != d[x].baseName;
    assert forall a :: 0 <= a < |after| ==> after[a].baseName != d[x].baseName by {
      forall a | 0 <= a < |after| ensures after[a].baseName != d[x].baseName {
        assert after[a] == d[x + 1 + a];
      }
    }
    assert d[x] !in before && d[x] !in after;
  }

  // ---------------------------------------------------------------------
  // Reading the output back

  /** A channel as the parse loop makes it: a trimmed `#EXTINF:` line that the
      pattern matches, its trimmed capture as the name, and a trimmed
      address, with no newline in either line. */
  predicate GoodParsed(p: Parsed) {
    TopThree.GoodPair(Entry(p.line, p.url)) && Start(p.line) == Some(Pending(p.name, p.line))
  }

  predicate GoodPending(p: Option<Pending>) {
    p.Some? ==>
      Trimmed(p.value.line) && IsExtInfLine(p.value.line) && '\n' !in p.value.line && Start(p.value.line) == p
  }

  lemma {:induction false} ScanWellFormed(lines: seq<string>)
    requires TopThree.NoNewlines(lines)
    ensures forall k :: 0 <= k < |Scan(lines).0| ==> GoodParsed(Scan(lines).0[k])
    ensures GoodPending(Scan(lines).1)
    decreases |lines|
  {
    if lines != [] {
      var init := lines[..|lines| - 1];
      var t := Trim(lines[|lines| - 1]);
      var (done, pending) := Scan(init);
      assert TopThree.NoNewlines(init) by {
        assert forall k :: 0 <= k < |init| ==> init[k] == lines[k];
      }
      ScanWellFormed(init);
      assert '\n' !in t by { TrimKeeps(lines[|lines| - 1]); }
      var e := Emit(t, pending);
      assert forall k :: 0 <= k < |e| ==> GoodParsed(e[k]) by {
        if e != [] {
          UrlNotExtInf(t);
        }
      }
      assert GoodPending(Next(t, pending));
      forall k | 0 <= k < |done + e| ensures GoodParsed((done + e)[k]) {
        if k < |done| {
          assert (done + e)[k] == done[k];
        } else {
          assert (done + e)[k] == e[k - |done|];
        }
      }
    }
  }

  /** The name, line and address of each channel. */
  function Strip(cs: seq<Channel>): (r: seq<Parsed>)
    ensures |r| == |cs|
  {
    seq(|cs|, i requires 0 <= i < |cs| => Stripped(cs[i]))
  }

  /** Channels whose names, lines and addresses are well-formed parse results. */
  lemma StripWellFormed(cs: seq<Channel>, ps: seq<Parsed>)
    requires Strip(cs) == ps
    requires forall k :: 0 <= k < |ps| ==> GoodParsed(ps[k])
    ensures forall c :: c in cs ==> GoodParsed(Stripped(c))
  {
    forall c | c in cs ensures GoodParsed(Stripped(c)) {
      var n :| 0 <= n < |cs| && cs[n] == c;
      assert Stripped(c) == Strip(cs)[n];
    }
  }

  /** Every channel of the output is one the parse loop made. */
  lemma FinalWellFormed(lines: seq<string>, maxSizeMB: int)
    requires TopThree.NoNewlines(lines)
    ensures var f := Final(lines, maxSizeMB);
      forall k :: 0 <= k < |f| ==> GoodParsed(Strip(f)[k])
  {
    var cs := Annotated(Parse(lines));
    var f := Final(lines, maxSizeMB);
    ScanWellFormed(lines);
    AnnotatedKeeps(Parse(lines));
    StripWellFormed(cs, Parse(lines));
    FinalFiltered(lines, maxSizeMB);
    forall k | 0 <= k < |f| ensures GoodParsed(Strip(f)[k]) {
      assert f[k] in cs;
    }
  }

  /** The two lines of a well-formed channel: a matching `#EXTINF:` line
      and an address. */
  lemma PairMatches(p: Parsed)
    requires GoodParsed(p)
    ensures AllMatch([p.line, p.url])
  {
    assert Trim(p.line) == p.line && Trim(p.url) == p.url;
    UrlNotExtInf(p.url);
  }

  /** Every `#EXTINF:` line among the lines of well-formed channels matches. */
  lemma {:induction false} FlattenMatches(es: seq<Entry>)
    requires forall k :: 0 <= k < |es| ==> AllMatch([es[k].line, es[k].url])
    ensures AllMatch(Flatten(es))
  {
    if es != [] {
      var tail := es[1..];
      assert AllMatch(Flatten(tail)) by {
        assert forall k :: 0 <= k < |tail| ==> tail[k] == es[k + 1];
        FlattenMatches(tail);
      }
      assert Flatten(es) == [es[0].line, es[0].url] + Flatten(tail);
      AllMatchConcat([es[0].line, es[0].url], Flatten(tail));
    }
  }

  lemma AllMatchConcat(a: seq<string>, b: seq<string>)
    requires AllMatch(a) && AllMatch(b)
    ensures AllMatch(a + b)
  {
    forall k | 0 <= k < |a + b|
      ensures IsExtInfLine(Trim((a + b)[k])) ==> ExtInfSearch(Trim((a + b)[k])).Some?
    {
      if k < |a| {
        assert (a + b)[k] == a[k];
      } else {
        assert (a + b)[k] == b[k - |a|];
      }
    }
  }

  /** The lines of the output text: the header, each admitted channel's line
      and address verbatim and in order, and the empty piece after the final
      newline. */
  lemma OutputLines(lines: seq<string>, maxSizeMB: int)
    requires TopThree.NoNewlines(lines)
    ensures var f := Final(lines, maxSizeMB);
      SplitLines(Render(Entries(f))) == ["#EXTM3U"] + Flatten(Entries(f)) + [""]
  {
    var f := Final(lines, maxSizeMB);
    FinalWellFormed(lines, maxSizeMB);
    assert Entries(f) == Lines(Strip(f));
    TextLines(Strip(f));
  }

  lemma TextLines(ps: seq<Parsed>)
    requires forall k :: 0 <= k < |ps| ==> GoodParsed(ps[k])
    ensures SplitLines(Render(Lines(ps))) == ["#EXTM3U"] + Flatten(Lines(ps)) + [""]
  {
    SplitRender(Lines(ps));
  }

  /** Reading the output back with the same parse loop gives the admitted
      channels' names, lines and addresses, in order. */
  lemma OutputRoundTrip(lines: seq<string>, maxSizeMB: int)
    requires TopThree.NoNewlines(lines)
    ensures var f := Final(lines, maxSizeMB);
      Parse(SplitLines(Render(Entries(f)))) == Strip(f)
  {
    var f := Final(lines, maxSizeMB);
    var ps := Strip(f);
    FinalWellFormed(lines, maxSizeMB);
    assert Entries(f) == Lines(ps);
    ReadBack(ps);
  }

  /** The text of well-formed channels parses back to them. */
  lemma ReadBack(ps: seq<Parsed>)
    requires forall k :: 0 <= k < |ps| ==> GoodParsed(ps[k])
    ensures Parse(SplitLines(Render(Lines(ps)))) == ps
  {
    var es := Lines(ps);
    var text := SplitLines(Render(es));
    assert forall k :: 0 <= k < |es| ==> TopThree.GoodPair(es[k]);
    assert AllMatch(text) by {
      SplitRender(es);
      forall k | 0 <= k < |es| ensures AllMatch([es[k].line, es[k].url]) {
        PairMatches(ps[k]);
      }
      FlattenMatches(es);
      HeaderMatches();
      AllMatchConcat(["#EXTM3U"], Flatten(es));
      AllMatchConcat(["#EXTM3U"] + Flatten(es), [""]);
    }
    var parsed := Parse(text);
    assert Lines(parsed) == es by {
      ScanAgrees(text);
      TopThree.ScanAll(text);
      TopThree.PairsOfRender(es);
    }
    assert forall k :: 0 <= k < |parsed| ==> GoodParsed(parsed[k]) by {
      ScanWellFormed(text);
    }
    LinesDetermine(parsed, ps);
  }

  /** A well-formed channel is determined by its line and address: the
      name is the line's capture. */
  lemma LinesDetermine(qs: seq<Parsed>, ps: seq<Parsed>)
    requires Lines(qs) == Lines(ps)
    requires forall k :: 0 <= k < |qs| ==> GoodParsed(qs[k])
    requires forall k :: 0 <= k < |ps| ==> GoodParsed(ps[k])
    ensures qs == ps
  {
    assert |qs| == |Lines(qs)|;
    forall k | 0 <= k < |ps| ensures qs[k] == ps[k] {
      assert Lines(qs)[k] == Lines(ps)[k];
      assert GoodParsed(qs[k]) && GoodParsed(ps[k]);
    }
  }

  /** Neither the header nor the empty last piece starts an entry. */
  lemma HeaderMatches()
    ensures AllMatch(["#EXTM3U"]) && AllMatch([""])
  {
    TopThree.HeaderInert();
    assert Trim("") == "";
  }
}
