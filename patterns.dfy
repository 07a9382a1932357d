/**
  The regular expressions the two scripts apply to channel names, written out
  as matchers with JavaScript's semantics: a matcher looks at the start of a
  string, a search tries the positions from left to right, and a global
  `replace` copies the text between matches and puts one space for each match.
 */
module Patterns {
  import opened Text

  /** A non-empty literal. */
  type Word = w: string | |w| > 0 witness "x"

  /** The tokens the name rewrites and quality tests look for. */
  datatype Core =
    | LineCount                        // \d{3,4}p            (case-insensitive)
    | Dimensions                       // \d{3,4}x\d{3,4}     (case-insensitive)
    | Literal(alternatives: seq<Word>) // w1|w2|...           (case-insensitive)
    | Bracketed                        // \[.*?\]
    | Parenthesised                    // \(.*?\)

  predicate DigitsAt(s: string, n: nat) {
    n <= |s| && forall k :: 0 <= k < n ==> IsDigit(s[k])
  }

  /** `\d{3,4}` followed by the letter `unit` (either case): the greedy
      quantifier tries four digits, then three. Returns the digit count. */
  function DigitsBefore(s: string, unit: char): (r: Option<nat>)
    ensures r.Some? ==> (r.value == 3 || r.value == 4) && r.value < |s|
    ensures r.Some? ==> DigitsAt(s, r.value) && FoldChar(s[r.value]) == unit
  {
    if DigitsAt(s, 4) && 4 < |s| && FoldChar(s[4]) == unit then Some(4)
    else if DigitsAt(s, 3) && 3 < |s| && FoldChar(s[3]) == unit then Some(3)
    else None
  }

  /** A final `\d{3,4}`: four digits when there are four, else three. */
  function TrailingDigits(s: string): (r: Option<nat>)
    ensures r.Some? ==> (r.value == 3 || r.value == 4) && DigitsAt(s, r.value)
  {
    if DigitsAt(s, 4) then Some(4) else if DigitsAt(s, 3) then Some(3) else None
  }

  /** The digit counts of the two groups of `(\d{3,4})x(\d{3,4})` at the start
      of `s`. Once four digits are followed by `x`, three digits cannot be, so
      the first viable width is the only one. */
  function DimensionsAt(s: string): (r: Option<(nat, nat)>)
    ensures r.Some? ==> r.value.0 + 1 + r.value.1 <= |s|
    ensures r.Some? ==> DigitsAt(s, r.value.0) && FoldChar(s[r.value.0]) == 'x'
    ensures r.Some? ==> DigitsAt(s[r.value.0 + 1..], r.value.1)
    ensures r.Some? ==> 3 <= r.value.0 <= 4 && 3 <= r.value.1 <= 4
  {
    match DigitsBefore(s, 'x')
    case None => None
    case Some(w) =>
      match TrailingDigits(s[w + 1..])
      case None => None
      case Some(h) => Some((w, h))
  }

  /** `w` is at the start of `s`, ignoring ASCII case. */
  predicate PrefixCI(s: string, w: string) {
    |w| <= |s| && forall k :: 0 <= k < |w| ==> FoldChar(s[k]) == FoldChar(w[k])
  }

  /** An alternation of literals: the first alternative that fits wins. */
  function LiteralAt(s: string, ws: seq<Word>): (r: Option<nat>)
    ensures r.Some? ==> 1 <= r.value <= |s|
  {
    if ws == [] then None
    else if PrefixCI(s, ws[0]) then Some(|ws[0]|)
    else LiteralAt(s, ws[1..])
  }

  /** A lazy `.*?` followed by `close`: the index of the first `close`, unless a
      line terminator (which `.` does not match) comes before it. */
  function CloseAt(s: string, close: char): (r: Option<nat>)
    ensures r.Some? ==> r.value < |s| && s[r.value] == close
  {
    if s == [] then None
    else if s[0] == close then Some(0)
    else if IsLineTerminator(s[0]) then None
    else match CloseAt(s[1..], close)
      case None => None
      case Some(m) => Some(m + 1)
  }

  function EnclosedAt(s: string, open: char, close: char): (r: Option<nat>)
    ensures r.Some? ==> 2 <= r.value <= |s|
  {
    if s != [] && s[0] == open then
      match CloseAt(s[1..], close)
      case None => None
      case Some(m) => Some(m + 2)
    else None
  }

  /** Length of the match of `c` at the start of `s`; matches are never empty. */
  function MatchAt(c: Core, s: string): (r: Option<nat>)
    ensures r.Some? ==> 1 <= r.value <= |s|
  {
    match c
    case LineCount =>
      (match DigitsBefore(s, 'p') case None => None case Some(n) => Some(n + 1))
    case Dimensions =>
      (match DimensionsAt(s) case None => None case Some((w, h)) => Some(w + 1 + h))
    case Literal(ws) => LiteralAt(s, ws)
    case Bracketed => EnclosedAt(s, '[', ']')
    case Parenthesised => EnclosedAt(s, '(', ')')
  }

  /** `regex.test(s)`: some position of `s` starts a match. */
  predicate Matches(c: Core, s: string) {
    exists i :: 0 <= i < |s| && MatchAt(c, s[i..]).Some?
  }

  /** `s.match(regex)` without the global flag: the leftmost match, as its
      start and length. */
  function First(c: Core, s: string): (r: Option<(nat, nat)>)
    ensures r.Some? ==> r.value.0 < |s| && MatchAt(c, s[r.value.0..]) == Some(r.value.1)
    ensures r.Some? ==> forall i :: 0 <= i < r.value.0 ==> MatchAt(c, s[i..]).None?
    ensures r.None? <==> !Matches(c, s)
  {
    if s == [] then None
    else match MatchAt(c, s)
      case Some(n) => assert s[0..] == s; Some((0, n))
      case None =>
        match First(c, s[1..])
        case None =>
          assert forall i :: 1 <= i < |s| ==> s[i..] == s[1..][i - 1..];
          None
        case Some((i, n)) =>
          assert s[i + 1..] == s[1..][i..];
          assert forall j :: 1 <= j < i + 1 ==> s[j..] == s[1..][j - 1..];
          assert s[0..] == s;
          Some((i + 1, n))
  }

  /** `w` occurs in `s`, ignoring ASCII case. */
  predicate ContainsCI(s: string, w: Word) {
    exists i :: 0 <= i < |s| && PrefixCI(s[i..], w)
  }

  lemma {:induction false} LiteralAtSome(s: string, ws: seq<Word>)
    ensures LiteralAt(s, ws).Some? <==> exists j :: 0 <= j < |ws| && PrefixCI(s, ws[j])
  {
    if ws != [] {
      LiteralAtSome(s, ws[1..]);
      assert forall j :: 1 <= j < |ws| ==> ws[j] == ws[1..][j - 1];
    }
  }

  /** A test of an alternation of literals holds exactly when one of the
      literals occurs somewhere in the string. */
  lemma LiteralMatches(ws: seq<Word>, s: string)
    ensures Matches(Literal(ws), s) <==> exists j :: 0 <= j < |ws| && ContainsCI(s, ws[j])
  {
    forall i | 0 <= i < |s|
      ensures LiteralAt(s[i..], ws).Some? <==> exists j :: 0 <= j < |ws| && PrefixCI(s[i..], ws[j])
    {
      LiteralAtSome(s[i..], ws);
    }
  }

  /** A compact consequence for one literal. */
  lemma WordMatches(w: Word, s: string)
    ensures Matches(Literal([w]), s) <==> ContainsCI(s, w)
  {
    LiteralMatches([w], s);
  }

  /** Any string containing `xw` contains `w`: `FHD` and `UHD` contain `HD`. */
  lemma {:induction false} ContainsSuffix(s: string, x: string, w: Word)
    requires ContainsCI(s, x + w)
    ensures ContainsCI(s, w)
  {
    var i :| 0 <= i < |s| && PrefixCI(s[i..], x + w);
    forall k | 0 <= k < |w|
      ensures FoldChar(s[i + |x|..][k]) == FoldChar(w[k])
    {
      assert s[i + |x|..][k] == s[i..][|x| + k];
      assert (x + w)[|x| + k] == w[k];
    }
    assert PrefixCI(s[i + |x|..], w);
  }

  // ---------------------------------------------------------------------
  // Global replacement

  /** `\s*c\s*` at the start of `s`: the leading `\s*` is greedy and gives back
      one space at a time until `c` matches; the trailing `\s*` takes every
      space after the match. */
  function StripAt(c: Core, s: string): (r: Option<nat>)
    ensures r.Some? ==> 1 <= r.value <= |s|
  {
    LeadTry(c, s, SpaceRun(s))
  }

  function LeadTry(c: Core, s: string, k: nat): (r: Option<nat>)
    requires k <= |s|
    ensures r.Some? ==> 1 <= r.value <= |s|
    decreases k
  {
    match MatchAt(c, s[k..])
    case Some(n) => Some(k + n + SpaceRun(s[k + n..]))
    case None => if k == 0 then None else LeadTry(c, s, k - 1)
  }

  // s.replace(/\s*c\s*/g, ' '). The pattern is tried on the case-folded
  // view of the string, which is how the /i flag compares letters; the text
  // kept between matches is copied from the string itself. The bracket
  // patterns have no /i flag and no letters, so folding does not change what
  // they match (MatchAtFold).
  function ReplaceAll(c: Core, s: string): string {
    ReplaceOn(c, s, Fold(s))
  }

  /** The replacement scan over `s`, matching on its view `view`. */
  function ReplaceOn(c: Core, s: string, view: string): string
    requires |view| == |s|
    decreases |s|
  {
    if s == [] then []
    else match StripAt(c, view)
      case Some(n) => " " + ReplaceOn(c, s[n..], view[n..])
      case None => [s[0]] + ReplaceOn(c, s[1..], view[1..])
  }

  /** `s.replace(/\s+/g, ' ')`: every run of whitespace becomes one space. */
  function Collapse(s: string): (r: string)
    ensures NoDoubleSpace(r)
    ensures |r| <= |s|
    ensures s != [] ==> r != [] && IsSpace(r[0]) == IsSpace(s[0])
    decreases |s|
  {
    if s == [] then []
    else if IsSpace(s[0]) then " " + Collapse(s[SpaceRun(s)..])
    else [s[0]] + Collapse(s[1..])
  }

  /** The rewrites of `steps`, applied in order. */
  function StripAll(steps: seq<Core>, s: string): string
    decreases |steps|
  {
    if steps == [] then s else StripAll(steps[1..], ReplaceAll(steps[0], s))
  }

  /** The base name both scripts compute: strip each token of `steps`
      together with the whitespace around it, collapse the whitespace, trim,
      and lower-case. The result is lower-case, has no whitespace at either
      end and no two whitespace characters side by side. */
  function Normalise(steps: seq<Core>, name: string): (r: string)
    ensures forall i :: 0 <= i < |r| ==> !IsUpper(r[i])
    ensures Trimmed(r)
    ensures NoDoubleSpace(r)
  {
    var collapsed := Collapse(StripAll(steps, name));
    TrimKeeps(collapsed);
    ToLower(Trim(collapsed))
  }

  // ---------------------------------------------------------------------
  // Case-insensitivity

  lemma FoldConcat(a: string, b: string)
    ensures Fold(a + b) == Fold(a) + Fold(b)
  {
  }

  lemma FoldSuffix(s: string, k: nat)
    requires k <= |s|
    ensures Fold(s)[k..] == Fold(s[k..])
  {
  }

  lemma {:induction false} LiteralAtFold(s: string, ws: seq<Word>)
    ensures LiteralAt(Fold(s), ws) == LiteralAt(s, ws)
  {
    if ws != [] {
      assert PrefixCI(Fold(s), ws[0]) == PrefixCI(s, ws[0]);
      LiteralAtFold(s, ws[1..]);
    }
  }

  lemma {:induction false} CloseAtFold(s: string, close: char)
    requires !IsAsciiUpper(close) && !('a' <= close <= 'z')
    ensures CloseAt(Fold(s), close) == CloseAt(s, close)
    decreases |s|
  {
    if s != [] {
      var f := Fold(s);
      assert f[0] == FoldChar(s[0]);
      assert (f[0] == close) == (s[0] == close);
      assert IsLineTerminator(f[0]) == IsLineTerminator(s[0]);
      FoldSuffix(s, 1);
      CloseAtFold(s[1..], close);
    }
  }

  lemma DigitsAtFold(s: string, n: nat)
    ensures DigitsAt(Fold(s), n) == DigitsAt(s, n)
  {
    assert forall k :: 0 <= k < |s| ==> IsDigit(Fold(s)[k]) == IsDigit(s[k]);
  }

  lemma DigitsBeforeFold(s: string, unit: char)
    ensures DigitsBefore(Fold(s), unit) == DigitsBefore(s, unit)
  {
    DigitsAtFold(s, 3);
    DigitsAtFold(s, 4);
    assert forall k :: 0 <= k < |s| ==> FoldChar(Fold(s)[k]) == FoldChar(s[k]);
  }

  lemma DimensionsAtFold(s: string)
    ensures DimensionsAt(Fold(s)) == DimensionsAt(s)
  {
    DigitsBeforeFold(s, 'x');
    if DigitsBefore(s, 'x').Some? {
      var w := DigitsBefore(s, 'x').value;
      FoldSuffix(s, w + 1);
      var t := s[w + 1..];
      DigitsAtFold(t, 3);
      DigitsAtFold(t, 4);
    }
  }

  lemma EnclosedAtFold(s: string, open: char, close: char)
    requires !IsAsciiUpper(open) && !('a' <= open <= 'z')
    requires !IsAsciiUpper(close) && !('a' <= close <= 'z')
    ensures EnclosedAt(Fold(s), open, close) == EnclosedAt(s, open, close)
  {
    if s != [] {
      assert Fold(s)[0] == FoldChar(s[0]);
      FoldSuffix(s, 1);
      CloseAtFold(s[1..], close);
    }
  }

  /** Every matcher ignores ASCII case: on brackets and digits there is no
      case, and the letters are compared folded. */
  lemma MatchAtFold(c: Core, s: string)
    ensures MatchAt(c, Fold(s)) == MatchAt(c, s)
  {
    match c
    case LineCount => DigitsBeforeFold(s, 'p');
    case Dimensions => DimensionsAtFold(s);
    case Literal(ws) => LiteralAtFold(s, ws);
    case Bracketed => EnclosedAtFold(s, '[', ']');
    case Parenthesised => EnclosedAtFold(s, '(', ')');
  }

  lemma FoldIdempotent(s: string)
    ensures Fold(Fold(s)) == Fold(s)
  {
  }

  /** One step of the scan where the matcher strips `n` characters. */
  lemma ReplaceOnStripped(c: Core, s: string, view: string, n: nat)
    requires |view| == |s| && s != []
    requires StripAt(c, view) == Some(n)
    ensures n <= |s|
    ensures ReplaceOn(c, s, view) == " " + ReplaceOn(c, s[n..], view[n..])
  {
  }

  /** One step of the scan where the first character is copied. */
  lemma ReplaceOnCopied(c: Core, s: string, view: string)
    requires |view| == |s| && s != []
    requires StripAt(c, view).None?
    ensures ReplaceOn(c, s, view) == [s[0]] + ReplaceOn(c, s[1..], view[1..])
  {
  }

  lemma {:induction false} ReplaceOnFold(c: Core, s: string, view: string)
    requires |view| == |s|
    ensures ReplaceOn(c, Fold(s), view) == Fold(ReplaceOn(c, s, view))
    decreases |s|
  {
    if s != [] {
      var f := Fold(s);
      assert |f| == |s| && f[0] == FoldChar(s[0]);
      match StripAt(c, view)
      case Some(n) =>
        ReplaceOnStripped(c, s, view, n);
        ReplaceOnStripped(c, f, view, n);
        var rest := ReplaceOn(c, s[n..], view[n..]);
        FoldSuffix(s, n);
        ReplaceOnFold(c, s[n..], view[n..]);
        FoldConcat(" ", rest);
        assert Fold(" ") == " ";
      case None =>
        ReplaceOnCopied(c, s, view);
        ReplaceOnCopied(c, f, view);
        var rest := ReplaceOn(c, s[1..], view[1..]);
        FoldSuffix(s, 1);
        ReplaceOnFold(c, s[1..], view[1..]);
        FoldConcat([s[0]], rest);
        assert Fold([s[0]]) == [f[0]];
    }
  }

  lemma ReplaceAllFold(c: Core, s: string)
    ensures ReplaceAll(c, Fold(s)) == Fold(ReplaceAll(c, s))
  {
    FoldIdempotent(s);
    ReplaceOnFold(c, s, Fold(s));
  }

  lemma {:induction false} CollapseFold(s: string)
    ensures Collapse(Fold(s)) == Fold(Collapse(s))
    decreases |s|
  {
    if s != [] {
      var f := Fold(s);
      assert f[0] == FoldChar(s[0]);
      if IsSpace(s[0]) {
        var n := SpaceRun(s);
        assert Collapse(f) == " " + Collapse(f[n..]) by {
          SpaceRunFold(s);
        }
        assert Collapse(f[n..]) == Fold(Collapse(s[n..])) by {
          FoldSuffix(s, n);
          CollapseFold(s[n..]);
        }
        FoldConcat(" ", Collapse(s[n..]));
      } else {
        assert Collapse(f) == [f[0]] + Collapse(f[1..]);
        assert Collapse(f[1..]) == Fold(Collapse(s[1..])) by {
          FoldSuffix(s, 1);
          CollapseFold(s[1..]);
        }
        FoldConcat([s[0]], Collapse(s[1..]));
      }
    }
  }

  lemma {:induction false} StripAllFold(steps: seq<Core>, s: string)
    ensures StripAll(steps, Fold(s)) == Fold(StripAll(steps, s))
    decreases |steps|
  {
    if steps != [] {
      ReplaceAllFold(steps[0], s);
      StripAllFold(steps[1..], ReplaceAll(steps[0], s));
    }
  }

  /** Names that differ only in the case of ASCII letters have the same base
      name. */
  lemma NormaliseIgnoresCase(steps: seq<Core>, a: string, b: string)
    requires Fold(a) == Fold(b)
    ensures Normalise(steps, a) == Normalise(steps, b)
  {
    NormaliseFold(steps, a);
    NormaliseFold(steps, b);
  }

  lemma NormaliseFold(steps: seq<Core>, a: string)
    ensures Normalise(steps, Fold(a)) == Normalise(steps, a)
  {
    var x := StripAll(steps, a);
    StripAllFold(steps, a);
    CollapseFold(x);
    TrimFold(Collapse(x));
    ToLowerIgnoresFold(Trim(Collapse(x)));
  }

  // ---------------------------------------------------------------------
  // Rewrites that change nothing, and the `HD` inside `FHD`

  /** The characters a match of `c` can begin with. */
  predicate CanStart(c: Core, ch: char) {
    match c
    case LineCount => IsDigit(ch)
    case Dimensions => IsDigit(ch)
    case Literal(ws) => exists j :: 0 <= j < |ws| && FoldChar(ws[j][0]) == FoldChar(ch)
    case Bracketed => ch == '['
    case Parenthesised => ch == '('
  }

  /** A match begins with a character that can begin it. */
  lemma MatchAtStart(c: Core, s: string)
    requires MatchAt(c, s).Some?
    ensures CanStart(c, s[0])
  {
    match c
    case Literal(ws) =>
      LiteralAtSome(s, ws);
      var j :| 0 <= j < |ws| && PrefixCI(s, ws[j]);
      assert FoldChar(s[0]) == FoldChar(ws[j][0]);
    case _ =>
  }

  /** Whether a character can begin a match does not depend on its case. */
  lemma CanStartFold(c: Core, ch: char)
    ensures CanStart(c, FoldChar(ch)) == CanStart(c, ch)
  {
    assert FoldChar(FoldChar(ch)) == FoldChar(ch);
  }

  /** With no match at the first `k + 1` positions, the leading-space retries
      all fail. */
  lemma {:induction false} LeadTryNone(c: Core, s: string, k: nat)
    requires k <= |s|
    requires forall i :: 0 <= i <= k && i < |s| ==> MatchAt(c, s[i..]).None?
    ensures LeadTry(c, s, k).None?
    decreases k
  {
    if k > 0 {
      LeadTryNone(c, s, k - 1);
    }
  }

  /** No match of `\s*c\s*` starts ahead of a non-space character that ends
      a stretch none of whose characters can begin a match of `c`. */
  lemma StripAtNone(c: Core, view: string, k: nat)
    requires 0 < k <= |view|
    requires forall j :: 0 <= j < k ==> !CanStart(c, view[j])
    requires !IsSpace(view[k - 1])
    ensures StripAt(c, view).None?
  {
    var n := SpaceRun(view);
    assert n < k;
    forall i | 0 <= i <= n ensures MatchAt(c, view[i..]).None? {
      if MatchAt(c, view[i..]).Some? {
        MatchAtStart(c, view[i..]);
        assert false;
      }
    }
    LeadTryNone(c, view, n);
  }

  /** The scan copies a stretch of characters none of which can begin a
      match, provided the stretch does not end in whitespace (which a match
      after it could take along). */
  lemma {:induction false} ReplaceOnCopy(c: Core, s: string, view: string, k: nat)
    requires |view| == |s| && k <= |s|
    requires forall j :: 0 <= j < k ==> !CanStart(c, view[j])
    requires k > 0 ==> !IsSpace(view[k - 1])
    ensures ReplaceOn(c, s, view) == s[..k] + ReplaceOn(c, s[k..], view[k..])
    decreases k
  {
    if k > 0 {
      StripAtNone(c, view, k);
      var rest := ReplaceOn(c, s[1..], view[1..]);
      assert ReplaceOn(c, s, view) == [s[0]] + rest;
      forall j | 0 <= j < k - 1 ensures !CanStart(c, view[1..][j]) {
        assert view[1..][j] == view[j + 1];
      }
      ReplaceOnCopy(c, s[1..], view[1..], k - 1);
      TailSlices(s, k);
      TailSlices(view, k);
      AppendAssoc([s[0]], s[1..][..k - 1], ReplaceOn(c, s[k..], view[k..]));
    }
  }

  /** A scan whose view has no match at any position copies the string. */
  lemma {:induction false} ReplaceOnInert(c: Core, s: string, view: string)
    requires |view| == |s|
    requires forall i :: 0 <= i < |view| ==> MatchAt(c, view[i..]).None?
    ensures ReplaceOn(c, s, view) == s
    decreases |s|
  {
    if s != [] {
      LeadTryNone(c, view, SpaceRun(view));
      forall i | 0 <= i < |view| - 1 ensures MatchAt(c, view[1..][i..]).None? {
        assert view[1..][i..] == view[i + 1..];
      }
      ReplaceOnInert(c, s[1..], view[1..]);
    }
  }

  /** A global replace leaves a string alone when none of its characters can
      begin a match. */
  lemma NoStartInert(c: Core, s: string)
    requires forall i :: 0 <= i < |s| ==> !CanStart(c, s[i])
    ensures ReplaceAll(c, s) == s
  {
    var view := Fold(s);
    forall i | 0 <= i < |view| ensures MatchAt(c, view[i..]).None? {
      CanStartFold(c, s[i]);
      assert view[i..][0] == FoldChar(s[i]);
      if MatchAt(c, view[i..]).Some? {
        MatchAtStart(c, view[i..]);
        assert false;
      }
    }
    ReplaceOnInert(c, s, view);
  }

  /** `s.replace(/\s+/g, ' ')` leaves alone a string whose whitespace is
      single plain spaces. */
  lemma {:induction false} CollapseInert(s: string)
    requires forall i :: 0 <= i < |s| && IsSpace(s[i]) ==> s[i] == ' '
    requires NoDoubleSpace(s)
    ensures Collapse(s) == s
    decreases |s|
  {
    if s != [] {
      if IsSpace(s[0]) {
        assert SpaceRun(s) == 1;
      }
      CollapseInert(s[1..]);
    }
  }

  /** One rewrite of a chain, taken from position `i` on. */
  lemma StripAllStep(steps: seq<Core>, i: nat, x: string)
    requires i < |steps|
    ensures StripAll(steps[i..], x) == StripAll(steps[i + 1..], ReplaceAll(steps[i], x))
  {
    assert steps[i..][1..] == steps[i + 1..];
  }

  /** The first rewrite of a chain. */
  lemma StripAllCons(c: Core, steps: seq<Core>, s: string)
    ensures StripAll([c] + steps, s) == StripAll(steps, ReplaceAll(c, s))
  {
    assert ([c] + steps)[1..] == steps;
  }

  /** `TV FHD` and `TV HD` have no digit for a resolution pattern to begin
      with. */
  lemma TvNoDigits(s: string)
    requires s == "TV FHD" || s == "TV HD"
    ensures forall i :: 0 <= i < |s| ==> !CanStart(LineCount, s[i]) && !CanStart(Dimensions, s[i])
  {
    assert forall i :: 0 <= i < |s| ==> s[i] in "TV FHD";
  }

  /** A chain of rewrites none of which can begin a match in `s` leaves it
      alone. */
  lemma {:induction false} StripAllInert(steps: seq<Core>, s: string)
    requires forall k, i :: 0 <= k < |steps| && 0 <= i < |s| ==> !CanStart(steps[k], s[i])
    ensures StripAll(steps, s) == s
    decreases |steps|
  {
    if steps != [] {
      NoStartInert(steps[0], s);
      assert forall k :: 0 <= k < |steps| - 1 ==> steps[1..][k] == steps[k + 1];
      StripAllInert(steps[1..], s);
    }
  }

  /** `\s*HD\s*` at the start of `hd`, and of ` hd` where the leading `\s*`
      takes the space. */
  lemma StripHd()
    ensures StripAt(Literal(["HD"]), "hd") == Some(2)
    ensures StripAt(Literal(["HD"]), " hd") == Some(3)
  {
    assert PrefixCI("hd", "HD");
    assert MatchAt(Literal(["HD"]), "hd") == Some(2);
    assert SpaceRun(" hd") == 1;
    assert " hd"[1..] == "hd";
  }

  lemma HdTail(s: string, view: string)
    requires (s, view) == ("HD", "hd") || (s, view) == (" HD", " hd")
    ensures ReplaceOn(Literal(["HD"]), s, view) == " "
  {
    StripHd();
  }

  /** The scan copies `TV F` and reaches the `HD`. */
  lemma FhdScanHead(s: string)
    requires s == "TV FHD"
    ensures ReplaceAll(Literal(["HD"]), s) == "TV F" + ReplaceOn(Literal(["HD"]), "HD", "hd")
  {
    assert Fold(s) == "tv fhd";
    ReplaceOnCopy(Literal(["HD"]), s, Fold(s), 4);
    assert s[..4] == "TV F" && s[4..] == "HD" && Fold(s)[4..] == "hd";
  }

  /** The scan copies `TV` and reaches the ` HD`. */
  lemma HdScanHead(s: string)
    requires s == "TV HD"
    ensures ReplaceAll(Literal(["HD"]), s) == "TV" + ReplaceOn(Literal(["HD"]), " HD", " hd")
  {
    assert Fold(s) == "tv hd";
    ReplaceOnCopy(Literal(["HD"]), s, Fold(s), 2);
    assert s[..2] == "TV" && s[2..] == " HD" && Fold(s)[2..] == " hd";
  }

  /** `\s*HD\s*` takes the `HD` out of `FHD` and leaves the `F`. */
  lemma HdInsideFhd(s: string)
    requires s == "TV FHD"
    ensures ReplaceAll(Literal(["HD"]), s) == "TV F "
  {
    FhdScanHead(s);
    HdTail("HD", "hd");
  }

  /** A name's own ` HD` goes together with its space. */
  lemma HdAlone(s: string)
    requires s == "TV HD"
    ensures ReplaceAll(Literal(["HD"]), s) == "TV "
  {
    HdScanHead(s);
    HdTail(" HD", " hd");
  }

  /** No `h` is directly followed by a `d`, ignoring ASCII case. */
  predicate HdFree(o: string) {
    forall i :: 0 <= i < |o| - 1 ==> !(FoldChar(o[i]) == 'h' && FoldChar(o[i + 1]) == 'd')
  }

  /** The output of the scan starts with the replacement space or with the
      string's own first character. */
  lemma ReplaceOnHead(c: Core, s: string, view: string)
    requires |view| == |s| && s != []
    ensures ReplaceOn(c, s, view) != []
    ensures ReplaceOn(c, s, view)[0] == ' ' || ReplaceOn(c, s, view)[0] == s[0]
  {
  }

  /** A character in front of an `HD`-free string keeps it free unless it is
      an `h` before a `d`. */
  lemma HdFreeCons(x: char, rest: string)
    requires HdFree(rest)
    requires FoldChar(x) == 'h' && rest != [] ==> FoldChar(rest[0]) != 'd'
    ensures HdFree([x] + rest)
  {
    var o := [x] + rest;
    assert forall i :: 1 <= i < |o| ==> o[i] == rest[i - 1];
  }

  /** A character the scan copies is not an `h` in front of a `d`: there the
      pattern would have matched. */
  lemma HdKept(s: string, view: string)
    requires |view| == |s| && |s| > 1
    requires view[0] == FoldChar(s[0]) && view[1] == FoldChar(s[1])
    requires StripAt(Literal(["HD"]), view).None?
    requires FoldChar(s[0]) == 'h'
    ensures FoldChar(s[1]) != 'd'
  {
    assert view[0..] == view;
  }

  /** A view that folds the string character by character still does after
      both drop their first `n` characters. */
  lemma ViewShift(s: string, view: string, n: nat)
    requires |view| == |s| && n <= |s|
    requires forall k :: 0 <= k < |s| ==> view[k] == FoldChar(s[k])
    ensures forall k :: 0 <= k < |s| - n ==> view[n..][k] == FoldChar(s[n..][k])
  {
  }

  /** Once `\s*HD\s*` has been replaced everywhere, no `HD` is left: a kept
      `h` was not followed by a `d` in the string, and a replacement space is
      neither. */
  lemma {:induction false} ReplaceOnHdFree(s: string, view: string)
    requires |view| == |s|
    requires forall k :: 0 <= k < |s| ==> view[k] == FoldChar(s[k])
    ensures HdFree(ReplaceOn(Literal(["HD"]), s, view))
    decreases |s|
  {
    var c := Literal(["HD"]);
    if s != [] {
      match StripAt(c, view)
      case Some(n) =>
        ViewShift(s, view, n);
        ReplaceOnHdFree(s[n..], view[n..]);
        HdFreeCons(' ', ReplaceOn(c, s[n..], view[n..]));
      case None =>
        ViewShift(s, view, 1);
        ReplaceOnHdFree(s[1..], view[1..]);
        if |s| > 1 {
          ReplaceOnHead(c, s[1..], view[1..]);
          if FoldChar(s[0]) == 'h' {
            HdKept(s, view);
          }
        }
        HdFreeCons(s[0], ReplaceOn(c, s[1..], view[1..]));
    }
  }

  /** After the `HD` rewrite the `FHD` and `UHD` rewrites find nothing, since
      both words contain `HD`. */
  lemma HdFreeInert(w: Word, o: string)
    requires HdFree(o)
    requires |w| == 3 && FoldChar(w[1]) == 'h' && FoldChar(w[2]) == 'd'
    ensures ReplaceAll(Literal([w]), o) == o
  {
    var view := Fold(o);
    forall i | 0 <= i < |view| ensures MatchAt(Literal([w]), view[i..]).None? {
      if MatchAt(Literal([w]), view[i..]).Some? {
        LiteralAtSome(view[i..], [w]);
        assert false;
      }
    }
    ReplaceOnInert(Literal([w]), o, view);
  }

  /** In the rewrite chain `HD`, then `FHD`, then `UHD`, the last two never
      change anything. */
  lemma HdFirst(s: string)
    ensures ReplaceAll(Literal(["FHD"]), ReplaceAll(Literal(["HD"]), s)) == ReplaceAll(Literal(["HD"]), s)
    ensures ReplaceAll(Literal(["UHD"]), ReplaceAll(Literal(["HD"]), s)) == ReplaceAll(Literal(["HD"]), s)
  {
    ReplaceOnHdFree(s, Fold(s));
    HdFreeInert("FHD", ReplaceAll(Literal(["HD"]), s));
    HdFreeInert("UHD", ReplaceAll(Literal(["HD"]), s));
  }

  /** The quality tokens and tags both base-name chains remove after their
      resolution patterns, in the order of the code. */
  const QualityTokens: seq<Core> := [
    Literal(["HD"]), Literal(["FHD"]), Literal(["UHD"]), Literal(["4K"]), Literal(["SD"]),
    Bracketed, Parenthesised]

  /** None of `T`, `V`, `F` and the space can begin `4K`, `SD` or a tag. */
  lemma TvCannotStart(c: Core, ch: char)
    requires c in QualityTokens[3..]
    requires ch == 'T' || ch == 'V' || ch == 'F' || ch == ' '
    ensures !CanStart(c, ch)
  {
    assert QualityTokens[3..] == [Literal(["4K"]), Literal(["SD"]), Bracketed, Parenthesised];
  }

  /** The last four tokens find nothing in `TV F ` or `TV `. */
  lemma TvTailInert(x: string)
    requires x == "TV F " || x == "TV "
    ensures StripAll(QualityTokens[3..], x) == x
  {
    var t := QualityTokens[3..];
    forall k, i | 0 <= k < |t| && 0 <= i < |x| ensures !CanStart(t[k], x[i]) {
      assert x[i] == 'T' || x[i] == 'V' || x[i] == 'F' || x[i] == ' ';
      TvCannotStart(t[k], x[i]);
    }
    StripAllInert(t, x);
  }

  /** After `HD` and the two rewrites it leaves nothing for, the remaining
      tokens find nothing in `TV F ` or `TV `. */
  lemma TokensAfterHd(s: string, x: string)
    requires (s, x) == ("TV FHD", "TV F ") || (s, x) == ("TV HD", "TV ")
    requires ReplaceAll(Literal(["HD"]), s) == x
    ensures StripAll(QualityTokens, s) == x
  {
    var t := QualityTokens;
    StripAllStep(t, 0, s);
    assert t[0..] == t;
    HdFirst(s);
    StripAllStep(t, 1, x);
    StripAllStep(t, 2, x);
    TvTailInert(x);
  }

  /** The quality tokens take `HD` out of `TV FHD` and leave `TV F `, but
      take all of ` HD` out of `TV HD`. */
  lemma TokensKeepLetter(s: string)
    requires s == "TV FHD" || s == "TV HD"
    ensures StripAll(QualityTokens, s) == if s == "TV FHD" then "TV F " else "TV "
  {
    if s == "TV FHD" {
      HdInsideFhd(s);
      TokensAfterHd(s, "TV F ");
    } else {
      HdAlone(s);
      TokensAfterHd(s, "TV ");
    }
  }

  /** A string that starts with a non-space and ends in one space after a
      non-space trims to all but its last character. */
  lemma TrimLastSpace(x: string)
    requires |x| >= 2 && x[|x| - 1] == ' '
    requires !IsSpace(x[0]) && !IsSpace(x[|x| - 2])
    ensures Trim(x) == x[..|x| - 1]
  {
    var y := x[..|x| - 1];
    assert !IsSpace(y[0]) && !IsSpace(y[|y| - 1]);
  }

  /** The letters of the two names are not whitespace. */
  lemma TvLetters()
    ensures !IsSpace('T') && !IsSpace('V') && !IsSpace('F')
  {
  }

  /** The whitespace of `TV F ` is two single plain spaces. */
  lemma TvFSpaces(x: string)
    requires x == "TV F "
    ensures Collapse(x) == x
  {
    TvLetters();
    assert x[0] == 'T' && x[1] == 'V' && x[2] == ' ' && x[3] == 'F' && x[4] == ' ';
    forall i | 0 <= i < |x| && IsSpace(x[i]) ensures x[i] == ' ' { }
    forall k | 0 <= k < |x| - 1 ensures !(IsSpace(x[k]) && IsSpace(x[k + 1])) { }
    CollapseInert(x);
  }

  /** The whitespace of `TV ` is one plain space. */
  lemma TvOnlySpace(x: string)
    requires x == "TV "
    ensures Collapse(x) == x
  {
    TvLetters();
    assert x[0] == 'T' && x[1] == 'V' && x[2] == ' ';
    forall i | 0 <= i < |x| && IsSpace(x[i]) ensures x[i] == ' ' { }
    forall k | 0 <= k < |x| - 1 ensures !(IsSpace(x[k]) && IsSpace(x[k + 1])) { }
    CollapseInert(x);
  }

  /** `TV F ` and `TV ` have single plain spaces only, and one at the end. */
  lemma TvSpaces(x: string)
    requires x == "TV F " || x == "TV "
    ensures Collapse(x) == x
    ensures Trim(x) == x[..|x| - 1]
  {
    TvLetters();
    if x == "TV F " {
      TvFSpaces(x);
      assert x[0] == 'T' && x[3] == 'F' && x[4] == ' ';
    } else {
      TvOnlySpace(x);
      assert x[0] == 'T' && x[1] == 'V' && x[2] == ' ';
    }
    TrimLastSpace(x);
  }

  /** Lower-casing the two trimmed names. */
  lemma TvLower(y: string)
    requires y == "TV F" || y == "TV"
    ensures ToLower(y) == if y == "TV F" then "tv f" else "tv"
  {
    if y == "TV F" {
      assert ToLower(y) == [LowerChar('T'), LowerChar('V'), LowerChar(' '), LowerChar('F')];
    } else {
      assert ToLower(y) == [LowerChar('T'), LowerChar('V')];
    }
  }

  /** Collapsing, trimming and lower-casing `TV F ` and `TV `. */
  lemma TvTail(x: string)
    requires x == "TV F " || x == "TV "
    ensures ToLower(Trim(Collapse(x))) == if x == "TV F " then "tv f" else "tv"
  {
    TvSpaces(x);
    if x == "TV F " {
      assert x[..|x| - 1] == "TV F";
    } else {
      assert x[..|x| - 1] == "TV";
    }
    TvLower(x[..|x| - 1]);
  }
}
