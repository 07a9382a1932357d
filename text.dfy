/**
  Character classes and string functions of JavaScript as both scripts use
  them. A JavaScript string is modelled as the sequence of its UTF-16 code
  units, one `char` per code unit, so `|s|` is JavaScript's `s.length`.
 */
module Text {

  datatype Option<T> = None | Some(value: T)

  /** The class `\s` of JavaScript regular expressions; `String.prototype.trim`
      strips exactly the same characters (WhiteSpace and LineTerminator). */
  predicate IsSpace(c: char) {
    c == '\t' || c == '\n' || c == '\U{000B}' || c == '\U{000C}' || c == '\r' || c == ' '
    || c == '\U{00A0}' || c == '\U{1680}' || ('\U{2000}' <= c <= '\U{200A}')
    || c == '\U{2028}' || c == '\U{2029}' || c == '\U{202F}' || c == '\U{205F}'
    || c == '\U{3000}' || c == '\U{FEFF}'
  }

  /** The characters that `.` in a regular expression does not match. */
  predicate IsLineTerminator(c: char) {
    c == '\n' || c == '\r' || c == '\U{2028}' || c == '\U{2029}'
  }

  /** `\d`: ASCII digits only. */
  predicate IsDigit(c: char) {
    '0' <= c <= '9'
  }

  predicate IsAsciiUpper(c: char) {
    'A' <= c <= 'Z'
  }

  /** The comparison a case-insensitive (`/i`, non-Unicode) regular expression
      makes for these patterns: only ASCII letters have a case partner, since
      canonicalisation never maps a non-ASCII character to an ASCII one. */
  function FoldChar(c: char): char {
    if IsAsciiUpper(c) then (c as int + 32) as char else c
  }

  function Fold(s: string): string {
    seq(|s|, i requires 0 <= i < |s| => FoldChar(s[i]))
  }

  /** Upper-case letters that the model's `toLowerCase` maps: ASCII and the
      Latin-1 letters U+00C0-U+00DE other than U+00D7. */
  predicate IsUpper(c: char) {
    IsAsciiUpper(c) || ('\U{00C0}' <= c <= '\U{00DE}' && c != '\U{00D7}')
  }

  function LowerChar(c: char): (r: char)
    ensures !IsUpper(r)
    ensures IsSpace(r) == IsSpace(c)
  {
    if IsUpper(c) then (c as int + 32) as char else c
  }

  /** `String.prototype.toLowerCase`, for the letters `IsUpper` covers. */
  function ToLower(s: string): (r: string)
    ensures |r| == |s|
    ensures forall i :: 0 <= i < |r| ==> !IsUpper(r[i])
    ensures forall i :: 0 <= i < |r| ==> IsSpace(r[i]) == IsSpace(s[i])
    ensures Trimmed(s) ==> Trimmed(r)
    ensures NoDoubleSpace(s) ==> NoDoubleSpace(r)
  {
    seq(|s|, i requires 0 <= i < |s| => LowerChar(s[i]))
  }

  /** Lower-casing forgets any ASCII case folding done before it. */
  lemma ToLowerIgnoresFold(s: string)
    ensures ToLower(Fold(s)) == ToLower(s)
  {
    assert forall c: char :: LowerChar(FoldChar(c)) == LowerChar(c);
  }

  /** Length of the run of whitespace at the start of `s`. */
  function SpaceRun(s: string): (n: nat)
    ensures n <= |s|
    ensures forall k :: 0 <= k < n ==> IsSpace(s[k])
    ensures n < |s| ==> !IsSpace(s[n])
  {
    if s != [] && IsSpace(s[0]) then 1 + SpaceRun(s[1..]) else 0
  }

  /** Concatenation is associative; stated once so that callers need not
      reason about the elements. */
  lemma AppendAssoc<T>(a: seq<T>, b: seq<T>, c: seq<T>)
    ensures (a + b) + c == a + (b + c)
  {
  }

  /** Dropping the first element and then cutting at `k - 1` is cutting at
      `k`. */
  lemma TailSlices<T>(s: seq<T>, k: nat)
    requires 0 < k <= |s|
    ensures [s[0]] + s[1..][..k - 1] == s[..k]
    ensures s[1..][k - 1..] == s[k..]
  {
  }

  /** No two neighbouring characters are both whitespace. */
  predicate NoDoubleSpace(s: string) {
    forall k :: 0 <= k < |s| - 1 ==> !(IsSpace(s[k]) && IsSpace(s[k + 1]))
  }

  predicate Trimmed(s: string) {
    s == [] || (!IsSpace(s[0]) && !IsSpace(s[|s| - 1]))
  }

  /** `String.prototype.trim`: whitespace is dropped from both ends until
      none is left there; a trimmed string is its own trim. */
  function Trim(s: string): (r: string)
    ensures Trimmed(r)
    ensures |r| <= |s|
    ensures Trimmed(s) ==> r == s
    decreases |s|
  {
    if s == [] then []
    else if IsSpace(s[0]) then Trim(s[1..])
    else if IsSpace(s[|s| - 1]) then Trim(s[..|s| - 1])
    else s
  }

  /** The trim is a slice of the string: it holds only the string's
      characters and keeps it free of neighbouring whitespace. */
  lemma {:induction false} TrimKeeps(s: string)
    ensures forall c :: c in Trim(s) ==> c in s
    ensures NoDoubleSpace(s) ==> NoDoubleSpace(Trim(s))
    decreases |s|
  {
    if s != [] {
      if IsSpace(s[0]) {
        TrimKeeps(s[1..]);
        SliceKeeps(s, 1, |s|);
      } else if IsSpace(s[|s| - 1]) {
        TrimKeeps(s[..|s| - 1]);
        SliceKeeps(s, 0, |s| - 1);
      }
    }
  }

  /** A slice holds only characters of the whole and keeps it free of
      neighbouring whitespace. */
  lemma SliceKeeps(s: string, a: nat, b: nat)
    requires a <= b <= |s|
    ensures forall c :: c in s[a..b] ==> c in s
    ensures NoDoubleSpace(s) ==> NoDoubleSpace(s[a..b])
  {
    forall c | c in s[a..b] ensures c in s {
      var k :| 0 <= k < b - a && s[a..b][k] == c;
      assert s[a + k] == c;
    }
    if NoDoubleSpace(s) {
      forall k | 0 <= k < b - a - 1 ensures !(IsSpace(s[a..b][k]) && IsSpace(s[a..b][k + 1])) {
        assert s[a..b][k] == s[a + k] && s[a..b][k + 1] == s[a + k + 1];
      }
    }
  }

  lemma TrimIdempotent(s: string)
    ensures Trim(Trim(s)) == Trim(s)
  {
  }

  lemma FoldSlice(s: string, a: nat, b: nat)
    requires a <= b <= |s|
    ensures Fold(s)[a..b] == Fold(s[a..b])
  {
  }

  lemma SpaceRunFold(s: string)
    ensures SpaceRun(Fold(s)) == SpaceRun(s)
  {
    var n := SpaceRun(s);
    var f := Fold(s);
    assert forall k :: 0 <= k < |s| ==> IsSpace(f[k]) == IsSpace(s[k]);
    SpaceRunUnique(f, n);
  }

  /** The leading whitespace run is the only prefix of spaces followed by a
      non-space. */
  lemma {:induction false} SpaceRunUnique(s: string, n: nat)
    requires n <= |s|
    requires forall k :: 0 <= k < n ==> IsSpace(s[k])
    requires n < |s| ==> !IsSpace(s[n])
    ensures SpaceRun(s) == n
  {
    if n > 0 {
      SpaceRunUnique(s[1..], n - 1);
    }
  }

  /** Trimming commutes with ASCII case folding, which never turns a
      character into whitespace or back. */
  lemma {:induction false} TrimFold(s: string)
    ensures Trim(Fold(s)) == Fold(Trim(s))
    decreases |s|
  {
    if s != [] {
      var f := Fold(s);
      assert f[0] == FoldChar(s[0]) && f[|s| - 1] == FoldChar(s[|s| - 1]);
      if IsSpace(s[0]) {
        assert f[1..] == Fold(s[1..]);
        TrimFold(s[1..]);
      } else if IsSpace(s[|s| - 1]) {
        assert f[..|s| - 1] == Fold(s[..|s| - 1]);
        TrimFold(s[..|s| - 1]);
      }
    }
  }

  predicate StartsWith(s: string, prefix: string) {
    |prefix| <= |s| && s[..|prefix|] == prefix
  }

  /** `parseInt` of a run of ASCII digits (leading zeros allowed). */
  function DigitsValue(ds: string): nat
    requires forall k :: 0 <= k < |ds| ==> IsDigit(ds[k])
  {
    if ds == [] then 0
    else
      var last := ds[|ds| - 1];
      assert IsDigit(last);
      DigitsValue(ds[..|ds| - 1]) * 10 + (last as int - 48)
  }

  /** `text.split('\n')`: the pieces between newlines, always at least one. */
  function SplitLines(text: string): (r: seq<string>)
    ensures |r| >= 1
    ensures forall k :: 0 <= k < |r| ==> '\n' !in r[k]
  {
    if text == [] then [[]]
    else
      var rest := SplitLines(text[1..]);
      if text[0] == '\n' then [[]] + rest
      else [[text[0]] + rest[0]] + rest[1..]
  }

  /** Splitting at the first newline of `a + "\n" + b` gives `a`, then `b`'s pieces. */
  lemma {:induction false} SplitAfterLine(a: string, b: string)
    requires '\n' !in a
    ensures SplitLines(a + "\n" + b) == [a] + SplitLines(b)
    decreases |a|
  {
    if a == [] {
      assert a + "\n" + b == ['\n'] + b;
      assert (['\n'] + b)[1..] == b;
    } else {
      var t := a + "\n" + b;
      assert t[0] == a[0];
      assert t[1..] == a[1..] + "\n" + b;
      SplitAfterLine(a[1..], b);
      assert [t[0]] + a[1..] == a;
    }
  }
}
