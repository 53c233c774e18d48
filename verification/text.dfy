/** String operations the Python back end and the TypeScript front end rely on:
    case folding, whitespace stripping, suffix tests, splitting and path segments.
    Strings are sequences of Unicode scalar values. */
module Text {

  import opened Wrappers

  /** Python's `str.isspace` for one character (the full set of characters
      Python treats as whitespace). */
  predicate IsSpace(c: char) {
    || '\U{9}' <= c <= '\U{D}'
    || '\U{1C}' <= c <= ' '
    || c == '\U{85}' || c == '\U{A0}' || c == '\U{1680}'
    || '\U{2000}' <= c <= '\U{200A}'
    || c == '\U{2028}' || c == '\U{2029}' || c == '\U{202F}'
    || c == '\U{205F}' || c == '\U{3000}'
  }

  predicate IsUpperAscii(c: char) {
    'A' <= c <= 'Z'
  }

  /** Lower-casing of one character; only ASCII letters change. */
  function LowerChar(c: char): (r: char)
    ensures IsUpperAscii(c) ==> r as int == c as int + 32
    ensures !IsUpperAscii(c) ==> r == c
    ensures !IsUpperAscii(r)
  {
    if IsUpperAscii(c) then (c as int + 32) as char else c
  }

  /** `str.lower()` / the case folding of a `/.../i` pattern, over ASCII letters. */
  function Lower(s: string): (r: string)
    ensures |r| == |s|
    ensures forall i :: 0 <= i < |s| ==> r[i] == LowerChar(s[i])
  {
    seq(|s|, i requires 0 <= i < |s| => LowerChar(s[i]))
  }

  lemma LowerIdempotent(s: string)
    ensures Lower(Lower(s)) == Lower(s)
  {
  }

  /** Lower-casing changes a text exactly when it holds an ASCII capital. */
  lemma LowerFixesLowercase(s: string)
    ensures Lower(s) == s <==> forall i :: 0 <= i < |s| ==> !IsUpperAscii(s[i])
  {
    if Lower(s) == s {
      forall i | 0 <= i < |s| ensures !IsUpperAscii(s[i]) {
        assert Lower(s)[i] == s[i];
      }
    }
  }

  /** `s.endswith(suffix)` in Python, `/suffix$/` in JavaScript. */
  predicate EndsWith(s: string, suffix: string) {
    |suffix| <= |s| && s[|s| - |suffix|..] == suffix
  }

  /** `/suffix$/i`: a case-insensitive suffix test. */
  predicate EndsWithIgnoreCase(s: string, suffix: string) {
    EndsWith(Lower(s), Lower(suffix))
  }

  /** Drops leading whitespace. */
  function TrimStart(s: string): (r: string)
    ensures |r| <= |s| && r == s[|s| - |r|..]
    ensures forall i :: 0 <= i < |s| - |r| ==> IsSpace(s[i])
    ensures |r| > 0 ==> !IsSpace(r[0])
  {
    if |s| > 0 && IsSpace(s[0]) then TrimStart(s[1..]) else s
  }

  /** Drops trailing whitespace. */
  function TrimEnd(s: string): (r: string)
    ensures |r| <= |s| && r == s[..|r|]
    ensures forall i :: |r| <= i < |s| ==> IsSpace(s[i])
    ensures |r| > 0 ==> !IsSpace(r[|r| - 1])
  {
    if |s| > 0 && IsSpace(s[|s| - 1]) then TrimEnd(s[..|s| - 1]) else s
  }

  /** Python's `str.strip()` with no argument. */
  function Strip(s: string): string {
    TrimEnd(TrimStart(s))
  }

  /** The stripped string is the part of `s` between two runs of whitespace,
      and neither of its ends is whitespace. */
  lemma StripIsInnerSlice(s: string)
    ensures exists i, j ::
      && 0 <= i <= j <= |s| && Strip(s) == s[i..j]
      && (forall k :: 0 <= k < i ==> IsSpace(s[k]))
      && (forall k :: j <= k < |s| ==> IsSpace(s[k]))
    ensures |Strip(s)| > 0 ==> !IsSpace(Strip(s)[0]) && !IsSpace(Strip(s)[|Strip(s)| - 1])
  {
    var t := TrimStart(s);
    var u := TrimEnd(t);
    var i := |s| - |t|;
    var j := i + |u|;
    assert t == s[i..] && u == t[..|u|];
    assert s[i..j] == u by {
      assert s[i..j] == s[i..][..|u|];
    }
    forall k | j <= k < |s| ensures IsSpace(s[k]) {
      assert s[k] == t[k - i];
    }
    if |u| > 0 {
      assert u[0] == t[0];
    }
  }

  /** A string strips to the empty string exactly when it is all whitespace. */
  lemma {:induction false} StripEmptyIffBlank(s: string)
    ensures Strip(s) == "" <==> forall k :: 0 <= k < |s| ==> IsSpace(s[k])
  {
    StripIsInnerSlice(s);
    if forall k :: 0 <= k < |s| ==> IsSpace(s[k]) {
      TrimStartBlank(s);
    }
  }

  /** Stripping twice is stripping once. */
  lemma StripIdempotent(s: string)
    ensures Strip(Strip(s)) == Strip(s)
  {
    var t := Strip(s);
    StripIsInnerSlice(s);
    if |t| > 0 {
      assert TrimStart(t) == t;
      assert TrimEnd(t) == t;
    }
  }

  lemma {:induction false} TrimStartBlank(s: string)
    requires forall k :: 0 <= k < |s| ==> IsSpace(s[k])
    ensures TrimStart(s) == ""
    decreases |s|
  {
    if |s| > 0 {
      TrimStartBlank(s[1..]);
    }
  }

  /** JavaScript's `s.split(c)` for a one-character separator: the pieces
      between consecutive occurrences of `c`, at least one piece. */
  function Split(s: string, c: char): (r: seq<string>)
    ensures |r| >= 1
    ensures forall i :: 0 <= i < |r| ==> c !in r[i]
  {
    if |s| == 0 then [""]
    else
      var rest := Split(s[1..], c);
      if s[0] == c then [""] + rest
      else [[s[0]] + rest[0]] + rest[1..]
  }

  /** `pieces.join(c)`. */
  function Join(pieces: seq<string>, c: char): string {
    if |pieces| == 0 then ""
    else if |pieces| == 1 then pieces[0]
    else pieces[0] + [c] + Join(pieces[1..], c)
  }

  /** Splitting and joining on the same separator gives the text back. */
  lemma {:induction false} JoinSplit(s: string, c: char)
    ensures Join(Split(s, c), c) == s
  {
    if |s| > 0 {
      var rest := Split(s[1..], c);
      JoinSplit(s[1..], c);
      if s[0] == c {
        assert Split(s, c) == [""] + rest;
        assert ([""] + rest)[1..] == rest;
      } else {
        var r := [[s[0]] + rest[0]] + rest[1..];
        assert Split(s, c) == r;
        if |rest| == 1 {
        } else {
          assert r[1..] == rest[1..];
          assert Join(rest, c) == rest[0] + [c] + Join(rest[1..], c);
        }
      }
    }
  }

  /** The number of occurrences of `c` in `s`. */
  function Occurrences(s: string, c: char): nat {
    if |s| == 0 then 0 else (if s[0] == c then 1 else 0) + Occurrences(s[1..], c)
  }

  /** A text without the separator is a single piece. */
  lemma {:induction false} SplitWithout(s: string, c: char)
    requires c !in s
    ensures Split(s, c) == [s]
  {
    if |s| > 0 {
      SplitWithout(s[1..], c);
      assert [s[0]] + s[1..] == s;
    }
  }

  /** The piece before the first separator, then the pieces of the rest. */
  lemma {:induction false} SplitAround(a: string, b: string, c: char)
    requires c !in a
    ensures Split(a + [c] + b, c) == [a] + Split(b, c)
  {
    if |a| == 0 {
      assert a + [c] + b == [c] + b;
      assert ([c] + b)[1..] == b;
    } else {
      SplitAround(a[1..], b, c);
      assert (a + [c] + b)[1..] == a[1..] + [c] + b;
      assert [a[0]] + a[1..] == a;
    }
  }

  /** Split yields one more piece than there are separators. */
  lemma {:induction false} SplitCount(s: string, c: char)
    ensures |Split(s, c)| == Occurrences(s, c) + 1
  {
    if |s| > 0 {
      SplitCount(s[1..], c);
    }
  }

  /** JavaScript's `text.split(/\r?\n/)`: lines separated by `\n`, where a
      `\r` directly before a `\n` belongs to the separator. */
  function SplitLines(text: string): (r: seq<string>)
    ensures |r| == Occurrences(text, '\n') + 1
    ensures forall i :: 0 <= i < |r| ==> '\n' !in r[i]
  {
    var pieces := Split(text, '\n');
    SplitCount(text, '\n');
    seq(|pieces|, i requires 0 <= i < |pieces| =>
      if i < |pieces| - 1 then DropFinalCr(pieces[i]) else pieces[i])
  }

  function DropFinalCr(s: string): (r: string)
    ensures |s| > 0 && s[|s| - 1] == '\r' ==> r == s[..|s| - 1]
    ensures !(|s| > 0 && s[|s| - 1] == '\r') ==> r == s
  {
    if |s| > 0 && s[|s| - 1] == '\r' then s[..|s| - 1] else s
  }

  /** `sep` occurs in `s` starting at index `k`. */
  predicate SepAt(s: string, sep: string, k: nat) {
    k + |sep| <= |s| && s[k..k + |sep|] == sep
  }

  /** The index of the first occurrence of `sep` in `s` at or after `from`. */
  function IndexOf(s: string, sep: string, from: nat): (r: Option<nat>)
    requires |sep| > 0
    ensures r.Some? ==> from <= r.value && SepAt(s, sep, r.value)
    ensures r.Some? ==> forall k :: from <= k < r.value ==> !SepAt(s, sep, k)
    ensures r.None? ==> forall k :: from <= k ==> !SepAt(s, sep, k)
    decreases |s| - from
  {
    if from + |sep| > |s| then None
    else if SepAt(s, sep, from) then Some(from)
    else IndexOf(s, sep, from + 1)
  }

  predicate Contains(s: string, sep: string) {
    exists k: nat | k <= |s| :: SepAt(s, sep, k)
  }

  /** JavaScript's `s.split(sep)` for a non-empty string separator: occurrences
      are found from the left without overlap. */
  function SplitOn(s: string, sep: string): (r: seq<string>)
    requires |sep| > 0
    ensures |r| >= 1
    decreases |s|
  {
    match IndexOf(s, sep, 0)
    case None => [s]
    case Some(i) => [s[..i]] + SplitOn(s[i + |sep|..], sep)
  }

  /** When `s` holds no separator, splitting gives `s` back whole. */
  lemma SplitOnNoSeparator(s: string, sep: string)
    requires |sep| > 0 && !Contains(s, sep)
    ensures SplitOn(s, sep) == [s]
  {
  }

  /** The text after the last character that belongs to `seps`
      (`s.split(/[...]/).pop()`); all of `s` when none occurs. */
  function LastSegment(s: string, seps: set<char>): (r: string)
    ensures |r| <= |s| && r == s[|s| - |r|..]
    ensures forall i :: 0 <= i < |r| ==> r[i] !in seps
    ensures |r| < |s| ==> s[|s| - |r| - 1] in seps
  {
    if |s| == 0 then ""
    else if s[|s| - 1] in seps then ""
    else LastSegment(s[..|s| - 1], seps) + [s[|s| - 1]]
  }

  /** `path.split('/').pop()`: the file name of a slash-separated path. */
  function BaseName(path: string): string {
    LastSegment(path, {'/'})
  }

  /** The last segment and the separator before it are the whole tail of `s`:
      `s` is a head ending in a separator (or empty) followed by the segment. */
  lemma LastSegmentSplitsPath(s: string, seps: set<char>)
    ensures var r := LastSegment(s, seps);
      (|r| == |s| && r == s) ||
      (|r| < |s| && s == s[..|s| - |r| - 1] + [s[|s| - |r| - 1]] + r && s[|s| - |r| - 1] in seps)
  {
    var r := LastSegment(s, seps);
    if |r| < |s| {
      var n := |s| - |r| - 1;
      assert s[n + 1..] == r;
      assert s[n..] == [s[n]] + r;
      assert s == s[..n] + s[n..];
      assert s[..n] + ([s[n]] + r) == s[..n] + [s[n]] + r;
    }
  }

  /** Python's `os.path.join(a, b)` on POSIX paths: `b` alone when it is
      absolute, otherwise `a` and `b` with exactly the `/` between them
      that `a` does not already end with. */
  function PathJoin(a: string, b: string): (r: string)
    ensures |b| > 0 && b[0] == '/' ==> r == b
    ensures !(|b| > 0 && b[0] == '/') ==> |a| <= |r| && r[..|a|] == a
    ensures EndsWith(r, b)
  {
    if |b| > 0 && b[0] == '/' then b
    else if a == "" || a[|a| - 1] == '/' then a + b
    else a + "/" + b
  }

  /** A file name joined onto a directory is the file name of the result. */
  lemma {:induction false} BaseNameOfJoin(dir: string, file: string)
    requires '/' !in file
    ensures BaseName(PathJoin(dir, file)) == file
  {
    var r := PathJoin(dir, file);
    assert r[|r| - |file|..] == file;
    BaseNameOfSuffix(r, file);
  }

  /** When `s` ends with a separator followed by a separator-free `f`
      (or is `f` itself), `f` is its last segment. */
  lemma LastSegmentOfSuffix(s: string, seps: set<char>, f: string)
    requires forall i :: 0 <= i < |f| ==> f[i] !in seps
    requires |f| <= |s| && s[|s| - |f|..] == f
    requires |f| == |s| || s[|s| - |f| - 1] in seps
    ensures LastSegment(s, seps) == f
  {
  }

  lemma BaseNameOfSuffix(s: string, f: string)
    requires '/' !in f && |f| <= |s| && s[|s| - |f|..] == f
    requires |f| == |s| || s[|s| - |f| - 1] == '/'
    ensures BaseName(s) == f
  {
    LastSegmentOfSuffix(s, {'/'}, f);
  }

  /** The extension after the last `.`, if there is a `.` at all. */
  function Extension(path: string): (r: Option<string>)
    ensures r.Some? ==> '.' !in r.value
  {
    var last := LastSegment(path, {'.'});
    if |last| < |path| then Some(last) else None
  }

  /** A suffix test for `.e` is a test of the final extension. */
  lemma EndsWithExtension(path: string, e: string)
    requires '.' !in e
    ensures EndsWith(path, "." + e) <==> Extension(path) == Some(e)
  {
    if EndsWith(path, "." + e) {
      assert path[|path| - |e|..] == e;
      assert path[|path| - |e| - 1] == '.';
      LastSegmentOfSuffix(path, {'.'}, e);
    }
    if Extension(path) == Some(e) {
      assert path[|path| - |e| - 1..] == [path[|path| - |e| - 1]] + path[|path| - |e|..];
    }
  }

  /** Drops every trailing `/`. */
  function TrimSlashes(s: string): (r: string)
    ensures |r| <= |s| && r == s[..|r|]
    ensures |r| > 0 ==> r[|r| - 1] != '/'
    ensures forall i :: |r| <= i < |s| ==> s[i] == '/'
  {
    if |s| > 0 && s[|s| - 1] == '/' then TrimSlashes(s[..|s| - 1]) else s
  }

  predicate AllSlashes(s: string) {
    forall i :: 0 <= i < |s| ==> s[i] == '/'
  }

  /** Python's `os.path.dirname` on a POSIX path: everything up to the last
      `/`, with trailing slashes removed unless the head consists only of
      slashes. */
  function DirName(p: string): (r: string)
    ensures |r| <= |p| && r == p[..|r|]
    ensures '/' !in p ==> r == ""
  {
    var head := p[..|p| - |BaseName(p)|];
    if |head| > 0 && !AllSlashes(head) then TrimSlashes(head) else head
  }

  /** `p` is its directory part, then a run of slashes, then its file name;
      the run is non-empty unless the directory is the root (or empty). */
  lemma DirNameSlashesBaseName(p: string)
    ensures |DirName(p)| + |BaseName(p)| <= |p|
    ensures AllSlashes(p[|DirName(p)|..|p| - |BaseName(p)|])
    ensures '/' in p && !AllSlashes(DirName(p)) ==> |DirName(p)| + |BaseName(p)| < |p|
  {
    var b := BaseName(p);
    var head := p[..|p| - |b|];
    if |head| > 0 && !AllSlashes(head) {
      var d := TrimSlashes(head);
      assert p[|d|..|p| - |b|] == head[|d|..];
      assert head[|head| - 1] == '/';
    }
  }

  /** The decimal digit of `d`. */
  function DigitChar(d: nat): (c: char)
    requires d < 10
    ensures '0' <= c <= '9'
  {
    ('0' as int + d) as char
  }

  /** `String(n)` / string concatenation of a non-negative integer. */
  function NatToString(n: nat): (r: string)
    ensures |r| >= 1
    ensures forall i :: 0 <= i < |r| ==> '0' <= r[i] <= '9'
  {
    if n < 10 then [DigitChar(n)] else NatToString(n / 10) + [DigitChar(n % 10)]
  }

  /** The number a string of decimal digits denotes. */
  function DigitsValue(s: string): nat
    requires forall i :: 0 <= i < |s| ==> '0' <= s[i] <= '9'
  {
    if |s| == 0 then 0 else DigitsValue(s[..|s| - 1]) * 10 + (s[|s| - 1] as int - '0' as int)
  }

  /** The decimal rendering reads back as the same number. */
  lemma {:induction false} NatToStringRoundTrip(n: nat)
    ensures DigitsValue(NatToString(n)) == n
  {
    var r := NatToString(n);
    if n >= 10 {
      NatToStringRoundTrip(n / 10);
      assert r[..|r| - 1] == NatToString(n / 10);
    }
  }
}
