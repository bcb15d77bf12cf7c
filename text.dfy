/**
 * The few Python `str` operations the service applies to the text printed by
 * `pactl`, `bluetoothctl` and `nmcli`: `in` (substring), `lower()`/`upper()`,
 * `strip()`, `split()` (on runs of whitespace), `split(c)` (on one
 * character), `replace(a, b)` for one character by another, and `join`.
 *
 * Case mapping is ASCII-only and whitespace is the ASCII part of what
 * Python's `str.isspace` accepts, plus U+0085 and U+00A0.
 */
module Text {

  /** Python's `str.isspace` on the characters modelled here. */
  predicate IsSpace(c: char) {
    var n := c as int;
    n == 32 || 9 <= n <= 13 || 28 <= n <= 31 || n == 0x85 || n == 0xA0
  }

  function LowerChar(c: char): char {
    if 'A' <= c <= 'Z' then (c as int + 32) as char else c
  }

  function UpperChar(c: char): char {
    if 'a' <= c <= 'z' then (c as int - 32) as char else c
  }

  /** `s.lower()` */
  function Lower(s: string): (r: string)
    ensures |r| == |s|
    ensures forall i {:trigger r[i]} :: 0 <= i < |s| ==> r[i] == LowerChar(s[i])
  {
    seq(|s|, i requires 0 <= i < |s| => LowerChar(s[i]))
  }

  /** `s.upper()` */
  function Upper(s: string): (r: string)
    ensures |r| == |s|
    ensures forall i {:trigger r[i]} :: 0 <= i < |s| ==> r[i] == UpperChar(s[i])
  {
    seq(|s|, i requires 0 <= i < |s| => UpperChar(s[i]))
  }

  /** `s.replace(a, b)` where `a` and `b` are single characters. */
  function Replace(s: string, a: char, b: char): (r: string)
    ensures |r| == |s|
    ensures forall i {:trigger r[i]} :: 0 <= i < |s| ==> r[i] == (if s[i] == a then b else s[i])
  {
    seq(|s|, i requires 0 <= i < |s| => if s[i] == a then b else s[i])
  }

  predicate OccursAt(s: string, p: string, i: int) {
    0 <= i && i + |p| <= |s| && s[i..i + |p|] == p
  }

  /** Python's `p in s`. */
  predicate Contains(s: string, p: string) {
    exists i | 0 <= i <= |s| - |p| :: OccursAt(s, p, i)
  }

  /** `s.startswith(p)` */
  predicate StartsWith(s: string, p: string) {
    |p| <= |s| && s[..|p|] == p
  }

  function StripLeft(s: string): (r: string)
    ensures |r| <= |s|
  {
    if s != [] && IsSpace(s[0]) then StripLeft(s[1..]) else s
  }

  function StripRight(s: string): (r: string)
    ensures |r| <= |s|
  {
    if s != [] && IsSpace(s[|s| - 1]) then StripRight(s[..|s| - 1]) else s
  }

  /** `s.strip()`: the text between the first and the last non-blank character. */
  function Strip(s: string): string {
    StripRight(StripLeft(s))
  }

  lemma {:induction false} StripLeftBlank(s: string)
    ensures StripLeft(s) == s[|s| - |StripLeft(s)|..]
    ensures StripLeft(s) == [] || !IsSpace(StripLeft(s)[0])
    ensures forall i :: 0 <= i < |s| - |StripLeft(s)| ==> IsSpace(s[i])
  {
    if s != [] && IsSpace(s[0]) {
      StripLeftBlank(s[1..]);
    }
  }

  lemma {:induction false} StripRightBlank(s: string)
    ensures StripRight(s) == s[..|StripRight(s)|]
    ensures StripRight(s) == [] || !IsSpace(StripRight(s)[|StripRight(s)| - 1])
    ensures forall i :: |StripRight(s)| <= i < |s| ==> IsSpace(s[i])
  {
    if s != [] && IsSpace(s[|s| - 1]) {
      StripRightBlank(s[..|s| - 1]);
    }
  }

  /**
   * `s.strip()` is empty exactly when `s` is blank; otherwise it is a
   * substring of `s` that starts and ends with a non-blank character.
   */
  lemma StripBlank(s: string)
    ensures Strip(s) == [] <==> forall i :: 0 <= i < |s| ==> IsSpace(s[i])
    ensures Strip(s) != [] ==> !IsSpace(Strip(s)[0]) && !IsSpace(Strip(s)[|Strip(s)| - 1])
    ensures Contains(s, Strip(s))
  {
    var l := StripLeft(s);
    var r := StripRight(l);
    StripLeftBlank(s);
    StripRightBlank(l);
    var k := |s| - |l|;
    assert s[k..][..|r|] == s[k..k + |r|];
    assert OccursAt(s, r, k);
    if r != [] {
      assert r[0] == l[0];
    }
  }

  /** Length of the run of non-blank characters at the start of `s`. */
  function WordLen(s: string): (n: nat)
    ensures n <= |s|
  {
    if s == [] || IsSpace(s[0]) then 0 else 1 + WordLen(s[1..])
  }

  lemma {:induction false} WordLenBlankFree(s: string)
    ensures forall i :: 0 <= i < WordLen(s) ==> !IsSpace(s[i])
  {
    if s != [] && !IsSpace(s[0]) {
      WordLenBlankFree(s[1..]);
    }
  }

  /** `s.split()`: the maximal runs of non-blank characters, in order. */
  function SplitWs(s: string): (r: seq<string>)
    decreases |s|
  {
    if s == [] then []
    else if IsSpace(s[0]) then SplitWs(s[1..])
    else
      var n := WordLen(s);
      [s[..n]] + SplitWs(s[n..])
  }

  /** Index of the first `c` in `s`, or `|s|` when there is none. */
  function IndexOfChar(s: string, c: char): (i: nat)
    ensures i <= |s|
    ensures i < |s| ==> s[i] == c
  {
    if s == [] || s[0] == c then 0 else 1 + IndexOfChar(s[1..], c)
  }

  /** `s.split(c)` for a one-character separator: never empty, keeps empty pieces. */
  function SplitOn(s: string, c: char): (r: seq<string>)
    ensures |r| >= 1
    decreases |s|
  {
    var i := IndexOfChar(s, c);
    if i == |s| then [s] else [s[..i]] + SplitOn(s[i + 1..], c)
  }

  /** `s.split(c)[0]`: the text before the first `c`. */
  function FirstField(s: string, c: char): string {
    s[..IndexOfChar(s, c)]
  }

  /** The lines of a command's standard output, `stdout.split('\n')`. */
  function Lines(stdout: string): seq<string> {
    SplitOn(stdout, '\n')
  }

  /** Index of the first occurrence of `p` in `s`, or `|s|` when there is none. */
  function IndexOf(s: string, p: string): (i: nat)
    requires p != []
    ensures i <= |s|
    ensures i < |s| ==> OccursAt(s, p, i)
    decreases |s|
  {
    if |s| < |p| then |s|
    else if s[..|p|] == p then 0
    else
      var j := IndexOf(s[1..], p);
      assert j < |s| - 1 ==> s[1..][j..j + |p|] == s[j + 1..j + 1 + |p|];
      1 + j
  }

  /** `s.split(p)[1]` for a `p` that occurs in `s`: the text between its first and second occurrence. */
  function SecondPiece(s: string, p: string): string
    requires p != [] && IndexOf(s, p) < |s|
  {
    var rest := s[IndexOf(s, p) + |p|..];
    rest[..IndexOf(rest, p)]
  }

  /** `sep.join(parts)` for a one-character separator. */
  function JoinWith(parts: seq<string>, sep: char): string {
    if parts == [] then ""
    else if |parts| == 1 then parts[0]
    else parts[0] + [sep] + JoinWith(parts[1..], sep)
  }

  // ---------------------------------------------------------------------
  // Facts about these operations used by the models
  // ---------------------------------------------------------------------

  /** A substring of a substring is a substring. */
  lemma ContainsTransitive(s: string, t: string, p: string)
    requires Contains(s, t) && Contains(t, p)
    ensures Contains(s, p)
  {
    var i :| 0 <= i <= |s| - |t| && OccursAt(s, t, i);
    var j :| 0 <= j <= |t| - |p| && OccursAt(t, p, j);
    forall k | 0 <= k < |p| ensures s[i + j + k] == p[k] {
      assert t[j + k] == p[k];
      assert s[i + (j + k)] == t[j + k];
    }
    assert s[i + j..i + j + |p|] == p;
    assert OccursAt(s, p, i + j);
  }

  /** Lower-casing keeps a substring a substring. */
  lemma ContainsLower(s: string, t: string)
    requires Contains(s, t)
    ensures Contains(Lower(s), Lower(t))
  {
    var i :| 0 <= i <= |s| - |t| && OccursAt(s, t, i);
    assert Lower(s)[i..i + |t|] == Lower(t);
    assert OccursAt(Lower(s), Lower(t), i);
  }

  /** Every word `split()` returns is a non-empty blank-free substring of its input. */
  lemma {:induction false} SplitWsWords(s: string)
    ensures forall k :: 0 <= k < |SplitWs(s)| ==>
      SplitWs(s)[k] != [] && Contains(s, SplitWs(s)[k]) &&
      forall i :: 0 <= i < |SplitWs(s)[k]| ==> !IsSpace(SplitWs(s)[k][i])
    decreases |s|
  {
    if s == [] {
    } else if IsSpace(s[0]) {
      SplitWsWords(s[1..]);
      assert SplitWs(s) == SplitWs(s[1..]);
      assert OccursAt(s, s[1..], 1);
      forall k | 0 <= k < |SplitWs(s)| ensures Contains(s, SplitWs(s)[k]) {
        ContainsTransitive(s, s[1..], SplitWs(s)[k]);
      }
    } else {
      var n := WordLen(s);
      WordLenBlankFree(s);
      SplitWsWords(s[n..]);
      assert OccursAt(s, s[..n], 0);
      assert OccursAt(s, s[n..], n);
      forall k | 1 <= k < |SplitWs(s)| ensures Contains(s, SplitWs(s)[k]) {
        assert SplitWs(s)[k] == SplitWs(s[n..])[k - 1];
        ContainsTransitive(s, s[n..], SplitWs(s)[k]);
      }
    }
  }

  /** The first `c` is at `k` when `s[k]` is `c` and nothing before it is. */
  lemma {:induction false} IndexOfCharAt(s: string, c: char, k: nat)
    requires k < |s| && s[k] == c
    requires forall j | 0 <= j < k :: s[j] != c
    ensures IndexOfChar(s, c) == k
    decreases k
  {
    if k > 0 {
      assert forall j | 0 <= j < k - 1 :: s[1..][j] == s[j + 1];
      IndexOfCharAt(s[1..], c, k - 1);
    }
  }

  /** Splitting `a + c + b` on `c`, where `a` holds no `c`, gives `a` and then the pieces of `b`. */
  lemma SplitOnConcat(a: string, b: string, c: char)
    requires forall i | 0 <= i < |a| :: a[i] != c
    ensures SplitOn(a + [c] + b, c) == [a] + SplitOn(b, c)
  {
    var s := a + [c] + b;
    IndexOfCharAt(s, c, |a|);
    assert s[..|a|] == a && s[|a| + 1..] == b;
  }

  /** Three fields without `c`, joined by `c`, split back into those three fields. */
  lemma SplitOnThree(a: string, b: string, d: string, c: char)
    requires forall i | 0 <= i < |a| :: a[i] != c
    requires forall i | 0 <= i < |b| :: b[i] != c
    requires forall i | 0 <= i < |d| :: d[i] != c
    ensures SplitOn(a + [c] + b + [c] + d, c) == [a, b, d]
  {
    var t := b + [c] + d;
    assert a + [c] + b + [c] + d == a + [c] + t;
    SplitOnConcat(a, t, c);
    SplitOnConcat(b, d, c);
    SplitOnSingle(d, c);
    assert [a] + ([b] + [d]) == [a, b, d];
  }

  /** A text without `c` splits into itself alone. */
  lemma SplitOnSingle(s: string, c: char)
    requires forall i | 0 <= i < |s| :: s[i] != c
    ensures SplitOn(s, c) == [s]
  {
    IndexOfCharNone(s, c);
  }

  /** A pattern holding a character the text lacks does not occur in it. */
  lemma MissingCharNoOccurrence(s: string, p: string, c: char, k: nat)
    requires k < |p| && p[k] == c
    requires forall i | 0 <= i < |s| :: s[i] != c
    ensures !Contains(s, p)
  {
    forall i | 0 <= i <= |s| - |p| ensures !OccursAt(s, p, i) {
      assert s[i..i + |p|][k] == s[i + k];
    }
  }

  /** `c.join(s.split(c)) == s`. */
  lemma {:induction false} SplitOnJoin(s: string, c: char)
    ensures JoinWith(SplitOn(s, c), c) == s
    decreases |s|
  {
    var i := IndexOfChar(s, c);
    if i < |s| {
      var rest := SplitOn(s[i + 1..], c);
      SplitOnJoin(s[i + 1..], c);
      assert SplitOn(s, c) == [s[..i]] + rest;
      assert JoinWith([s[..i]] + rest, c) == s[..i] + [c] + JoinWith(rest, c);
      assert s == s[..i] + [c] + s[i + 1..];
    }
  }

  /** No piece of `s.split(c)` contains the separator. */
  lemma {:induction false} SplitOnPieces(s: string, c: char)
    ensures forall k :: 0 <= k < |SplitOn(s, c)| ==> IndexOfChar(SplitOn(s, c)[k], c) == |SplitOn(s, c)[k]|
    decreases |s|
  {
    var i := IndexOfChar(s, c);
    if i < |s| {
      SplitOnPieces(s[i + 1..], c);
      IndexOfCharBefore(s, c);
      IndexOfCharNone(s[..i], c);
      assert forall k :: 1 <= k < |SplitOn(s, c)| ==> SplitOn(s, c)[k] == SplitOn(s[i + 1..], c)[k - 1];
    } else {
      IndexOfCharBefore(s, c);
      IndexOfCharNone(s, c);
    }
  }

  /** `FirstField` is the first piece of `split(c)`, and it holds no `c`. */
  lemma FirstFieldIsFirstPiece(s: string, c: char)
    ensures FirstField(s, c) == SplitOn(s, c)[0]
    ensures forall k :: 0 <= k < |FirstField(s, c)| ==> FirstField(s, c)[k] != c
  {
    IndexOfCharBefore(s, c);
  }

  /** `IndexOf` finds an occurrence exactly when there is one, and it finds the first. */
  lemma {:induction false} IndexOfFindsFirst(s: string, p: string)
    requires p != []
    ensures Contains(s, p) <==> IndexOf(s, p) < |s|
    ensures forall j | 0 <= j < IndexOf(s, p) :: !OccursAt(s, p, j)
    decreases |s|
  {
    if |s| >= |p| && s[..|p|] != p {
      IndexOfFindsFirst(s[1..], p);
      forall j | 0 <= j <= |s| - |p| ensures OccursAt(s, p, j) <==> j > 0 && OccursAt(s[1..], p, j - 1) {
        if j > 0 {
          assert s[1..][j - 1..j - 1 + |p|] == s[j..j + |p|];
        }
      }
      if Contains(s, p) {
        var j :| 0 <= j <= |s| - |p| && OccursAt(s, p, j);
        assert OccursAt(s[1..], p, j - 1);
      }
    } else if |s| >= |p| {
      assert OccursAt(s, p, 0);
    }
  }

  /** No `c` comes before the index `IndexOfChar` finds. */
  lemma {:induction false} IndexOfCharBefore(s: string, c: char)
    ensures forall k :: 0 <= k < IndexOfChar(s, c) ==> s[k] != c
  {
    if s != [] && s[0] != c {
      IndexOfCharBefore(s[1..], c);
    }
  }

  lemma {:induction false} IndexOfCharNone(s: string, c: char)
    requires forall k :: 0 <= k < |s| ==> s[k] != c
    ensures IndexOfChar(s, c) == |s|
  {
    if s != [] {
      IndexOfCharNone(s[1..], c);
    }
  }
}
