/** The JavaScript string primitives both stages rely on, with their
    JavaScript meaning: `trim`, `indexOf`, `includes`, `startsWith`,
    `endsWith`, `slice` (negative indices count from the end), `split` on a
    literal separator, `join`, and `replace` with a literal pattern (first
    occurrence only). Strings are sequences of Unicode scalar values. */
module JsString {
  import opened Wrappers

  /** ECMAScript WhiteSpace and LineTerminator characters: what `trim`
      removes and what the regular-expression class `\s` matches. */
  predicate IsWhite(c: char) {
    || ('\t' <= c <= '\r')
    || c == ' ' || c == '\U{A0}' || c == '\U{1680}'
    || ('\U{2000}' <= c <= '\U{200A}')
    || c == '\U{2028}' || c == '\U{2029}' || c == '\U{202F}'
    || c == '\U{205F}' || c == '\U{3000}' || c == '\U{FEFF}'
  }

  /** The regular-expression class `[\w.]`. */
  predicate IsWordOrDot(c: char) {
    ('a' <= c <= 'z') || ('A' <= c <= 'Z') || ('0' <= c <= '9') || c == '_' || c == '.'
  }

  predicate AllWhite(s: string) {
    forall i :: 0 <= i < |s| ==> IsWhite(s[i])
  }

  predicate NoWhite(s: string) {
    forall i :: 0 <= i < |s| ==> !IsWhite(s[i])
  }

  /** Neither end of `s` is whitespace. */
  predicate IsTrimmed(s: string) {
    s == [] || (!IsWhite(s[0]) && !IsWhite(s[|s| - 1]))
  }

  function LeadingWhite(s: string): (n: nat)
    ensures n <= |s| && AllWhite(s[..n])
    ensures n < |s| ==> !IsWhite(s[n])
  {
    if s != [] && IsWhite(s[0]) then 1 + LeadingWhite(s[1..]) else 0
  }

  function TrailingWhite(s: string): (n: nat)
    ensures n <= |s| && AllWhite(s[|s| - n..])
    ensures n < |s| ==> !IsWhite(s[|s| - n - 1])
  {
    if s != [] && IsWhite(s[|s| - 1]) then 1 + TrailingWhite(s[..|s| - 1]) else 0
  }

  /** `s.trim()`: `s` without its leading and trailing whitespace. */
  function Trim(s: string): (r: string)
    ensures IsTrimmed(r)
  {
    var a := LeadingWhite(s);
    var n := TrailingWhite(s[a..]);
    assert a < |s| - n ==> s[|s| - n - 1] == s[a..][|s[a..]| - n - 1];
    s[a..|s| - n]
  }

  /** The trimmed text is the part of `s` between two all-white ends. */
  lemma {:induction false} TrimIsInfix(s: string)
    ensures var a := LeadingWhite(s);
      && a + |Trim(s)| <= |s|
      && Trim(s) == s[a..a + |Trim(s)|]
      && AllWhite(s[..a]) && AllWhite(s[a + |Trim(s)|..])
  {
    var a := LeadingWhite(s);
    var n := TrailingWhite(s[a..]);
    TailWhite(s, a, n);
  }

  lemma TailWhite(s: string, a: nat, n: nat)
    requires a + n <= |s| && AllWhite(s[a..][|s| - a - n..])
    ensures AllWhite(s[|s| - n..])
  {
    assert s[a..][|s| - a - n..] == s[|s| - n..];
  }

  /** Trimming is the identity on trimmed strings, so it is idempotent. */
  lemma TrimTrimmed(s: string)
    requires IsTrimmed(s)
    ensures Trim(s) == s
  {
    assert LeadingWhite(s) == 0;
    assert TrailingWhite(s) == 0;
  }

  /** `t` occurs in `s` at index `i`. */
  predicate OccursAt(s: string, t: string, i: int) {
    0 <= i && i + |t| <= |s| && s[i..i + |t|] == t
  }

  function IndexOfFrom(s: string, t: string, from: nat): (r: int)
    ensures r == -1 || (from <= r && OccursAt(s, t, r))
    ensures forall i :: from <= i && (r == -1 || i < r) ==> !OccursAt(s, t, i)
    decreases |s| - from
  {
    if from + |t| > |s| then -1
    else if s[from..from + |t|] == t then from
    else IndexOfFrom(s, t, from + 1)
  }

  /** `s.indexOf(t)`: the first index where `t` occurs, or -1. */
  function IndexOf(s: string, t: string): (r: int)
    ensures r == -1 || OccursAt(s, t, r)
    ensures forall i :: 0 <= i && (r == -1 || i < r) ==> !OccursAt(s, t, i)
  {
    IndexOfFrom(s, t, 0)
  }

  /** `s.includes(t)`. */
  predicate Contains(s: string, t: string) {
    IndexOf(s, t) >= 0
  }

  /** `s.startsWith(p)`. */
  predicate StartsWith(s: string, p: string) {
    |p| <= |s| && s[..|p|] == p
  }

  /** `s.endsWith(p)`. */
  predicate EndsWith(s: string, p: string) {
    |p| <= |s| && s[|s| - |p|..] == p
  }

  /** How `slice` turns an index argument into a position of a string of length `n`. */
  function Clamp(k: int, n: nat): (r: nat)
    ensures r <= n
  {
    if k < 0 then (if n + k < 0 then 0 else n + k)
    else if k > n then n
    else k
  }

  /** `s.slice(start, end)`. */
  function Slice(s: string, start: int, end: int): (r: string)
    ensures |r| <= |s|
  {
    var a := Clamp(start, |s|);
    var b := Clamp(end, |s|);
    if a < b then s[a..b] else []
  }

  /** `parts.join(sep)`. */
  function Join(parts: seq<string>, sep: string): string {
    if |parts| == 0 then []
    else if |parts| == 1 then parts[0]
    else parts[0] + sep + Join(parts[1..], sep)
  }

  /** `s.split(sep)` for a non-empty literal separator; joining the pieces
      back with `sep` gives `s` again. */
  function Split(s: string, sep: string): (parts: seq<string>)
    requires sep != []
    ensures |parts| >= 1
    ensures |parts| == 1 <==> !Contains(s, sep)
    ensures Join(parts, sep) == s
    decreases |s|
  {
    var i := IndexOf(s, sep);
    if i < 0 then [s]
    else
      var tail := Split(s[i + |sep|..], sep);
      JoinCons(s[..i], tail, sep);
      Around(s, sep, i);
      [s[..i]] + tail
  }

  /** The pieces are cut at the leftmost occurrences: the first piece is
      everything before the first occurrence of `sep` (all of `s` when
      there is none), and the others are the pieces of what follows it. */
  lemma SplitCutsAtFirst(s: string, sep: string)
    requires sep != []
    ensures var i := IndexOf(s, sep);
      Split(s, sep)[0] == (if i < 0 then s else s[..i])
    ensures var i := IndexOf(s, sep);
      0 <= i ==> Split(s, sep)[1..] == Split(s[i + |sep|..], sep)
  {
  }

  /** An occurrence cuts `s` into what precedes it, itself and what follows. */
  lemma Around(s: string, t: string, i: int)
    requires OccursAt(s, t, i)
    ensures s == s[..i] + t + s[i + |t|..]
  {
    assert s == s[..i] + s[i..i + |t|] + s[i + |t|..];
  }

  lemma JoinCons(x: string, tail: seq<string>, sep: string)
    requires |tail| >= 1
    ensures Join([x] + tail, sep) == x + sep + Join(tail, sep)
  {
    assert ([x] + tail)[1..] == tail;
  }

  /** `s.replace(pat, rep)` with a literal pattern: only the first
      occurrence is replaced. */
  function ReplaceFirst(s: string, pat: string, rep: string): string {
    var i := IndexOf(s, pat);
    if i < 0 then s else s[..i] + rep + s[i + |pat|..]
  }

  lemma IndexOfIsLeast(s: string, t: string, i: int)
    requires OccursAt(s, t, i)
    requires forall j :: 0 <= j < i ==> !OccursAt(s, t, j)
    ensures IndexOf(s, t) == i
  {
  }

  /** The first piece of a split never contains the separator. */
  lemma FirstPieceFree(s: string, sep: string)
    requires sep != []
    ensures !Contains(Split(s, sep)[0], sep)
  {
    var i := IndexOf(s, sep);
    if i >= 0 {
      var p := s[..i];
      if IndexOf(p, sep) >= 0 {
        var j := IndexOf(p, sep);
        assert p[j..j + |sep|] == s[j..j + |sep|];
        assert OccursAt(s, sep, j);
      }
    }
  }

  /** What occurs in a part of `s` occurs in `s`. */
  lemma InfixContains(s: string, a: nat, b: nat, t: string)
    requires a <= b <= |s|
    requires Contains(s[a..b], t)
    ensures Contains(s, t)
  {
    var j := IndexOf(s[a..b], t);
    assert OccursAt(s[a..b], t, j);
    assert s[a..b][j..j + |t|] == s[a + j..a + j + |t|];
    assert OccursAt(s, t, a + j);
  }

  lemma OccursAtChar(s: string, c: char, i: int)
    ensures OccursAt(s, [c], i) <==> 0 <= i < |s| && s[i] == c
  {
    if 0 <= i < |s| {
      assert s[i..i + 1] == [s[i]];
    }
  }

  /** The first `c` in `a + [c] + b` is the first one in `a`, if any, else
      the one between `a` and `b`. */
  lemma IndexOfCharJoin(a: string, c: char, b: string)
    ensures var i := IndexOf(a, [c]);
      IndexOf(a + [c] + b, [c]) == if i < 0 then |a| else i
  {
    var w := a + [c] + b;
    var i := IndexOf(a, [c]);
    var k := if i < 0 then |a| else i;
    OccursAtChar(w, c, k);
    if i >= 0 {
      OccursAtChar(a, c, i);
    }
    forall j | 0 <= j < k ensures !OccursAt(w, [c], j) {
      OccursAtChar(w, c, j);
      OccursAtChar(a, c, j);
    }
    IndexOfIsLeast(w, [c], k);
  }

  /** One step of `split`: no separator gives the whole text, otherwise
      the text before the first one and the split of what follows it. */
  lemma SplitStep(s: string, sep: string)
    requires sep != []
    ensures var i := IndexOf(s, sep);
      Split(s, sep) == if i < 0 then [s] else [s[..i]] + Split(s[i + |sep|..], sep)
  {
  }

  lemma CutJoin(a: string, c: char, b: string, i: nat)
    requires i <= |a|
    ensures (a + [c] + b)[..i] == a[..i]
    ensures i < |a| ==> (a + [c] + b)[i + 1..] == a[i + 1..] + [c] + b
    ensures i == |a| ==> (a + [c] + b)[i + 1..] == b
  {
  }

  /** Splitting at a one-character separator distributes over a join at
      that character. */
  lemma {:induction false} SplitAtChar(a: string, c: char, b: string)
    ensures Split(a + [c] + b, [c]) == Split(a, [c]) + Split(b, [c])
    decreases |a|
  {
    var i := IndexOf(a, [c]);
    IndexOfCharJoin(a, c, b);
    SplitStep(a + [c] + b, [c]);
    SplitStep(a, [c]);
    if i < 0 {
      CutJoin(a, c, b, |a|);
    } else {
      CutJoin(a, c, b, i);
      SplitAtChar(a[i + 1..], c, b);
      AppendAssoc([a[..i]], Split(a[i + 1..], [c]), Split(b, [c]));
    }
  }

  /** No piece of a split contains the separator. */
  lemma {:induction false} SplitPiecesFree(s: string, sep: string)
    requires sep != []
    ensures forall i :: 0 <= i < |Split(s, sep)| ==> !Contains(Split(s, sep)[i], sep)
    decreases |s|
  {
    FirstPieceFree(s, sep);
    var i := IndexOf(s, sep);
    if i >= 0 {
      SplitPiecesFree(s[i + |sep|..], sep);
    }
  }
}
