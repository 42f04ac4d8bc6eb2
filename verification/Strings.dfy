/** The string operations the pipeline and the differ rely on: whitespace, decimal
    numerals, key composition, and the sorted order in which attribute dictionaries
    are walked. */
module Strings {

  datatype Option<+T> = None | Some(value: T)

  // ---- sequences ------------------------------------------------------------

  lemma Associate<T>(a: seq<T>, b: seq<T>, c: seq<T>)
    ensures a + (b + c) == (a + b) + c
  {
  }

  lemma Unit<T>(a: seq<T>)
    ensures a + [] == a && [] + a == a
  {
  }

  lemma DropHead<T>(s: seq<T>, i: nat)
    requires i < |s|
    ensures s[i..] != [] && s[i..][0] == s[i] && s[i..][1..] == s[i + 1..]
  {
  }

  // ---- whitespace -----------------------------------------------------------

  /** The characters of Python's str.isspace(), which are also those of `\s` in a
      Unicode regular expression. */
  predicate IsSpace(c: char) {
    var n := c as int;
    9 <= n <= 13 || 28 <= n <= 32 || n == 0x85 || n == 0xA0 || n == 0x1680
    || 0x2000 <= n <= 0x200A || n == 0x2028 || n == 0x2029 || n == 0x202F || n == 0x205F || n == 0x3000
  }

  predicate AllSpace(s: string) {
    forall i :: 0 <= i < |s| ==> IsSpace(s[i])
  }

  function StripLeft(s: string): string {
    if s == "" || !IsSpace(s[0]) then s else StripLeft(s[1..])
  }

  function StripRight(s: string): string {
    if s == "" || !IsSpace(s[|s| - 1]) then s else StripRight(s[..|s| - 1])
  }

  function Strip(s: string): string {
    StripRight(StripLeft(s))
  }

  predicate StartsSpace(s: string) { s != "" && IsSpace(s[0]) }
  predicate EndsSpace(s: string) { s != "" && IsSpace(s[|s| - 1]) }

  /** Stripping takes whitespace off both ends, and nothing else. */
  lemma StripExact(s: string) returns (pre: string, post: string)
    ensures s == pre + Strip(s) + post && AllSpace(pre) && AllSpace(post)
    ensures !StartsSpace(Strip(s)) && !EndsSpace(Strip(s))
  {
    StripLeftShape(s);
    StripRightShape(StripLeft(s));
    pre := StripLeftCut(s);
    post := StripRightCut(StripLeft(s));
  }

  lemma AllSpaceJoin(a: string, b: string)
    requires AllSpace(a) && AllSpace(b)
    ensures AllSpace(a + b)
  {
  }

  lemma {:induction false} StripLeftCut(s: string) returns (pre: string)
    ensures s == pre + StripLeft(s) && AllSpace(pre)
  {
    if StartsSpace(s) {
      var rest := StripLeftCut(s[1..]);
      assert s == [s[0]] + s[1..];
      Associate([s[0]], rest, StripLeft(s[1..]));
      AllSpaceJoin([s[0]], rest);
      pre := [s[0]] + rest;
    } else {
      pre := "";
    }
  }

  lemma {:induction false} StripRightCut(s: string) returns (post: string)
    ensures s == StripRight(s) + post && AllSpace(post)
  {
    if EndsSpace(s) {
      var last := [s[|s| - 1]];
      var rest := StripRightCut(s[..|s| - 1]);
      assert s == s[..|s| - 1] + last;
      Associate(StripRight(s[..|s| - 1]), rest, last);
      AllSpaceJoin(rest, last);
      post := rest + last;
    } else {
      post := "";
    }
  }

  lemma {:induction false} StripLeftShape(s: string)
    ensures !StartsSpace(StripLeft(s))
  {
    if StartsSpace(s) { StripLeftShape(s[1..]); }
  }

  lemma {:induction false} StripRightShape(s: string)
    requires !StartsSpace(s)
    ensures !StartsSpace(StripRight(s)) && !EndsSpace(StripRight(s))
  {
    if EndsSpace(s) { StripRightShape(s[..|s| - 1]); }
  }

  lemma StripIdem(s: string)
    ensures Strip(Strip(s)) == Strip(s)
  {
    StripLeftShape(s);
    StripRightShape(StripLeft(s));
  }

  /** Every maximal run of whitespace becomes one blank. `inRun` says that the
      character just before `s` was whitespace. */
  function Squeeze(s: string, inRun: bool := false): string {
    if s == "" then ""
    else if !IsSpace(s[0]) then [s[0]] + Squeeze(s[1..], false)
    else if inRun then Squeeze(s[1..], true)
    else " " + Squeeze(s[1..], true)
  }

  /** What squeezing aims at: the only whitespace is the blank, and never two in a row. */
  predicate Squeezed(s: string) {
    && (forall i :: 0 <= i < |s| && IsSpace(s[i]) ==> s[i] == ' ')
    && (forall i :: 0 < i < |s| && IsSpace(s[i]) ==> !IsSpace(s[i - 1]))
  }

  lemma {:induction false} SqueezeShape(s: string, inRun: bool)
    ensures Squeezed(Squeeze(s, inRun))
    ensures inRun ==> !StartsSpace(Squeeze(s, inRun))
    ensures !inRun ==> StartsSpace(Squeeze(s, inRun)) == StartsSpace(s)
    ensures Squeeze(s, inRun) != "" ==> EndsSpace(Squeeze(s, inRun)) == EndsSpace(s)
    ensures Squeeze(s, inRun) == "" ==> s == "" || (inRun && EndsSpace(s))
  {
    if s != "" {
      SqueezeShape(s[1..], IsSpace(s[0]));
      if |s| > 1 { assert s[1..][|s| - 2] == s[|s| - 1]; }
    }
  }

  lemma {:induction false} SqueezeId(s: string, inRun: bool)
    requires Squeezed(s) && (inRun ==> !StartsSpace(s))
    ensures Squeeze(s, inRun) == s
  {
    if s != "" {
      assert forall i :: 0 <= i < |s[1..]| ==> s[1..][i] == s[i + 1];
      SqueezeId(s[1..], IsSpace(s[0]));
    }
  }

  lemma {:induction false} SqueezeAppend(a: string, b: string, inRun: bool)
    ensures Squeeze(a + b, inRun) == Squeeze(a, inRun) + Squeeze(b, if a == "" then inRun else EndsSpace(a))
  {
    if a == "" {
      assert a + b == b;
    } else {
      var rest := a[1..];
      assert (a + b)[0] == a[0] && (a + b)[1..] == rest + b;
      SqueezeAppend(rest, b, IsSpace(a[0]));
      SqueezeHead(a, inRun);
      SqueezeHead(a + b, inRun);
      assert EndsSpace(a) == if rest == "" then IsSpace(a[0]) else EndsSpace(rest);
      Associate(SqueezedHead(a[0], inRun), Squeeze(rest, IsSpace(a[0])), Squeeze(b, EndsSpace(a)));
    }
  }

  function SqueezedHead(c: char, inRun: bool): string {
    if !IsSpace(c) then [c] else if inRun then "" else " "
  }

  lemma SqueezeHead(s: string, inRun: bool)
    requires s != ""
    ensures Squeeze(s, inRun) == SqueezedHead(s[0], inRun) + Squeeze(s[1..], IsSpace(s[0]))
  {
  }

  lemma {:induction false} SqueezeBlank(run: string, inRun: bool)
    requires AllSpace(run)
    ensures Squeeze(run, inRun) == if run == "" || inRun then "" else " "
  {
    if run != "" { SqueezeBlank(run[1..], true); }
  }

  /** A maximal run of whitespace, of whatever kind and length, becomes one blank, and what
      is around it is squeezed by itself. */
  lemma SqueezeRun(a: string, run: string, b: string)
    requires run != "" && AllSpace(run) && !EndsSpace(a) && !StartsSpace(b)
    ensures Squeeze(a + run + b) == Squeeze(a) + " " + Squeeze(b)
  {
    SqueezeAppend(a + run, b, false);
    SqueezeAppend(a, run, false);
    SqueezeBlank(run, false);
    assert (a + run)[|a + run| - 1] == run[|run| - 1];
  }

  /** Two squeezed strings meet cleanly exactly when the seam does not bring two
      whitespace characters together. */
  lemma SeamSqueezed(a: string, b: string)
    requires Squeezed(a) && Squeezed(b)
    ensures Squeezed(a + b) <==> !(EndsSpace(a) && StartsSpace(b))
  {
    if EndsSpace(a) && StartsSpace(b) {
      assert (a + b)[|a|] == b[0] && (a + b)[|a| - 1] == a[|a| - 1];
    } else {
      forall i | 0 < i < |a + b| && IsSpace((a + b)[i]) ensures !IsSpace((a + b)[i - 1]) {
        if i > |a| { assert (a + b)[i] == b[i - |a|] && (a + b)[i - 1] == b[i - 1 - |a|]; }
      }
    }
  }

  function Lower(s: string): string {
    if s == "" then "" else [if 'A' <= s[0] <= 'Z' then (s[0] as int + 32) as char else s[0]] + Lower(s[1..])
  }

  lemma {:induction false} LowerAt(s: string, i: nat)
    requires i < |s|
    ensures |Lower(s)| == |s| && Lower(s)[i] == if 'A' <= s[i] <= 'Z' then (s[i] as int + 32) as char else s[i]
  {
    if i > 0 { LowerAt(s[1..], i - 1); } else if |s| > 1 { LowerAt(s[1..], 0); }
  }

  // ---- numerals and keys -----------------------------------------------------

  predicate Digit(c: char) { '0' <= c <= '9' }

  function Dec(n: nat): (s: string)
    ensures s != "" && forall i :: 0 <= i < |s| ==> Digit(s[i])
  {
    if n < 10 then [('0' as int + n) as char] else Dec(n / 10) + [('0' as int + n % 10) as char]
  }

  lemma {:induction false} DecInjective(m: nat, n: nat)
    requires Dec(m) == Dec(n)
    ensures m == n
  {
    assert Dec(m)[|Dec(m)| - 1] == Dec(n)[|Dec(n)| - 1];
    if m >= 10 && n >= 10 {
      assert Dec(m)[..|Dec(m)| - 1] == Dec(m / 10) && Dec(n)[..|Dec(n)| - 1] == Dec(n / 10);
      DecInjective(m / 10, n / 10);
    }
  }

  /** The key of the i-th element child of the element keyed `p`. */
  function Sub(p: string, i: nat): string {
    p + "_" + Dec(i)
  }

  /** `x` is `k` itself or a key below it. */
  predicate Under(k: string, x: string) {
    x == k || (|x| > |k| && x[..|k|] == k && x[|k|] == '_')
  }

  lemma UnderSub(p: string, i: nat, x: string)
    requires Under(Sub(p, i), x)
    ensures Under(p, x) && |x| > |p| && x != p && !Under(x, p)
  {
    var k := Sub(p, i);
    assert k[..|p|] == p && k[|p|] == '_';
    assert x[..|k|] == k;
    assert x[..|p|] == x[..|k|][..|p|];
  }

  lemma DigitAfter(p: string, j: nat, x: string, at: nat)
    requires |p| < at < |Sub(p, j)| <= |x| && x[..|Sub(p, j)|] == Sub(p, j)
    ensures Digit(x[at])
  {
    assert x[at] == Sub(p, j)[at] == Dec(j)[at - |p| - 1];
  }

  /** A key decodes to one path only: keys below different children never meet. */
  lemma UnderOne(p: string, i: nat, j: nat, x: string)
    requires Under(Sub(p, i), x) && Under(Sub(p, j), x)
    ensures i == j
  {
    var a, b := Sub(p, i), Sub(p, j);
    assert x[..|a|] == a && x[..|b|] == b;
    if |a| < |b| {
      DigitAfter(p, j, x, |a|);
    } else if |b| < |a| {
      DigitAfter(p, i, x, |b|);
    } else {
      assert a[|p| + 1..] == Dec(i) && b[|p| + 1..] == Dec(j);
      DecInjective(i, j);
    }
  }

  // ---- sorted keys -----------------------------------------------------------

  predicate Leq(a: string, b: string) {
    a == "" || (b != "" && (a[0] < b[0] || (a[0] == b[0] && Leq(a[1..], b[1..]))))
  }

  lemma {:induction false} LeqTotal(a: string, b: string)
    ensures Leq(a, b) || Leq(b, a)
  {
    if a != "" && b != "" { LeqTotal(a[1..], b[1..]); }
  }

  lemma {:induction false} LeqAntisymmetric(a: string, b: string)
    requires Leq(a, b) && Leq(b, a)
    ensures a == b
  {
    if a != "" {
      LeqAntisymmetric(a[1..], b[1..]);
      assert a == [a[0]] + a[1..] && b == [b[0]] + b[1..];
    }
  }

  lemma {:induction false} LeqTransitive(a: string, b: string, c: string)
    requires Leq(a, b) && Leq(b, c)
    ensures Leq(a, c)
  {
    if a != "" && a[0] == b[0] && b[0] == c[0] { LeqTransitive(a[1..], b[1..], c[1..]); }
  }

  predicate LeastOf(s: set<string>, k: string) {
    k in s && forall x :: x in s ==> Leq(k, x)
  }

  lemma {:induction false} LeastExists(s: set<string>)
    requires s != {}
    ensures exists k :: LeastOf(s, k)
  {
    var y :| y in s;
    LeqTotal(y, y);
    if s == {y} {
      assert LeastOf(s, y);
    } else {
      assert s - {y} != {};
      LeastExists(s - {y});
      var k :| LeastOf(s - {y}, k);
      LeastWith(s, y, k);
    }
  }

  lemma LeastWith(s: set<string>, y: string, k: string)
    requires y in s && LeastOf(s - {y}, k)
    ensures LeastOf(s, k) || LeastOf(s, y)
  {
    LeqTotal(k, y);
    LeqTotal(y, y);
    if !Leq(k, y) {
      forall x | x in s ensures Leq(y, x) {
        if x != y { LeqTransitive(y, k, x); }
      }
    }
  }

  /** The least element of a non-empty set of strings. */
  function Least(s: set<string>): (k: string)
    requires s != {}
    ensures LeastOf(s, k)
  {
    LeastExists(s);
    assert forall a, b :: LeastOf(s, a) && LeastOf(s, b) ==> a == b by {
      forall a, b | LeastOf(s, a) && LeastOf(s, b) ensures a == b { LeqAntisymmetric(a, b); }
    }
    var k :| LeastOf(s, k);
    k
  }

  /** The elements of `s` in ascending order. */
  function Sorted(s: set<string>): (r: seq<string>)
    ensures forall x :: x in r <==> x in s
  {
    if s == {} then [] else var k := Least(s); [k] + Sorted(s - {k})
  }

  lemma {:induction false} SortedAscending(s: set<string>, i: nat, j: nat)
    requires i < j < |Sorted(s)|
    ensures Sorted(s)[i] != Sorted(s)[j] && Leq(Sorted(s)[i], Sorted(s)[j])
  {
    var k := Least(s);
    if i == 0 { assert Sorted(s)[j] == Sorted(s - {k})[j - 1]; }
    else { SortedAscending(s - {k}, i - 1, j - 1); }
  }

  lemma SortedApart(s: set<string>)
    ensures forall i, j :: 0 <= i < j < |Sorted(s)| ==> Sorted(s)[i] != Sorted(s)[j]
  {
    forall i, j | 0 <= i < j < |Sorted(s)| ensures Sorted(s)[i] != Sorted(s)[j] { SortedAscending(s, i, j); }
  }
}
