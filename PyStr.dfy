/** The Python 2 `str` operations the ZTP helper relies on, over `seq<char>`.
    Each function is characterised by its contract; the lemmas relate them. */
module PyStr {

  /** The characters `str.strip()` and `str.split()` treat as whitespace. */
  predicate IsSpace(c: char) {
    c == ' ' || c == '\t' || c == '\n' || c == '\r' || c == '\U{B}' || c == '\U{C}'
  }

  predicate AllSpace(s: string) {
    forall i :: 0 <= i < |s| ==> IsSpace(s[i])
  }

  predicate NoSpace(s: string) {
    forall i :: 0 <= i < |s| ==> !IsSpace(s[i])
  }

  /** How many whitespace characters `s` starts with. */
  function LeadingSpace(s: string): (n: nat)
    ensures n <= |s|
    ensures forall i :: 0 <= i < n ==> IsSpace(s[i])
    ensures n < |s| ==> !IsSpace(s[n])
  {
    if s != [] && IsSpace(s[0]) then 1 + LeadingSpace(s[1..]) else 0
  }

  /** How many whitespace characters `s` ends with. */
  function TrailingSpace(s: string): (n: nat)
    ensures n <= |s|
    ensures forall i :: |s| - n <= i < |s| ==> IsSpace(s[i])
    ensures n < |s| ==> !IsSpace(s[|s| - 1 - n])
  {
    if s != [] && IsSpace(s[|s| - 1]) then 1 + TrailingSpace(s[..|s| - 1]) else 0
  }

  /** `s.lstrip()`: the suffix of `s` left once its leading whitespace is gone. */
  function LStrip(s: string): (r: string)
    ensures |r| <= |s| && r == s[|s| - |r|..]
    ensures forall i :: 0 <= i < |s| - |r| ==> IsSpace(s[i])
    ensures r == [] || !IsSpace(r[0])
  {
    s[LeadingSpace(s)..]
  }

  /** `s.rstrip()`: the prefix of `s` left once its trailing whitespace is gone. */
  function RStrip(s: string): (r: string)
    ensures |r| <= |s| && r == s[..|r|]
    ensures forall i :: |r| <= i < |s| ==> IsSpace(s[i])
    ensures r == [] || !IsSpace(r[|r| - 1])
  {
    s[..|s| - TrailingSpace(s)]
  }

  /** `s.strip()`: the slice of `s` between its leading and its trailing
      whitespace, with no whitespace left at either end. */
  function Strip(s: string): (r: string)
    ensures var k := LeadingSpace(s);
            k + |r| <= |s| && r == s[k..k + |r|]
            && forall i :: k + |r| <= i < |s| ==> IsSpace(s[i])
    ensures r == [] || (!IsSpace(r[0]) && !IsSpace(r[|r| - 1]))
  {
    var k := LeadingSpace(s);
    if k == |s| then
      assert s[k..k] == [];
      []
    else
      var j := |s| - TrailingSpace(s);
      assert k < j;
      assert s[k..j] == s[k..k + (j - k)];
      s[k..j]
  }

  /** Stripping twice is stripping once. */
  lemma StripIdempotent(s: string)
    ensures Strip(Strip(s)) == Strip(s)
  {
    var r := Strip(s);
    assert LeadingSpace(r) == 0;
    if r != [] {
      assert TrailingSpace(r) == 0;
      assert r[0..|r|] == r;
    }
  }

  /** `p` occurs in `s` starting at index `i`. */
  predicate OccursAt(s: string, p: string, i: int) {
    0 <= i && i + |p| <= |s| && s[i..i + |p|] == p
  }

  predicate StartsWith(s: string, p: string) {
    |p| <= |s| && s[..|p|] == p
  }

  /** Shifting the text by one character shifts every occurrence by one. */
  lemma OccursShift(s: string, pat: string, i: nat)
    requires s != []
    ensures OccursAt(s, pat, i + 1) <==> OccursAt(s[1..], pat, i)
  {
    if i + 1 + |pat| <= |s| {
      assert s[i + 1..i + 1 + |pat|] == s[1..][i..i + |pat|];
    }
  }

  /** `sub in s`, searched left to right. */
  predicate Contains(s: string, sub: string)
    decreases |s|
  {
    StartsWith(s, sub) || (s != [] && Contains(s[1..], sub))
  }

  /** The search agrees with the definition of a substring occurrence. */
  lemma {:induction false} ContainsIff(s: string, sub: string)
    ensures Contains(s, sub) <==> exists i :: OccursAt(s, sub, i)
    decreases |s|
  {
    if StartsWith(s, sub) {
      assert OccursAt(s, sub, 0);
    } else if s == [] {
      assert forall i :: !OccursAt(s, sub, i);
    } else {
      ContainsIff(s[1..], sub);
      if Contains(s[1..], sub) {
        var i :| OccursAt(s[1..], sub, i);
        OccursShift(s, sub, i);
      } else {
        forall i | OccursAt(s, sub, i) ensures false {
          assert i != 0;
          OccursShift(s, sub, i - 1);
        }
      }
    }
  }

  /** `s.count(sub)`: non-overlapping occurrences, found left to right; an
      empty `sub` is counted once between every two characters and at each end. */
  function Count(s: string, sub: string): (n: nat)
    ensures sub == [] ==> n == |s| + 1
    ensures sub != [] ==> n <= |s|
    decreases |s|
  {
    if sub == [] then |s| + 1
    else if |s| < |sub| then 0
    else if s[..|sub|] == sub then 1 + Count(s[|sub|..], sub)
    else Count(s[1..], sub)
  }

  /** A text shorter than the pattern counts nothing. */
  lemma CountShort(s: string, sub: string)
    requires sub != [] && |s| < |sub|
    ensures Count(s, sub) == 0
  {
  }

  /** An occurrence at the front is counted, and counting resumes after it. */
  lemma CountFront(sub: string, t: string)
    requires sub != []
    ensures Count(sub + t, sub) == 1 + Count(t, sub)
  {
    assert (sub + t)[..|sub|] == sub && (sub + t)[|sub|..] == t;
  }

  /** Without an occurrence at the front, counting resumes one character on. */
  lemma CountSkip(s: string, sub: string)
    requires sub != [] && s != [] && !StartsWith(s, sub)
    ensures Count(s, sub) == Count(s[1..], sub)
  {
  }

  /** Distributing a product over a successor, kept apart from the proof
      below so that the solver's nonlinear arithmetic stays small. */
  lemma MulSucc(n: int, m: int)
    ensures (n + 1) * m == n * m + m
  {
  }

  /** The counted occurrences do not overlap, so they fit in the text. */
  lemma {:induction false} CountFits(s: string, sub: string)
    requires sub != []
    ensures Count(s, sub) * |sub| <= |s|
    decreases |s|
  {
    if |s| >= |sub| {
      if s[..|sub|] == sub {
        var rest := s[|sub|..];
        var n := Count(rest, sub);
        assert Count(s, sub) == n + 1;
        CountFits(rest, sub);
        MulSucc(n, |sub|);
      } else {
        CountFits(s[1..], sub);
      }
    }
  }

  /** A nonempty pattern is counted at least once exactly when it occurs. */
  lemma {:induction false} CountPositiveIffContains(s: string, sub: string)
    requires sub != []
    ensures Count(s, sub) > 0 <==> Contains(s, sub)
    decreases |s|
  {
    if |s| < |sub| {
      if Contains(s, sub) {
        ContainsIff(s, sub);
      }
    } else if s[..|sub|] != sub {
      CountPositiveIffContains(s[1..], sub);
    }
  }

  /** `n` copies of `p` side by side. */
  function Repeat(p: string, n: nat): (r: string)
    ensures |r| == n * |p|
  {
    if n == 0 then [] else p + Repeat(p, n - 1)
  }

  /** A text made of `n` copies of the pattern counts `n`. */
  lemma {:induction false} CountRepeat(p: string, n: nat)
    requires p != []
    ensures Count(Repeat(p, n), p) == n
  {
    if n > 0 {
      var r := Repeat(p, n);
      assert r[..|p|] == p && r[|p|..] == Repeat(p, n - 1);
      CountRepeat(p, n - 1);
    }
  }

  /** `s.replace(pat, rep)`: every non-overlapping occurrence, found left to
      right, is replaced. */
  function Replace(s: string, pat: string, rep: string): string
    requires pat != []
    decreases |s|
  {
    if |s| < |pat| then s
    else if s[..|pat|] == pat then rep + Replace(s[|pat|..], pat, rep)
    else [s[0]] + Replace(s[1..], pat, rep)
  }

  /** With no occurrence at the front, the first character is kept. */
  lemma ReplaceKeepsFirst(s: string, pat: string, rep: string)
    requires pat != [] && s != [] && !OccursAt(s, pat, 0)
    ensures Replace(s, pat, rep) == [s[0]] + Replace(s[1..], pat, rep)
  {
    if |s| >= |pat| {
      assert s[..|pat|] == s[0..|pat|];
    } else {
      assert [s[0]] + s[1..] == s;
    }
  }

  /** Where no occurrence starts among the first `k` characters, replacing
      keeps those characters. */
  lemma {:induction false} ReplaceSkip(s: string, k: nat, pat: string, rep: string)
    requires pat != [] && k <= |s|
    requires forall i :: 0 <= i < k ==> !OccursAt(s, pat, i)
    ensures Replace(s, pat, rep) == s[..k] + Replace(s[k..], pat, rep)
    decreases k
  {
    if k == 0 {
      assert s[..0] == [] && s[0..] == s;
    } else {
      ReplaceKeepsFirst(s, pat, rep);
      forall i | 0 <= i < k - 1 ensures !OccursAt(s[1..], pat, i) {
        OccursShift(s, pat, i);
      }
      ReplaceSkip(s[1..], k - 1, pat, rep);
      assert s[1..][..k - 1] == s[1..k] && s[1..][k - 1..] == s[k..];
      assert [s[0]] + s[1..k] == s[..k];
    }
  }

  /** An occurrence at the front is replaced. */
  lemma ReplaceFront(b: string, pat: string, rep: string)
    requires pat != []
    ensures Replace(pat + b, pat, rep) == rep + Replace(b, pat, rep)
  {
    assert (pat + b)[..|pat|] == pat && (pat + b)[|pat|..] == b;
  }

  /** A text with no occurrence is left alone. */
  lemma ReplaceAbsent(s: string, pat: string, rep: string)
    requires pat != [] && !Contains(s, pat)
    ensures Replace(s, pat, rep) == s
  {
    ContainsIff(s, pat);
    ReplaceSkip(s, |s|, pat, rep);
    assert s[..|s|] == s && s[|s|..] == [];
  }

  /** The longest prefix of `s` without whitespace. */
  function TakeWord(s: string): (w: string)
    ensures |w| <= |s| && w == s[..|w|] && NoSpace(w)
    ensures |w| == |s| || IsSpace(s[|w|])
  {
    if s == [] || IsSpace(s[0]) then [] else [s[0]] + TakeWord(s[1..])
  }

  /** `s.split()`: the maximal runs of non-whitespace, in order. */
  function Split(s: string): (ws: seq<string>)
    ensures ws == [] <==> AllSpace(s)
    decreases |s|
  {
    var k := LeadingSpace(s);
    if k == |s| then []
    else
      var t := s[k..];
      var w := TakeWord(t);
      assert w != [];
      [w] + Split(t[|w|..])
  }

  lemma {:induction false} SplitWords(s: string)
    ensures forall i :: 0 <= i < |Split(s)| ==> Split(s)[i] != [] && NoSpace(Split(s)[i])
    decreases |s|
  {
    var t := LStrip(s);
    if t != [] {
      var w := TakeWord(t);
      SplitWords(t[|w|..]);
      var ws := Split(s);
      assert ws == [w] + Split(t[|w|..]);
      forall i | 0 <= i < |ws| ensures ws[i] != [] && NoSpace(ws[i]) {
        if i > 0 { assert ws[i] == Split(t[|w|..])[i - 1]; }
      }
    }
  }

  /** A whitespace character in front of the text adds no word. */
  lemma SplitSkipsSpace(c: char, t: string)
    requires IsSpace(c)
    ensures Split([c] + t) == Split(t)
  {
    var s := [c] + t;
    assert s[1..] == t;
    var k := LeadingSpace(t);
    assert LeadingSpace(s) == k + 1;
    if k < |t| {
      assert s[k + 1..] == t[k..];
    }
  }

  /** The word at the front runs up to the first whitespace character. */
  lemma {:induction false} TakeWordStops(w: string, c: char, t: string)
    requires NoSpace(w) && IsSpace(c)
    ensures TakeWord(w + [c] + t) == w
  {
    if w != [] {
      assert (w + [c] + t)[1..] == w[1..] + [c] + t;
      TakeWordStops(w[1..], c, t);
      assert [w[0]] + w[1..] == w;
    }
  }

  /** Words are maximal runs: a run of non-whitespace closed by a whitespace
      character is one word, and splitting goes on after it. */
  lemma SplitWordThenSpace(w: string, c: char, t: string)
    requires w != [] && NoSpace(w) && IsSpace(c)
    ensures Split(w + [c] + t) == [w] + Split(t)
  {
    var s := w + [c] + t;
    assert LeadingSpace(s) == 0;
    assert s[0..] == s;
    TakeWordStops(w, c, t);
    assert s[|w|..] == [c] + t;
    SplitSkipsSpace(c, t);
  }

  /** A run of non-whitespace reaching the end of the text is one word. */
  lemma {:induction false} SplitLastWord(w: string)
    requires w != [] && NoSpace(w)
    ensures Split(w) == [w]
  {
    assert LeadingSpace(w) == 0 && w[0..] == w;
    TakeWordAll(w);
    assert w[|w|..] == [];
  }

  lemma {:induction false} TakeWordAll(w: string)
    requires NoSpace(w)
    ensures TakeWord(w) == w
  {
    if w != [] {
      TakeWordAll(w[1..]);
      assert [w[0]] + w[1..] == w;
    }
  }

  /** `s` with every whitespace character removed. */
  function RemoveSpace(s: string): (r: string)
    ensures NoSpace(r) && |r| <= |s|
  {
    if s == [] then [] else (if IsSpace(s[0]) then [] else [s[0]]) + RemoveSpace(s[1..])
  }

  lemma {:induction false} RemoveSpaceLStrip(s: string)
    ensures RemoveSpace(LStrip(s)) == RemoveSpace(s)
  {
    if s != [] && IsSpace(s[0]) {
      RemoveSpaceLStrip(s[1..]);
      assert LStrip(s[1..]) == LStrip(s);
    }
  }

  lemma {:induction false} RemoveSpaceTakeWord(t: string)
    ensures RemoveSpace(t) == TakeWord(t) + RemoveSpace(t[|TakeWord(t)|..])
  {
    if t != [] && !IsSpace(t[0]) {
      RemoveSpaceTakeWord(t[1..]);
      assert t[1..][|TakeWord(t[1..])|..] == t[|TakeWord(t)|..];
    }
  }

  /** The concatenation of a sequence of strings. */
  function Concat(ws: seq<string>): (r: string)
    ensures |r| == 0 <== ws == []
  {
    if ws == [] then [] else ws[0] + Concat(ws[1..])
  }

  /** Splitting loses exactly the whitespace: the words, glued together, are
      the text with its whitespace removed. */
  lemma {:induction false} SplitKeepsText(s: string)
    ensures Concat(Split(s)) == RemoveSpace(s)
    decreases |s|
  {
    var t := LStrip(s);
    RemoveSpaceLStrip(s);
    if t != [] {
      var w := TakeWord(t);
      RemoveSpaceTakeWord(t);
      SplitKeepsText(t[|w|..]);
    }
  }

  /** `sep.join(parts)`. */
  function Join(sep: string, parts: seq<string>): (r: string)
    ensures parts == [] ==> r == []
    ensures sep == [] ==> r == Concat(parts)
    ensures |parts| == 1 ==> r == parts[0]
  {
    if parts == [] then []
    else if |parts| == 1 then parts[0]
    else parts[0] + sep + Join(sep, parts[1..])
  }

  /** Joining one more part appends the separator and that part. */
  lemma {:induction false} JoinSnoc(sep: string, parts: seq<string>, p: string)
    requires parts != []
    ensures Join(sep, parts + [p]) == Join(sep, parts) + sep + p
    decreases |parts|
  {
    var all := parts + [p];
    if |parts| == 1 {
      assert all[1..] == [p];
    } else {
      assert all[1..] == parts[1..] + [p];
      JoinSnoc(sep, parts[1..], p);
    }
  }

  /** `xs[k:]`, which is empty when `xs` is shorter than `k`. */
  function DropFront<T>(xs: seq<T>, k: nat): (r: seq<T>)
    ensures |r| == if |xs| <= k then 0 else |xs| - k
    ensures forall i :: 0 <= i < |r| ==> r[i] == xs[k + i]
  {
    if |xs| <= k then [] else xs[k..]
  }

  /** `posixpath.basename(p)`: what follows the last '/'. */
  function Basename(p: string): (r: string)
    ensures |r| <= |p| && r == p[|p| - |r|..]
    ensures '/' !in r
    ensures |r| == |p| || p[|p| - |r| - 1] == '/'
  {
    if p == [] || p[|p| - 1] == '/' then []
    else Basename(p[..|p| - 1]) + [p[|p| - 1]]
  }

  /** `posixpath.join(a, b)` for two components. */
  function JoinPath(a: string, b: string): (r: string)
    ensures StartsWith(b, "/") ==> r == b
    ensures !StartsWith(b, "/") ==> StartsWith(r, a) && |b| <= |r| && r[|r| - |b|..] == b
    ensures !StartsWith(b, "/") ==>
      |r| == |a| + |b| + (if a == [] || a[|a| - 1] == '/' then 0 else 1)
    ensures !StartsWith(b, "/") && a != [] && a[|a| - 1] != '/' ==> r[|a|] == '/'
  {
    if StartsWith(b, "/") then b
    else if a == [] || a[|a| - 1] == '/' then a + b
    else a + "/" + b
  }

  function DigitChar(d: nat): (c: char)
    requires d < 10
    ensures '0' <= c <= '9'
  {
    ['0', '1', '2', '3', '4', '5', '6', '7', '8', '9'][d]
  }

  predicate IsDigits(s: string) {
    forall i :: 0 <= i < |s| ==> '0' <= s[i] <= '9'
  }

  /** Decimal digits of a natural number, without leading zeros. */
  function NatDigits(n: nat): (r: string)
    ensures r != [] && IsDigits(r)
    ensures |r| > 1 ==> r[0] != '0'
  {
    if n < 10 then [DigitChar(n)] else NatDigits(n / 10) + [DigitChar(n % 10)]
  }

  /** Reads a string of decimal digits back as a number. */
  function DigitsValue(s: string): nat
    requires IsDigits(s)
  {
    if s == [] then 0
    else 10 * DigitsValue(s[..|s| - 1]) + ((s[|s| - 1] as int) - ('0' as int))
  }

  lemma {:induction false} NatDigitsRoundTrip(n: nat)
    ensures DigitsValue(NatDigits(n)) == n
  {
    var r := NatDigits(n);
    if n >= 10 {
      NatDigitsRoundTrip(n / 10);
      assert r[..|r| - 1] == NatDigits(n / 10);
    }
  }

  /** `'%d' % n`. */
  function Decimal(n: int): (r: string)
    ensures n >= 0 ==> r != [] && IsDigits(r) && DigitsValue(r) == n && (|r| > 1 ==> r[0] != '0')
    ensures n < 0 ==> |r| > 1 && r[0] == '-' && IsDigits(r[1..]) && DigitsValue(r[1..]) == -n
                      && (|r| > 2 ==> r[1] != '0')
  {
    NatDigitsRoundTrip(if n < 0 then -n else n);
    if n < 0 then "-" + NatDigits(-n) else NatDigits(n)
  }
}
