/** The handful of Python `str` operations that the bridging code relies on,
    stated over Dafny strings (sequences of Unicode scalar values, so `|s|`
    is Python's `len(s)`). */
module PyStr {

  /** Python's `Optional[T]`: `None` or a value. */
  datatype Option<T> = None | Some(value: T) {
    /** `x if x is not None else default`, the shape of `d.get(k, default)`. */
    function GetOr(default: T): T {
      if Some? then value else default
    }
  }

  /** Python's `str.isspace()` for one character. `str.strip()` and the
      `\s` class of a `re` pattern on `str` use the same set. */
  predicate IsSpace(c: char): (b: bool)
    ensures ('a' <= c <= 'z' || 'A' <= c <= 'Z' || '0' <= c <= '9') ==> !b
  {
    || ('\U{9}' <= c <= '\U{D}')
    || ('\U{1C}' <= c <= '\U{1F}')
    || c == ' '
    || c == '\U{85}'
    || c == '\U{A0}'
    || c == '\U{1680}'
    || ('\U{2000}' <= c <= '\U{200A}')
    || c == '\U{2028}'
    || c == '\U{2029}'
    || c == '\U{202F}'
    || c == '\U{205F}'
    || c == '\U{3000}'
  }

  predicate AllSpace(s: string) {
    forall i :: 0 <= i < |s| ==> IsSpace(s[i])
  }

  /** Number of whitespace characters at the start of `s`. */
  function LeadingSpaceCount(s: string): (n: nat)
    ensures n <= |s|
    ensures forall i :: 0 <= i < n ==> IsSpace(s[i])
    ensures n < |s| ==> !IsSpace(s[n])
  {
    if s != [] && IsSpace(s[0]) then 1 + LeadingSpaceCount(s[1..]) else 0
  }

  /** Number of whitespace characters at the end of `s`. */
  function TrailingSpaceCount(s: string): (n: nat)
    ensures n <= |s|
    ensures forall i :: |s| - n <= i < |s| ==> IsSpace(s[i])
    ensures n < |s| ==> !IsSpace(s[|s| - 1 - n])
  {
    if s != [] && IsSpace(s[|s| - 1]) then 1 + TrailingSpaceCount(s[..|s| - 1]) else 0
  }

  /** Python's `s.strip()` with no argument. */
  function Strip(s: string): (r: string)
    ensures LeadingSpaceCount(s) + |r| <= |s|
    ensures r == [] <==> AllSpace(s)
    ensures r != [] ==> !IsSpace(r[0]) && !IsSpace(r[|r| - 1])
    ensures forall i :: 0 <= i < |r| ==> r[i] == s[LeadingSpaceCount(s) + i]
    ensures AllSpace(s[LeadingSpaceCount(s) + |r|..])
  {
    var t := s[LeadingSpaceCount(s)..];
    t[..|t| - TrailingSpaceCount(t)]
  }

  /** Python's `not s.strip()`: the string is empty or whitespace only
      (by the contract of `Strip`, exactly when `Strip(s) == []`). */
  predicate IsBlank(s: string) {
    AllSpace(s)
  }

  /** Stripping a string that neither starts nor ends with whitespace changes nothing. */
  lemma StripUnchanged(s: string)
    requires s == [] || (!IsSpace(s[0]) && !IsSpace(s[|s| - 1]))
    ensures Strip(s) == s
  {
    if s != [] {
      assert LeadingSpaceCount(s) == 0;
      assert TrailingSpaceCount(s) == 0;
    }
  }

  /** `sub` occurs in `s` starting at index `i`. */
  predicate OccursAt(s: string, sub: string, i: nat) {
    i + |sub| <= |s| && s[i..i + |sub|] == sub
  }

  /** An occurrence matches its pattern character by character. */
  lemma OccursAtChars(s: string, sub: string, i: nat)
    requires OccursAt(s, sub, i)
    ensures forall j :: 0 <= j < |sub| ==> s[i + j] == sub[j]
  {
    forall j | 0 <= j < |sub| ensures s[i + j] == sub[j] {
      assert s[i..i + |sub|][j] == s[i + j];
    }
  }

  /** Python's `sub in s`. */
  predicate Contains(s: string, sub: string): (b: bool)
    ensures sub == [] ==> b
    ensures b ==> |sub| <= |s|
  {
    assert sub == [] ==> OccursAt(s, sub, 0);
    exists i: nat | i <= |s| :: OccursAt(s, sub, i)
  }

  /** A string containing `sub` also contains every prefix of `sub`. */
  lemma {:induction false} ContainsPrefix(s: string, sub: string, k: nat)
    requires Contains(s, sub) && k <= |sub|
    ensures Contains(s, sub[..k])
  {
    var i: nat :| i <= |s| && OccursAt(s, sub, i);
    assert s[i..i + k] == sub[..k] by {
      assert s[i..i + |sub|][..k] == s[i..i + k];
    }
    assert OccursAt(s, sub[..k], i);
  }

  /** Every character of a contained string occurs in the containing one. */
  lemma ContainsHasChar(s: string, sub: string, j: nat)
    requires Contains(s, sub) && j < |sub|
    ensures sub[j] in s
  {
    var i: nat :| i <= |s| && OccursAt(s, sub, i);
    OccursAtChars(s, sub, i);
    assert s[i + j] == sub[j];
  }

  /** Python's `s.startswith(p)`. */
  predicate StartsWith(s: string, p: string) {
    |p| <= |s| && s[..|p|] == p
  }

  /** Python's `s.endswith(p)`. */
  predicate EndsWith(s: string, p: string) {
    |p| <= |s| && s[|s| - |p|..] == p
  }

  /** A prefix is contained in the string. */
  lemma StartsWithContains(s: string, p: string)
    requires StartsWith(s, p)
    ensures Contains(s, p)
  {
    assert OccursAt(s, p, 0);
  }

  /** A string contained in `t` is contained in any extension of `t`. */
  lemma ContainsInLonger(s: string, sub: string, pre: string, post: string)
    requires Contains(s, sub)
    ensures Contains(pre + s + post, sub)
  {
    var i: nat :| i <= |s| && OccursAt(s, sub, i);
    var t := pre + s + post;
    assert t[|pre| + i..|pre| + i + |sub|] == s[i..i + |sub|];
    assert OccursAt(t, sub, |pre| + i);
  }

  /** Python's `sep.join(parts)`. */
  function Join(sep: string, parts: seq<string>): (r: string)
    ensures |parts| == 1 ==> r == parts[0]
  {
    if |parts| == 0 then ""
    else if |parts| == 1 then parts[0]
    else parts[0] + sep + Join(sep, parts[1..])
  }

  /** Joining one more part adds the separator and the part at the end. */
  lemma {:induction false} JoinSnoc(sep: string, parts: seq<string>, p: string)
    requires parts != []
    ensures Join(sep, parts + [p]) == Join(sep, parts) + sep + p
  {
    if |parts| == 1 {
      assert (parts + [p])[1..] == [p];
    } else {
      assert (parts + [p])[1..] == parts[1..] + [p];
      JoinSnoc(sep, parts[1..], p);
    }
  }

  /** The length of a join: every part plus one separator between neighbours. */
  lemma {:induction false} JoinLength(sep: string, parts: seq<string>)
    requires parts != []
    ensures |Join(sep, parts)| == TotalLength(parts) + (|parts| - 1) * |sep|
  {
    if |parts| > 1 {
      JoinLength(sep, parts[1..]);
    }
  }

  /** Python's `sum(len(p) for p in parts)`. */
  function TotalLength(parts: seq<string>): (n: nat)
    ensures parts == [] ==> n == 0
  {
    if parts == [] then 0 else |parts[0]| + TotalLength(parts[1..])
  }

  lemma {:induction false} TotalLengthSnoc(parts: seq<string>, p: string)
    ensures TotalLength(parts + [p]) == TotalLength(parts) + |p|
  {
    if parts != [] {
      assert (parts + [p])[1..] == parts[1..] + [p];
      TotalLengthSnoc(parts[1..], p);
    }
  }

  function LowerChar(c: char): (d: char)
    ensures 'A' <= c <= 'Z' ==> 'a' <= d <= 'z'
    ensures !('A' <= c <= 'Z') ==> d == c
  {
    if 'A' <= c <= 'Z' then (c as int + 32) as char else c
  }

  /** Python's `any(p(j) for j in range(i, n))`, evaluated front to back. */
  predicate AnyFrom(p: nat -> bool, i: nat, n: nat)
    decreases n - i
  {
    i < n && (p(i) || AnyFrom(p, i + 1, n))
  }

  /** The front-to-back evaluation of `any` finds a witness exactly when one exists. */
  lemma {:induction false} AnyFromExists(p: nat -> bool, i: nat, n: nat)
    ensures AnyFrom(p, i, n) <==> exists j: nat :: i <= j < n && p(j)
    decreases n - i
  {
    if i < n {
      AnyFromExists(p, i + 1, n);
      if !p(i) && exists j: nat :: i <= j < n && p(j) {
        var j: nat :| i <= j < n && p(j);
        assert i + 1 <= j;
      }
    }
  }

  /** Python's `s.lower()`, restricted to the ASCII letters (see README). */
  function Lower(s: string): (r: string)
    ensures |r| == |s|
    ensures forall i :: 0 <= i < |s| ==> r[i] == LowerChar(s[i])
  {
    seq(|s|, i requires 0 <= i < |s| => LowerChar(s[i]))
  }

  /** The result of `Lower` holds no ASCII capital letter. */
  lemma LowerHasNoCapital(s: string, i: int)
    requires 0 <= i < |s|
    ensures !('A' <= Lower(s)[i] <= 'Z')
  {
  }

  /** Lowering a string without ASCII capitals changes nothing. */
  lemma LowerWithoutCapitals(s: string)
    requires forall i :: 0 <= i < |s| ==> !('A' <= s[i] <= 'Z')
    ensures Lower(s) == s
  {
  }

  /** A pattern holding an ASCII capital letter never occurs in a lowered string:
      `kw in text.lower()` is always false for such a `kw`. */
  lemma CapitalNeverInLower(s: string, kw: string, j: nat)
    requires j < |kw| && 'A' <= kw[j] <= 'Z'
    ensures !Contains(Lower(s), kw)
  {
    if Contains(Lower(s), kw) {
      var i: nat :| i <= |Lower(s)| && OccursAt(Lower(s), kw, i);
      OccursAtChars(Lower(s), kw, i);
      LowerHasNoCapital(s, i + j);
    }
  }

  /** Python's `s[start:]` for any integer `start`; a negative `start` counts
      from the end and is clamped at the front. */
  function SliceFrom<T>(s: seq<T>, start: int): (r: seq<T>)
    ensures 0 <= start ==> |r| == (if start <= |s| then |s| - start else 0)
    ensures start < 0 ==> |r| == (if -start <= |s| then -start else |s|)
    ensures |r| <= |s|
    ensures r == s[|s| - |r|..]
  {
    if start >= 0 then (if start <= |s| then s[start..] else [])
    else if -start <= |s| then s[|s| + start..]
    else s
  }

  /** Python's `s.replace(pat, rep)` for a non-empty `pat`: every occurrence,
      scanning left to right without overlaps. */
  function ReplaceAll(s: string, pat: string, rep: string): (r: string)
    requires pat != []
    ensures rep == pat ==> r == s
    decreases |s|
  {
    if |s| < |pat| then s
    else if s[..|pat|] == pat then rep + ReplaceAll(s[|pat|..], pat, rep)
    else [s[0]] + ReplaceAll(s[1..], pat, rep)
  }

  /** A pattern whose first character never occurs is never replaced. */
  lemma {:induction false} ReplaceAllAbsent(s: string, pat: string, rep: string)
    requires pat != []
    requires forall i :: 0 <= i < |s| ==> s[i] != pat[0]
    ensures ReplaceAll(s, pat, rep) == s
    decreases |s|
  {
    if |s| >= |pat| {
      assert s[..|pat|][0] == s[0];
      ReplaceAllAbsent(s[1..], pat, rep);
    }
  }

  /** Replacing a one-character pattern by text without that character
      leaves no occurrence of it. */
  lemma {:induction false} ReplaceCharRemoves(s: string, c: char, rep: string)
    requires c !in rep
    ensures c !in ReplaceAll(s, [c], rep)
    decreases |s|
  {
    if |s| >= 1 {
      ReplaceCharRemoves(s[1..], c, rep);
      if s[..1] != [c] {
        assert s[0] == s[..1][0];
      }
    }
  }

  /** Replacing text by text without a character `d` cannot introduce `d`. */
  lemma {:induction false} ReplaceKeepsAbsent(s: string, pat: string, rep: string, d: char)
    requires pat != []
    requires d !in s && d !in rep
    ensures d !in ReplaceAll(s, pat, rep)
    decreases |s|
  {
    if |s| >= |pat| {
      if s[..|pat|] == pat {
        ReplaceKeepsAbsent(s[|pat|..], pat, rep, d);
      } else {
        ReplaceKeepsAbsent(s[1..], pat, rep, d);
      }
    }
  }
}
