/** The JavaScript string operations the request handlers rely on:
    `slice(0, n)`, `trim()` and `toLowerCase()`, each given by a function
    together with the property that characterises it. */
module Text {

  /** A character that `String.prototype.trim` removes: the ECMAScript
      WhiteSpace characters (tab, vertical tab, form feed, space, no-break
      space, the byte-order mark and the other Zs space separators) and the
      LineTerminator characters (line feed, carriage return, line and
      paragraph separators). */
  predicate IsSpace(c: char) {
    c == '\t' || c == '\U{000B}' || c == '\U{000C}' || c == ' ' || c == '\U{00A0}' || c == '\U{FEFF}'
    || c == '\n' || c == '\r' || c == '\U{2028}' || c == '\U{2029}'
    || c == '\U{1680}' || ('\U{2000}' <= c <= '\U{200A}') || c == '\U{202F}' || c == '\U{205F}' || c == '\U{3000}'
  }

  predicate AllSpace(s: string) {
    forall k :: 0 <= k < |s| ==> IsSpace(s[k])
  }

  /** Neither the first nor the last character (if any) is whitespace. */
  predicate NoOuterSpace(s: string) {
    s == [] || (!IsSpace(s[0]) && !IsSpace(s[|s| - 1]))
  }

  predicate StartsWith(s: string, prefix: string) {
    |prefix| <= |s| && s[..|prefix|] == prefix
  }

  predicate EndsWith(s: string, suffix: string) {
    |suffix| <= |s| && s[|s| - |suffix|..] == suffix
  }

  /** `s.slice(0, n)` for a non-negative `n`: the first `n` characters, or
      all of `s` when it is shorter. */
  function Take(s: string, n: nat): (r: string)
    ensures |r| == if |s| <= n then |s| else n
    ensures StartsWith(s, r)
  {
    if |s| <= n then s else s[..n]
  }

  /** Leading whitespace removed: what remains is a suffix of `s`, what was
      dropped is all whitespace, and what remains does not start with it. */
  function TrimStart(s: string): (r: string)
    ensures EndsWith(s, r)
    ensures AllSpace(s[..|s| - |r|])
    ensures r == [] || !IsSpace(r[0])
    decreases |s|
  {
    if s != [] && IsSpace(s[0]) then
      var r := TrimStart(s[1..]);
      assert s[..|s| - |r|] == [s[0]] + s[1..][..|s| - 1 - |r|];
      r
    else
      s
  }

  /** Trailing whitespace removed: what remains is a prefix of `s`, what was
      dropped is all whitespace, and what remains does not end with it. */
  function TrimEnd(s: string): (r: string)
    ensures StartsWith(s, r)
    ensures AllSpace(s[|r|..])
    ensures r == [] || !IsSpace(r[|r| - 1])
    decreases |s|
  {
    if s != [] && IsSpace(s[|s| - 1]) then
      var r := TrimEnd(s[..|s| - 1]);
      assert s[|r|..] == s[..|s| - 1][|r|..] + [s[|s| - 1]];
      r
    else
      s
  }

  /** `r` sits in `s` at offset `i` with only whitespace on either side. */
  predicate TrimmedAt(s: string, i: nat, r: string) {
    i + |r| <= |s| && r == s[i..i + |r|] && AllSpace(s[..i]) && AllSpace(s[i + |r|..])
  }

  /** `r` is `s` with its surrounding whitespace removed. */
  predicate IsTrimOf(s: string, r: string) {
    NoOuterSpace(r) && exists i: nat | i <= |s| :: TrimmedAt(s, i, r)
  }

  /** Whitespace stripped from the front and then from the back leaves a
      trim. */
  lemma {:induction false} TrimmedAtCompose(s: string, t: string, r: string)
    requires EndsWith(s, t) && AllSpace(s[..|s| - |t|])
    requires StartsWith(t, r) && AllSpace(t[|r|..])
    ensures TrimmedAt(s, |s| - |t|, r)
  {
    var i := |s| - |t|;
    assert t == s[i..];
    assert s[i..i + |r|] == t[..|r|];
    assert s[i + |r|..] == t[|r|..];
  }

  /** `s.trim()`. */
  function Trim(s: string): (r: string)
    ensures IsTrimOf(s, r)
  {
    var t := TrimStart(s);
    var r := TrimEnd(t);
    TrimmedAtCompose(s, t, r);
    assert r != [] ==> r[0] == t[0];
    r
  }

  /** A trim of the first `n` characters of `s` is a piece of `s` that only
      whitespace precedes. */
  lemma {:induction false} TrimmedAtPrefix(s: string, n: nat, i: nat, r: string)
    requires n <= |s| && TrimmedAt(s[..n], i, r)
    ensures i + |r| <= n && r == s[i..i + |r|] && AllSpace(s[..i])
  {
    assert s[..n][i..i + |r|] == s[i..i + |r|];
    assert s[..n][..i] == s[..i];
  }

  /** A sequence built from four parts starts with the first and ends with
      the last two. */
  lemma {:induction false} Affixes(a: string, b: string, c: string, d: string)
    ensures StartsWith(a + b + c + d, a)
    ensures EndsWith(a + b + c + d, c + d)
  {
    var p := a + b + c + d;
    assert p[..|a|] == a;
    assert p[|p| - |c + d|..] == c + d;
  }

  /** Dropping the leading parts of a five-part concatenation. */
  lemma {:induction false} DropParts(a: string, b: string, c: string, d: string, e: string)
    ensures (a + b + c + d + e)[|a|..] == b + c + d + e
    ensures (a + b + c + d + e)[|a| + |b|..] == c + d + e
  {
  }

  /** The same for five parts. */
  lemma {:induction false} Affixes5(a: string, b: string, c: string, d: string, e: string)
    ensures StartsWith(a + b + c + d + e, a)
    ensures EndsWith(a + b + c + d + e, d + e)
  {
    var p := a + b + c + d + e;
    assert p[..|a|] == a;
    assert p[|p| - |d + e|..] == d + e;
  }

  /** Trimming is determined by its characterisation: two trims of the same
      string are equal. */
  lemma {:induction false} TrimmedAtUnique(s: string, i: nat, r: string, j: nat, t: string)
    requires NoOuterSpace(r) && TrimmedAt(s, i, r)
    requires NoOuterSpace(t) && TrimmedAt(s, j, t)
    ensures r == t
  {
  }

  /** `Trim` is the only function meeting its characterisation. */
  lemma {:induction false} TrimUnique(s: string, r: string)
    requires IsTrimOf(s, r)
    ensures r == Trim(s)
  {
    var i: nat :| i <= |s| && TrimmedAt(s, i, r);
    var j: nat :| j <= |s| && TrimmedAt(s, j, Trim(s));
    TrimmedAtUnique(s, i, r, j, Trim(s));
  }

  /** Trimming leaves nothing exactly when the string is all whitespace. */
  lemma {:induction false} TrimEmptyIff(s: string)
    ensures Trim(s) == "" <==> AllSpace(s)
  {
    var r := Trim(s);
    var i: nat :| i <= |s| && TrimmedAt(s, i, r);
    if r == "" {
      forall k | 0 <= k < |s| ensures IsSpace(s[k]) {
        if k < i { assert s[..i][k] == s[k]; } else { assert s[i..][k - i] == s[k]; }
      }
    } else {
      assert s[i] == r[0];
    }
  }

  /** Trimming a string that has no surrounding whitespace changes nothing;
      in particular trimming is idempotent. */
  lemma {:induction false} TrimNoOuterSpace(s: string)
    requires NoOuterSpace(s)
    ensures Trim(s) == s
  {
    assert TrimmedAt(s, 0, s);
    TrimUnique(s, s);
  }

  predicate IsUpper(c: char) {
    'A' <= c <= 'Z'
  }

  predicate NoUpper(s: string) {
    forall k :: 0 <= k < |s| ==> !IsUpper(s[k])
  }

  /** `toLowerCase` on one character, for the letters A to Z. */
  function LowerChar(c: char): (d: char)
    ensures !IsUpper(d)
    ensures IsUpper(c) ==> d as int - c as int == 'a' as int - 'A' as int
    ensures !IsUpper(c) ==> d == c
  {
    if IsUpper(c) then (c as int - 'A' as int + 'a' as int) as char else c
  }

  /** Whitespace is left alone by lowercasing, and no letter becomes
      whitespace. */
  lemma {:induction false} LowerCharKeepsSpace(c: char)
    ensures IsSpace(LowerChar(c)) == IsSpace(c)
  {
  }

  /** `s.toLowerCase()`: character by character, so lengths agree and no
      upper-case letter survives. */
  function Lower(s: string): (r: string)
    ensures |r| == |s| && NoUpper(r)
    ensures forall k :: 0 <= k < |s| ==> r[k] == LowerChar(s[k])
  {
    seq(|s|, k requires 0 <= k < |s| => LowerChar(s[k]))
  }

  /** A string without upper-case letters is its own lower case. */
  lemma {:induction false} LowerIdentity(s: string)
    requires NoUpper(s)
    ensures Lower(s) == s
  {
  }

  /** Lowercasing a slice is slicing the lowercased string. */
  lemma {:induction false} LowerSlice(s: string, a: nat, b: nat)
    requires a <= b <= |s|
    ensures Lower(s)[a..b] == Lower(s[a..b])
  {
    var x, y := Lower(s)[a..b], Lower(s[a..b]);
    assert |x| == |y|;
    forall k | 0 <= k < |x| ensures x[k] == y[k] {
      assert x[k] == Lower(s)[a + k] == LowerChar(s[a + k]);
      assert y[k] == LowerChar(s[a..b][k]);
    }
  }

  /** Lowercasing keeps whitespace where it was. */
  lemma {:induction false} LowerKeepsSpace(s: string)
    ensures AllSpace(s) ==> AllSpace(Lower(s))
    ensures NoOuterSpace(s) ==> NoOuterSpace(Lower(s))
  {
    var ls := Lower(s);
    forall k | 0 <= k < |s| ensures IsSpace(ls[k]) == IsSpace(s[k]) {
      LowerCharKeepsSpace(s[k]);
    }
  }

  /** Lowercasing keeps a trim in place. */
  lemma {:induction false} LowerTrimmedAt(s: string, i: nat, r: string)
    requires TrimmedAt(s, i, r)
    ensures TrimmedAt(Lower(s), i, Lower(r))
  {
    var ls, lr, j := Lower(s), Lower(r), i + |r|;
    assert lr == ls[i..j] by {
      LowerSlice(s, i, j);
    }
    assert AllSpace(ls[..i]) by {
      LowerSlice(s, 0, i);
      assert s[0..i] == s[..i] && ls[0..i] == ls[..i];
      LowerKeepsSpace(s[..i]);
    }
    assert AllSpace(ls[j..]) by {
      LowerSlice(s, j, |s|);
      assert s[j..|s|] == s[j..] && ls[j..|s|] == ls[j..];
      LowerKeepsSpace(s[j..]);
    }
  }

  /** Lowercasing commutes with trimming. */
  lemma {:induction false} LowerTrimCommute(s: string)
    ensures Lower(Trim(s)) == Trim(Lower(s))
  {
    var r := Trim(s);
    var i: nat :| i <= |s| && TrimmedAt(s, i, r);
    LowerTrimmedAt(s, i, r);
    LowerKeepsSpace(r);
    TrimUnique(Lower(s), Lower(r));
  }
}
