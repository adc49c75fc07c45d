/** JavaScript's String.prototype.trim, which both the chat page's send guard
    and the join-code schema rely on. Characters are Unicode scalar values. */
module JsString {

  /** The ECMAScript WhiteSpace and LineTerminator code points: the characters
      trim removes from either end of a string. */
  predicate IsWhitespace(c: char) {
    var n := c as int;
    n == 0x09 || n == 0x0A || n == 0x0B || n == 0x0C || n == 0x0D || n == 0x20
    || n == 0xA0 || n == 0x1680 || (0x2000 <= n <= 0x200A)
    || n == 0x2028 || n == 0x2029 || n == 0x202F || n == 0x205F
    || n == 0x3000 || n == 0xFEFF
  }

  predicate AllWhitespace(s: string) {
    forall i :: 0 <= i < |s| ==> IsWhitespace(s[i])
  }

  /** Drops the leading whitespace: the result is a suffix of `s`, what was
      dropped is all whitespace, and the result does not start with any. */
  function TrimStart(s: string): (r: string)
    ensures |r| <= |s| && r == s[|s| - |r|..]
    ensures AllWhitespace(s[..|s| - |r|])
    ensures r == [] || !IsWhitespace(r[0])
    decreases |s|
  {
    if s != [] && IsWhitespace(s[0]) then
      var r := TrimStart(s[1..]);
      assert s[..|s| - |r|] == [s[0]] + s[1..][..|s| - 1 - |r|];
      r
    else
      s
  }

  /** Drops the trailing whitespace: the result is a prefix of `s`, what was
      dropped is all whitespace, and the result does not end with any. */
  function TrimEnd(s: string): (r: string)
    ensures |r| <= |s| && r == s[..|r|]
    ensures AllWhitespace(s[|r|..])
    ensures r == [] || !IsWhitespace(r[|r| - 1])
    decreases |s|
  {
    if s != [] && IsWhitespace(s[|s| - 1]) then
      var r := TrimEnd(s[..|s| - 1]);
      assert s[|r|..] == s[..|s| - 1][|r|..] + [s[|s| - 1]];
      r
    else
      s
  }

  /** `s.trim()`: a slice of `s` with only whitespace outside it. The result
      is empty exactly when `s` is all whitespace, and otherwise starts and
      ends with a non-whitespace character. */
  function Trim(s: string): (r: string)
    ensures exists i, j :: 0 <= i <= j <= |s| && r == s[i..j]
                           && AllWhitespace(s[..i]) && AllWhitespace(s[j..])
    ensures r == [] <==> AllWhitespace(s)
    ensures r != [] ==> !IsWhitespace(r[0]) && !IsWhitespace(r[|r| - 1])
  {
    TrimStartEmptyIffBlank(s);
    TrimEndKeepsFirst(TrimStart(s));
    SliceOfSlice(s, TrimStart(s), TrimEnd(TrimStart(s)));
    TrimEnd(TrimStart(s))
  }

  /** A slice of a slice, each with only whitespace around it, is a slice
      with only whitespace around it. */
  lemma SliceOfSlice(s: string, f: string, r: string)
    requires |f| <= |s| && f == s[|s| - |f|..] && AllWhitespace(s[..|s| - |f|])
    requires |r| <= |f| && r == f[..|r|] && AllWhitespace(f[|r|..])
    ensures exists i, j :: 0 <= i <= j <= |s| && r == s[i..j]
                           && AllWhitespace(s[..i]) && AllWhitespace(s[j..])
  {
    var i := |s| - |f|;
    var j := i + |r|;
    assert r == s[i..j];
    assert s[j..] == f[|r|..];
  }

  lemma TrimStartEmptyIffBlank(s: string)
    ensures TrimStart(s) == [] <==> AllWhitespace(s)
  {
    var f := TrimStart(s);
    assert f == [] ==> s[..|s| - |f|] == s;
    assert f != [] ==> s[|s| - |f|] == f[0];
  }

  lemma TrimEndKeepsFirst(f: string)
    requires f == [] || !IsWhitespace(f[0])
    ensures TrimEnd(f) == [] <==> f == []
    ensures TrimEnd(f) != [] ==> TrimEnd(f)[0] == f[0]
  {
    var r := TrimEnd(f);
    assert |r| < |f| ==> IsWhitespace(f[|r|..][0]);
  }

  lemma TrimStartOfTrimmed(s: string)
    requires s == [] || !IsWhitespace(s[0])
    ensures TrimStart(s) == s
  {
  }

  lemma TrimEndOfTrimmed(s: string)
    requires s == [] || !IsWhitespace(s[|s| - 1])
    ensures TrimEnd(s) == s
  {
  }

  lemma TrimOfTrimmed(t: string)
    requires t == [] || (!IsWhitespace(t[0]) && !IsWhitespace(t[|t| - 1]))
    ensures Trim(t) == t
  {
    TrimStartOfTrimmed(t);
    TrimEndOfTrimmed(t);
  }

  /** Trimming twice is trimming once. */
  lemma TrimIdempotent(s: string)
    ensures Trim(Trim(s)) == Trim(s)
  {
    TrimOfTrimmed(Trim(s));
  }

  /** Leading whitespace makes no difference to TrimStart. */
  lemma {:induction false} TrimStartSkipsWhitespace(w: string, x: string)
    requires AllWhitespace(w)
    ensures TrimStart(w + x) == TrimStart(x)
    decreases |w|
  {
    if w != [] {
      assert (w + x)[1..] == w[1..] + x;
      TrimStartSkipsWhitespace(w[1..], x);
    } else {
      assert w + x == x;
    }
  }

  /** Trailing whitespace makes no difference to TrimEnd. */
  lemma {:induction false} TrimEndSkipsWhitespace(x: string, w: string)
    requires AllWhitespace(w)
    ensures TrimEnd(x + w) == TrimEnd(x)
    decreases |w|
  {
    if w != [] {
      assert (x + w)[..|x + w| - 1] == x + w[..|w| - 1];
      TrimEndSkipsWhitespace(x, w[..|w| - 1]);
    } else {
      assert x + w == x;
    }
  }

  /** Trailing whitespace passes through TrimStart untouched, unless the
      whole string is whitespace. */
  lemma {:induction false} TrimStartAppend(x: string, w: string)
    requires AllWhitespace(w)
    ensures TrimStart(x + w) == if AllWhitespace(x) then [] else TrimStart(x) + w
    decreases |x|
  {
    if AllWhitespace(x) {
      TrimStartSkipsWhitespace(x, w);
      assert w + [] == w;
      TrimStartSkipsWhitespace(w, []);
      assert TrimStart(x + w) == TrimStart(w) == TrimStart([]) == [];
    } else if IsWhitespace(x[0]) {
      assert (x + w)[0] == x[0];
      assert (x + w)[1..] == x[1..] + w;
      assert TrimStart(x + w) == TrimStart(x[1..] + w);
      assert TrimStart(x) == TrimStart(x[1..]);
      assert !AllWhitespace(x[1..]) by {
        var i :| 0 <= i < |x| && !IsWhitespace(x[i]);
        assert x[1..][i - 1] == x[i];
      }
      TrimStartAppend(x[1..], w);
    } else {
      assert (x + w)[0] == x[0];
      assert TrimStart(x + w) == x + w;
      assert TrimStart(x) == x;
    }
  }

  /** Surrounding whitespace makes no difference to Trim. */
  lemma TrimIgnoresPadding(w1: string, s: string, w2: string)
    requires AllWhitespace(w1) && AllWhitespace(w2)
    ensures Trim(w1 + s + w2) == Trim(s)
  {
    assert w1 + s + w2 == w1 + (s + w2);
    TrimStartSkipsWhitespace(w1, s + w2);
    TrimStartAppend(s, w2);
    if !AllWhitespace(s) {
      TrimEndSkipsWhitespace(TrimStart(s), w2);
    }
  }
}
