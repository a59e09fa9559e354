/** The string primitives of the JavaScript runtime that the core relies on:
    `String.prototype.trim`, the `\s` class of regular expressions (the same
    character set), ASCII case mapping for `toUpperCase`, and the whitespace
    collapse the save endpoint applies to an upstream preview. */
module JsText {

  /** ECMAScript WhiteSpace or LineTerminator: the characters `trim` removes
      and `\s` matches. */
  predicate IsSpace(c: char) {
    ('\U{9}' <= c <= '\U{D}') || c == ' ' || c == '\U{A0}' || c == '\U{1680}'
    || ('\U{2000}' <= c <= '\U{200A}')
    || c == '\U{2028}' || c == '\U{2029}' || c == '\U{202F}' || c == '\U{205F}'
    || c == '\U{3000}' || c == '\U{FEFF}'
  }

  predicate AllSpace(s: string) {
    forall k :: 0 <= k < |s| ==> IsSpace(s[k])
  }

  /** Length of the leading whitespace run. */
  function LeadingSpaces(s: string): (n: nat)
    ensures n <= |s|
    ensures forall k :: 0 <= k < n ==> IsSpace(s[k])
    ensures n == |s| || !IsSpace(s[n])
  {
    if s == [] || !IsSpace(s[0]) then 0 else 1 + LeadingSpaces(s[1..])
  }

  /** Length of the string without its trailing whitespace run. */
  function TrailingStart(s: string): (n: nat)
    ensures n <= |s|
    ensures forall k :: n <= k < |s| ==> IsSpace(s[k])
    ensures n == 0 || !IsSpace(s[n - 1])
  {
    if s == [] || !IsSpace(s[|s| - 1]) then |s| else TrailingStart(s[..|s| - 1])
  }

  /** The string without its leading whitespace run (JavaScript's `trimStart`). */
  function TrimStart(s: string): (r: string)
    ensures r == [] || !IsSpace(r[0])
    ensures |r| < |s| || s == [] || !IsSpace(s[0])
  {
    s[LeadingSpaces(s)..]
  }

  /** `String.prototype.trim`: the infix `s[LeadingSpaces(s)..TrailingStart(s)]`
      that remains after dropping the leading and the trailing whitespace run;
      it neither starts nor ends with whitespace, and it is empty exactly when
      the whole string is blank. */
  function Trim(s: string): (r: string)
    ensures r == [] || (!IsSpace(r[0]) && !IsSpace(r[|r| - 1]))
    ensures r == [] <==> AllSpace(s)
    ensures r != [] ==> (LeadingSpaces(s) < TrailingStart(s)
                         && r == s[LeadingSpaces(s)..TrailingStart(s)])
  {
    var a := LeadingSpaces(s);
    var e := TrailingStart(s);
    if a == |s| then [] else
      assert !IsSpace(s[a]);
      assert a < e;
      s[a..e]
  }

  /** Trimming twice is trimming once. */
  lemma TrimIdempotent(s: string)
    ensures Trim(Trim(s)) == Trim(s)
  {
    var r := Trim(s);
    if r != [] {
      assert LeadingSpaces(r) == 0;
      assert TrailingStart(r) == |r|;
      assert r[0..|r|] == r;
    }
  }

  /** Upper case of one character, for the ASCII letters. */
  function UpperChar(c: char): char {
    if 'a' <= c <= 'z' then (c as int - 32) as char else c
  }

  /** `toUpperCase`, restricted to the ASCII letters. */
  function Upper(s: string): (r: string)
    ensures |r| == |s|
    ensures forall k :: 0 <= k < |s| ==> r[k] == UpperChar(s[k])
  {
    seq(|s|, k requires 0 <= k < |s| => UpperChar(s[k]))
  }

  /** The replacement `s.replace(/\s+/g, " ")`: every maximal whitespace run
      becomes one ordinary space. */
  function CollapseSpaces(s: string): (r: string)
    ensures |r| <= |s|
    ensures r == [] <==> s == []
    ensures r != [] ==> r[0] == (if IsSpace(s[0]) then ' ' else s[0])
    ensures forall k :: 0 <= k < |r| && IsSpace(r[k]) ==>
              r[k] == ' ' && (k + 1 < |r| ==> !IsSpace(r[k + 1]))
    decreases |s|
  {
    if s == [] then []
    else if IsSpace(s[0]) then [' '] + CollapseSpaces(TrimStart(s))
    else [s[0]] + CollapseSpaces(s[1..])
  }

  /** The non-white-space characters of a string, in order: what the
      whitespace collapse and `trim` leave untouched. */
  function NonSpace(s: string): (r: string)
    ensures |r| <= |s|
    ensures forall k :: 0 <= k < |r| ==> !IsSpace(r[k])
  {
    if s == [] then [] else (if IsSpace(s[0]) then [] else [s[0]]) + NonSpace(s[1..])
  }

  lemma {:induction false} NonSpaceEmpty(s: string)
    ensures NonSpace(s) == [] <==> AllSpace(s)
  {
    if s != [] {
      NonSpaceEmpty(s[1..]);
      assert AllSpace(s) <==> IsSpace(s[0]) && AllSpace(s[1..]) by {
        assert forall k :: 1 <= k < |s| ==> s[k] == s[1..][k - 1];
      }
    }
  }

  lemma {:induction false} NonSpaceConcat(a: string, b: string)
    ensures NonSpace(a + b) == NonSpace(a) + NonSpace(b)
  {
    if a != [] {
      assert (a + b)[1..] == a[1..] + b;
      NonSpaceConcat(a[1..], b);
    } else {
      assert a + b == b;
    }
  }

  /** `trimStart` drops only white space. */
  lemma NonSpaceTrimStart(s: string)
    ensures NonSpace(TrimStart(s)) == NonSpace(s)
  {
    var n := LeadingSpaces(s);
    assert s == s[..n] + s[n..];
    NonSpaceConcat(s[..n], s[n..]);
    NonSpaceEmpty(s[..n]);
  }

  lemma NonSpaceBetweenBlanks(x: string, m: string, y: string)
    requires AllSpace(x) && AllSpace(y)
    ensures NonSpace(x + m + y) == NonSpace(m)
  {
    NonSpaceConcat(x + m, y);
    NonSpaceConcat(x, m);
    NonSpaceEmpty(x);
    NonSpaceEmpty(y);
  }

  /** `trim` drops only white space. */
  lemma NonSpaceTrim(s: string)
    ensures NonSpace(Trim(s)) == NonSpace(s)
  {
    var r := Trim(s);
    if r == [] {
      NonSpaceEmpty(s);
    } else {
      var a, e := LeadingSpaces(s), TrailingStart(s);
      SplitThree(s, a, e);
      BlankSuffix(s, e);
      NonSpaceBetweenBlanks(s[..a], s[a..e], s[e..]);
    }
  }

  lemma SplitThree(s: string, a: nat, e: nat)
    requires a <= e <= |s|
    ensures s == s[..a] + s[a..e] + s[e..]
  {
  }

  lemma BlankSuffix(s: string, e: nat)
    requires e <= |s| && forall k :: e <= k < |s| ==> IsSpace(s[k])
    ensures AllSpace(s[e..])
  {
    forall k | 0 <= k < |s| - e ensures IsSpace(s[e..][k]) { assert s[e..][k] == s[e + k]; }
  }

  /** The whitespace collapse changes only white space: the non-white-space
      characters, in order, are those of the input. */
  lemma {:induction false} NonSpaceCollapse(s: string)
    ensures NonSpace(CollapseSpaces(s)) == NonSpace(s)
    decreases |s|
  {
    if s != [] {
      if IsSpace(s[0]) {
        var t := TrimStart(s);
        NonSpaceCollapse(t);
        NonSpaceTrimStart(s);
        NonSpaceConcat([' '], CollapseSpaces(t));
        assert NonSpace([' ']) == [];
      } else {
        NonSpaceCollapse(s[1..]);
        NonSpaceConcat([s[0]], CollapseSpaces(s[1..]));
        assert NonSpace([s[0]]) == [s[0]];
      }
    }
  }

  /** The leading run is the unique n with spaces before it and a
      non-space (or the end) at it. */
  lemma LeadingSpacesUnique(s: string, n: nat)
    requires n <= |s| && (forall k :: 0 <= k < n ==> IsSpace(s[k]))
    requires n == |s| || !IsSpace(s[n])
    ensures LeadingSpaces(s) == n
  {
  }

  /** Text without white space is left as it is. */
  lemma {:induction false} CollapseNoSpace(s: string)
    requires forall k :: 0 <= k < |s| ==> !IsSpace(s[k])
    ensures CollapseSpaces(s) == s
    decreases |s|
  {
    if s != [] {
      CollapseNoSpace(s[1..]);
      assert s == [s[0]] + s[1..];
    }
  }

  /** A white-space run at the front of the text becomes one space. */
  lemma CollapseLeadingRun(w: string, b: string)
    requires w != [] && AllSpace(w)
    requires b == [] || !IsSpace(b[0])
    ensures CollapseSpaces(w + b) == [' '] + CollapseSpaces(b)
  {
    var s := w + b;
    LeadingSpacesUnique(s, |w|);
    assert s[|w|..] == b;
  }

  /** The collapse of a text that starts with a non-space keeps that character. */
  lemma CollapseHead(c: char, t: string)
    requires !IsSpace(c)
    ensures CollapseSpaces([c] + t) == [c] + CollapseSpaces(t)
  {
    assert ([c] + t)[1..] == t;
  }

  /** A leading run of `a`, when `a` ends with a non-space, is the same
      run in `a + w + b`, and collapses to one space in both. */
  lemma CollapseFrontRun(a: string, w: string, b: string)
    requires a != [] && IsSpace(a[0]) && !IsSpace(a[|a| - 1])
    ensures var n := LeadingSpaces(a);
            && 0 < n < |a|
            && CollapseSpaces(a) == [' '] + CollapseSpaces(a[n..])
            && CollapseSpaces(a + w + b) == [' '] + CollapseSpaces(a[n..] + w + b)
  {
    var n := LeadingSpaces(a);
    LeadingSpacesUnique(a + w + b, n);
    assert (a + w + b)[n..] == a[n..] + w + b;
  }

  /** A maximal white-space run `w` between `a` and `b` becomes exactly one
      space at its own place, and the text on either side is collapsed
      independently. */
  lemma {:induction false} CollapseRun(a: string, w: string, b: string)
    requires w != [] && AllSpace(w)
    requires a == [] || !IsSpace(a[|a| - 1])
    requires b == [] || !IsSpace(b[0])
    ensures CollapseSpaces(a + w + b) == CollapseSpaces(a) + [' '] + CollapseSpaces(b)
    decreases |a|, 1
  {
    if a == [] {
      assert a + w + b == w + b;
      CollapseLeadingRun(w, b);
    } else if !IsSpace(a[0]) {
      CollapseRunAfterChar(a, w, b);
    } else {
      CollapseRunAfterRun(a, w, b);
    }
  }

  lemma {:induction false} CollapseRunAfterChar(a: string, w: string, b: string)
    requires w != [] && AllSpace(w)
    requires a != [] && !IsSpace(a[0]) && !IsSpace(a[|a| - 1])
    requires b == [] || !IsSpace(b[0])
    ensures CollapseSpaces(a + w + b) == CollapseSpaces(a) + [' '] + CollapseSpaces(b)
    decreases |a|, 0
  {
    var c, a1 := a[0], a[1..];
    ConsSplit(a, w, b);
    assert a1 == [] || a1[|a1| - 1] == a[|a| - 1];
    CollapseRun(a1, w, b);
    var x, y := CollapseSpaces(a1), CollapseSpaces(b);
    calc {
      CollapseSpaces(a + w + b);
      { CollapseHead(c, a1 + w + b); }
      [c] + (x + [' '] + y);
      { Regroup([c], x, y); }
      ([c] + x) + [' '] + y;
      { CollapseHead(c, a1); }
      CollapseSpaces(a) + [' '] + y;
    }
  }

  lemma {:induction false} CollapseRunAfterRun(a: string, w: string, b: string)
    requires w != [] && AllSpace(w)
    requires a != [] && IsSpace(a[0]) && !IsSpace(a[|a| - 1])
    requires b == [] || !IsSpace(b[0])
    ensures CollapseSpaces(a + w + b) == CollapseSpaces(a) + [' '] + CollapseSpaces(b)
    decreases |a|, 0
  {
    CollapseFrontRun(a, w, b);
    var a1 := a[LeadingSpaces(a)..];
    assert a1[|a1| - 1] == a[|a| - 1];
    CollapseRun(a1, w, b);
    Regroup([' '], CollapseSpaces(a1), CollapseSpaces(b));
  }

  lemma ConsSplit(a: string, w: string, b: string)
    requires a != []
    ensures a == [a[0]] + a[1..]
    ensures a + w + b == [a[0]] + (a[1..] + w + b)
  {
  }

  lemma Regroup(x: string, y: string, z: string)
    ensures x + (y + [' '] + z) == (x + y) + [' '] + z
  {
  }
}
