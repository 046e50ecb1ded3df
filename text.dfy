/**
 * The string operations the estimate relay and the contact form rely on,
 * written out character by character: ECMAScript whitespace, `trim`,
 * `replace(/\s+/g, " ")`, `join` on one separator character, and the
 * UTF-16 length that JavaScript's `.length` reports. `Split` is not a
 * source operation: it is this model's own way to read a joined message back.
 */
module Text {

  /**
   * ECMAScript WhiteSpace and LineTerminator code points. `String.prototype.trim`
   * strips exactly these, and the regular-expression class `\s` matches exactly
   * these, so one predicate serves both.
   */
  predicate IsSpace(c: char) {
    var n := c as int;
    n == 0x09 || n == 0x0A || n == 0x0B || n == 0x0C || n == 0x0D
    || n == 0x20 || n == 0xA0 || n == 0x1680 || (0x2000 <= n <= 0x200A)
    || n == 0x2028 || n == 0x2029 || n == 0x202F || n == 0x205F
    || n == 0x3000 || n == 0xFEFF
  }

  /** The regular-expression class `\d`: ASCII digits only. */
  predicate IsDigit(c: char) {
    '0' <= c <= '9'
  }

  predicate AllSpace(s: string) {
    forall i :: 0 <= i < |s| ==> IsSpace(s[i])
  }

  predicate NoSpace(s: string) {
    forall i :: 0 <= i < |s| ==> !IsSpace(s[i])
  }

  /** No whitespace at either end: what `trim` guarantees. */
  predicate IsTrimmed(s: string) {
    s == [] || (!IsSpace(s[0]) && !IsSpace(s[|s| - 1]))
  }

  /** `trimStart`: drops the longest whitespace prefix. */
  function TrimStart(s: string): (r: string)
    ensures |r| <= |s|
  {
    if s != [] && IsSpace(s[0]) then TrimStart(s[1..]) else s
  }

  /** What `trimStart` leaves is a suffix that starts with a non-space, after a prefix of spaces only. */
  lemma {:induction false} TrimStartSpec(s: string)
    ensures TrimStart(s) == s[|s| - |TrimStart(s)|..]
    ensures TrimStart(s) == [] || !IsSpace(TrimStart(s)[0])
    ensures AllSpace(s[..|s| - |TrimStart(s)|])
  {
    if s != [] && IsSpace(s[0]) {
      TrimStartSpec(s[1..]);
      var r := TrimStart(s);
      assert s[1..][|s| - 1 - |r|..] == s[|s| - |r|..];
      assert forall i :: 1 <= i < |s| - |r| ==> s[i] == s[1..][..|s| - 1 - |r|][i - 1];
    }
  }

  /** `trimEnd`: drops the longest whitespace suffix. */
  function TrimEnd(s: string): (r: string)
    ensures |r| <= |s|
  {
    if s != [] && IsSpace(s[|s| - 1]) then TrimEnd(s[..|s| - 1]) else s
  }

  /** What `trimEnd` leaves is a prefix that ends with a non-space, before a suffix of spaces only. */
  lemma {:induction false} TrimEndSpec(s: string)
    ensures TrimEnd(s) == s[..|TrimEnd(s)|]
    ensures TrimEnd(s) == [] || !IsSpace(TrimEnd(s)[|TrimEnd(s)| - 1])
    ensures AllSpace(s[|TrimEnd(s)|..])
  {
    if s != [] && IsSpace(s[|s| - 1]) {
      var u := s[..|s| - 1];
      TrimEndSpec(u);
      var r := TrimEnd(s);
      assert u[..|r|] == s[..|r|];
      assert forall i :: |r| <= i < |s| - 1 ==> s[i] == u[|r|..][i - |r|];
    }
  }

  /** How much leading whitespace `trim` removes. */
  function TrimOffset(s: string): (k: nat)
    ensures k <= |s|
  {
    |s| - |TrimStart(s)|
  }

  /** `String.prototype.trim`. */
  function Trim(s: string): (r: string)
    ensures IsTrimmed(r) && |r| <= |s|
  {
    TrimStartSpec(s);
    TrimEndSpec(TrimStart(s));
    TrimEnd(TrimStart(s))
  }

  /** The trimmed string is the part of `s` between a whitespace prefix and a whitespace suffix. */
  lemma TrimSlice(s: string)
    ensures TrimOffset(s) + |Trim(s)| <= |s|
    ensures Trim(s) == s[TrimOffset(s)..TrimOffset(s) + |Trim(s)|]
    ensures AllSpace(s[..TrimOffset(s)]) && AllSpace(s[TrimOffset(s) + |Trim(s)|..])
  {
    var t := TrimStart(s);
    var r := TrimEnd(t);
    var k := |s| - |t|;
    TrimStartSpec(s);
    TrimEndSpec(t);
    assert s[k..k + |r|] == r;
    assert s[k + |r|..] == t[|r|..];
  }

  /** `TrimStart` stops exactly at the first non-whitespace character. */
  lemma {:induction false} TrimStartAt(s: string, k: nat)
    requires k <= |s| && AllSpace(s[..k]) && (k == |s| || !IsSpace(s[k]))
    ensures TrimStart(s) == s[k..]
    decreases k
  {
    if k > 0 {
      assert IsSpace(s[..k][0]);
      assert s[1..][..k - 1] == s[..k][1..];
      TrimStartAt(s[1..], k - 1);
      assert s[1..][k - 1..] == s[k..];
    }
  }

  /** `TrimEnd` stops exactly after the last non-whitespace character. */
  lemma {:induction false} TrimEndAt(t: string, e: nat)
    requires e <= |t| && AllSpace(t[e..]) && (e == 0 || !IsSpace(t[e - 1]))
    ensures TrimEnd(t) == t[..e]
    decreases |t| - e
  {
    if e < |t| {
      var u := t[..|t| - 1];
      assert IsSpace(t[e..][|t| - 1 - e]);
      assert u[e..] == t[e..][..|t| - 1 - e];
      TrimEndAt(u, e);
      assert u[..e] == t[..e];
    }
  }

  lemma AllSpaceConcat(a: string, b: string)
    requires AllSpace(a) && AllSpace(b)
    ensures AllSpace(a + b)
  {
  }

  /**
   * Trimming is determined by what it promises: cutting `s` into leading
   * whitespace, a trimmed middle and trailing whitespace can only give
   * `Trim(s)` as the middle.
   */
  lemma TrimUnique(s: string, k: nat, m: string)
    requires k + |m| <= |s| && s[k..k + |m|] == m && IsTrimmed(m)
    requires AllSpace(s[..k]) && AllSpace(s[k + |m|..])
    ensures Trim(s) == m
  {
    if m == [] {
      AllSpaceConcat(s[..k], s[k..]);
      assert s[..k] + s[k..] == s[..|s|];
      TrimStartAt(s, |s|);
    } else {
      assert s[k] == m[0];
      TrimStartAt(s, k);
      var t := s[k..];
      assert t[|m|..] == s[k + |m|..];
      assert t[|m| - 1] == m[|m| - 1];
      TrimEndAt(t, |m|);
    }
  }

  /** `trim` is idempotent. */
  lemma {:induction false} TrimIdempotent(s: string)
    ensures Trim(Trim(s)) == Trim(s)
  {
    TrimOfTrimmed(Trim(s));
  }

  /** A string with no whitespace at either end is its own trim. */
  lemma TrimOfTrimmed(s: string)
    requires IsTrimmed(s)
    ensures Trim(s) == s
  {
    assert s[0..0 + |s|] == s && s[..0] == [] && s[0 + |s|..] == [];
    TrimUnique(s, 0, s);
  }

  /** A string trims to nothing exactly when it is all whitespace. */
  lemma TrimEmptyIffAllSpace(s: string)
    ensures Trim(s) == [] <==> AllSpace(s)
  {
    if AllSpace(s) {
      assert s[..0] == [] && s[0..0] == [] && s[0..] == s;
      TrimUnique(s, 0, []);
    }
    if Trim(s) == [] {
      var k := TrimOffset(s);
      TrimSlice(s);
      AllSpaceConcat(s[..k], s[k..]);
      assert s[..k] + s[k..] == s;
    }
  }

  /** The characters of `s` that are not whitespace, in order. */
  function NonSpace(s: string): (r: string)
    ensures |r| <= |s|
    ensures forall i :: 0 <= i < |r| ==> !IsSpace(r[i])
  {
    if s == [] then [] else (if IsSpace(s[0]) then [] else [s[0]]) + NonSpace(s[1..])
  }

  lemma {:induction false} NonSpaceAppend(a: string, b: string)
    ensures NonSpace(a + b) == NonSpace(a) + NonSpace(b)
    decreases |a|
  {
    if a != [] {
      var head: string := if IsSpace(a[0]) then [] else [a[0]];
      assert NonSpace(a) == head + NonSpace(a[1..]);
      calc {
        NonSpace(a + b);
        { assert (a + b)[0] == a[0]; assert (a + b)[1..] == a[1..] + b; }
        head + NonSpace(a[1..] + b);
        { NonSpaceAppend(a[1..], b); }
        head + (NonSpace(a[1..]) + NonSpace(b));
        (head + NonSpace(a[1..])) + NonSpace(b);
      }
    } else {
      assert a + b == b;
    }
  }

  lemma {:induction false} NonSpaceOfSpace(a: string)
    requires AllSpace(a)
    ensures NonSpace(a) == []
    decreases |a|
  {
    if a != [] {
      NonSpaceOfSpace(a[1..]);
    }
  }

  /** Whitespace, where there is any, is single plain spaces. */
  predicate SingleSpaced(s: string) {
    && (forall i :: 0 <= i < |s| && IsSpace(s[i]) ==> s[i] == ' ')
    && (forall i, j :: 0 <= i < |s| && 0 <= j < |s| && j == i + 1 ==> s[i] != ' ' || s[j] != ' ')
  }

  /**
   * `s.replace(/\s+/g, " ")`: each maximal run of whitespace becomes a single
   * space and every other character is kept.
   */
  function CollapseSpaces(s: string): (r: string)
    ensures |r| <= |s|
    decreases |s|
  {
    if s == [] then []
    else if IsSpace(s[0]) then [' '] + CollapseSpaces(TrimStart(s[1..]))
    else [s[0]] + CollapseSpaces(s[1..])
  }

  /** `TrimStart` removes whitespace only. */
  lemma TrimStartNonSpace(s: string)
    ensures NonSpace(TrimStart(s)) == NonSpace(s)
  {
    var t := TrimStart(s);
    var k := |s| - |t|;
    TrimStartSpec(s);
    assert s == s[..k] + t;
    NonSpaceAppend(s[..k], t);
    NonSpaceOfSpace(s[..k]);
  }

  /** The collapsed string is empty, or starts with whitespace, exactly when `s` does. */
  lemma CollapseSpacesStart(s: string)
    ensures CollapseSpaces(s) == [] <==> s == []
    ensures CollapseSpaces(s) != [] ==> (IsSpace(CollapseSpaces(s)[0]) <==> IsSpace(s[0]))
  {
  }

  /** Collapsing keeps every non-whitespace character, in order. */
  lemma {:induction false} CollapseSpacesNonSpace(s: string)
    ensures NonSpace(CollapseSpaces(s)) == NonSpace(s)
    decreases |s|
  {
    if s != [] {
      if IsSpace(s[0]) {
        var t := TrimStart(s[1..]);
        CollapseSpacesNonSpace(t);
        TrimStartNonSpace(s[1..]);
        assert CollapseSpaces(s) == [' '] + CollapseSpaces(t);
        NonSpaceAppend([' '], CollapseSpaces(t));
      } else {
        CollapseSpacesNonSpace(s[1..]);
        assert CollapseSpaces(s) == [s[0]] + CollapseSpaces(s[1..]);
        NonSpaceAppend([s[0]], CollapseSpaces(s[1..]));
      }
    }
  }

  /** After collapsing, whitespace stands only as single plain spaces. */
  lemma {:induction false} CollapseSpacesSingleSpaced(s: string)
    ensures SingleSpaced(CollapseSpaces(s))
    decreases |s|
  {
    if s != [] {
      var r := CollapseSpaces(s);
      if IsSpace(s[0]) {
        var t := TrimStart(s[1..]);
        var rest := CollapseSpaces(t);
        CollapseSpacesSingleSpaced(t);
        CollapseSpacesStart(t);
        TrimStartSpec(s[1..]);
        assert r == [' '] + rest;
        assert rest == [] || !IsSpace(rest[0]);
        assert forall i :: 1 <= i < |r| ==> r[i] == rest[i - 1];
      } else {
        var rest := CollapseSpaces(s[1..]);
        CollapseSpacesSingleSpaced(s[1..]);
        assert r == [s[0]] + rest;
        assert forall i :: 1 <= i < |r| ==> r[i] == rest[i - 1];
      }
    }
  }

  /** Collapsing twice is collapsing once: a single-spaced string is left alone. */
  lemma {:induction false} CollapseSingleSpaced(s: string)
    requires SingleSpaced(s)
    ensures CollapseSpaces(s) == s
    decreases |s|
  {
    if s != [] {
      assert SingleSpaced(s[1..]);
      if IsSpace(s[0]) {
        assert s[1..] == [] || !IsSpace(s[1..][0]);
        TrimStartAt(s[1..], 0);
      }
      CollapseSingleSpaced(s[1..]);
    }
  }

  lemma SingleSpacedSlice(s: string, lo: nat, hi: nat)
    requires SingleSpaced(s) && lo <= hi <= |s|
    ensures SingleSpaced(s[lo..hi])
  {
    assert forall i :: 0 <= i < hi - lo ==> s[lo..hi][i] == s[lo + i];
  }

  /** Trimming a single-spaced string keeps it single-spaced. */
  lemma TrimSingleSpaced(s: string)
    requires SingleSpaced(s)
    ensures SingleSpaced(Trim(s))
  {
    var r := Trim(s);
    TrimSlice(s);
    SingleSpacedSlice(s, TrimOffset(s), TrimOffset(s) + |r|);
  }

  /** Trimming removes whitespace only. */
  lemma TrimNonSpace(s: string)
    ensures NonSpace(Trim(s)) == NonSpace(s)
  {
    var r := Trim(s);
    var k := TrimOffset(s);
    TrimSlice(s);
    var pre, post := s[..k], s[k + |r|..];
    assert s == pre + r + post;
    NonSpaceAppend(pre + r, post);
    NonSpaceAppend(pre, r);
    NonSpaceOfSpace(pre);
    NonSpaceOfSpace(post);
  }

  /** Leading whitespace is stripped from `x` alone when `x` ends in a non-space. */
  lemma {:induction false} TrimStartAppend(x: string, y: string)
    requires x != [] && !IsSpace(x[|x| - 1])
    ensures TrimStart(x + y) == TrimStart(x) + y
    decreases |x|
  {
    if IsSpace(x[0]) {
      assert (x + y)[1..] == x[1..] + y;
      TrimStartAppend(x[1..], y);
    }
  }

  /** `TrimStart` keeps a final non-space, so it leaves a non-empty string ending in it. */
  lemma TrimStartKeepsLast(x: string)
    requires x != [] && !IsSpace(x[|x| - 1])
    ensures TrimStart(x) != [] && TrimStart(x)[|TrimStart(x)| - 1] == x[|x| - 1]
  {
    TrimStartSpec(x);
  }

  /** Collapsing keeps a final non-space as the last character. */
  lemma {:induction false} CollapseSpacesLast(a: string)
    requires a != [] && !IsSpace(a[|a| - 1])
    ensures CollapseSpaces(a) != [] && CollapseSpaces(a)[|CollapseSpaces(a)| - 1] == a[|a| - 1]
    decreases |a|
  {
    if IsSpace(a[0]) {
      var t := TrimStart(a[1..]);
      TrimStartKeepsLast(a[1..]);
      CollapseSpacesLast(t);
    } else if |a| > 1 {
      CollapseSpacesLast(a[1..]);
    }
  }

  /**
   * Where the spaces go: a whitespace run `w` between a part ending in a
   * non-space and a part starting with one becomes exactly one space, and
   * the two sides are collapsed independently.
   */
  lemma {:induction false} CollapseSpacesRun(a: string, w: string, b: string)
    requires w != [] && AllSpace(w)
    requires a == [] || !IsSpace(a[|a| - 1])
    requires b == [] || !IsSpace(b[0])
    ensures CollapseSpaces(a + w + b) == CollapseSpaces(a) + [' '] + CollapseSpaces(b)
    decreases |a|, 1
  {
    if a == [] {
      CollapseSpacesRunAlone(w, b);
      assert a + w + b == w + b;
    } else {
      CollapseSpacesRunStep(a, w, b);
    }
  }

  /** The inductive step of `CollapseSpacesRun`, by the first character of `a`. */
  lemma {:induction false} CollapseSpacesRunStep(a: string, w: string, b: string)
    requires w != [] && AllSpace(w)
    requires a != [] && !IsSpace(a[|a| - 1])
    requires b == [] || !IsSpace(b[0])
    ensures CollapseSpaces(a + w + b) == CollapseSpaces(a) + [' '] + CollapseSpaces(b)
    decreases |a|, 0
  {
    if IsSpace(a[0]) {
      TrimStartKeepsLast(a[1..]);
      CollapseSpacesRun(TrimStart(a[1..]), w, b);
      CollapseSpacesRunSpace(a, w, b);
    } else {
      CollapseSpacesRun(a[1..], w, b);
      CollapseSpacesRunChar(a, w, b);
    }
  }

  /** The step of `CollapseSpacesRun` past a leading whitespace run of `a`. */
  lemma CollapseSpacesRunSpace(a: string, w: string, b: string)
    requires |a| > 1 && IsSpace(a[0]) && !IsSpace(a[|a| - 1])
    requires CollapseSpaces(TrimStart(a[1..]) + w + b)
             == CollapseSpaces(TrimStart(a[1..])) + [' '] + CollapseSpaces(b)
    ensures CollapseSpaces(a + w + b) == CollapseSpaces(a) + [' '] + CollapseSpaces(b)
  {
    var t, cb := TrimStart(a[1..]), CollapseSpaces(b);
    CollapseSpacesSkip(a, w + b);
    calc {
      CollapseSpaces(a + w + b);
      { assert a + w + b == a + (w + b); }
      [' '] + CollapseSpaces(t + (w + b));
      { assert t + (w + b) == t + w + b; }
      [' '] + (CollapseSpaces(t) + [' '] + cb);
      { SeqAssoc3([' '], CollapseSpaces(t), [' '], cb); }
      ([' '] + CollapseSpaces(t)) + [' '] + cb;
      CollapseSpaces(a) + [' '] + cb;
    }
  }

  /** The step of `CollapseSpacesRun` past a leading non-space of `a`. */
  lemma CollapseSpacesRunChar(a: string, w: string, b: string)
    requires a != [] && !IsSpace(a[0])
    requires CollapseSpaces(a[1..] + w + b) == CollapseSpaces(a[1..]) + [' '] + CollapseSpaces(b)
    ensures CollapseSpaces(a + w + b) == CollapseSpaces(a) + [' '] + CollapseSpaces(b)
  {
    var s, x, cb := a + w + b, CollapseSpaces(a[1..]), CollapseSpaces(b);
    assert s[1..] == a[1..] + w + b;
    calc {
      CollapseSpaces(s);
      { assert s[0] == a[0]; }
      [a[0]] + CollapseSpaces(a[1..] + w + b);
      [a[0]] + (x + [' '] + cb);
      { SeqAssoc3([a[0]], x, [' '], cb); }
      ([a[0]] + x) + [' '] + cb;
      CollapseSpaces(a) + [' '] + cb;
    }
  }

  /** Regrouping a four-part concatenation. */
  lemma SeqAssoc3<T>(p: seq<T>, q: seq<T>, r: seq<T>, t: seq<T>)
    ensures p + (q + r + t) == p + q + r + t
  {
  }

  /** The base case of `CollapseSpacesRun`: a leading run becomes one space. */
  lemma CollapseSpacesRunAlone(w: string, b: string)
    requires w != [] && AllSpace(w)
    requires b == [] || !IsSpace(b[0])
    ensures CollapseSpaces(w + b) == [' '] + CollapseSpaces(b)
  {
    assert (w + b)[1..] == w[1..] + b;
    assert (w[1..] + b)[..|w| - 1] == w[1..];
    assert (w[1..] + b)[|w| - 1..] == b;
    TrimStartAt(w[1..] + b, |w| - 1);
  }

  /** A leading space of `a` followed by the rest of `a` and then `y`. */
  lemma CollapseSpacesSkip(a: string, y: string)
    requires a != [] && IsSpace(a[0]) && |a| > 1 && !IsSpace(a[|a| - 1])
    ensures CollapseSpaces(a + y) == [' '] + CollapseSpaces(TrimStart(a[1..]) + y)
    ensures CollapseSpaces(a) == [' '] + CollapseSpaces(TrimStart(a[1..]))
  {
    assert (a + y)[0] == a[0];
    assert (a + y)[1..] == a[1..] + y;
    TrimStartAppend(a[1..], y);
  }

  /** A string without whitespace is left alone by collapsing. */
  lemma CollapseNoSpace(s: string)
    requires NoSpace(s)
    ensures CollapseSpaces(s) == s
  {
    CollapseSingleSpaced(s);
  }

  /** `trim` of two parts joined by one space, when the space is the only whitespace at the seam. */
  lemma TrimJoin(x: string, y: string)
    requires x != [] && !IsSpace(x[|x| - 1])
    requires y != [] && !IsSpace(y[0])
    ensures Trim(x + [' '] + y) == Trim(x) + [' '] + Trim(y)
  {
    var s := x + [' '] + y;
    var kx, tx := TrimOffset(x), Trim(x);
    var ky, ty := TrimOffset(y), Trim(y);
    TrimSlice(x);
    TrimSlice(y);
    assert kx + |tx| == |x|;
    assert ky == 0;
    assert tx != [];
    assert ty != [] && ty[0] == y[0];
    var m := tx + [' '] + ty;
    assert s[kx..kx + |m|] == m by {
      assert s[kx..kx + |m|] == x[kx..] + [' '] + y[..|ty|];
    }
    assert s[..kx] == x[..kx];
    assert s[kx + |m|..] == y[|ty|..];
    assert IsTrimmed(m) by {
      assert m[0] == tx[0];
      assert m[|m| - 1] == ty[|ty| - 1];
    }
    TrimUnique(s, kx, m);
  }

  /** The characters of `s` in `0`..`9`, in order: `s.replace(/\D/g, "")`. */
  function KeepDigits(s: string): (r: string)
    ensures |r| <= |s|
    ensures forall i :: 0 <= i < |r| ==> IsDigit(r[i])
  {
    if s == [] then [] else (if IsDigit(s[0]) then [s[0]] else []) + KeepDigits(s[1..])
  }

  /** Digits are counted position by position: the filter distributes over concatenation. */
  lemma {:induction false} KeepDigitsAppend(a: string, b: string)
    ensures KeepDigits(a + b) == KeepDigits(a) + KeepDigits(b)
    decreases |a|
  {
    if a != [] {
      var head: string := if IsDigit(a[0]) then [a[0]] else [];
      assert KeepDigits(a) == head + KeepDigits(a[1..]);
      calc {
        KeepDigits(a + b);
        { assert (a + b)[0] == a[0]; assert (a + b)[1..] == a[1..] + b; }
        head + KeepDigits(a[1..] + b);
        { KeepDigitsAppend(a[1..], b); }
        head + (KeepDigits(a[1..]) + KeepDigits(b));
        (head + KeepDigits(a[1..])) + KeepDigits(b);
      }
    } else {
      assert a + b == b;
    }
  }

  /** A string of digits only is its own digit filter. */
  lemma {:induction false} KeepDigitsOfDigits(s: string)
    requires forall i :: 0 <= i < |s| ==> IsDigit(s[i])
    ensures KeepDigits(s) == s
    decreases |s|
  {
    if s != [] {
      KeepDigitsOfDigits(s[1..]);
    }
  }

  /** A string without digits filters to the empty string: every non-digit is dropped. */
  lemma {:induction false} KeepDigitsOfNonDigits(s: string)
    requires forall i :: 0 <= i < |s| ==> !IsDigit(s[i])
    ensures KeepDigits(s) == []
    decreases |s|
  {
    if s != [] {
      KeepDigitsOfNonDigits(s[1..]);
    }
  }

  /** The positions of `s` that hold a digit. */
  ghost function DigitPositions(s: string): set<int> {
    set i | 0 <= i < |s| && IsDigit(s[i])
  }

  /** The filter keeps exactly one character per digit position. */
  lemma {:induction false} KeepDigitsCount(s: string)
    ensures |KeepDigits(s)| == |DigitPositions(s)|
    decreases |s|
  {
    if s != [] {
      var t, c := s[..|s| - 1], s[|s| - 1];
      assert t + [c] == s;
      KeepDigitsCount(t);
      KeepDigitsAppend(t, [c]);
      if IsDigit(c) {
        assert DigitPositions(s) == DigitPositions(t) + {|t|};
      } else {
        assert DigitPositions(s) == DigitPositions(t);
      }
    }
  }

  /** JavaScript's `.length`: UTF-16 code units, two for a character outside the Basic Multilingual Plane. */
  function Utf16Length(s: string): (n: nat)
    ensures |s| <= n <= 2 * |s|
  {
    if s == [] then 0 else (if s[0] as int >= 0x1_0000 then 2 else 1) + Utf16Length(s[1..])
  }

  /** `lines.join(sep)`. */
  function Join(lines: seq<string>, sep: char): string {
    if |lines| == 0 then []
    else if |lines| == 1 then lines[0]
    else lines[0] + [sep] + Join(lines[1..], sep)
  }

  /** The pieces of `s` between separators; an empty string gives one empty piece. Inverse of `Join`. */
  function Split(s: string, sep: char): (pieces: seq<string>)
    ensures |pieces| >= 1
    ensures forall p :: p in pieces ==> sep !in p
  {
    if s == [] then [[]]
    else
      var rest := Split(s[1..], sep);
      if s[0] == sep then [[]] + rest else [[s[0]] + rest[0]] + rest[1..]
  }

  lemma {:induction false} SplitOneLine(l: string, sep: char)
    requires sep !in l
    ensures Split(l, sep) == [l]
    decreases |l|
  {
    if l != [] {
      assert l[0] in l;
      SplitOneLine(l[1..], sep);
      assert [l[0]] + l[1..] == l;
    }
  }

  lemma {:induction false} SplitAfterLine(l: string, sep: char, t: string)
    requires sep !in l
    ensures Split(l + [sep] + t, sep) == [l] + Split(t, sep)
    decreases |l|
  {
    if l != [] {
      assert l[0] in l;
      assert (l + [sep] + t)[0] == l[0];
      assert (l + [sep] + t)[1..] == l[1..] + [sep] + t;
      SplitAfterLine(l[1..], sep, t);
      assert [l[0]] + l[1..] == l;
    } else {
      assert (l + [sep] + t)[1..] == t;
    }
  }

  /** Splitting undoes joining when no piece holds the separator. */
  lemma {:induction false} SplitJoin(lines: seq<string>, sep: char)
    requires |lines| >= 1
    requires forall k :: 0 <= k < |lines| ==> sep !in lines[k]
    ensures Split(Join(lines, sep), sep) == lines
    decreases |lines|
  {
    if |lines| == 1 {
      SplitOneLine(lines[0], sep);
    } else {
      SplitAfterLine(lines[0], sep, Join(lines[1..], sep));
      SplitJoin(lines[1..], sep);
    }
  }

  /** `sub` stands in `s` from position `i`. */
  ghost predicate OccursAt(sub: string, s: string, i: int) {
    0 <= i <= |s| - |sub| && s[i..i + |sub|] == sub
  }

  /** `sub` is a contiguous part of `s`. */
  ghost predicate Occurs(sub: string, s: string) {
    exists i :: OccursAt(sub, s, i)
  }

  lemma OccursInSuffix(sub: string, a: string, b: string)
    requires Occurs(sub, b)
    ensures Occurs(sub, a + b)
  {
    var i :| OccursAt(sub, b, i);
    assert (a + b)[|a| + i..|a| + i + |sub|] == b[i..i + |sub|];
    assert OccursAt(sub, a + b, |a| + i);
  }

  lemma OccursTransitive(x: string, y: string, z: string)
    requires Occurs(x, y) && Occurs(y, z)
    ensures Occurs(x, z)
  {
    var i :| OccursAt(x, y, i);
    var j :| OccursAt(y, z, j);
    forall n | 0 <= n < |x| ensures z[j + i + n] == x[n] {
      assert z[j + i + n] == z[j..j + |y|][i + n] == y[i + n] == y[i..i + |x|][n];
    }
    assert z[j + i..j + i + |x|] == x;
    assert OccursAt(x, z, j + i);
  }

  /** Every piece of a join appears in it. */
  lemma {:induction false} OccursInJoin(lines: seq<string>, sep: char, k: nat)
    requires k < |lines|
    ensures Occurs(lines[k], Join(lines, sep))
    decreases |lines|
  {
    if k == 0 {
      assert OccursAt(lines[0], Join(lines, sep), 0);
    } else {
      OccursInJoin(lines[1..], sep, k - 1);
      OccursInSuffix(lines[k], lines[0] + [sep], Join(lines[1..], sep));
    }
  }
}
