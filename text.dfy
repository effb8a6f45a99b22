/**
 * Character classes and string helpers used by both the Python views and the
 * browser scripts.  Every class is the ASCII one: Python's `str.strip`,
 * `str.lower` and JavaScript's `trim`, `toLowerCase` are Unicode-aware, this
 * model is not.
 */
module Text {
  predicate IsDigit(c: char) { '0' <= c <= '9' }
  predicate IsUpper(c: char) { 'A' <= c <= 'Z' }
  predicate IsLowerCase(c: char) { 'a' <= c <= 'z' }
  predicate IsAlpha(c: char) { IsUpper(c) || IsLowerCase(c) }
  /** `\w` of both regex dialects, restricted to ASCII. */
  predicate IsWordChar(c: char) { IsAlpha(c) || IsDigit(c) || c == '_' }
  /** `\s`, restricted to ASCII. */
  predicate IsSpace(c: char) {
    c == ' ' || c == '\t' || c == '\n' || c == '\r' || c == '\U{0B}' || c == '\U{0C}'
  }

  predicate AllDigits(s: string) { forall i :: 0 <= i < |s| ==> IsDigit(s[i]) }
  predicate AllSpace(s: string) { forall i :: 0 <= i < |s| ==> IsSpace(s[i]) }
  predicate HasAlpha(s: string) { exists i :: 0 <= i < |s| && IsAlpha(s[i]) }

  function LowerChar(c: char): (r: char)
    ensures IsUpper(c) ==> IsLowerCase(r) && r as int == c as int + 32
    ensures !IsUpper(c) ==> r == c
  {
    if IsUpper(c) then (c as int + 32) as char else c
  }

  function UpperChar(c: char): (r: char)
    ensures IsLowerCase(c) ==> IsUpper(r) && r as int + 32 == c as int
    ensures !IsLowerCase(c) ==> r == c
  {
    if IsLowerCase(c) then (c as int - 32) as char else c
  }

  /** `str.lower()` / `toLowerCase()`. */
  function Lower(s: string): (r: string)
    ensures |r| == |s|
    ensures forall i :: 0 <= i < |s| ==> r[i] == LowerChar(s[i])
  {
    if s == [] then [] else [LowerChar(s[0])] + Lower(s[1..])
  }

  lemma {:induction false} LowerIdempotent(s: string)
    ensures Lower(Lower(s)) == Lower(s)
  {
    if s != [] { LowerIdempotent(s[1..]); }
  }

  predicate StartsWith(s: string, p: string) { |p| <= |s| && s[..|p|] == p }

  predicate EndsWith(s: string, p: string) { |p| <= |s| && s[|s| - |p|..] == p }

  /** `sub in s` / `s.includes(sub)`. */
  predicate Contains(s: string, sub: string) {
    exists i :: 0 <= i <= |s| && StartsWith(s[i..], sub)
  }

  /** `any(p in s for p in ps)`. */
  predicate ContainsAny(s: string, ps: seq<string>) {
    exists k :: 0 <= k < |ps| && Contains(s, ps[k])
  }

  /** `any(s.startswith(p) for p in ps)`. */
  predicate StartsWithAny(s: string, ps: seq<string>) {
    exists k :: 0 <= k < |ps| && StartsWith(s, ps[k])
  }

  lemma ContainsSelfPrefix(s: string, sub: string)
    requires StartsWith(s, sub)
    ensures Contains(s, sub)
  {
    assert s[0..] == s;
  }

  // ---------------------------------------------------------------- strip

  /** Number of leading whitespace characters. */
  function LeadLen(s: string): (n: nat)
    ensures n <= |s|
    ensures forall i :: 0 <= i < n ==> IsSpace(s[i])
    ensures n < |s| ==> !IsSpace(s[n])
  {
    if s != [] && IsSpace(s[0]) then 1 + LeadLen(s[1..]) else 0
  }

  /** Number of trailing whitespace characters. */
  function TrailLen(s: string): (n: nat)
    ensures n <= |s|
    ensures forall i :: |s| - n <= i < |s| ==> IsSpace(s[i])
    ensures n < |s| ==> !IsSpace(s[|s| - 1 - n])
  {
    if s != [] && IsSpace(s[|s| - 1]) then 1 + TrailLen(s[..|s| - 1]) else 0
  }

  /** `str.strip()` / `String.prototype.trim()`. */
  function Strip(s: string): (r: string)
    ensures |r| <= |s|
    ensures r == [] <==> AllSpace(s)
    ensures r != [] ==> !IsSpace(r[0]) && !IsSpace(r[|r| - 1])
  {
    var a := LeadLen(s);
    if a == |s| then []
    else
      var b := TrailLen(s);
      assert !IsSpace(s[a]);
      assert |s| - b > a;
      s[a..|s| - b]
  }

  predicate IsStripped(s: string) { s == [] || (!IsSpace(s[0]) && !IsSpace(s[|s| - 1])) }

  lemma StripStripped(s: string)
    requires IsStripped(s)
    ensures Strip(s) == s
  {
    if s != [] {
      assert LeadLen(s) == 0;
      assert TrailLen(s) == 0;
    }
  }

  lemma StripIdempotent(s: string)
    ensures Strip(Strip(s)) == Strip(s)
  {
    StripStripped(Strip(s));
  }

  lemma StripSpacePrefixed(p: string)
    requires p != [] && IsStripped(p)
    ensures Strip([' '] + p) == p
  {
    var s := [' '] + p;
    assert s[1..] == p;
    assert LeadLen(p) == 0;
    assert LeadLen(s) == 1;
    assert s[|s| - 1] == p[|p| - 1];
    assert TrailLen(s) == 0;
  }

  // ---------------------------------------------------------------- numbers

  function DigitChar(d: nat): (c: char)
    requires d < 10
    ensures IsDigit(c)
  {
    ('0' as int + d) as char
  }

  function DigitValue(c: char): (d: nat)
    requires IsDigit(c)
    ensures d < 10
  {
    c as int - '0' as int
  }

  /** `str(n)` / template-literal interpolation of a natural number. */
  function NatStr(n: nat): (r: string)
    ensures r != [] && AllDigits(r)
  {
    if n < 10 then [DigitChar(n)] else NatStr(n / 10) + [DigitChar(n % 10)]
  }

  /** `int(s)` on a string of decimal digits. */
  function ParseNat(s: string): nat
    requires AllDigits(s)
  {
    if s == [] then 0 else 10 * ParseNat(s[..|s| - 1]) + DigitValue(s[|s| - 1])
  }

  lemma {:induction false} ParseNatStr(n: nat)
    ensures ParseNat(NatStr(n)) == n
  {
    var s := NatStr(n);
    if n >= 10 {
      assert s[..|s| - 1] == NatStr(n / 10);
      ParseNatStr(n / 10);
    }
  }

  lemma NatStrInjective(m: nat, n: nat)
    requires NatStr(m) == NatStr(n)
    ensures m == n
  {
    ParseNatStr(m);
    ParseNatStr(n);
  }

  /** `f"{n:0{w}d}"`: the decimal digits of `n`, left-padded with '0' to width `w`. */
  function ZeroPad(n: nat, w: nat): (r: string)
    ensures AllDigits(r)
    ensures |r| == (if |NatStr(n)| < w then w else |NatStr(n)|)
  {
    var d := NatStr(n);
    if |d| < w then seq(w - |d|, _ => '0') + d else d
  }

  lemma ZeroPadValue(n: nat, w: nat)
    ensures ParseNat(ZeroPad(n, w)) == n
  {
    ParseNatStr(n);
    var d := NatStr(n);
    if |d| < w {
      ParseNatZeros(w - |d|, d);
    }
  }

  lemma {:induction false} ParseNatZeros(k: nat, d: string)
    requires AllDigits(d)
    ensures AllDigits(seq(k, _ => '0') + d)
    ensures ParseNat(seq(k, _ => '0') + d) == ParseNat(d)
  {
    var z := seq(k, _ => '0');
    var s := z + d;
    if d == [] {
      assert s == z;
      if k > 0 {
        assert s[..|s| - 1] == seq(k - 1, _ => '0');
        ParseNatZeros(k - 1, []);
        assert seq(k - 1, _ => '0') + [] == seq(k - 1, _ => '0');
      }
    } else {
      assert s[..|s| - 1] == z + d[..|d| - 1];
      ParseNatZeros(k, d[..|d| - 1]);
    }
  }

  // ---------------------------------------------------------------- split / join

  /** `s.split(sep)` for a non-empty separator. */
  function SplitOn(s: string, sep: string): (r: seq<string>)
    requires sep != []
    ensures |r| >= 1
    decreases |s|
  {
    if StartsWith(s, sep) then [[]] + SplitOn(s[|sep|..], sep)
    else if s == [] then [[]]
    else
      var rest := SplitOn(s[1..], sep);
      [[s[0]] + rest[0]] + rest[1..]
  }

  /** `sep.join(ps)` / `ps.join(sep)`. */
  function Join(ps: seq<string>, sep: string): string {
    if ps == [] then []
    else if |ps| == 1 then ps[0]
    else ps[0] + sep + Join(ps[1..], sep)
  }

  predicate Free(s: string, c: char) { forall i :: 0 <= i < |s| ==> s[i] != c }

  lemma {:induction false} SplitCharFree(p: string, rest: string, d: char)
    requires Free(p, d)
    ensures SplitOn(p + [d] + rest, [d]) == [p] + SplitOn(rest, [d])
    ensures SplitOn(p, [d]) == [p]
    decreases |p|
  {
    if p == [] {
      assert (p + [d] + rest)[1..] == rest;
    } else {
      assert (p + [d] + rest)[1..] == p[1..] + [d] + rest;
      SplitCharFree(p[1..], rest, d);
      assert [p[0]] + p[1..] == p;
    }
  }

  /** Splitting a join on a one-character separator gives the pieces back. */
  lemma {:induction false} SplitJoin(ps: seq<string>, d: char)
    requires ps != []
    requires forall k :: 0 <= k < |ps| ==> Free(ps[k], d)
    ensures SplitOn(Join(ps, [d]), [d]) == ps
  {
    if |ps| == 1 {
      SplitCharFree(ps[0], [], d);
    } else {
      var tail := ps[1..];
      var j := Join(tail, [d]);
      assert Join(ps, [d]) == ps[0] + [d] + j;
      SplitJoin(tail, d);
      SplitCharFree(ps[0], j, d);
      assert ps == [ps[0]] + tail;
    }
  }

  /**
   * The non-blank stripped pieces of `s.split(sep)`, in order: the list
   * comprehension `[p.strip() for p in s.split(sep) if p.strip()]` and the
   * chain `s.split(sep).map(x => x.trim()).filter(Boolean)`.
   */
  function Pieces(s: string, sep: string): (r: seq<string>)
    requires sep != []
    ensures forall k :: 0 <= k < |r| ==> r[k] != [] && Strip(r[k]) == r[k]
  {
    KeepNonBlank(SplitOn(s, sep))
  }

  function KeepNonBlank(ps: seq<string>): (r: seq<string>)
    ensures |r| <= |ps|
    ensures forall k :: 0 <= k < |r| ==> r[k] != [] && Strip(r[k]) == r[k]
  {
    if ps == [] then []
    else
      var t := Strip(ps[0]);
      StripIdempotent(ps[0]);
      if t == [] then KeepNonBlank(ps[1..]) else [t] + KeepNonBlank(ps[1..])
  }

  /** Pieces that the round trip through `join(", ")` preserves. */
  predicate CleanPiece(p: string, d: char) { p != [] && IsStripped(p) && Free(p, d) }

  function SpaceAfterFirst(ps: seq<string>): (q: seq<string>)
    requires ps != []
    ensures |q| == |ps| && q[0] == ps[0]
    ensures forall k :: 1 <= k < |q| ==> q[k] == [' '] + ps[k]
  {
    [ps[0]] + seq(|ps| - 1, k requires 0 <= k < |ps| - 1 => [' '] + ps[k + 1])
  }

  lemma {:induction false} JoinCommaSpace(ps: seq<string>, d: char)
    requires ps != []
    ensures Join(ps, [d, ' ']) == Join(SpaceAfterFirst(ps), [d])
  {
    if |ps| > 1 {
      JoinCommaSpace(ps[1..], d);
      var q := SpaceAfterFirst(ps);
      var q1 := SpaceAfterFirst(ps[1..]);
      assert q[1..] == [[' '] + q1[0]] + q1[1..];
      assert Join(q[1..], [d]) == [' '] + Join(q1, [d]);
      assert [d, ' '] == [d] + [' '];
    }
  }

  /** `Pieces` undoes a join with ", " of clean pieces. */
  lemma PiecesJoin(ps: seq<string>, d: char)
    requires !IsSpace(d)
    requires forall k :: 0 <= k < |ps| ==> CleanPiece(ps[k], d)
    ensures Pieces(Join(ps, [d, ' ']), [d]) == ps
  {
    if ps != [] {
      var q := SpaceAfterFirst(ps);
      JoinCommaSpace(ps, d);
      SpaceAfterFirstFree(ps, d);
      SplitJoin(q, d);
      KeepNonBlankClean(q, ps);
    }
  }

  lemma SpaceAfterFirstFree(ps: seq<string>, d: char)
    requires ps != [] && d != ' '
    requires forall k :: 0 <= k < |ps| ==> Free(ps[k], d)
    ensures forall k :: 0 <= k < |ps| ==> Free(SpaceAfterFirst(ps)[k], d)
  {
    var q := SpaceAfterFirst(ps);
    forall k | 0 <= k < |q| ensures Free(q[k], d) {
      if k > 0 { assert q[k] == [' '] + ps[k]; }
    }
  }

  lemma KeepNonBlankClean(q: seq<string>, ps: seq<string>)
    requires |q| == |ps| && ps != []
    requires forall k :: 0 <= k < |ps| ==> ps[k] != [] && IsStripped(ps[k])
    requires q[0] == ps[0]
    requires forall k :: 1 <= k < |q| ==> q[k] == [' '] + ps[k]
    ensures KeepNonBlank(q) == ps
  {
    StripStripped(ps[0]);
    KeepNonBlankHead(q, ps[0]);
    SpacedTail(q, ps);
    KeepNonBlankSpaced(ps[1..]);
    assert [ps[0]] + ps[1..] == ps;
  }

  /** A first piece that strips to something non-blank is kept, stripped. */
  lemma KeepNonBlankHead(q: seq<string>, t: string)
    requires q != [] && Strip(q[0]) == t && t != []
    ensures KeepNonBlank(q) == [t] + KeepNonBlank(q[1..])
  {
  }

  lemma SpacedTail(q: seq<string>, ps: seq<string>)
    requires |q| == |ps| && ps != []
    requires forall k :: 1 <= k < |q| ==> q[k] == [' '] + ps[k]
    ensures q[1..] == Spaced(ps[1..])
  {
    var rest := ps[1..];
    forall k | 0 <= k < |rest| ensures q[1..][k] == Spaced(rest)[k] {
      assert q[1..][k] == q[k + 1];
    }
  }

  /** Each piece behind a space. */
  function Spaced(ps: seq<string>): (q: seq<string>)
    ensures |q| == |ps| && forall k :: 0 <= k < |ps| ==> q[k] == [' '] + ps[k]
  {
    seq(|ps|, k requires 0 <= k < |ps| => [' '] + ps[k])
  }

  lemma SpacedSlice(ps: seq<string>)
    requires ps != []
    ensures Spaced(ps)[1..] == Spaced(ps[1..])
  {
  }

  lemma {:induction false} KeepNonBlankSpaced(ps: seq<string>)
    requires forall k :: 0 <= k < |ps| ==> ps[k] != [] && IsStripped(ps[k])
    ensures KeepNonBlank(Spaced(ps)) == ps
  {
    if ps != [] {
      var q := Spaced(ps);
      StripSpacePrefixed(ps[0]);
      KeepNonBlankHead(q, ps[0]);
      SpacedSlice(ps);
      KeepNonBlankSpaced(ps[1..]);
      assert [ps[0]] + ps[1..] == ps;
    }
  }

  /**
   * `l` is the last piece of splitting `s` on `d`: free of `d`, a suffix
   * of `s`, the whole of `s` when there is a single piece and otherwise
   * preceded by a separator.
   */
  predicate LastPieceOf(s: string, d: char, l: string, single: bool) {
    Free(l, d) && EndsWith(s, l) &&
    (single ==> l == s) &&
    (!single ==> |l| < |s| && s[|s| - |l| - 1] == d)
  }

  lemma LastAfterSeparator(s: string, d: char, l: string, single: bool)
    requires StartsWith(s, [d]) && LastPieceOf(s[1..], d, l, single)
    ensures LastPieceOf(s, d, l, false)
  {
    assert s[|s| - |l|..] == s[1..][|s| - 1 - |l|..];
    if !single {
      assert s[|s| - |l| - 1] == s[1..][|s| - 1 - |l| - 1];
    }
  }

  lemma LastAfterChar(s: string, d: char, l: string, single: bool)
    requires s != [] && s[0] != d && LastPieceOf(s[1..], d, l, single)
    ensures LastPieceOf(s, d, if single then s else l, single)
  {
    if single {
      assert s == [s[0]] + s[1..];
    } else {
      assert s[|s| - |l|..] == s[1..][|s| - 1 - |l|..];
      assert s[|s| - |l| - 1] == s[1..][|s| - 1 - |l| - 1];
    }
  }

  /**
   * The last piece of `s.split(d)` is the longest separator-free suffix:
   * the whole string when there is no separator, otherwise what follows the
   * last one.
   */
  lemma {:induction false} SplitLast(s: string, d: char)
    ensures var ps := SplitOn(s, [d]); LastPieceOf(s, d, ps[|ps| - 1], |ps| == 1)
    decreases |s|
  {
    if StartsWith(s, [d]) {
      SplitLast(s[1..], d);
      var rest := SplitOn(s[1..], [d]);
      LastAfterSeparator(s, d, rest[|rest| - 1], |rest| == 1);
      SplitOnSeparatorLast(s, d);
    } else if s == [] {
      assert SplitOn(s, [d]) == [[]];
    } else {
      SplitLast(s[1..], d);
      var rest := SplitOn(s[1..], [d]);
      LastAfterChar(s, d, rest[|rest| - 1], |rest| == 1);
      SplitOnCharLast(s, d);
      if |rest| == 1 {
        assert [s[0]] + s[1..] == s;
      }
    }
  }

  /** A leading separator adds an empty first piece. */
  lemma SplitOnSeparator(s: string, d: char)
    requires StartsWith(s, [d])
    ensures SplitOn(s, [d]) == [[]] + SplitOn(s[1..], [d])
  {
  }

  /** ... and so keeps the last piece. */
  lemma {:induction false} SplitOnSeparatorLast(s: string, d: char)
    requires StartsWith(s, [d])
    ensures |SplitOn(s, [d])| == |SplitOn(s[1..], [d])| + 1
    ensures SplitOn(s, [d])[|SplitOn(s, [d])| - 1] == SplitOn(s[1..], [d])[|SplitOn(s[1..], [d])| - 1]
  {
    SplitOnSeparator(s, d);
  }

  /** A leading non-separator joins the first piece. */
  lemma SplitOnChar(s: string, d: char)
    requires s != [] && !StartsWith(s, [d])
    ensures SplitOn(s, [d]) == [[s[0]] + SplitOn(s[1..], [d])[0]] + SplitOn(s[1..], [d])[1..]
  {
  }

  /** ... and so keeps the count, and the last piece unless it was the only one. */
  lemma {:induction false} SplitOnCharLast(s: string, d: char)
    requires s != [] && !StartsWith(s, [d])
    ensures |SplitOn(s, [d])| == |SplitOn(s[1..], [d])|
    ensures |SplitOn(s[1..], [d])| == 1 ==> SplitOn(s, [d])[0] == [s[0]] + SplitOn(s[1..], [d])[0]
    ensures |SplitOn(s[1..], [d])| > 1 ==>
      SplitOn(s, [d])[|SplitOn(s, [d])| - 1] == SplitOn(s[1..], [d])[|SplitOn(s[1..], [d])| - 1]
  {
    SplitOnChar(s, d);
  }
}
