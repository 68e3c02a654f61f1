/**
 * String helpers shared by the server model (Go's `strings` and `path/filepath`
 * functions) and the client model (JavaScript's `trim`, `padStart`, `toString`).
 * Strings are sequences of characters; no encoding is modelled.
 */
module Strings {

  /** Go `strings.HasPrefix` / JavaScript `startsWith`. */
  predicate HasPrefix(s: string, p: string) {
    |p| <= |s| && s[..|p|] == p
  }

  /** Go `strings.HasSuffix`. */
  predicate HasSuffix(s: string, p: string) {
    |p| <= |s| && s[|s| - |p|..] == p
  }

  /** Go `strings.TrimPrefix`: removes one leading `p` when present. */
  function TrimPrefix(s: string, p: string): (r: string)
    ensures HasPrefix(s, p) ==> p + r == s
    ensures !HasPrefix(s, p) ==> r == s
  {
    if HasPrefix(s, p) then s[|p|..] else s
  }

  /** Go `strings.TrimSuffix`: removes one trailing `p` when present. */
  function TrimSuffix(s: string, p: string): (r: string)
    ensures HasSuffix(s, p) ==> r + p == s
    ensures !HasSuffix(s, p) ==> r == s
  {
    if HasSuffix(s, p) then s[..|s| - |p|] else s
  }

  lemma PrefixOfConcat(p: string, r: string)
    ensures HasPrefix(p + r, p) && TrimPrefix(p + r, p) == r
  {
    assert (p + r)[..|p|] == p;
    assert (p + r)[|p|..] == r;
  }

  lemma SuffixOfConcat(r: string, p: string)
    ensures HasSuffix(r + p, p) && TrimSuffix(r + p, p) == r
  {
    assert (r + p)[|r|..] == p;
    assert (r + p)[..|r|] == r;
  }

  // ---------------------------------------------------------------------------
  // Decimal numerals (Go `%d`, JavaScript `Number.prototype.toString`)
  // ---------------------------------------------------------------------------

  predicate IsDigit(c: char) {
    '0' <= c <= '9'
  }

  function DigitChar(d: nat): (c: char)
    requires d < 10
    ensures IsDigit(c) && c as int - '0' as int == d
  {
    ['0', '1', '2', '3', '4', '5', '6', '7', '8', '9'][d]
  }

  /** The decimal numeral of `n`, without sign and without leading zeros. */
  function NatToString(n: nat): (r: string)
    ensures |r| >= 1
    ensures forall i :: 0 <= i < |r| ==> IsDigit(r[i])
    ensures |r| > 1 ==> r[0] != '0'
    ensures n < 10 <==> |r| == 1
    decreases n
  {
    if n < 10 then [DigitChar(n)] else NatToString(n / 10) + [DigitChar(n % 10)]
  }

  /** The value of a string of decimal digits (most significant first). */
  function DecimalValue(s: string): nat
    requires forall i :: 0 <= i < |s| ==> IsDigit(s[i])
  {
    if s == [] then 0
    else
      assert IsDigit(s[|s| - 1]);
      10 * DecimalValue(s[..|s| - 1]) + (s[|s| - 1] as int - '0' as int)
  }

  /** Reading back a printed numeral gives the number. */
  lemma {:induction false} DecimalRoundTrip(n: nat)
    ensures DecimalValue(NatToString(n)) == n
    decreases n
  {
    var r := NatToString(n);
    if n >= 10 {
      DecimalRoundTrip(n / 10);
      assert r[..|r| - 1] == NatToString(n / 10);
    }
  }

  /** Distinct numbers print differently. */
  lemma NatToStringInjective(m: nat, n: nat)
    requires NatToString(m) == NatToString(n)
    ensures m == n
  {
    DecimalRoundTrip(m);
    DecimalRoundTrip(n);
  }

  /** JavaScript `padStart(width, c)`. */
  function PadStart(s: string, width: nat, c: char): (r: string)
    ensures |r| == if |s| >= width then |s| else width
    ensures r[|r| - |s|..] == s
    ensures forall i :: 0 <= i < |r| - |s| ==> r[i] == c
    decreases width - |s|
  {
    if |s| >= width then s
    else
      var r := PadStart([c] + s, width, c);
      var k := |r| - |s| - 1;
      assert r[k..] == [c] + s;
      assert r[k + 1..] == s by {
        assert r[k + 1..] == r[k..][1..];
      }
      assert forall i :: 0 <= i <= k ==> r[i] == c by {
        assert r[k] == ([c] + s)[0];
      }
      r
  }

  // ---------------------------------------------------------------------------
  // Paths (Go `path/filepath.Base` on a Unix host)
  // ---------------------------------------------------------------------------

  function DropTrailingSlashes(p: string): (r: string)
    ensures |r| <= |p| && r == p[..|r|]
    ensures '/' !in p ==> r == p
    ensures r == [] || r[|r| - 1] != '/'
  {
    if p != [] && p[|p| - 1] == '/' then DropTrailingSlashes(p[..|p| - 1]) else p
  }

  /** The part of `p` after its last slash (all of `p` when there is none). */
  function LastElement(p: string): (r: string)
    ensures '/' !in r
    ensures |r| <= |p| && r == p[|p| - |r|..]
    ensures '/' !in p ==> r == p
  {
    if p == [] then []
    else if p[|p| - 1] == '/' then []
    else LastElement(p[..|p| - 1]) + [p[|p| - 1]]
  }

  /** Go `filepath.Base`: "." for the empty path, "/" for a path of slashes only. */
  function Base(p: string): (r: string)
    ensures r != []
    ensures p != [] && '/' !in p ==> r == p
  {
    if p == [] then "."
    else
      var q := DropTrailingSlashes(p);
      var last := LastElement(q);
      if last == [] then "/" else last
  }

  lemma LastElementAfterSlash(dir: string, name: string)
    requires '/' !in name
    ensures LastElement(dir + "/" + name) == name
  {
    LastElementOfTail(dir + "/", name);
  }

  /** After a prefix ending in a slash, the last element is the rest. */
  lemma {:induction false} LastElementOfTail(q: string, name: string)
    requires q != [] && q[|q| - 1] == '/' && '/' !in name
    ensures LastElement(q + name) == name
    decreases |name|
  {
    if name == [] {
      assert q + name == q;
    } else {
      var n := |name| - 1;
      var init := name[..n];
      assert name == init + [name[n]];
      assert q + name == (q + init) + [name[n]];
      LastElementOfTail(q, init);
      LastElementOfSnoc(q + init, name[n]);
    }
  }

  /** A character other than a slash extends the last element. */
  lemma LastElementOfSnoc(p: string, c: char)
    requires c != '/'
    ensures LastElement(p + [c]) == LastElement(p) + [c]
  {
    var s := p + [c];
    assert s[..|s| - 1] == p;
  }

  /** The base name of `dir/name` is `name` when `name` is a non-empty path element. */
  lemma BaseOfJoin(dir: string, name: string)
    requires name != [] && '/' !in name
    ensures Base(dir + "/" + name) == name
  {
    var p := dir + "/" + name;
    assert p[|p| - 1] == name[|name| - 1];
    assert DropTrailingSlashes(p) == p;
    LastElementAfterSlash(dir, name);
  }

  // ---------------------------------------------------------------------------
  // Whitespace (JavaScript `String.prototype.trim`)
  // ---------------------------------------------------------------------------

  /** WhiteSpace and LineTerminator code points of ECMAScript (section 12.2 and 12.3 of ECMA-262). */
  predicate IsJsWhitespace(c: char) {
    c == '\t' || c == '\n' || c == '\U{000B}' || c == '\U{000C}' || c == '\r' || c == ' '
    || c == '\U{00A0}' || c == '\U{1680}' || ('\U{2000}' <= c <= '\U{200A}')
    || c == '\U{2028}' || c == '\U{2029}' || c == '\U{202F}' || c == '\U{205F}'
    || c == '\U{3000}' || c == '\U{FEFF}'
  }

  function TrimStart(s: string): (r: string)
    ensures |r| <= |s| && r == s[|s| - |r|..]
    ensures r == [] || !IsJsWhitespace(r[0])
    ensures forall i :: 0 <= i < |s| - |r| ==> IsJsWhitespace(s[i])
  {
    if s != [] && IsJsWhitespace(s[0]) then TrimStart(s[1..]) else s
  }

  function TrimEnd(s: string): (r: string)
    ensures |r| <= |s| && r == s[..|r|]
    ensures r == [] || !IsJsWhitespace(r[|r| - 1])
    ensures forall i :: |r| <= i < |s| ==> IsJsWhitespace(s[i])
  {
    if s != [] && IsJsWhitespace(s[|s| - 1]) then TrimEnd(s[..|s| - 1]) else s
  }

  /** JavaScript `trim()`. */
  function Trim(s: string): string {
    TrimEnd(TrimStart(s))
  }

  /** Every character of `s` is whitespace. */
  predicate IsBlank(s: string) {
    forall i :: 0 <= i < |s| ==> IsJsWhitespace(s[i])
  }

  /** `s.trim()` is the empty (falsy) string exactly when `s` is blank. */
  lemma TrimEmptyIffBlank(s: string)
    ensures Trim(s) == [] <==> IsBlank(s)
  {
    var t := TrimStart(s);
    if Trim(s) != [] {
      var k := |s| - |t|;
      assert !IsJsWhitespace(t[0]) && s[k] == t[0];
    }
  }
}
