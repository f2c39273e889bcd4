/**
 * The JavaScript string operations the core relies on: the UTF-16 code units that
 * `charCodeAt` reads, `toLowerCase` (on ASCII letters), `trim` and `includes`.
 */
module JsStrings {

  /** The UTF-16 encoding of one Unicode scalar value: one code unit, or a surrogate pair. */
  function CodeUnitsOf(c: char): (u: seq<int>)
    ensures 1 <= |u| <= 2
    ensures forall i :: 0 <= i < |u| ==> 0 <= u[i] < 0x1_0000
    ensures |u| == 1 <==> c as int < 0x1_0000
    ensures |u| == 1 ==> u[0] == c as int
    ensures |u| == 2 ==> 0xD800 <= u[0] < 0xDC00 && 0xDC00 <= u[1] < 0xE000
    ensures |u| == 2 ==> 0x1_0000 + (u[0] - 0xD800) * 0x400 + (u[1] - 0xDC00) == c as int
  {
    var v := c as int;
    if v < 0x1_0000 then [v]
    else [0xD800 + (v - 0x1_0000) / 0x400, 0xDC00 + (v - 0x1_0000) % 0x400]
  }

  /** The code units of a string, as `s.length` and `s.charCodeAt(i)` see them. */
  function Utf16(s: string): (u: seq<int>)
    ensures |u| >= |s|
    ensures forall i :: 0 <= i < |u| ==> 0 <= u[i] < 0x1_0000
    ensures (forall i :: 0 <= i < |s| ==> s[i] as int < 0x1_0000) ==> |u| == |s| && forall i :: 0 <= i < |s| ==> u[i] == s[i] as int
  {
    if s == [] then [] else CodeUnitsOf(s[0]) + Utf16(s[1..])
  }

  /** One character is encoded as its own code units. */
  lemma Utf16OfChar(c: char)
    ensures Utf16([c]) == CodeUnitsOf(c)
  {
    assert [c][1..] == [];
  }

  /** The encoding works character by character: it distributes over concatenation. */
  lemma {:induction false} Utf16Concat(a: string, b: string)
    ensures Utf16(a + b) == Utf16(a) + Utf16(b)
  {
    if a == [] {
      assert a + b == b;
    } else {
      assert (a + b)[0] == a[0] && (a + b)[1..] == a[1..] + b;
      Utf16Concat(a[1..], b);
    }
  }

  function AsciiLowerChar(c: char): (r: char)
    ensures 'A' <= c <= 'Z' ==> r as int == c as int + 32
    ensures !('A' <= c <= 'Z') ==> r == c
  {
    if 'A' <= c <= 'Z' then (c as int + 32) as char else c
  }

  /** `toLowerCase`, restricted to the ASCII letters. */
  function Lower(s: string): (r: string)
    ensures |r| == |s|
    ensures forall i :: 0 <= i < |s| ==> r[i] == AsciiLowerChar(s[i])
  {
    if s == [] then [] else [AsciiLowerChar(s[0])] + Lower(s[1..])
  }

  /** The characters `trim` removes: ECMAScript WhiteSpace (with every Zs space) and LineTerminator. */
  predicate IsJsSpace(c: char) {
    var v := c as int;
    v == 0x09 || v == 0x0B || v == 0x0C || v == 0x20 || v == 0xA0 || v == 0xFEFF  // WhiteSpace
    || v == 0x1680 || 0x2000 <= v <= 0x200A || v == 0x202F || v == 0x205F || v == 0x3000  // Zs
    || v == 0x0A || v == 0x0D || v == 0x2028 || v == 0x2029  // LineTerminator
  }

  /** The number of leading spaces of `s`. */
  function Lead(s: string): (n: nat)
    ensures n <= |s|
    ensures forall k :: 0 <= k < n ==> IsJsSpace(s[k])
    ensures n < |s| ==> !IsJsSpace(s[n])
  {
    if s != [] && IsJsSpace(s[0]) then 1 + Lead(s[1..]) else 0
  }

  /** Drops the trailing spaces: the result is a prefix and everything dropped is a space. */
  function TrimEnd(s: string): (r: string)
    ensures |r| <= |s| && r == s[..|r|]
    ensures r != [] ==> !IsJsSpace(r[|r| - 1])
    ensures forall i :: |r| <= i < |s| ==> IsJsSpace(s[i])
  {
    if s != [] && IsJsSpace(s[|s| - 1]) then TrimEnd(s[..|s| - 1]) else s
  }

  /** `trim`: the slice of `s` left after dropping its leading and its trailing spaces. */
  function Trim(s: string): (r: string)
    ensures Lead(s) + |r| <= |s| && r == s[Lead(s)..Lead(s) + |r|]
    ensures forall k :: Lead(s) + |r| <= k < |s| ==> IsJsSpace(s[k])
    ensures r != [] ==> !IsJsSpace(r[0]) && !IsJsSpace(r[|r| - 1])
    ensures r == [] <==> forall k :: 0 <= k < |s| ==> IsJsSpace(s[k])
  {
    var n := Lead(s);
    var r := TrimEnd(s[n..]);
    assert forall k :: n + |r| <= k < |s| ==> s[k] == s[n..][k - n];
    r
  }

  /** `q` occurs in `s` at index `i`. */
  predicate OccursAt(s: string, q: string, i: nat) {
    i + |q| <= |s| && s[i..i + |q|] == q
  }

  /** `s.includes(q)`: `q` occurs in `s` as a contiguous slice. */
  predicate Includes(s: string, q: string): (r: bool)
    ensures q == [] ==> r
    ensures r ==> |q| <= |s|
    ensures |q| == |s| ==> (r <==> q == s)
  {
    assert q == [] || q == s ==> OccursAt(s, q, 0) by {
      if q == [] || q == s {
        assert s[0..|q|] == q;
      }
    }
    exists i: nat | i <= |s| :: OccursAt(s, q, i)
  }
}
