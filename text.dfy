/**
 * The three JavaScript string operations the catalog relies on:
 * `String.prototype.trim`, `String.prototype.toLowerCase` (restricted to
 * ASCII letters) and `String.prototype.includes`.
 */
module Text {

  /** The characters `trim` removes: ECMAScript WhiteSpace and LineTerminator. */
  predicate IsWhitespace(c: char) {
    var n := c as int;
    (9 <= n <= 13) || n == 0x20 || n == 0xA0 || n == 0x1680 || (0x2000 <= n <= 0x200A)
    || n == 0x2028 || n == 0x2029 || n == 0x202F || n == 0x205F || n == 0x3000 || n == 0xFEFF
  }

  /** `s` without its leading whitespace. */
  function TrimStart(s: string): (r: string)
    ensures |r| <= |s| && r == s[|s| - |r|..]
    ensures r == [] || !IsWhitespace(r[0])
  {
    if s != [] && IsWhitespace(s[0]) then TrimStart(s[1..]) else s
  }

  /** `s` without its trailing whitespace. */
  function TrimEnd(s: string): (r: string)
    ensures |r| <= |s| && r == s[..|r|]
    ensures r == [] || !IsWhitespace(r[|r| - 1])
  {
    if s != [] && IsWhitespace(s[|s| - 1]) then TrimEnd(s[..|s| - 1]) else s
  }

  /** Everything `TrimStart` drops is whitespace. */
  lemma {:induction false} TrimStartDropsWhitespace(s: string)
    ensures forall k :: 0 <= k < |s| - |TrimStart(s)| ==> IsWhitespace(s[k])
    decreases |s|
  {
    if s != [] && IsWhitespace(s[0]) {
      TrimStartDropsWhitespace(s[1..]);
      forall k | 0 < k < |s| - |TrimStart(s)| ensures IsWhitespace(s[k]) {
        assert s[k] == s[1..][k - 1];
      }
    }
  }

  /** Everything `TrimEnd` drops is whitespace. */
  lemma {:induction false} TrimEndDropsWhitespace(s: string)
    ensures forall k :: |TrimEnd(s)| <= k < |s| ==> IsWhitespace(s[k])
    decreases |s|
  {
    if s != [] && IsWhitespace(s[|s| - 1]) {
      TrimEndDropsWhitespace(s[..|s| - 1]);
      forall k | |TrimEnd(s)| <= k < |s| - 1 ensures IsWhitespace(s[k]) {
        assert s[k] == s[..|s| - 1][k];
      }
    }
  }

  /** `s.trim()`: a contiguous slice of `s` with no whitespace at either end. */
  function Trim(s: string): (r: string)
    ensures |r| <= |s|
    ensures r == [] || (!IsWhitespace(r[0]) && !IsWhitespace(r[|r| - 1]))
  {
    var t := TrimStart(s);
    var r := TrimEnd(t);
    assert r != [] ==> r[0] == t[0];
    r
  }

  /** `Trim` keeps the slice `s[i..j]` and drops only whitespace before and after it. */
  lemma TrimSlice(s: string)
    ensures var i := |s| - |TrimStart(s)|; var j := i + |Trim(s)|;
      i <= j <= |s| && Trim(s) == s[i..j]
      && (forall k :: 0 <= k < i ==> IsWhitespace(s[k]))
      && (forall k :: j <= k < |s| ==> IsWhitespace(s[k]))
  {
    var t := TrimStart(s);
    var i := |s| - |t|;
    TrimStartDropsWhitespace(s);
    TrimEndDropsWhitespace(t);
    TrimEndOfSuffix(s, i);
  }

  /** Trailing whitespace dropped from a suffix `s[i..]` is whitespace of `s`. */
  lemma TrimEndOfSuffix(s: string, i: nat)
    requires i <= |s|
    requires forall k :: |TrimEnd(s[i..])| <= k < |s| - i ==> IsWhitespace(s[i..][k])
    ensures TrimEnd(s[i..]) == s[i..i + |TrimEnd(s[i..])|]
    ensures forall k :: i + |TrimEnd(s[i..])| <= k < |s| ==> IsWhitespace(s[k])
  {
    var n := |TrimEnd(s[i..])|;
    forall k | i + n <= k < |s| ensures IsWhitespace(s[k]) {
      assert s[k] == s[i..][k - i];
    }
  }

  /** A string trims to the empty string exactly when it is all whitespace. */
  lemma TrimEmptyIff(s: string)
    ensures Trim(s) == [] <==> forall k :: 0 <= k < |s| ==> IsWhitespace(s[k])
  {
    TrimSlice(s);
    var i := |s| - |TrimStart(s)|;
    if Trim(s) != [] {
      assert Trim(s)[0] == s[i];
    }
  }

  /** `Trim` is idempotent. */
  lemma TrimIdempotent(s: string)
    ensures Trim(Trim(s)) == Trim(s)
  {
    var r := Trim(s);
    assert TrimStart(r) == r;
    assert TrimEnd(r) == r;
  }

  /** ASCII lower-casing of one character. */
  function LowerChar(c: char): (r: char)
    ensures 'A' <= c <= 'Z' ==> 'a' <= r <= 'z'
    ensures !('A' <= c <= 'Z') ==> r == c
  {
    if 'A' <= c <= 'Z' then (c as int + 32) as char else c
  }

  /** `s.toLowerCase()` on ASCII letters. */
  function ToLower(s: string): (r: string)
    ensures |r| == |s|
    ensures forall i :: 0 <= i < |s| ==> r[i] == LowerChar(s[i])
  {
    if s == [] then [] else [LowerChar(s[0])] + ToLower(s[1..])
  }

  /** Lower-casing twice is lower-casing once. */
  lemma ToLowerIdempotent(s: string)
    ensures ToLower(ToLower(s)) == ToLower(s)
  {
    assert forall i :: 0 <= i < |s| ==> LowerChar(LowerChar(s[i])) == LowerChar(s[i]);
  }

  /** `t` is a prefix of `s`. */
  predicate StartsWith(s: string, t: string) {
    |t| <= |s| && s[..|t|] == t
  }

  /** Substring search: `t` occurs in `s` at some position. */
  predicate Includes(s: string, t: string)
    decreases |s|
  {
    StartsWith(s, t) || (s != [] && Includes(s[1..], t))
  }

  /** `t` occurs in `s` starting at index `i`. */
  predicate OccursAt(s: string, t: string, i: int) {
    0 <= i <= |s| - |t| && s[i..i + |t|] == t
  }

  /** `Includes` holds exactly when `t` occurs at some index of `s`. */
  lemma {:induction false} IncludesAt(s: string, t: string)
    ensures Includes(s, t) <==> exists i :: OccursAt(s, t, i)
    decreases |s|
  {
    if s != [] {
      IncludesAt(s[1..], t);
      if StartsWith(s, t) {
        assert OccursAt(s, t, 0);
      } else if Includes(s[1..], t) {
        var i :| OccursAt(s[1..], t, i);
        assert s[i + 1..i + 1 + |t|] == s[1..][i..i + |t|];
        assert OccursAt(s, t, i + 1);
      }
      if exists i :: OccursAt(s, t, i) {
        var i :| OccursAt(s, t, i);
        if i == 0 {
          assert s[..|t|] == s[0..|t|];
        } else {
          assert s[1..][i - 1..i - 1 + |t|] == s[i..i + |t|];
          assert OccursAt(s[1..], t, i - 1);
        }
      }
    } else {
      if exists i :: OccursAt(s, t, i) {
        var i :| OccursAt(s, t, i);
        assert t == [] && StartsWith(s, t);
      }
      if Includes(s, t) {
        assert OccursAt(s, t, 0);
      }
    }
  }

  /** The empty string occurs in every string. */
  lemma IncludesEmpty(s: string)
    ensures Includes(s, "")
  {
  }
}
