/** Character classes and string operations of JavaScript that the application's string handling uses:
    the regular-expression classes `[A-Z]`, `[0-9]`, `\w`, `\s`, `String.prototype.trim`,
    `includes`, single-character `replace`, and case mapping restricted to ASCII. */
module Text {

  predicate IsUpper(c: char) { 'A' <= c <= 'Z' }
  predicate IsLower(c: char) { 'a' <= c <= 'z' }
  predicate IsDigit(c: char) { '0' <= c <= '9' }
  predicate IsAlnum(c: char) { IsUpper(c) || IsLower(c) || IsDigit(c) }

  /** The regular-expression class `\w` (without the `u` flag). */
  predicate IsWordChar(c: char) { IsAlnum(c) || c == '_' }

  /** The regular-expression class `\s`; `trim` removes exactly these characters. */
  predicate IsSpace(c: char) {
    || c == '\t' || c == '\n' || c == '\U{B}' || c == '\U{C}' || c == '\r' || c == ' '
    || c == '\U{A0}' || c == '\U{1680}' || ('\U{2000}' <= c <= '\U{200A}')
    || c == '\U{2028}' || c == '\U{2029}' || c == '\U{202F}' || c == '\U{205F}'
    || c == '\U{3000}' || c == '\U{FEFF}'
  }

  function LowerChar(c: char): (d: char)
    ensures IsUpper(c) ==> IsLower(d)
    ensures !IsUpper(c) ==> d == c
  {
    if IsUpper(c) then (c as int - 'A' as int + 'a' as int) as char else c
  }

  function UpperChar(c: char): (d: char)
    ensures IsLower(c) ==> IsUpper(d)
    ensures !IsLower(c) ==> d == c
  {
    if IsLower(c) then (c as int - 'a' as int + 'A' as int) as char else c
  }

  /** `toLowerCase`, on ASCII letters. */
  function Lower(s: string): (r: string)
    ensures |r| == |s|
  {
    seq(|s|, i requires 0 <= i < |s| => LowerChar(s[i]))
  }

  /** `toUpperCase`, on ASCII letters. */
  function Upper(s: string): (r: string)
    ensures |r| == |s|
  {
    seq(|s|, i requires 0 <= i < |s| => UpperChar(s[i]))
  }

  function TrimStart(s: string): (r: string)
    ensures r == [] || !IsSpace(r[0])
    ensures |r| <= |s|
  {
    if s != [] && IsSpace(s[0]) then TrimStart(s[1..]) else s
  }

  /** `TrimStart` drops a prefix of whitespace and keeps the rest as it was. */
  lemma {:induction false} TrimStartSuffix(s: string)
    ensures var r := TrimStart(s);
      && r == s[|s| - |r|..]
      && forall i :: 0 <= i < |s| - |r| ==> IsSpace(s[i])
  {
    if s != [] && IsSpace(s[0]) {
      TrimStartSuffix(s[1..]);
      var r := TrimStart(s);
      assert s[1..][|s| - 1 - |r|..] == s[|s| - |r|..];
      forall i | 0 <= i < |s| - |r| ensures IsSpace(s[i]) {
        if i > 0 { assert s[i] == s[1..][i - 1]; }
      }
    }
  }

  function TrimEnd(s: string): (r: string)
    ensures r == [] || !IsSpace(r[|r| - 1])
    ensures |r| <= |s| && r == s[..|r|]
    ensures forall i :: |r| <= i < |s| ==> IsSpace(s[i])
  {
    if s != [] && IsSpace(s[|s| - 1]) then TrimEnd(s[..|s| - 1]) else s
  }

  /** `String.prototype.trim`: the longest infix of `s` that neither starts nor ends with whitespace.
      Leading whitespace is dropped one character at a time, then trailing whitespace. */
  function Trim(s: string): (r: string)
    ensures r == [] || (!IsSpace(r[0]) && !IsSpace(r[|r| - 1]))
    ensures Includes(s, r)
  {
    if s != [] && IsSpace(s[0]) then
      IncludesInTail(s, Trim(s[1..]));
      Trim(s[1..])
    else
      assert OccursAt(s, TrimEnd(s), 0);
      TrimEnd(s)
  }

  /** Trimming is dropping the leading whitespace, then the trailing whitespace. */
  lemma {:induction false} TrimIsTrimEndOfTrimStart(s: string)
    ensures Trim(s) == TrimEnd(TrimStart(s))
  {
    if s != [] && IsSpace(s[0]) {
      TrimIsTrimEndOfTrimStart(s[1..]);
    }
  }

  /** Trimming drops a whitespace prefix and a whitespace suffix and keeps what lies between. */
  lemma TrimDropsSpace(s: string)
    ensures exists i, j :: (0 <= i <= j <= |s| && Trim(s) == s[i..j] &&
      (forall k :: 0 <= k < i ==> IsSpace(s[k])) && (forall k :: j <= k < |s| ==> IsSpace(s[k])))
  {
    var t := TrimStart(s);
    var r := TrimEnd(t);
    assert t == s[|s| - |t|..] && forall k :: 0 <= k < |s| - |t| ==> IsSpace(s[k]) by {
      TrimStartSuffix(s);
    }
    assert Trim(s) == r by {
      TrimIsTrimEndOfTrimStart(s);
    }
    var i, j := SpaceAround(s, t, r);
  }

  /** A string `t` obtained from `s` by dropping leading whitespace, and a string `r` obtained from
      `t` by dropping trailing whitespace, is a slice of `s` with only whitespace around it. */
  lemma SpaceAround(s: string, t: string, r: string) returns (i: nat, j: nat)
    requires |t| <= |s| && t == s[|s| - |t|..] && forall k :: 0 <= k < |s| - |t| ==> IsSpace(s[k])
    requires |r| <= |t| && r == t[..|r|] && forall k :: |r| <= k < |t| ==> IsSpace(t[k])
    ensures 0 <= i <= j <= |s| && r == s[i..j]
    ensures forall k :: 0 <= k < i ==> IsSpace(s[k])
    ensures forall k :: j <= k < |s| ==> IsSpace(s[k])
  {
    i, j := |s| - |t|, |s| - |t| + |r|;
    forall k | j <= k < |s| ensures IsSpace(s[k]) {
      assert s[k] == t[k - i];
    }
  }

  /** What occurs in the tail of a string occurs in the string. */
  lemma IncludesInTail(s: string, q: string)
    requires s != [] && Includes(s[1..], q)
    ensures Includes(s, q)
  {
    var i :| 0 <= i <= |s[1..]| && OccursAt(s[1..], q, i);
    assert s[i + 1..i + 1 + |q|] == s[1..][i..i + |q|];
    assert OccursAt(s, q, i + 1);
  }

  /** Trimming leaves nothing exactly when the string is whitespace only. */
  lemma {:induction false} TrimEmptyIff(s: string)
    ensures Trim(s) == [] <==> forall i :: 0 <= i < |s| ==> IsSpace(s[i])
  {
    if s != [] && IsSpace(s[0]) {
      TrimEmptyIff(s[1..]);
      assert forall i :: 0 < i < |s| ==> s[i] == s[1..][i - 1];
    } else if s != [] {
      assert Trim(s) == TrimEnd(s);
    }
  }

  /** Trimming a trimmed string changes nothing. */
  lemma TrimIdempotent(s: string)
    ensures Trim(Trim(s)) == Trim(s)
  {
    var r := Trim(s);
    if r != [] {
      assert Trim(r) == TrimEnd(r);
    }
  }

  /** `s.includes(q)`: `q` occurs in `s` as a contiguous infix. */
  predicate Includes(s: string, q: string) {
    exists i | 0 <= i <= |s| :: OccursAt(s, q, i)
  }

  /** `q` occurs in `s` starting at index `i`. */
  predicate OccursAt(s: string, q: string, i: int) {
    0 <= i <= |s| - |q| && s[i..i + |q|] == q
  }

  /** The empty query is contained in every string. */
  lemma IncludesEmpty(s: string)
    ensures Includes(s, "")
  {
    assert OccursAt(s, "", 0);
  }

  /** `s.toLowerCase().includes(q.toLowerCase())`. */
  predicate LowerIncludes(s: string, q: string) {
    Includes(Lower(s), Lower(q))
  }

  /** An empty query matches everything, and an exact occurrence matches whatever the letter case. */
  lemma LowerIncludesProps(s: string, q: string)
    ensures LowerIncludes(s, "")
    ensures Includes(s, q) ==> LowerIncludes(s, q)
    ensures LowerIncludes(s, q) <==> LowerIncludes(Lower(s), q)
  {
    IncludesEmpty(Lower(s));
    assert Lower("") == "";
    if Includes(s, q) {
      var i :| 0 <= i <= |s| && OccursAt(s, q, i);
      assert Lower(s)[i..i + |q|] == Lower(q) by {
        forall k | 0 <= k < |q| ensures Lower(s)[i..i + |q|][k] == Lower(q)[k] {
          assert s[i + k] == q[k] by { assert s[i..i + |q|][k] == q[k]; }
        }
      }
      assert OccursAt(Lower(s), Lower(q), i);
    }
    assert Lower(Lower(s)) == Lower(s);
  }

  /** `s.replace(/x/g, y)` for single characters `x` and `y`. */
  function ReplaceAll(s: string, x: char, y: char): (r: string)
    ensures |r| == |s|
  {
    seq(|s|, i requires 0 <= i < |s| => if s[i] == x then y else s[i])
  }

  /** After replacing every `x` by another character, no `x` is left, every `x` has become `y` and every
      other character is kept. */
  lemma ReplaceAllRemoves(s: string, x: char, y: char)
    requires x != y
    ensures x !in ReplaceAll(s, x, y)
    ensures forall i :: 0 <= i < |s| && s[i] != x ==> ReplaceAll(s, x, y)[i] == s[i]
    ensures forall i :: 0 <= i < |s| && s[i] == x ==> ReplaceAll(s, x, y)[i] == y
  {
  }
}
