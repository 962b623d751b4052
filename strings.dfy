/**
 * The string operations the forms and pages use: `trim`, ASCII
 * `toLowerCase`/`toUpperCase`, `includes`, `replace(/\s+/g, sep)`, and the
 * snake_case key / Title Case label conversions built from them.
 */
module Strings {

  /** The code points JavaScript's `\s` matches and `trim` strips. */
  predicate IsSpace(c: char) {
    || c == ' ' || c == '\t' || c == '\n' || c == '\U{000B}' || c == '\U{000C}' || c == '\r'
    || c == '\U{00A0}' || c == '\U{1680}' || ('\U{2000}' <= c <= '\U{200A}')
    || c == '\U{2028}' || c == '\U{2029}' || c == '\U{202F}' || c == '\U{205F}'
    || c == '\U{3000}' || c == '\U{FEFF}'
  }

  predicate NoSpaces(s: string) {
    forall i :: 0 <= i < |s| ==> !IsSpace(s[i])
  }

  predicate IsUpper(c: char) { 'A' <= c <= 'Z' }
  predicate IsLower(c: char) { 'a' <= c <= 'z' }
  predicate IsDigit(c: char) { '0' <= c <= '9' }

  /** `\w` without the `u` flag. */
  predicate IsWordChar(c: char) {
    IsUpper(c) || IsLower(c) || IsDigit(c) || c == '_'
  }

  function ToLowerChar(c: char): (d: char)
    ensures IsSpace(d) <==> IsSpace(c)
    ensures !IsUpper(d)
    ensures IsWordChar(d) <==> IsWordChar(c)
  {
    if IsUpper(c) then (c as int + 32) as char else c
  }

  function ToUpperChar(c: char): (d: char)
    ensures IsSpace(d) <==> IsSpace(c)
    ensures IsWordChar(d) <==> IsWordChar(c)
    ensures ToLowerChar(d) == ToLowerChar(c)
  {
    if IsLower(c) then (c as int - 32) as char else c
  }

  /** `s.toLowerCase()`, restricted to ASCII letters. */
  function ToLower(s: string): (r: string)
    ensures |r| == |s|
    ensures forall i :: 0 <= i < |s| ==> r[i] == ToLowerChar(s[i])
  {
    if s == [] then [] else [ToLowerChar(s[0])] + ToLower(s[1..])
  }

  /** Leading white space removed. */
  function TrimStart(s: string): (r: string)
    ensures |r| <= |s| && r == s[|s| - |r|..]
    ensures r == [] || !IsSpace(r[0])
    ensures forall i :: 0 <= i < |s| - |r| ==> IsSpace(s[i])
  {
    if s != [] && IsSpace(s[0]) then TrimStart(s[1..]) else s
  }

  /** Trailing white space removed. */
  function TrimEnd(s: string): (r: string)
    ensures |r| <= |s| && r == s[..|r|]
    ensures r == [] || !IsSpace(r[|r| - 1])
    ensures forall i :: |r| <= i < |s| ==> IsSpace(s[i])
  {
    if s != [] && IsSpace(s[|s| - 1]) then TrimEnd(s[..|s| - 1]) else s
  }

  /** `s.trim()`: the result neither starts nor ends with white space. */
  function Trim(s: string): (t: string)
    ensures t == [] || (!IsSpace(t[0]) && !IsSpace(t[|t| - 1]))
  {
    var u := TrimStart(s);
    var v := TrimEnd(u);
    assert v != [] ==> v[0] == u[0];
    v
  }

  /** A string trims to "" exactly when every character of it is white space. */
  lemma TrimEmptyIff(s: string)
    ensures Trim(s) == "" <==> forall i :: 0 <= i < |s| ==> IsSpace(s[i])
  {
    var t := TrimStart(s);
    if Trim(s) != "" {
      var u := Trim(s);
      assert u[0] == t[0] == s[|s| - |t|];
    }
  }

  /** `s.replace(/\s+/g, sep)`: every maximal run of white space becomes sep. */
  function ReplaceSpaceRuns(s: string, sep: string): string
    decreases |s|
  {
    if s == [] then []
    else if IsSpace(s[0]) then sep + ReplaceSpaceRuns(TrimStart(s[1..]), sep)
    else [s[0]] + ReplaceSpaceRuns(s[1..], sep)
  }

  /** `s.replace(/x/g, y)` for single characters. */
  function ReplaceChar(s: string, x: char, y: char): (r: string)
    ensures |r| == |s|
    ensures forall i :: 0 <= i < |s| ==> r[i] == if s[i] == x then y else s[i]
  {
    if s == [] then [] else [if s[0] == x then y else s[0]] + ReplaceChar(s[1..], x, y)
  }

  /**
   * `label.toLowerCase().replace(/\s+/g, '_')`: the key under which a custom
   * entry is stored.
   */
  function SnakeKey(name: string): (key: string)
    ensures NoSpaces(key)
  {
    ReplaceSpaceRunsNoSpaces(ToLower(name), "_");
    ReplaceSpaceRuns(ToLower(name), "_")
  }

  /** Upper-cases every word character that follows a non-word character or the start. */
  function CapitalizeFrom(s: string, afterWord: bool): (r: string)
    ensures |r| == |s|
  {
    if s == [] then []
    else
      [if !afterWord && IsWordChar(s[0]) then ToUpperChar(s[0]) else s[0]]
      + CapitalizeFrom(s[1..], IsWordChar(s[0]))
  }

  /**
   * `key.replace(/_/g, ' ').replace(/\b\w/g, c => c.toUpperCase())`: the label
   * shown for a stored custom key. It has the key's length and differs from
   * the key with '_' read as ' ' only in the case of letters.
   */
  function TitleCase(key: string): (shown: string)
    ensures |shown| == |key|
    ensures ToLower(shown) == ToLower(ReplaceChar(key, '_', ' '))
  {
    ToLowerCapitalize(ReplaceChar(key, '_', ' '), false);
    CapitalizeFrom(ReplaceChar(key, '_', ' '), false)
  }

  /** `s.includes(sub)`: sub occurs at some position of s. */
  predicate Contains(s: string, sub: string) {
    sub <= s || (s != [] && Contains(s[1..], sub))
  }

  /** The stored key never contains white space. */
  lemma {:induction false} ReplaceSpaceRunsNoSpaces(s: string, sep: string)
    requires NoSpaces(sep)
    ensures NoSpaces(ReplaceSpaceRuns(s, sep))
    decreases |s|
  {
    if s != [] {
      if IsSpace(s[0]) {
        ReplaceSpaceRunsNoSpaces(TrimStart(s[1..]), sep);
      } else {
        ReplaceSpaceRunsNoSpaces(s[1..], sep);
      }
    }
  }

  /** A string without white space is left as it is. */
  lemma {:induction false} ReplaceSpaceRunsIdentity(s: string, sep: string)
    requires NoSpaces(s)
    ensures ReplaceSpaceRuns(s, sep) == s
  {
    if s != [] {
      ReplaceSpaceRunsIdentity(s[1..], sep);
    }
  }

  /** Two words joined by one space: the space becomes sep. */
  lemma {:induction false} ReplaceOneSpace(a: string, b: string, sep: string)
    requires NoSpaces(a) && NoSpaces(b)
    ensures ReplaceSpaceRuns(a + " " + b, sep) == a + sep + b
  {
    if a == [] {
      assert a + " " + b == [' '] + b;
      assert TrimStart(b) == b;
      ReplaceSpaceRunsIdentity(b, sep);
    } else {
      assert (a + " " + b)[1..] == a[1..] + " " + b;
      ReplaceOneSpace(a[1..], b, sep);
    }
  }

  /** Lower-casing undoes any capitalization. */
  lemma {:induction false} ToLowerCapitalize(s: string, afterWord: bool)
    ensures ToLower(CapitalizeFrom(s, afterWord)) == ToLower(s)
  {
    if s != [] {
      ToLowerCapitalize(s[1..], IsWordChar(s[0]));
    }
  }

  /** Characters allowed in a stored key for the Title Case round trip. */
  predicate IsKeyShaped(key: string) {
    && (forall i :: 0 <= i < |key| ==> !IsSpace(key[i]) && !IsUpper(key[i]))
    && (forall i :: 0 <= i < |key| - 1 ==> !(key[i] == '_' && key[i + 1] == '_'))
  }

  /** Turning '_' into ' ' and the single spaces back into '_' gives the key back. */
  lemma {:induction false} UnderscoreRoundTrip(key: string)
    requires IsKeyShaped(key)
    ensures ReplaceSpaceRuns(ReplaceChar(key, '_', ' '), "_") == key
  {
    if key != [] {
      var s := ReplaceChar(key, '_', ' ');
      assert s[1..] == ReplaceChar(key[1..], '_', ' ');
      assert IsKeyShaped(key[1..]);
      UnderscoreRoundTrip(key[1..]);
      if key[0] == '_' {
        if key[1..] != [] {
          assert key[1] != '_';
          assert !IsSpace(s[1]);
        }
        assert TrimStart(s[1..]) == s[1..];
      }
    }
  }

  /**
   * Showing a stored key as Title Case and keying that label again gives the
   * stored key back, so a custom entry loaded from the store and saved again
   * keeps its key.
   */
  lemma TitleCaseRoundTrip(key: string)
    requires IsKeyShaped(key)
    ensures SnakeKey(TitleCase(key)) == key
  {
    var s := ReplaceChar(key, '_', ' ');
    ToLowerCapitalize(s, false);
    assert ToLower(s) == s;
    UnderscoreRoundTrip(key);
  }

  /** `s.indexOf(c)`: the first position of c, or -1. */
  function IndexOf(s: string, c: char): (k: int)
    ensures -1 <= k < |s|
    ensures k == -1 <==> c !in s
    ensures k >= 0 ==> s[k] == c && c !in s[..k]
  {
    if s == [] then -1
    else if s[0] == c then 0
    else
      var k := IndexOf(s[1..], c);
      assert s[1..][..if k >= 0 then k else 0] == s[1..if k >= 0 then k + 1 else 1];
      if k == -1 then -1 else k + 1
  }

  /** `s.lastIndexOf(c)`: the last position of c, or -1. */
  function LastIndexOf(s: string, c: char): (k: int)
    ensures -1 <= k < |s|
    ensures k == -1 <==> c !in s
    ensures k >= 0 ==> s[k] == c && c !in s[k + 1..]
  {
    if s == [] then -1
    else if s[|s| - 1] == c then |s| - 1
    else
      var init := s[..|s| - 1];
      var k := LastIndexOf(init, c);
      assert s == init + [s[|s| - 1]];
      assert k >= 0 ==> s[k + 1..] == init[k + 1..] + [s[|s| - 1]];
      k
  }

  /** A position holding c with no c before it is what IndexOf finds. */
  lemma {:induction false} IndexOfIsFirst(s: string, c: char, k: int)
    requires 0 <= k < |s| && s[k] == c && c !in s[..k]
    ensures IndexOf(s, c) == k
  {
    if k > 0 {
      assert s[0] == s[..k][0];
      assert s[1..][..k - 1] == s[1..k];
      assert s[1..k] == s[..k][1..];
      IndexOfIsFirst(s[1..], c, k - 1);
    }
  }

  /** A position holding c with no c after it is what LastIndexOf finds. */
  lemma {:induction false} LastIndexOfIsLast(s: string, c: char, k: int)
    requires 0 <= k < |s| && s[k] == c && c !in s[k + 1..]
    ensures LastIndexOf(s, c) == k
  {
    if k < |s| - 1 {
      assert s[|s| - 1] == s[k + 1..][|s| - 2 - k];
      assert s[..|s| - 1][k + 1..] == s[k + 1..|s| - 1];
      assert s[k + 1..|s| - 1] == s[k + 1..][..|s| - k - 2];
      LastIndexOfIsLast(s[..|s| - 1], c, k);
    }
  }
}
