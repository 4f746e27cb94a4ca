/** String operations the screens rely on: JavaScript's white-space class
    (used by the `\s`/`\S` regular-expression classes and by
    `String.prototype.trim`), trimming, lower-casing and substring search
    (`String.prototype.includes`). */
module Text {

  /** JavaScript white space and line terminators: the characters `\s` matches
      and `trim` strips. */
  predicate IsWhitespace(c: char) {
    || c == ' ' || c == '\t' || c == '\n' || c == '\U{0B}' || c == '\U{0C}' || c == '\r'
    || c == '\U{A0}' || c == '\U{1680}' || ('\U{2000}' <= c <= '\U{200A}')
    || c == '\U{2028}' || c == '\U{2029}' || c == '\U{202F}' || c == '\U{205F}'
    || c == '\U{3000}' || c == '\U{FEFF}'
  }

  predicate AllWhitespace(s: string) {
    forall i :: 0 <= i < |s| ==> IsWhitespace(s[i])
  }

  predicate NoWhitespace(s: string) {
    forall i :: 0 <= i < |s| ==> !IsWhitespace(s[i])
  }

  /** Drops leading white space: what is left is a suffix of `s`, and what
      was dropped is all white space. */
  function TrimStart(s: string): (r: string)
    ensures |r| <= |s| && r == s[|s| - |r|..]
    ensures AllWhitespace(s[..|s| - |r|])
    ensures r == [] || !IsWhitespace(r[0])
    decreases |s|
  {
    if s != [] && IsWhitespace(s[0]) then
      var r := TrimStart(s[1..]);
      var k := |s| - |r|;
      assert r == s[k..];
      assert s[..k] == [s[0]] + s[1..][..k - 1];
      r
    else
      assert s[..0] == [];
      s
  }

  /** Drops trailing white space: what is left is a prefix of `s`, and what
      was dropped is all white space. */
  function TrimEnd(s: string): (r: string)
    ensures |r| <= |s| && r == s[..|r|]
    ensures AllWhitespace(s[|r|..])
    ensures r == [] || !IsWhitespace(r[|r| - 1])
    decreases |s|
  {
    if s != [] && IsWhitespace(s[|s| - 1]) then
      var n := |s| - 1;
      var r := TrimEnd(s[..n]);
      assert r == s[..|r|];
      assert s[|r|..] == s[..n][|r|..] + [s[n]];
      r
    else
      assert s[|s|..] == [];
      s
  }

  /** `String.prototype.trim`: strips white space at both ends. */
  function Trim(s: string): (r: string)
    ensures r == [] || (!IsWhitespace(r[0]) && !IsWhitespace(r[|r| - 1]))
    ensures r == [] <==> AllWhitespace(s)
  {
    var t := TrimStart(s);
    var r := TrimEnd(t);
    assert r != [] ==> r[0] == t[0] && t[0] == s[|s| - |t|];
    assert r == [] ==> t[|r|..] == t;
    assert t != [] ==> !AllWhitespace(t);
    assert t == [] ==> s[..|s| - |t|] == s;
    r
  }

  lemma TrimStartFixed(s: string)
    requires s == [] || !IsWhitespace(s[0])
    ensures TrimStart(s) == s
  {
  }

  lemma TrimEndFixed(s: string)
    requires s == [] || !IsWhitespace(s[|s| - 1])
    ensures TrimEnd(s) == s
  {
  }

  /** Trimming a trimmed string changes nothing. */
  lemma TrimIdempotent(s: string)
    ensures Trim(Trim(s)) == Trim(s)
  {
    var r := Trim(s);
    TrimStartFixed(r);
    TrimEndFixed(r);
  }

  /** `toLowerCase` on one UTF-16 unit: ASCII and Latin-1 capitals, and the
      Turkish capitals Ğ and Ş, map to their small letters. */
  function LowerChar(c: char): (d: char)
    ensures !('A' <= d <= 'Z')
  {
    if 'A' <= c <= 'Z' then (c as int + 32) as char
    else if '\U{C0}' <= c <= '\U{DE}' && c != '\U{D7}' then (c as int + 32) as char
    else if c == 'Ğ' then 'ğ'
    else if c == 'Ş' then 'ş'
    else c
  }

  function ToLower(s: string): (r: string)
    ensures |r| == |s|
    ensures forall i :: 0 <= i < |s| ==> r[i] == LowerChar(s[i])
  {
    seq(|s|, i requires 0 <= i < |s| => LowerChar(s[i]))
  }

  /** Lower-casing twice is lower-casing once. */
  lemma ToLowerIdempotent(s: string)
    ensures ToLower(ToLower(s)) == ToLower(s)
  {
  }

  /** `s.includes(sub)`: `sub` occurs as a contiguous block of `s`. */
  predicate Contains(s: string, sub: string)
    decreases |s|
  {
    sub <= s || (s != [] && Contains(s[1..], sub))
  }

  /** `sub` occurs in `s` starting at position `i`. */
  predicate OccursAt(s: string, sub: string, i: int) {
    0 <= i && i + |sub| <= |s| && s[i..i + |sub|] == sub
  }

  /** An occurrence at position 0 is a prefix, and an occurrence past 0 is
      an occurrence in the tail one position earlier. */
  lemma OccursAtShift(s: string, sub: string, i: int)
    requires s != []
    ensures OccursAt(s, sub, 0) <==> sub <= s
    ensures i >= 0 ==> (OccursAt(s, sub, i + 1) <==> OccursAt(s[1..], sub, i))
  {
    if i >= 0 && i + 1 + |sub| <= |s| {
      assert s[i + 1..i + 1 + |sub|] == s[1..][i..i + |sub|];
    }
  }

  /** `Contains` agrees with the reference definition "some slice equals `sub`". */
  lemma {:induction false} ContainsIffSlice(s: string, sub: string)
    ensures Contains(s, sub) <==> exists i :: OccursAt(s, sub, i)
    decreases |s|
  {
    if s == [] {
      if Contains(s, sub) {
        assert sub == [] && s[0..0] == sub;
        assert OccursAt(s, sub, 0);
      }
      if exists i :: OccursAt(s, sub, i) {
        var i :| OccursAt(s, sub, i);
        assert sub == [] && sub <= s;
      }
    } else {
      OccursAtShift(s, sub, 0);
      ContainsIffSlice(s[1..], sub);
      if exists i :: OccursAt(s, sub, i) {
        var i :| OccursAt(s, sub, i);
        if i > 0 {
          OccursAtShift(s, sub, i - 1);
          assert OccursAt(s[1..], sub, i - 1);
          assert Contains(s[1..], sub);
        }
      }
      if Contains(s[1..], sub) {
        var i :| OccursAt(s[1..], sub, i);
        OccursAtShift(s, sub, i);
      }
    }
  }

  /** The empty string occurs in every string. */
  lemma ContainsEmpty(s: string)
    ensures Contains(s, "")
  {
  }
}
