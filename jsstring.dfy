/** The part of JavaScript's String.prototype.trim that the summariser relies on:
    the "is there any text to summarise?" test `!inputText.trim()`. */
module JsString {

  /** A code point that trim removes: an ECMAScript WhiteSpace (TAB, VT, FF, ZWNBSP
      and every Unicode space separator) or LineTerminator (LF, CR, LS, PS),
      sections 12.2 and 12.3 of ECMA-262. */
  predicate IsTrimmable(c: char) {
    var n := c as int;
    n == 0x09 || n == 0x0A || n == 0x0B || n == 0x0C || n == 0x0D ||
    n == 0x20 || n == 0xA0 || n == 0x1680 || (0x2000 <= n <= 0x200A) ||
    n == 0x2028 || n == 0x2029 || n == 0x202F || n == 0x205F || n == 0x3000 ||
    n == 0xFEFF
  }

  /** Drops the leading trimmable characters; what is left is a suffix of s. */
  function TrimStart(s: string): (r: string)
    ensures |r| <= |s| && r == s[|s| - |r|..]
    ensures r != [] ==> !IsTrimmable(r[0])
    ensures forall i :: 0 <= i < |s| - |r| ==> IsTrimmable(s[i])
  {
    if s != [] && IsTrimmable(s[0]) then TrimStart(s[1..]) else s
  }

  /** Drops the trailing trimmable characters; what is left is a prefix of s. */
  function TrimEnd(s: string): (r: string)
    ensures |r| <= |s| && r == s[..|r|]
    ensures r != [] ==> !IsTrimmable(r[|r| - 1])
    ensures forall i :: |r| <= i < |s| ==> IsTrimmable(s[i])
  {
    if s != [] && IsTrimmable(s[|s| - 1]) then TrimEnd(s[..|s| - 1]) else s
  }

  /** r is the piece of s that starts at index k, and every character of s
      before or after that piece is trimmable. */
  predicate TrimmedAt(s: string, k: int, r: string) {
    0 <= k <= |s| - |r| && r == s[k..k + |r|] &&
    (forall i :: 0 <= i < k ==> IsTrimmable(s[i])) &&
    (forall i :: k + |r| <= i < |s| ==> IsTrimmable(s[i]))
  }

  /** String.prototype.trim: the piece of s left once the trimmable characters at
      both ends are dropped; it neither starts nor ends with a trimmable character,
      and it is empty exactly when s holds nothing but trimmable characters. */
  function Trim(s: string): (r: string)
    ensures |r| <= |s| && exists k :: TrimmedAt(s, k, r)
    ensures r != [] ==> !IsTrimmable(r[0]) && !IsTrimmable(r[|r| - 1])
    ensures r == [] <==> forall i :: 0 <= i < |s| ==> IsTrimmable(s[i])
  {
    var t := TrimStart(s);
    var r := TrimEnd(t);
    assert r == s[|s| - |t|..][..|r|];
    var k := |s| - |t|;
    assert forall i :: k + |r| <= i < |s| ==> s[i] == t[i - k];
    assert TrimmedAt(s, k, r);
    r
  }
}
