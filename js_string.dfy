/**
 * The few JavaScript string operations the authorization guard relies on:
 * `String.prototype.trim`, `slice(n)` and the lower-casing behind
 * `toLowerCase().startsWith("bearer")`.
 */
module JsString {

  /**
   * The code points `trim` removes: ECMAScript WhiteSpace (TAB, VT, FF,
   * ZWNBSP and every space separator) and LineTerminator (LF, CR, LS, PS).
   */
  predicate IsJsWhitespace(c: char) {
    var n := c as int;
    n == 0x09 || n == 0x0A || n == 0x0B || n == 0x0C || n == 0x0D
    || n == 0x20 || n == 0xA0 || n == 0x1680 || (0x2000 <= n <= 0x200A)
    || n == 0x2028 || n == 0x2029 || n == 0x202F || n == 0x205F
    || n == 0x3000 || n == 0xFEFF
  }

  predicate AllWhitespace(s: string) {
    forall i :: 0 <= i < |s| ==> IsJsWhitespace(s[i])
  }

  /** Neither end of `s` is whitespace. */
  predicate IsTrimmed(s: string) {
    s == [] || (!IsJsWhitespace(s[0]) && !IsJsWhitespace(s[|s| - 1]))
  }

  /** `s` with its leading whitespace removed: a suffix that does not start with whitespace. */
  function TrimStart(s: string): (r: string)
    ensures |r| <= |s| && r == s[|s| - |r|..]
    ensures r == [] || !IsJsWhitespace(r[0])
    decreases |s|
  {
    if s != [] && IsJsWhitespace(s[0]) then TrimStart(s[1..]) else s
  }

  /** `s` with its trailing whitespace removed: a prefix that does not end with whitespace. */
  function TrimEnd(s: string): (r: string)
    ensures |r| <= |s| && r == s[..|r|]
    ensures r == [] || !IsJsWhitespace(r[|r| - 1])
    decreases |s|
  {
    if s != [] && IsJsWhitespace(s[|s| - 1]) then TrimEnd(s[..|s| - 1]) else s
  }

  /** `s.trim()`. */
  function Trim(s: string): (r: string)
    ensures IsTrimmed(r)
  {
    TrimEnd(TrimStart(s))
  }

  /** What `TrimStart` drops is whitespace. */
  lemma {:induction false} TrimStartDropsWhitespace(s: string)
    ensures AllWhitespace(s[..|s| - |TrimStart(s)|])
    decreases |s|
  {
    if s != [] && IsJsWhitespace(s[0]) {
      TrimStartDropsWhitespace(s[1..]);
      var k := |s| - |TrimStart(s)|;
      assert s[..k] == [s[0]] + s[1..][..k - 1];
    }
  }

  /** What `TrimEnd` drops is whitespace. */
  lemma {:induction false} TrimEndDropsWhitespace(s: string)
    ensures AllWhitespace(s[|TrimEnd(s)|..])
    decreases |s|
  {
    if s != [] && IsJsWhitespace(s[|s| - 1]) {
      var init := s[..|s| - 1];
      TrimEndDropsWhitespace(init);
      var k := |TrimEnd(s)|;
      assert s[k..] == init[k..] + [s[|s| - 1]];
    }
  }

  /** `s.slice(start)` for a non-negative start: empty once `start` reaches the end. */
  function Slice(s: string, start: nat): (r: string) {
    if |s| <= start then [] else s[start..]
  }

  /** The lower-case form of an ASCII capital; every other character is unchanged. */
  function LowerAscii(c: char): (r: char) {
    if 'A' <= c <= 'Z' then (c as int + 32) as char else c
  }

  /** `s.toLowerCase().startsWith("bearer")`: only the first six characters matter. */
  predicate StartsWithBearer(s: string) {
    && |s| >= 6
    && LowerAscii(s[0]) == 'b' && LowerAscii(s[1]) == 'e' && LowerAscii(s[2]) == 'a'
    && LowerAscii(s[3]) == 'r' && LowerAscii(s[4]) == 'e' && LowerAscii(s[5]) == 'r'
  }

  /** Cutting a string at two points and joining the pieces gives it back. */
  lemma SplitTwice(s: string, k: nat, j: nat)
    requires k <= |s| && j <= |s| - k
    ensures s == s[..k] + s[k..][..j] + s[k..][j..]
  {
    assert s[k..] == s[k..][..j] + s[k..][j..];
    assert s == s[..k] + s[k..];
  }

  /** `trim` splits `s` into whitespace, the trimmed text, and whitespace. */
  lemma TrimDecompose(s: string) returns (lead: string, trail: string)
    ensures s == lead + Trim(s) + trail
    ensures AllWhitespace(lead) && AllWhitespace(trail)
  {
    var mid := TrimStart(s);
    var k := |s| - |mid|;
    SplitTwice(s, k, |TrimEnd(mid)|);
    TrimStartDropsWhitespace(s);
    TrimEndDropsWhitespace(mid);
    lead := s[..k];
    trail := mid[|TrimEnd(mid)|..];
  }

  /** `trim` yields the empty string exactly when the input is all whitespace. */
  lemma TrimEmptyIff(s: string)
    ensures Trim(s) == [] <==> AllWhitespace(s)
  {
    var mid := TrimStart(s);
    if Trim(s) == [] {
      TrimStartDropsWhitespace(s);
      TrimEndDropsWhitespace(mid);
      assert mid[0..] == mid;
      assert s == s[..|s| - |mid|] + mid;
    }
  }

  /** `TrimStart` passes over leading whitespace. */
  lemma {:induction false} TrimStartSkipsWhitespace(ws: string, t: string)
    requires AllWhitespace(ws)
    ensures TrimStart(ws + t) == TrimStart(t)
    decreases |ws|
  {
    if ws == [] {
      assert ws + t == t;
    } else {
      assert IsJsWhitespace(ws[0]);
      assert (ws + t)[1..] == ws[1..] + t;
      assert forall i :: 0 <= i < |ws[1..]| ==> ws[1..][i] == ws[i + 1];
      TrimStartSkipsWhitespace(ws[1..], t);
    }
  }

  /** A trimmed string is its own `trim`. */
  lemma TrimOfTrimmed(t: string)
    requires IsTrimmed(t)
    ensures Trim(t) == t
  {
  }

  /** Leading whitespace in front of a trimmed text is all that `trim` removes. */
  lemma TrimAfterWhitespace(ws: string, t: string)
    requires AllWhitespace(ws)
    requires IsTrimmed(t)
    ensures Trim(ws + t) == t
  {
    TrimStartSkipsWhitespace(ws, t);
    TrimOfTrimmed(t);
  }

  /** `trim` is idempotent. */
  lemma TrimIdempotent(s: string)
    ensures Trim(Trim(s)) == Trim(s)
  {
    TrimOfTrimmed(Trim(s));
  }
}
