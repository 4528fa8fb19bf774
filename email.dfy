/** The e-mail key that login looks users up by: `email.trim().toLowerCase()`. */
module Email {

  /** The code points ECMAScript's `String.prototype.trim` removes: the
      WhiteSpace set (tab, vertical tab, form feed, no-break space, byte order
      mark and every space separator) and the LineTerminator set. */
  predicate IsTrimmable(c: char)
  {
    var n := c as int;
    || 0x09 <= n <= 0x0D || n == 0x20 || n == 0xA0 || n == 0x1680
    || 0x2000 <= n <= 0x200A || n == 0x2028 || n == 0x2029 || n == 0x202F
    || n == 0x205F || n == 0x3000 || n == 0xFEFF
  }

  predicate AllTrimmable(s: string)
  {
    forall i :: 0 <= i < |s| ==> IsTrimmable(s[i])
  }

  /** The number of trimmable characters at the front of `s`: every
      character before that index is trimmable and the one at it is not. */
  function LeadingSpace(s: string): (n: nat)
    ensures n <= |s|
    ensures forall k :: 0 <= k < n ==> IsTrimmable(s[k])
    ensures n < |s| ==> !IsTrimmable(s[n])
  {
    if |s| > 0 && IsTrimmable(s[0]) then 1 + LeadingSpace(s[1..]) else 0
  }

  /** The number of trimmable characters at the back of `s`. */
  function TrailingSpace(s: string): (n: nat)
    ensures n <= |s|
    ensures forall k :: |s| - n <= k < |s| ==> IsTrimmable(s[k])
    ensures n < |s| ==> !IsTrimmable(s[|s| - n - 1])
  {
    if |s| > 0 && IsTrimmable(s[|s| - 1]) then 1 + TrailingSpace(s[..|s| - 1]) else 0
  }

  function TrimStart(s: string): string
  {
    s[LeadingSpace(s)..]
  }

  function TrimEnd(s: string): string
  {
    s[..|s| - TrailingSpace(s)]
  }

  /** `String.prototype.trim`: trims both ends; neither end of the result is
      trimmable. */
  function Trim(s: string): (r: string)
    ensures r == [] || (!IsTrimmable(r[0]) && !IsTrimmable(r[|r| - 1]))
  {
    var t := TrimStart(s);
    var r := TrimEnd(t);
    assert r != [] ==> r[0] == t[0];
    r
  }

  /** `r` is the factor of `s` starting at `i`, with only trimmable
      characters before and after it. */
  predicate TrimmedAt(s: string, r: string, i: int)
  {
    && 0 <= i <= |s| - |r| && r == s[i..i + |r|]
    && (forall k :: 0 <= k < i ==> IsTrimmable(s[k]))
    && (forall k :: i + |r| <= k < |s| ==> IsTrimmable(s[k]))
  }

  /** What trim leaves is the factor of `s` that begins where the leading
      whitespace ends, with only whitespace after it. */
  lemma TrimFactor(s: string)
    ensures TrimmedAt(s, Trim(s), LeadingSpace(s))
  {
    var i := LeadingSpace(s);
    var t := TrimStart(s);
    var j := |t| - TrailingSpace(t);
    assert Trim(s) == t[..j] == s[i..i + j];
    TrailIsTrimmable(s, t, i, j);
  }

  lemma TrailIsTrimmable(s: string, t: string, i: nat, j: nat)
    requires i <= |s| && t == s[i..] && j <= |t|
    requires forall k :: j <= k < |t| ==> IsTrimmable(t[k])
    ensures forall k :: i + j <= k < |s| ==> IsTrimmable(s[k])
  {
    forall k | i + j <= k < |s| ensures IsTrimmable(s[k]) {
      assert s[k] == t[k - i];
    }
  }

  /** The leading-space count is the first index whose character is not
      trimmable, so any index with that property is it. */
  lemma LeadingSpaceUnique(s: string, n: nat)
    requires n <= |s| && (forall k :: 0 <= k < n ==> IsTrimmable(s[k])) && (n < |s| ==> !IsTrimmable(s[n]))
    ensures LeadingSpace(s) == n
  {
  }

  lemma TrailingSpaceUnique(s: string, n: nat)
    requires n <= |s| && (forall k :: |s| - n <= k < |s| ==> IsTrimmable(s[k]))
    requires n < |s| ==> !IsTrimmable(s[|s| - n - 1])
    ensures TrailingSpace(s) == n
  {
  }

  /** Trimming the front of a concatenation: either the whole left part goes
      and trimming continues into the right part, or the right part survives
      untouched. */
  lemma TrimStartAppend(s: string, q: string)
    ensures TrimStart(s + q) == if AllTrimmable(s) then TrimStart(q) else TrimStart(s) + q
  {
    var x := s + q;
    if AllTrimmable(s) {
      var n := |s| + LeadingSpace(q);
      forall k | 0 <= k < n ensures IsTrimmable(x[k]) {
        if k >= |s| { assert x[k] == q[k - |s|]; }
      }
      if n < |x| { assert x[n] == q[LeadingSpace(q)]; }
      LeadingSpaceUnique(x, n);
      assert x[n..] == q[LeadingSpace(q)..];
    } else {
      var n := LeadingSpace(s);
      assert x[n] == s[n];
      LeadingSpaceUnique(x, n);
      assert x[n..] == s[n..] + q;
    }
  }

  /** The mirror image of TrimStartAppend for the back of a concatenation. */
  lemma TrimEndPrepend(p: string, s: string)
    ensures TrimEnd(p + s) == if AllTrimmable(s) then TrimEnd(p) else p + TrimEnd(s)
  {
    var x := p + s;
    if AllTrimmable(s) {
      var n := |s| + TrailingSpace(p);
      forall k | |x| - n <= k < |x| ensures IsTrimmable(x[k]) {
        if k < |p| { assert x[k] == p[k]; } else { assert x[k] == s[k - |p|]; }
      }
      if n < |x| { assert x[|x| - n - 1] == p[|p| - TrailingSpace(p) - 1]; }
      TrailingSpaceUnique(x, n);
      assert x[..|x| - n] == p[..|p| - TrailingSpace(p)];
    } else {
      var n := TrailingSpace(s);
      assert x[|x| - n - 1] == s[|s| - n - 1];
      forall k | |x| - n <= k < |x| ensures IsTrimmable(x[k]) {
        assert x[k] == s[k - |p|];
      }
      TrailingSpaceUnique(x, n);
      assert x[..|x| - n] == p + s[..|s| - n];
    }
  }

  /** Whitespace around an address does not change what trim returns. */
  lemma TrimIgnoresPadding(p: string, s: string, q: string)
    requires AllTrimmable(p) && AllTrimmable(q)
    ensures Trim(p + s + q) == Trim(s)
  {
    assert p + s + q == p + (s + q);
    TrimStartAppend(p, s + q);
    TrimStartAppend(s, q);
    if AllTrimmable(s) {
      TrimStartAppend(q, []);
      TrimStartAppend(s, []);
      assert q + [] == q && s + [] == s;
    } else {
      var t := TrimStart(s);
      TrimEndPrepend(t, q);
    }
  }

  /** Lower-casing never turns a character into whitespace or back. */
  lemma LowerKeepsTrimmable(c: char)
    ensures IsTrimmable(LowerChar(c)) == IsTrimmable(c)
  {
  }

  /** Lower-casing keeps which positions are trimmable, hence the leading and
      trailing space counts. */
  lemma SpaceCountsLower(s: string)
    ensures LeadingSpace(ToLower(s)) == LeadingSpace(s)
    ensures TrailingSpace(ToLower(s)) == TrailingSpace(s)
  {
    var l := ToLower(s);
    forall k | 0 <= k < |s| ensures IsTrimmable(l[k]) == IsTrimmable(s[k]) {
      LowerKeepsTrimmable(s[k]);
    }
    LeadingSpaceUnique(l, LeadingSpace(s));
    TrailingSpaceUnique(l, TrailingSpace(s));
  }

  /** So lower-casing commutes with trimming the front ... */
  lemma TrimStartLower(s: string)
    ensures ToLower(TrimStart(s)) == TrimStart(ToLower(s))
  {
    SpaceCountsLower(s);
    LowerSlices(s, LeadingSpace(s));
  }

  /** ... and with trimming the back. */
  lemma TrimEndLower(s: string)
    ensures ToLower(TrimEnd(s)) == TrimEnd(ToLower(s))
  {
    SpaceCountsLower(s);
    LowerSlices(s, |s| - TrailingSpace(s));
  }

  /** Lower-casing is character by character, so it commutes with slicing. */
  lemma LowerSlices(s: string, i: nat)
    requires i <= |s|
    ensures ToLower(s[i..]) == ToLower(s)[i..]
    ensures ToLower(s[..i]) == ToLower(s)[..i]
  {
    var l := ToLower(s);
    var a, b := ToLower(s[i..]), l[i..];
    forall k | 0 <= k < |a| ensures a[k] == b[k] {
      assert a[k] == LowerChar(s[i + k]) == l[i + k];
    }
    var c, d := ToLower(s[..i]), l[..i];
    forall k | 0 <= k < |c| ensures c[k] == d[k] {
      assert c[k] == LowerChar(s[k]) == l[k];
    }
  }

  lemma LowerHasNoUpper(t: string)
    ensures forall i :: 0 <= i < |t| ==> !IsUpper(ToLower(t)[i])
  {
  }

  lemma LowerKeepsEnds(t: string)
    requires t == [] || (!IsTrimmable(t[0]) && !IsTrimmable(t[|t| - 1]))
    ensures var key := ToLower(t); key == [] || (!IsTrimmable(key[0]) && !IsTrimmable(key[|key| - 1]))
  {
    if t != [] {
      LowerKeepsTrimmable(t[0]);
      LowerKeepsTrimmable(t[|t| - 1]);
    }
  }

  /** `toLowerCase` on one character; only the ASCII letters are mapped. */
  function LowerChar(c: char): char
  {
    if 'A' <= c <= 'Z' then (c as int - 'A' as int + 'a' as int) as char else c
  }

  predicate IsUpper(c: char)
  {
    'A' <= c <= 'Z'
  }

  function ToLower(s: string): (r: string)
  {
    seq(|s|, i requires 0 <= i < |s| => LowerChar(s[i]))
  }

  /** The lookup key of `loginUser`: trim first, then lower-case. */
  function Normalise(email: string): (key: string)
    ensures forall i :: 0 <= i < |key| ==> !IsUpper(key[i])
    ensures key == [] || (!IsTrimmable(key[0]) && !IsTrimmable(key[|key| - 1]))
  {
    var t := Trim(email);
    LowerKeepsEnds(t);
    LowerHasNoUpper(t);
    ToLower(t)
  }

  /** Normalisation may equally lower-case first and trim afterwards. */
  lemma NormaliseLowerFirst(email: string)
    ensures Normalise(email) == Trim(ToLower(email))
  {
    TrimStartLower(email);
    TrimEndLower(TrimStart(email));
  }

  /** Two login inputs that differ only in surrounding whitespace and in the
      case of their letters produce the same lookup key, so they find the same
      user. */
  lemma SameLookupKey(a: string, b: string, p1: string, q1: string, p2: string, q2: string)
    requires AllTrimmable(p1) && AllTrimmable(q1) && AllTrimmable(p2) && AllTrimmable(q2)
    requires ToLower(a) == ToLower(b)
    ensures Normalise(p1 + a + q1) == Normalise(p2 + b + q2)
  {
    TrimIgnoresPadding(p1, a, q1);
    TrimIgnoresPadding(p2, b, q2);
    NormaliseLowerFirst(a);
    NormaliseLowerFirst(b);
  }

  /** A normalised key is its own key: normalising twice changes nothing. */
  lemma NormaliseIdempotent(email: string)
    ensures Normalise(Normalise(email)) == Normalise(email)
  {
    var t := Trim(email);
    var key := Normalise(email);
    LeadingSpaceUnique(key, 0);
    TrailingSpaceUnique(key, 0);
    assert Trim(key) == key;
    assert ToLower(key) == key by {
      forall k | 0 <= k < |key| ensures ToLower(key)[k] == key[k] {
        assert key[k] == LowerChar(t[k]);
      }
    }
  }
}
