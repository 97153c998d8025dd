/**
  The pieces of Python's string semantics that the scrubber relies on:
  `str.strip()` without arguments, `str.lower()` and slicing `s[0:n]`,
  whose upper bound is clamped to the length of the string.
 */
module PyStr {

  /** The characters for which Python's `str.isspace()` holds; these are the
      characters `str.strip()` removes when called without arguments. */
  predicate IsSpace(c: char) {
    var n := c as int;
    (0x09 <= n <= 0x0D) || (0x1C <= n <= 0x20) || n == 0x85 || n == 0xA0
    || n == 0x1680 || (0x2000 <= n <= 0x200A) || n == 0x2028 || n == 0x2029
    || n == 0x202F || n == 0x205F || n == 0x3000
  }

  /** True if every character of `s` is whitespace. */
  predicate AllSpace(s: string) {
    forall k :: 0 <= k < |s| ==> IsSpace(s[k])
  }

  /** True if `s` neither begins nor ends with whitespace. */
  predicate Trimmed(s: string) {
    s == [] || (!IsSpace(s[0]) && !IsSpace(s[|s| - 1]))
  }

  /** `s.lstrip()`: `s` without its leading whitespace. */
  function TrimStart(s: string): string {
    if |s| > 0 && IsSpace(s[0]) then TrimStart(s[1..]) else s
  }

  /** `s.rstrip()`: `s` without its trailing whitespace. */
  function TrimEnd(s: string): string {
    if |s| > 0 && IsSpace(s[|s| - 1]) then TrimEnd(s[..|s| - 1]) else s
  }

  /** `s.lstrip()` drops a run of whitespace from the front of `s` and stops
      at the first character that is not whitespace. */
  lemma {:induction false} TrimStartSpec(s: string)
    ensures |TrimStart(s)| <= |s| && TrimStart(s) == s[|s| - |TrimStart(s)|..]
    ensures AllSpace(s[..|s| - |TrimStart(s)|])
    ensures TrimStart(s) == [] || !IsSpace(TrimStart(s)[0])
  {
    if |s| > 0 && IsSpace(s[0]) {
      TrimStartSpec(s[1..]);
      var d := |s| - |TrimStart(s)|;
      assert s[..d] == [s[0]] + s[1..][..d - 1];
    }
  }

  /** `s.rstrip()` drops a run of whitespace from the back of `s` and stops
      at the last character that is not whitespace. */
  lemma {:induction false} TrimEndSpec(s: string)
    ensures |TrimEnd(s)| <= |s| && TrimEnd(s) == s[..|TrimEnd(s)|]
    ensures AllSpace(s[|TrimEnd(s)|..])
    ensures TrimEnd(s) == [] || !IsSpace(TrimEnd(s)[|TrimEnd(s)| - 1])
  {
    if |s| > 0 && IsSpace(s[|s| - 1]) {
      var init := s[..|s| - 1];
      TrimEndSpec(init);
      var n := |TrimEnd(s)|;
      assert s[n..] == init[n..] + [s[|s| - 1]];
    }
  }

  /** `s.strip()`: `s` without its leading and trailing whitespace. The result
      neither begins nor ends with whitespace. */
  function Strip(s: string): (r: string)
    ensures |r| <= |s|
    ensures Trimmed(r)
  {
    TrimStartSpec(s);
    TrimEndSpec(TrimStart(s));
    var r := TrimEnd(TrimStart(s));
    assert r != [] ==> r[0] == TrimStart(s)[0];
    r
  }

  /** What `s.strip()` removes is whitespace: the result is the piece of `s`
      between a whitespace prefix and a whitespace suffix. */
  lemma {:induction false} StripSpec(s: string)
    ensures exists i :: 0 <= i <= |s| - |Strip(s)| && Strip(s) == s[i..i + |Strip(s)|]
                       && AllSpace(s[..i]) && AllSpace(s[i + |Strip(s)|..])
  {
    TrimStartSpec(s);
    TrimEndSpec(TrimStart(s));
    var i := |s| - |TrimStart(s)|;
    var t := TrimStart(s);
    assert Strip(s) == t[..|Strip(s)|];
    assert s[i + |Strip(s)|..] == t[|Strip(s)|..];
    assert s[i..i + |Strip(s)|] == t[..|Strip(s)|];
  }

  lemma {:induction false} TrimStartPadded(pad: string, t: string)
    requires AllSpace(pad)
    requires t == [] || !IsSpace(t[0])
    ensures TrimStart(pad + t) == t
  {
    if pad != [] {
      assert (pad + t)[1..] == pad[1..] + t;
      TrimStartPadded(pad[1..], t);
    }
  }

  lemma {:induction false} TrimEndPadded(t: string, pad: string)
    requires AllSpace(pad)
    requires t == [] || !IsSpace(t[|t| - 1])
    ensures TrimEnd(t + pad) == t
  {
    if pad != [] {
      var n := |pad|;
      assert (t + pad)[..|t + pad| - 1] == t + pad[..n - 1];
      TrimEndPadded(t, pad[..n - 1]);
    }
  }

  /** Stripping undoes whitespace padding: a string that neither begins nor
      ends with whitespace comes back unchanged from `(left + t + right).strip()`
      whatever whitespace surrounds it. */
  lemma {:induction false} StripPadded(left: string, t: string, right: string)
    requires AllSpace(left) && AllSpace(right)
    requires Trimmed(t)
    ensures Strip(left + t + right) == t
  {
    assert left + t + right == left + (t + right);
    if t == [] {
      assert AllSpace(t + right) by { assert t + right == right; }
      assert TrimStart(left + (t + right)) == [] by {
        assert left + (t + right) == left + right + [];
        assert AllSpace(left + right);
        TrimStartPadded(left + right, []);
      }
    } else {
      TrimStartPadded(left, t + right);
      TrimEndPadded(t, right);
    }
  }

  /** Stripping is idempotent. */
  lemma {:induction false} StripIdempotent(s: string)
    ensures Strip(Strip(s)) == Strip(s)
  {
    StripPadded([], Strip(s), []);
    assert [] + Strip(s) + [] == Strip(s);
  }

  /** Python's `str.lower()` on ASCII letters; every other character is left
      as it is. */
  function LowerChar(c: char): char {
    if 'A' <= c <= 'Z' then (c as int + 32) as char else c
  }

  function Lower(s: string): string {
    seq(|s|, i requires 0 <= i < |s| => LowerChar(s[i]))
  }

  /** Python's `s[0:n]`: the first `n` characters, or all of `s` when it is
      shorter. */
  function Head(s: string, n: nat): string {
    if |s| <= n then s else s[..n]
  }
}
