/** Characters, digit runs and the non-digit stripping that every input
    handler of the registration form starts with (`replace(/\D/g, '')`,
    `replace(/[^\d]+/g, '')`).  JavaScript's `\d` is the ASCII class [0-9]. */
module Digits {

  datatype Option<T> = None | Some(value: T)

  predicate IsDigit(c: char) {
    '0' <= c <= '9'
  }

  predicate AllDigits(s: string) {
    forall i :: 0 <= i < |s| ==> IsDigit(s[i])
  }

  /** `parseInt` of a one-character digit string. */
  function DigitValue(c: char): (v: nat)
    requires IsDigit(c)
    ensures v <= 9
  {
    c as int - '0' as int
  }

  /** The string with every non-digit character removed, order kept.
      `StripMembers`, `StripConcat` and `StripDigits` pin down its value. */
  function Strip(s: string): (r: string)
    ensures AllDigits(r)
    ensures |r| <= |s|
  {
    if s == [] then []
    else (if IsDigit(s[0]) then [s[0]] else []) + Strip(s[1..])
  }

  /** `s` with the string `t` inserted in front of position `i`. */
  function InsertAt(s: string, i: nat, t: string): (r: string)
    requires i <= |s|
    ensures |r| == |s| + |t|
    ensures r[..i] == s[..i] && r[i..i + |t|] == t && r[i + |t|..] == s[i..]
  {
    s[..i] + t + s[i..]
  }

  /** A character survives stripping exactly when it is a digit of `s`. */
  lemma {:induction false} StripMembers(s: string)
    ensures forall c :: c in Strip(s) <==> c in s && IsDigit(c)
  {
    if s != [] {
      StripMembers(s[1..]);
      assert s == [s[0]] + s[1..];
    }
  }

  lemma {:induction false} StripConcat(a: string, b: string)
    ensures Strip(a + b) == Strip(a) + Strip(b)
  {
    if a == [] {
      assert a + b == b;
    } else {
      assert (a + b)[1..] == a[1..] + b;
      StripConcat(a[1..], b);
    }
  }

  lemma {:induction false} StripDigits(s: string)
    requires AllDigits(s)
    ensures Strip(s) == s
  {
    if s != [] {
      StripDigits(s[1..]);
    }
  }

  lemma {:induction false} StripNoDigits(s: string)
    requires forall i :: 0 <= i < |s| ==> !IsDigit(s[i])
    ensures Strip(s) == []
  {
    if s != [] {
      StripNoDigits(s[1..]);
    }
  }

  /** Stripping twice is stripping once. */
  lemma {:induction false} StripIdempotent(s: string)
    ensures Strip(Strip(s)) == Strip(s)
  {
    StripDigits(Strip(s));
  }

  /** Inserting a punctuation-only string anywhere leaves the digits as they were. */
  lemma {:induction false} InsertKeepsDigits(s: string, i: nat, t: string)
    requires i <= |s|
    requires forall k :: 0 <= k < |t| ==> !IsDigit(t[k])
    ensures Strip(InsertAt(s, i, t)) == Strip(s)
  {
    var pre, post := s[..i], s[i..];
    assert s == pre + post;
    StripConcat(pre + t, post);
    StripConcat(pre, t);
    StripNoDigits(t);
    StripConcat(pre, post);
    calc {
      Strip(InsertAt(s, i, t));
      Strip((pre + t) + post);
      Strip(pre) + Strip(t) + Strip(post);
      Strip(pre) + Strip(post);
      Strip(s);
    }
  }
}
