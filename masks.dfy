/** The progressive input masks of the CPF, phone and CEP fields.  Each
    handler strips the non-digits and then applies single-occurrence regex
    rewrites; each rewrite is modelled here by what the regex engine does
    (leftmost match, `^` and `$` anchors, greedy counted repetition), and
    the composed mask is then proved equal to a layout given by cases on
    the number of digits.  The same rewrites appear in js/main.js and
    js/validation.js. */
module Masks {
  import opened Digits
  import Cpf

  /** k consecutive digits start at position q. */
  predicate RunAt(s: string, q: nat, k: nat) {
    q + k <= |s| && AllDigits(s[q..q + k])
  }

  /** The leftmost q >= p where a run of k digits starts, if any. */
  function FirstRun(s: string, k: nat, p: nat): (r: Option<nat>)
    requires p <= |s|
    ensures r.Some? ==> p <= r.value && RunAt(s, r.value, k)
    ensures r.Some? ==> forall q :: p <= q < r.value ==> !RunAt(s, q, k)
    ensures r.None? ==> forall q :: p <= q ==> !RunAt(s, q, k)
    decreases |s| - p
  {
    if p + k > |s| then None
    else if AllDigits(s[p..p + k]) then Some(p)
    else FirstRun(s, k, p + 1)
  }

  /** `replace(/(\d{3})(\d)/, '$1.$2')`: a dot after the first three digits
      that are followed by a fourth. */
  function DotAfterFirstTriple(s: string): (r: string)
    ensures r != s <==> FirstRun(s, 4, 0).Some?
    ensures |r| == if r == s then |s| else |s| + 1
  {
    match FirstRun(s, 4, 0)
    case None => s
    case Some(p) => InsertAt(s, p + 3, ".")
  }

  /** `replace(/(\d{3})(\d{1,2})$/, '$1-$2')`: the leftmost match ending at
      the end of the string is tried first with five trailing digits, then
      with four; the dash goes after the first three of them. */
  function DashBeforeCpfTail(s: string): (r: string)
    ensures r != s <==> |s| >= 4 && AllDigits(s[|s| - 4..])
    ensures |r| == if r == s then |s| else |s| + 1
  {
    if |s| >= 5 && AllDigits(s[|s| - 5..]) then
      var four, five := s[|s| - 4..], s[|s| - 5..];
      assert AllDigits(four) by {
        forall i | 0 <= i < |four| ensures IsDigit(four[i]) {
          assert four[i] == five[i + 1];
        }
      }
      InsertAt(s, |s| - 2, "-")
    else if |s| >= 4 && AllDigits(s[|s| - 4..]) then InsertAt(s, |s| - 1, "-")
    else s
  }

  /** `replace(/^(\d{2})(\d)/g, '($1) $2')`: the `^` anchor allows one
      match only, at the start. */
  function ParenthesizeAreaCode(s: string): (r: string)
    ensures r != s <==> |s| >= 3 && AllDigits(s[..3])
    ensures |r| == if r == s then |s| else |s| + 3
  {
    if |s| >= 3 && AllDigits(s[..3]) then "(" + s[..2] + ") " + s[2..] else s
  }

  /** `replace(/(\d)(\d{4})$/, '$1-$2')`: a dash before the last four
      characters when the last five are digits. */
  function DashBeforeLastFour(s: string): (r: string)
    ensures r != s <==> |s| >= 5 && AllDigits(s[|s| - 5..])
    ensures |r| == if r == s then |s| else |s| + 1
  {
    if |s| >= 5 && AllDigits(s[|s| - 5..]) then InsertAt(s, |s| - 4, "-") else s
  }

  /** `replace(/^(\d{5})(\d)/, '$1-$2')`. */
  function DashAfterFifth(s: string): (r: string)
    ensures r != s <==> |s| >= 6 && AllDigits(s[..6])
    ensures |r| == if r == s then |s| else |s| + 1
  {
    if |s| >= 6 && AllDigits(s[..6]) then InsertAt(s, 5, "-") else s
  }

  /** The CPF field's input handler: it adds at most three punctuation
      characters to the digits. */
  function MaskCpf(raw: string): (r: string)
    ensures |Strip(raw)| <= |r| <= |Strip(raw)| + 3
  {
    DashBeforeCpfTail(DotAfterFirstTriple(DotAfterFirstTriple(Strip(raw))))
  }

  /** The phone field's input handler: it adds at most four punctuation
      characters to the digits. */
  function MaskPhone(raw: string): (r: string)
    ensures |Strip(raw)| <= |r| <= |Strip(raw)| + 4
  {
    DashBeforeLastFour(ParenthesizeAreaCode(Strip(raw)))
  }

  /** The CEP field's input handler: it adds at most one dash to the
      digits. */
  function MaskCep(raw: string): (r: string)
    ensures |Strip(raw)| <= |r| <= |Strip(raw)| + 1
  {
    DashAfterFifth(Strip(raw))
  }

  // ---------------------------------------------------------------------
  // Layouts by digit count: the reference the masks are proved against.

  /** CPF: `DDD`, `DDD.D…`, `DDD.DDD.D…`, `DDD.DDD.DDD-D`, and from eleven
      digits on the dash sits before the last two (there is no truncation). */
  function CpfLayout(d: string): string {
    var n := |d|;
    if n <= 3 then d
    else if n <= 6 then d[..3] + "." + d[3..]
    else if n <= 9 then d[..3] + "." + d[3..6] + "." + d[6..]
    else if n == 10 then d[..3] + "." + d[3..6] + "." + d[6..9] + "-" + d[9..]
    else d[..3] + "." + d[3..6] + "." + d[6..n - 2] + "-" + d[n - 2..]
  }

  /** Phone: bare up to two digits, then `(DD) D…`, and from seven digits on a
      dash before the last four. */
  function PhoneLayout(d: string): string {
    var n := |d|;
    if n <= 2 then d
    else if n <= 6 then "(" + d[..2] + ") " + d[2..]
    else "(" + d[..2] + ") " + d[2..n - 4] + "-" + d[n - 4..]
  }

  /** CEP: bare up to five digits, then `DDDDD-D…`. */
  function CepLayout(d: string): string {
    if |d| <= 5 then d else d[..5] + "-" + d[5..]
  }

  // ---------------------------------------------------------------------
  // Helpers about the individual rewrites.

  lemma NoRunOver(s: string, q: nat, k: nat, i: nat)
    requires q <= i < q + k && i < |s|
    requires !IsDigit(s[i])
    ensures !RunAt(s, q, k)
  {
    if q + k <= |s| {
      assert s[q..q + k][i - q] == s[i];
    }
  }

  lemma TailNotDigits(s: string, m: nat, i: nat)
    requires m <= |s| && |s| - m <= i < |s|
    requires !IsDigit(s[i])
    ensures !AllDigits(s[|s| - m..])
  {
    assert s[|s| - m..][i - (|s| - m)] == s[i];
  }

  lemma DotAfterFirstTripleAtStart(d: string)
    requires AllDigits(d)
    ensures |d| < 4 ==> DotAfterFirstTriple(d) == d
    ensures |d| >= 4 ==> DotAfterFirstTriple(d) == d[..3] + "." + d[3..]
  {
    if |d| >= 4 {
      assert RunAt(d, 0, 4);
    } else {
      var r := FirstRun(d, 4, 0);
      assert r.None?;
    }
  }

  lemma DotAfterSecondTriple(d: string)
    requires AllDigits(d) && |d| >= 4
    ensures |d| < 7 ==> DotAfterFirstTriple(d[..3] + "." + d[3..]) == d[..3] + "." + d[3..]
    ensures |d| >= 7 ==>
      DotAfterFirstTriple(d[..3] + "." + d[3..]) == d[..3] + "." + d[3..6] + "." + d[6..]
  {
    var s := d[..3] + "." + d[3..];
    assert s[3] == '.';
    forall q | q <= 3 ensures !RunAt(s, q, 4) {
      NoRunOver(s, q, 4, 3);
    }
    var r := FirstRun(s, 4, 0);
    if |d| >= 7 {
      assert s[4..8] == d[3..7];
      assert RunAt(s, 4, 4);
      assert r == Some(4);
      assert InsertAt(s, 7, ".") == d[..3] + "." + d[3..6] + "." + d[6..];
    } else {
      assert r.None?;
    }
  }

  lemma DashBeforeCpfTailOneDot(d: string)
    requires AllDigits(d) && 4 <= |d| < 7
    ensures DashBeforeCpfTail(d[..3] + "." + d[3..]) == CpfLayout(d)
  {
    var s := d[..3] + "." + d[3..];
    assert s[3] == '.';
    if |s| >= 5 { TailNotDigits(s, 5, 3); }
    TailNotDigits(s, 4, 3);
  }

  lemma DashBeforeCpfTailTwoDots(d: string)
    requires AllDigits(d) && 7 <= |d|
    ensures DashBeforeCpfTail(d[..3] + "." + d[3..6] + "." + d[6..]) == CpfLayout(d)
  {
    var n := |d|;
    var s := d[..3] + "." + d[3..6] + "." + d[6..];
    assert |s| == n + 2 && s[7] == '.';
    if n <= 9 {
      TailNotDigits(s, 5, 7);
      TailNotDigits(s, 4, 7);
    } else if n == 10 {
      TailNotDigits(s, 5, 7);
      assert s[|s| - 4..] == d[6..];
      assert s[..11] == d[..3] + "." + d[3..6] + "." + d[6..9];
      assert s[11..] == d[9..];
    } else {
      assert s[|s| - 5..] == d[n - 5..];
      assert s[..n] == d[..3] + "." + d[3..6] + "." + d[6..n - 2];
      assert s[n..] == d[n - 2..];
    }
  }

  // ---------------------------------------------------------------------
  // The masks against their layouts.

  /** The CPF mask lays the digits out by their count, as CpfLayout says. */
  lemma {:induction false} MaskCpfLayout(raw: string)
    ensures MaskCpf(raw) == CpfLayout(Strip(raw))
  {
    var d := Strip(raw);
    DotAfterFirstTripleAtStart(d);
    if |d| >= 4 {
      DotAfterSecondTriple(d);
      if |d| < 7 {
        DashBeforeCpfTailOneDot(d);
      } else {
        DashBeforeCpfTailTwoDots(d);
      }
    }
  }

  /** The phone mask lays the digits out by their count, as PhoneLayout says. */
  lemma {:induction false} MaskPhoneLayout(raw: string)
    ensures MaskPhone(raw) == PhoneLayout(Strip(raw))
  {
    var d := Strip(raw);
    var n := |d|;
    if n >= 3 {
      var s := "(" + d[..2] + ") " + d[2..];
      assert d[..3] == d[..3];
      assert ParenthesizeAreaCode(d) == s;
      assert |s| == n + 3 && s[4] == ' ';
      if n <= 6 {
        TailNotDigits(s, 5, 4);
      } else {
        assert s[|s| - 5..] == d[n - 5..];
        assert s[..n - 1] == "(" + d[..2] + ") " + d[2..n - 4];
        assert s[n - 1..] == d[n - 4..];
      }
    }
  }

  /** The CEP mask lays the digits out by their count, as CepLayout says. */
  lemma {:induction false} MaskCepLayout(raw: string)
    ensures MaskCep(raw) == CepLayout(Strip(raw))
  {
  }

  // ---------------------------------------------------------------------
  // Punctuation is only ever inserted.

  lemma DotAfterFirstTripleKeepsDigits(s: string)
    ensures Strip(DotAfterFirstTriple(s)) == Strip(s)
  {
    match FirstRun(s, 4, 0)
    case None =>
    case Some(p) => InsertKeepsDigits(s, p + 3, ".");
  }

  lemma DashBeforeCpfTailKeepsDigits(s: string)
    ensures Strip(DashBeforeCpfTail(s)) == Strip(s)
  {
    if |s| >= 5 && AllDigits(s[|s| - 5..]) {
      InsertKeepsDigits(s, |s| - 2, "-");
    } else if |s| >= 4 && AllDigits(s[|s| - 4..]) {
      InsertKeepsDigits(s, |s| - 1, "-");
    }
  }

  lemma ParenthesizeAreaCodeKeepsDigits(s: string)
    ensures Strip(ParenthesizeAreaCode(s)) == Strip(s)
  {
    if |s| >= 3 && AllDigits(s[..3]) {
      var a, b := s[..2], s[2..];
      assert s == a + b;
      StripConcat("(" + a + ") ", b);
      StripConcat("(" + a, ") ");
      StripConcat("(", a);
      StripNoDigits("(");
      StripNoDigits(") ");
      StripConcat(a, b);
      calc {
        Strip(ParenthesizeAreaCode(s));
        Strip(("(" + a + ") ") + b);
        Strip(a) + Strip(b);
        Strip(s);
      }
    }
  }

  lemma DashBeforeLastFourKeepsDigits(s: string)
    ensures Strip(DashBeforeLastFour(s)) == Strip(s)
  {
    if |s| >= 5 && AllDigits(s[|s| - 5..]) {
      InsertKeepsDigits(s, |s| - 4, "-");
    }
  }

  lemma DashAfterFifthKeepsDigits(s: string)
    ensures Strip(DashAfterFifth(s)) == Strip(s)
  {
    if |s| >= 6 && AllDigits(s[..6]) {
      InsertKeepsDigits(s, 5, "-");
    }
  }

  /** A digit string holds no punctuation character. */
  lemma NoPunctuationAmongDigits(d: string, c: char)
    requires AllDigits(d) && !IsDigit(c)
    ensures c !in d
  {
  }

  // ---------------------------------------------------------------------
  // CPF mask: js/main.js:186-189, js/validation.js:9-12.

  /** The CPF mask keeps exactly the digits it was given, in order. */
  lemma MaskCpfKeepsDigits(raw: string)
    ensures Strip(MaskCpf(raw)) == Strip(raw)
  {
    var d := Strip(raw);
    StripIdempotent(raw);
    DotAfterFirstTripleKeepsDigits(d);
    DotAfterFirstTripleKeepsDigits(DotAfterFirstTriple(d));
    DashBeforeCpfTailKeepsDigits(DotAfterFirstTriple(DotAfterFirstTriple(d)));
  }

  /** Re-masking a masked CPF changes nothing. */
  lemma MaskCpfIdempotent(raw: string)
    ensures MaskCpf(MaskCpf(raw)) == MaskCpf(raw)
  {
    MaskCpfKeepsDigits(raw);
  }

  /** The CPF validator reads the masked value the same way as the raw one. */
  lemma MaskCpfSameVerdict(raw: string)
    ensures Cpf.IsValidCpf(MaskCpf(raw)) == Cpf.IsValidCpf(raw)
  {
    MaskCpfKeepsDigits(raw);
  }

  /** Eleven digits become `DDD.DDD.DDD-DD`. */
  lemma MaskCpfEleven(raw: string)
    requires |Strip(raw)| == 11
    ensures var d := Strip(raw);
      MaskCpf(raw) == d[..3] + "." + d[3..6] + "." + d[6..9] + "-" + d[9..]
    ensures |MaskCpf(raw)| == 14
  {
    MaskCpfLayout(raw);
  }

  /** The masked CPF is 14 characters long exactly when there are eleven digits. */
  lemma MaskCpfLength(raw: string)
    ensures |MaskCpf(raw)| == 14 <==> |Strip(raw)| == 11
    ensures |Strip(raw)| < 11 ==> |MaskCpf(raw)| < 14
    ensures |Strip(raw)| > 11 ==> |MaskCpf(raw)| > 14
    ensures |MaskCpf(raw)| == 0 <==> |Strip(raw)| == 0
  {
    MaskCpfLayout(raw);
    CpfLayoutLength(Strip(raw));
  }

  /** The CPF layout adds one character per group of three digits after
      the first, up to three. */
  lemma CpfLayoutLength(d: string)
    ensures |CpfLayout(d)| == |d| + if |d| <= 3 then 0 else if |d| <= 6 then 1
                                    else if |d| <= 9 then 2 else 3
  {
  }

  /** Extra digits are not cut off: twelve digits keep all twelve, the dash
      moving to sit before the last two. */
  lemma MaskCpfNoTruncation(raw: string)
    requires Strip(raw) == "123456789012"
    ensures MaskCpf(raw) == "123.456.7890-12"
  {
    MaskCpfLayout(raw);
    LayoutOfTwelveDigits(Strip(raw));
  }

  lemma LayoutOfTwelveDigits(d: string)
    requires d == "123456789012"
    ensures CpfLayout(d) == "123.456.7890-12"
  {
    assert d[..3] == "123" && d[3..6] == "456" && d[6..10] == "7890" && d[10..] == "12";
  }

  // ---------------------------------------------------------------------
  // Phone mask: js/main.js:213-215, js/validation.js:19-21.

  lemma MaskPhoneKeepsDigits(raw: string)
    ensures Strip(MaskPhone(raw)) == Strip(raw)
  {
    var d := Strip(raw);
    StripIdempotent(raw);
    ParenthesizeAreaCodeKeepsDigits(d);
    DashBeforeLastFourKeepsDigits(ParenthesizeAreaCode(d));
  }

  lemma MaskPhoneIdempotent(raw: string)
    ensures MaskPhone(MaskPhone(raw)) == MaskPhone(raw)
  {
    MaskPhoneKeepsDigits(raw);
  }

  /** Up to two digits stay bare; from three on the area code is
      parenthesised; a dash appears exactly when at least five digits follow
      the area code; eleven digits give `(DD) DDDDD-DDDD` and ten give
      `(DD) DDDD-DDDD`. */
  lemma MaskPhoneShape(raw: string)
    ensures var d := Strip(raw);
      |d| < 3 ==> MaskPhone(raw) == d
    ensures var d := Strip(raw);
      |d| >= 3 ==> MaskPhone(raw)[..5] == "(" + d[..2] + ") "
    ensures var d := Strip(raw);
      '-' in MaskPhone(raw) <==> |d| - 2 >= 5
    ensures var d := Strip(raw);
      |d| == 11 ==> MaskPhone(raw) == "(" + d[..2] + ") " + d[2..7] + "-" + d[7..]
    ensures var d := Strip(raw);
      |d| == 10 ==> MaskPhone(raw) == "(" + d[..2] + ") " + d[2..6] + "-" + d[6..]
  {
    MaskPhoneLayout(raw);
    PhoneLayoutDash(Strip(raw));
  }

  /** The phone layout holds a dash exactly from seven digits on. */
  lemma PhoneLayoutDash(d: string)
    requires AllDigits(d)
    ensures '-' in PhoneLayout(d) <==> |d| >= 7
  {
    NoPunctuationAmongDigits(d, '-');
    if 3 <= |d| <= 6 {
      NoPunctuationAmongDigits(d[..2], '-');
      NoPunctuationAmongDigits(d[2..], '-');
      assert '-' !in "(" + ") ";
    } else if |d| >= 7 {
      assert PhoneLayout(d)[|d| - 1] == '-';
    }
  }

  // ---------------------------------------------------------------------
  // CEP mask: js/main.js:235-236, js/validation.js:28-29.

  lemma MaskCepKeepsDigits(raw: string)
    ensures Strip(MaskCep(raw)) == Strip(raw)
  {
    StripIdempotent(raw);
    DashAfterFifthKeepsDigits(Strip(raw));
  }

  lemma MaskCepIdempotent(raw: string)
    ensures MaskCep(MaskCep(raw)) == MaskCep(raw)
  {
    MaskCepKeepsDigits(raw);
  }

  /** A dash goes after the fifth digit exactly when there is a sixth;
      otherwise the bare digits come back; eight digits give `DDDDD-DDD`. */
  lemma MaskCepShape(raw: string)
    ensures var d := Strip(raw);
      |d| < 6 ==> MaskCep(raw) == d
    ensures var d := Strip(raw);
      |d| >= 6 ==> MaskCep(raw) == d[..5] + "-" + d[5..]
    ensures '-' in MaskCep(raw) <==> |Strip(raw)| >= 6
    ensures |Strip(raw)| == 8 ==> |MaskCep(raw)| == 9
  {
    var d := Strip(raw);
    MaskCepLayout(raw);
    NoPunctuationAmongDigits(d, '-');
    if |d| >= 6 {
      assert MaskCep(raw)[5] == '-';
    }
  }

  // ---------------------------------------------------------------------
  // Worked examples.

  lemma MaskExamples(cpf: string, phone: string, cep: string)
    requires Strip(cpf) == "52998224725"
    requires Strip(phone) == "11987654321"
    requires Strip(cep) == "01310100"
    ensures MaskCpf(cpf) == "529.982.247-25"
    ensures MaskPhone(phone) == "(11) 98765-4321"
    ensures MaskCep(cep) == "01310-100"
  {
    MaskCpfLayout(cpf);
    MaskPhoneLayout(phone);
    MaskCepLayout(cep);
    LayoutsOfExamples(Strip(cpf), Strip(phone), Strip(cep));
  }

  lemma LayoutsOfExamples(c: string, p: string, z: string)
    requires c == "52998224725" && p == "11987654321" && z == "01310100"
    ensures CpfLayout(c) == "529.982.247-25"
    ensures PhoneLayout(p) == "(11) 98765-4321"
    ensures CepLayout(z) == "01310-100"
  {
    assert c[..3] == "529" && c[3..6] == "982" && c[6..9] == "247" && c[9..] == "25";
    assert p[..2] == "11" && p[2..7] == "98765" && p[7..] == "4321";
    assert z[..5] == "01310" && z[5..] == "100";
  }

  /** Short inputs are laid out but not completed: nine phone digits keep
      the dash before the last four, seven CEP digits leave three after it. */
  lemma ShortInputExamples(phone: string, cep: string)
    requires Strip(phone) == "119876543"
    requires Strip(cep) == "0131010"
    ensures MaskPhone(phone) == "(11) 987-6543"
    ensures MaskCep(cep) == "01310-10"
  {
    MaskPhoneLayout(phone);
    MaskCepLayout(cep);
    LayoutsOfShortInputs(Strip(phone), Strip(cep));
  }

  lemma LayoutsOfShortInputs(p: string, z: string)
    requires p == "119876543" && z == "0131010"
    ensures PhoneLayout(p) == "(11) 987-6543"
    ensures CepLayout(z) == "01310-10"
  {
    assert p[..2] == "11" && p[2..5] == "987" && p[5..] == "6543";
    assert z[..5] == "01310" && z[5..] == "10";
  }
}
