/** The search form: the progressive input mask applied on every change of
    the process-number field, and the accept/reject decision taken when the
    form is submitted. */
module SearchForm {
  import opened Text
  import opened PjeService

  /** The mask never keeps more digits than a process number has. */
  const MaxDigits: nat := 20

  /** The first `MaxDigits` digits of `d` (all of them when there are fewer). */
  function Kept(d: string): (r: string)
    ensures |r| == if |d| <= MaxDigits then |d| else MaxDigits
    ensures r == d[..|r|]
  {
    if |d| <= MaxDigits then d else d[..MaxDigits]
  }

  // ---------------------------------------------------------------------
  // formatProcessNumber
  // ---------------------------------------------------------------------

  /** `formatProcessNumber`: strip the non-digits, then insert the
      separators that the digits typed so far reach, dropping any digit past
      the twentieth. */
  function FormatProcessNumber(value: string): (r: string)
    ensures |StripNonDigits(value)| <= 7 ==> r == StripNonDigits(value)
    ensures |r| <= NumberLength
    ensures |r| == NumberLength <==> |StripNonDigits(value)| >= MaxDigits
  {
    var numbers := StripNonDigits(value);
    var n := |numbers|;
    if n <= 7 then
      numbers
    else if n <= 9 then
      numbers[..7] + "-" + numbers[7..]
    else if n <= 13 then
      numbers[..7] + "-" + numbers[7..9] + "." + numbers[9..]
    else if n <= 14 then
      numbers[..7] + "-" + numbers[7..9] + "." + numbers[9..13] + "." + numbers[13..]
    else if n <= 16 then
      numbers[..7] + "-" + numbers[7..9] + "." + numbers[9..13] + "." + numbers[13..14] + "." + numbers[14..]
    else
      numbers[..7] + "-" + numbers[7..9] + "." + numbers[9..13] + "." + numbers[13..14] + "." + numbers[14..16] + "." + numbers[16..if n < 20 then n else 20]
  }

  // ---------------------------------------------------------------------
  // A reference definition: one digit at a time
  // ---------------------------------------------------------------------

  /** The digit indices a separator goes in front of: a dash before the
      eighth digit, a dot before the tenth, fourteenth, fifteenth and
      seventeenth. */
  predicate IsBoundary(k: nat) {
    k == 7 || k == 9 || k == 13 || k == 14 || k == 16
  }

  /** The separator that goes in front of the digit of index `k`. */
  function SeparatorBefore(k: nat): (sep: string)
    ensures |sep| == (if IsBoundary(k) then 1 else 0)
    ensures sep == [] || sep == "-" || sep == "."
  {
    if k == 7 then "-" else if IsBoundary(k) then "." else ""
  }

  /** Emits the digits of `d` from index `k` on, each one preceded by the
      separator due in front of it. A separator is thus written only when
      the digit after it exists. */
  function Punctuate(d: string, k: nat): string
    requires k <= |d|
    decreases |d| - k
  {
    if k == |d| then [] else SeparatorBefore(k) + [d[k]] + Punctuate(d, k + 1)
  }

  /** Regrouping of concatenations. Dafny proves it unaided; it is stated as
      a separate step only to keep the proof below small and stable. */
  lemma Regroup1(a: string, c: string, m: string, p: string)
    ensures a + c + (m + p) == a + ((c + m) + p)
  {
  }

  /** Splits the punctuation of `d` from digit `lo` at digit `mid`, when no
      boundary lies strictly between them. */
  lemma {:induction false} PunctuatePiece(d: string, lo: nat, mid: nat)
    requires lo < mid <= |d|
    requires forall j :: lo < j < mid ==> !IsBoundary(j)
    ensures Punctuate(d, lo) == SeparatorBefore(lo) + (d[lo..mid] + Punctuate(d, mid))
    decreases mid - lo
  {
    var sep := SeparatorBefore(lo);
    var rest := Punctuate(d, lo + 1);
    assert Punctuate(d, lo) == sep + [d[lo]] + rest;
    if lo + 1 < mid {
      assert rest == d[lo + 1..mid] + Punctuate(d, mid) by {
        assert !IsBoundary(lo + 1);
        PunctuatePiece(d, lo + 1, mid);
        assert SeparatorBefore(lo + 1) == [];
      }
      assert d[lo..mid] == [d[lo]] + d[lo + 1..mid];
      Regroup1(sep, [d[lo]], d[lo + 1..mid], Punctuate(d, mid));
    } else {
      assert d[lo..mid] == [d[lo]];
      assert Punctuate(d, mid) == rest;
    }
  }

  /** The punctuation of a last run that no boundary interrupts. */
  lemma PunctuateTail(d: string, lo: nat)
    requires lo < |d|
    requires forall j :: lo < j < |d| ==> !IsBoundary(j)
    ensures Punctuate(d, lo) == SeparatorBefore(lo) + d[lo..]
  {
    PunctuatePiece(d, lo, |d|);
    assert d[lo..|d|] == d[lo..];
  }

  lemma PunctuateUpTo9(d: string)
    requires 7 < |d| <= 9
    ensures Punctuate(d, 0) == d[..7] + ("-" + d[7..])
  {
    var p7 := Punctuate(d, 7);
    assert p7 == "-" + d[7..] by { PunctuateTail(d, 7); assert SeparatorBefore(7) == "-"; }
    assert Punctuate(d, 0) == d[..7] + p7 by { PunctuatePiece(d, 0, 7); assert SeparatorBefore(0) == [] && d[0..7] == d[..7]; }
  }

  lemma PunctuateUpTo13(d: string)
    requires 9 < |d| <= 13
    ensures Punctuate(d, 0) == d[..7] + ("-" + (d[7..9] + ("." + d[9..])))
  {
    var p9 := Punctuate(d, 9);
    assert p9 == "." + d[9..] by { PunctuateTail(d, 9); assert SeparatorBefore(9) == "."; }
    var p7 := Punctuate(d, 7);
    assert p7 == "-" + (d[7..9] + p9) by { PunctuatePiece(d, 7, 9); assert SeparatorBefore(7) == "-"; }
    assert Punctuate(d, 0) == d[..7] + p7 by { PunctuatePiece(d, 0, 7); assert SeparatorBefore(0) == [] && d[0..7] == d[..7]; }
  }

  lemma PunctuateUpTo14(d: string)
    requires |d| == 14
    ensures Punctuate(d, 0) == d[..7] + ("-" + (d[7..9] + ("." + (d[9..13] + ("." + d[13..])))))
  {
    var p13 := Punctuate(d, 13);
    assert p13 == "." + d[13..] by { PunctuateTail(d, 13); assert SeparatorBefore(13) == "."; }
    var p9 := Punctuate(d, 9);
    assert p9 == "." + (d[9..13] + p13) by { PunctuatePiece(d, 9, 13); assert SeparatorBefore(9) == "."; }
    var p7 := Punctuate(d, 7);
    assert p7 == "-" + (d[7..9] + p9) by { PunctuatePiece(d, 7, 9); assert SeparatorBefore(7) == "-"; }
    assert Punctuate(d, 0) == d[..7] + p7 by { PunctuatePiece(d, 0, 7); assert SeparatorBefore(0) == [] && d[0..7] == d[..7]; }
  }

  lemma PunctuateUpTo16(d: string)
    requires 14 < |d| <= 16
    ensures Punctuate(d, 0) == d[..7] + ("-" + (d[7..9] + ("." + (d[9..13] + ("." + (d[13..14] + ("." + d[14..])))))))
  {
    var p14 := Punctuate(d, 14);
    assert p14 == "." + d[14..] by { PunctuateTail(d, 14); assert SeparatorBefore(14) == "."; }
    var p13 := Punctuate(d, 13);
    assert p13 == "." + (d[13..14] + p14) by { PunctuatePiece(d, 13, 14); assert SeparatorBefore(13) == "."; }
    var p9 := Punctuate(d, 9);
    assert p9 == "." + (d[9..13] + p13) by { PunctuatePiece(d, 9, 13); assert SeparatorBefore(9) == "."; }
    var p7 := Punctuate(d, 7);
    assert p7 == "-" + (d[7..9] + p9) by { PunctuatePiece(d, 7, 9); assert SeparatorBefore(7) == "-"; }
    assert Punctuate(d, 0) == d[..7] + p7 by { PunctuatePiece(d, 0, 7); assert SeparatorBefore(0) == [] && d[0..7] == d[..7]; }
  }

  lemma PunctuateUpTo20(d: string)
    requires 16 < |d| <= 20
    ensures Punctuate(d, 0) == d[..7] + ("-" + (d[7..9] + ("." + (d[9..13] + ("." + (d[13..14] + ("." + (d[14..16] + ("." + d[16..])))))))))
  {
    var p16 := Punctuate(d, 16);
    assert p16 == "." + d[16..] by { PunctuateTail(d, 16); assert SeparatorBefore(16) == "."; }
    var p14 := Punctuate(d, 14);
    assert p14 == "." + (d[14..16] + p16) by { PunctuatePiece(d, 14, 16); assert SeparatorBefore(14) == "."; }
    var p13 := Punctuate(d, 13);
    assert p13 == "." + (d[13..14] + p14) by { PunctuatePiece(d, 13, 14); assert SeparatorBefore(13) == "."; }
    var p9 := Punctuate(d, 9);
    assert p9 == "." + (d[9..13] + p13) by { PunctuatePiece(d, 9, 13); assert SeparatorBefore(9) == "."; }
    var p7 := Punctuate(d, 7);
    assert p7 == "-" + (d[7..9] + p9) by { PunctuatePiece(d, 7, 9); assert SeparatorBefore(7) == "-"; }
    assert Punctuate(d, 0) == d[..7] + p7 by { PunctuatePiece(d, 0, 7); assert SeparatorBefore(0) == [] && d[0..7] == d[..7]; }
  }

  // Regrouping of the concatenations that the mask writes left to right.
  // Dafny proves each of these unaided; they are separate steps only so
  // that `MaskIsPunctuation` stays small and stable across solver runs.

  lemma Regroup2(a: string, u: string, b: string)
    ensures a + (u + b) == a + u + b
  {
  }

  lemma Regroup3(a: string, u: string, b: string, v: string, c: string)
    ensures a + (u + (b + (v + c))) == a + u + b + v + c
  {
  }

  lemma Regroup4(a: string, u: string, b: string, v: string, c: string, w: string, d: string)
    ensures a + (u + (b + (v + (c + (w + d))))) == a + u + b + v + c + w + d
  {
  }

  lemma Regroup5(a: string, u: string, b: string, v: string, c: string, w: string, d: string, x: string, e: string)
    ensures a + (u + (b + (v + (c + (w + (d + (x + e))))))) == a + u + b + v + c + w + d + x + e
  {
  }

  lemma Regroup6(a: string, u: string, b: string, v: string, c: string, w: string, d: string, x: string, e: string, y: string, f: string)
    ensures a + (u + (b + (v + (c + (w + (d + (x + (e + (y + f))))))))) == a + u + b + v + c + w + d + x + e + y + f
  {
  }

  /** The mask agrees with the digit-at-a-time reference on every input. */
  lemma MaskIsPunctuation(value: string)
    ensures FormatProcessNumber(value) == Punctuate(Kept(StripNonDigits(value)), 0)
  {
    var numbers := StripNonDigits(value);
    var d := Kept(numbers);
    var n := |numbers|;
    var r := FormatProcessNumber(value);
    if n == 0 {
    } else if n <= 7 {
      PunctuateTail(d, 0);
    } else if n <= 9 {
      assert r == d[..7] + "-" + d[7..];
      assert Punctuate(d, 0) == r by {
        PunctuateUpTo9(d);
        Regroup2(d[..7], "-", d[7..]);
      }
    } else if n <= 13 {
      assert r == d[..7] + "-" + d[7..9] + "." + d[9..];
      assert Punctuate(d, 0) == r by {
        PunctuateUpTo13(d);
        Regroup3(d[..7], "-", d[7..9], ".", d[9..]);
      }
    } else if n <= 14 {
      assert r == d[..7] + "-" + d[7..9] + "." + d[9..13] + "." + d[13..];
      assert Punctuate(d, 0) == r by {
        PunctuateUpTo14(d);
        Regroup4(d[..7], "-", d[7..9], ".", d[9..13], ".", d[13..]);
      }
    } else if n <= 16 {
      assert r == d[..7] + "-" + d[7..9] + "." + d[9..13] + "." + d[13..14] + "." + d[14..];
      assert Punctuate(d, 0) == r by {
        PunctuateUpTo16(d);
        Regroup5(d[..7], "-", d[7..9], ".", d[9..13], ".", d[13..14], ".", d[14..]);
      }
    } else {
      assert r == d[..7] + "-" + d[7..9] + "." + d[9..13] + "." + d[13..14] + "." + d[14..16] + "." + d[16..] by {
        assert d[..7] == numbers[..7] && d[7..9] == numbers[7..9] && d[9..13] == numbers[9..13];
        assert d[13..14] == numbers[13..14] && d[14..16] == numbers[14..16];
        assert d[16..] == numbers[16..if n < 20 then n else 20];
      }
      assert Punctuate(d, 0) == r by {
        PunctuateUpTo20(d);
        Regroup6(d[..7], "-", d[7..9], ".", d[9..13], ".", d[13..14], ".", d[14..16], ".", d[16..]);
      }
    }
  }

  /** Every digit of `d` from index `k` on comes out of the punctuation, in
      order, and nothing else that is a digit. */
  lemma {:induction false} PunctuateDigits(d: string, k: nat)
    requires k <= |d| && AllDigits(d)
    ensures StripNonDigits(Punctuate(d, k)) == d[k..]
    decreases |d| - k
  {
    if k < |d| {
      var head := SeparatorBefore(k) + [d[k]];
      var rest := Punctuate(d, k + 1);
      assert Punctuate(d, k) == head + rest;
      PunctuateDigits(d, k + 1);
      StripConcat(head, rest);
      StripSeparatorDigit(k, d[k]);
      assert d[k..] == [d[k]] + d[k + 1..];
    }
  }

  /** A separator followed by a digit strips to that digit. */
  lemma StripSeparatorDigit(k: nat, c: char)
    requires IsDigit(c)
    ensures StripNonDigits(SeparatorBefore(k) + [c]) == [c]
  {
    var sep := SeparatorBefore(k);
    StripConcat(sep, [c]);
    StripNoDigits(sep);
    StripDigitsIdentity([c]);
  }

  /** In the punctuation of digits, each non-digit is followed by a digit
      and is the separator due in front of that digit. */
  lemma {:induction false} PunctuateSeparators(d: string, k: nat, i: nat)
    requires k <= |d| && AllDigits(d)
    requires i < |Punctuate(d, k)| && !IsDigit(Punctuate(d, k)[i])
    ensures i + 1 < |Punctuate(d, k)| && IsDigit(Punctuate(d, k)[i + 1])
    ensures IsBoundary(k + |StripNonDigits(Punctuate(d, k)[..i])|)
    ensures SeparatorBefore(k + |StripNonDigits(Punctuate(d, k)[..i])|) == [Punctuate(d, k)[i]]
    decreases |d| - k
  {
    var p := Punctuate(d, k);
    var head := SeparatorBefore(k) + [d[k]];
    var rest := Punctuate(d, k + 1);
    assert p == head + rest;
    if i < |head| - 1 {
      assert i == 0 && p[0] == SeparatorBefore(k)[0] && p[1] == d[k];
      assert p[..i] == [];
    } else {
      assert i != |head| - 1;
      var j := i - |head|;
      assert p[i] == rest[j];
      PunctuateSeparators(d, k + 1, j);
      assert p[i + 1] == rest[j + 1];
      assert StripNonDigits(p[..i]) == [d[k]] + StripNonDigits(rest[..j]) by {
        assert p[..i] == head + rest[..j];
        StripConcat(head, rest[..j]);
        StripSeparatorDigit(k, d[k]);
      }
    }
  }

  // ---------------------------------------------------------------------
  // Properties of the mask
  // ---------------------------------------------------------------------

  /** Digit preservation: the output carries the first twenty digits of the
      input, in order; any digit after the twentieth is dropped. */
  lemma MaskKeepsDigits(value: string)
    ensures StripNonDigits(FormatProcessNumber(value)) == Kept(StripNonDigits(value))
  {
    MaskIsPunctuation(value);
    PunctuateDigits(Kept(StripNonDigits(value)), 0);
    assert Kept(StripNonDigits(value))[0..] == Kept(StripNonDigits(value));
  }

  /** Placement: every character of the output that is not a digit is
      followed by a digit, and is the separator due after as many digits as
      precede it (the seventh, ninth, thirteenth, fourteenth or sixteenth). */
  lemma MaskSeparators(value: string, i: nat)
    requires i < |FormatProcessNumber(value)| && !IsDigit(FormatProcessNumber(value)[i])
    ensures i + 1 < |FormatProcessNumber(value)| && IsDigit(FormatProcessNumber(value)[i + 1])
    ensures IsBoundary(|StripNonDigits(FormatProcessNumber(value)[..i])|)
    ensures SeparatorBefore(|StripNonDigits(FormatProcessNumber(value)[..i])|) == [FormatProcessNumber(value)[i]]
  {
    MaskIsPunctuation(value);
    PunctuateSeparators(Kept(StripNonDigits(value)), 0, i);
  }

  /** Idempotence: masking the mask's own output changes nothing. */
  lemma MaskIdempotent(value: string)
    ensures FormatProcessNumber(FormatProcessNumber(value)) == FormatProcessNumber(value)
  {
    MaskKeepsDigits(value);
    var numbers := StripNonDigits(value);
    var again := StripNonDigits(FormatProcessNumber(value));
    if |numbers| > MaxDigits {
      assert again == numbers[..MaxDigits];
      assert again[..7] == numbers[..7] && again[7..9] == numbers[7..9] && again[9..13] == numbers[9..13];
      assert again[13..14] == numbers[13..14] && again[14..16] == numbers[14..16] && again[16..20] == numbers[16..20];
    }
  }

  /** With twenty digits or more the mask is the full layout of the kept
      digits. */
  lemma MaskFull(value: string)
    requires |StripNonDigits(value)| >= MaxDigits
    ensures FormatProcessNumber(value) == Layout(Kept(StripNonDigits(value)))
  {
    var numbers := StripNonDigits(value);
    var d := Kept(numbers);
    assert FormatProcessNumber(value) ==
      numbers[..7] + "-" + numbers[7..9] + "." + numbers[9..13] + "." + numbers[13..14] + "." + numbers[14..16] + "." + numbers[16..20];
    assert d == numbers[..20];
    assert numbers[..7] == d[0..7] && numbers[7..9] == d[7..9] && numbers[9..13] == d[9..13];
    assert numbers[13..14] == d[13..14] && numbers[14..16] == d[14..16] && numbers[16..20] == d[16..20];
  }

  /** With twenty digits or more, the mask produces the canonical formatting
      of the first twenty, which the validator accepts; with exactly twenty
      it agrees with the canonical formatter on the raw input. */
  lemma MaskAgreesWithFormatter(value: string)
    requires |StripNonDigits(value)| >= MaxDigits
    ensures FormatProcessNumber(value) == FormatarNumeroProcesso(Kept(StripNonDigits(value)))
    ensures |StripNonDigits(value)| == MaxDigits ==> FormatProcessNumber(value) == FormatarNumeroProcesso(value)
    ensures ValidarNumeroProcesso(FormatProcessNumber(value))
  {
    var numbers := StripNonDigits(value);
    var d := Kept(numbers);
    MaskFull(value);
    assert FormatarNumeroProcesso(d) == Layout(d) by {
      StripDigitsIdentity(d);
    }
    LayoutIsCnj(d);
  }

  /** The validator accepts what the mask shows exactly when twenty digits
      or more were entered. */
  lemma MaskValidIff(value: string)
    ensures ValidarNumeroProcesso(FormatProcessNumber(value)) <==> |StripNonDigits(value)| >= MaxDigits
  {
    if |StripNonDigits(value)| >= MaxDigits {
      MaskAgreesWithFormatter(value);
    }
  }

  // ---------------------------------------------------------------------
  // The form component
  // ---------------------------------------------------------------------

  /** What submitting the form leads to: one of the two error toasts, or a
      call of `onSearch` with the number and the detected tribunal. */
  datatype SubmitOutcome =
    | MissingNumber
    | InvalidFormat
    | Search(processNumber: string, tribunal: string)

  /** A string the validator accepts is never blank. */
  lemma ValidIsNotBlank(s: string)
    requires ValidarNumeroProcesso(s)
    ensures Trim(s) != []
  {
    TrimEmptyIff(s);
    assert !IsJsWhiteSpace(s[0]);
  }

  /** The form's state: the `processNumber` held by `useState`. */
  class ProcessSearchForm {
    var processNumber: string

    constructor ()
      ensures processNumber == ""
    {
      processNumber := "";
    }

    /** `handleInputChange`: the field always holds the masked input. */
    method HandleInputChange(value: string)
      modifies this
      ensures processNumber == FormatProcessNumber(value)
    {
      processNumber := FormatProcessNumber(value);
    }

    /** `handleSubmit`. `detectarTribunal` stands for the service's tribunal
        detection, which is not part of this model. `onSearch` is reached
        exactly when the number passes the validator (which already implies
        that it is not blank); a blank number and a malformed one are
        rejected, each with its own message. */
    method HandleSubmit(detectarTribunal: string -> string) returns (outcome: SubmitOutcome)
      ensures outcome == MissingNumber <==> Trim(processNumber) == []
      ensures outcome == InvalidFormat <==> Trim(processNumber) != [] && !ValidarNumeroProcesso(processNumber)
      ensures outcome.Search? <==> ValidarNumeroProcesso(processNumber)
      ensures outcome.Search? ==> outcome == Search(processNumber, detectarTribunal(processNumber))
    {
      if Trim(processNumber) == [] {
        if ValidarNumeroProcesso(processNumber) {
          ValidIsNotBlank(processNumber);
        }
        return MissingNumber;
      }
      if !ValidarNumeroProcesso(processNumber) {
        return InvalidFormat;
      }
      var tribunalDetectado := detectarTribunal(processNumber);
      return Search(processNumber, tribunalDetectado);
    }
  }

  /** Typing into the field and then submitting reaches `onSearch` exactly
      when at least twenty digits were typed. */
  method TypeAndSubmit(form: ProcessSearchForm, value: string, detectarTribunal: string -> string)
    returns (outcome: SubmitOutcome)
    modifies form
    ensures form.processNumber == FormatProcessNumber(value)
    ensures outcome.Search? <==> |StripNonDigits(value)| >= MaxDigits
    ensures outcome.Search? ==> outcome.processNumber == FormatProcessNumber(value)
    ensures outcome.Search? ==> ValidarNumeroProcesso(outcome.processNumber)
  {
    form.HandleInputChange(value);
    outcome := form.HandleSubmit(detectarTribunal);
    MaskValidIff(value);
  }
}
