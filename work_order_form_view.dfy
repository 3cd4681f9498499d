/**
 * The cost field of the order form: `filterToDecimalString`, which keeps the digits and the
 * first `.`, and the `onChange` handler that writes the filtered text back only when it differs.
 */
module WorkOrderFormView {
  import opened Wrappers
  import opened Text
  import opened Seqs
  import opened Numbers
  import WorkOrderForm

  /** The characters the cost field may hold. */
  predicate IsDecimalChar(c: char) {
    IsAsciiDigit(c) || c == '.'
  }

  /** No two positions of `s` both hold a `.`. */
  predicate AtMostOneDot(s: string) {
    forall i, j :: 0 <= i < |s| && 0 <= j < |s| && s[i] == '.' && s[j] == '.' ==> i == j
  }

  /**
   * What the loop keeps of `s` once it has seen a `.` (`hasDot`) or not: every digit, and a
   * `.` only while none has been kept.
   */
  function KeepDecimal(s: string, hasDot: bool): string
    decreases |s|
  {
    if s == [] then []
    else if IsAsciiDigit(s[0]) then [s[0]] + KeepDecimal(s[1..], hasDot)
    else if s[0] == '.' && !hasDot then ['.'] + KeepDecimal(s[1..], true)
    else KeepDecimal(s[1..], hasDot)
  }

  /** The digits of `s`, in order. */
  function DigitsOf(s: string): string {
    Filter(s, IsAsciiDigit)
  }

  /** `filterToDecimalString(_:)` */
  method FilterToDecimalString(input: string) returns (result: string)
    ensures result == KeepDecimal(input, false)
  {
    result := "";
    var hasDot := false;
    for i := 0 to |input|
      invariant result + KeepDecimal(input[i..], hasDot) == KeepDecimal(input, false)
    {
      var ch := input[i];
      assert input[i..][0] == ch && input[i..][1..] == input[i + 1..];
      if IsAsciiDigit(ch) {
        result := result + [ch];
      } else if ch == '.' && !hasDot {
        result := result + [ch];
        hasDot := true;
      }
    }
    assert input[|input|..] == [];
  }

  /** Only digits and `.` come out, and no `.` once one has been kept. */
  lemma {:induction false} KeepDecimalChars(s: string, hasDot: bool)
    ensures forall i :: 0 <= i < |KeepDecimal(s, hasDot)| ==> IsDecimalChar(KeepDecimal(s, hasDot)[i])
    ensures hasDot ==> '.' !in KeepDecimal(s, hasDot)
    ensures AtMostOneDot(KeepDecimal(s, hasDot))
    decreases |s|
  {
    if s != [] {
      KeepDecimalChars(s[1..], hasDot);
      if !IsAsciiDigit(s[0]) && s[0] == '.' && !hasDot {
        KeepDecimalChars(s[1..], true);
        var r := KeepDecimal(s[1..], true);
        assert KeepDecimal(s, hasDot) == ['.'] + r;
        forall i, j | 0 <= i < |['.'] + r| && 0 <= j < |['.'] + r| && (['.'] + r)[i] == '.' && (['.'] + r)[j] == '.'
          ensures i == j
        {
          assert i == 0 && j == 0;
        }
      } else if IsAsciiDigit(s[0]) {
        var r := KeepDecimal(s[1..], hasDot);
        assert KeepDecimal(s, hasDot) == [s[0]] + r;
        forall i, j | 0 <= i < |[s[0]] + r| && 0 <= j < |[s[0]] + r| && ([s[0]] + r)[i] == '.' && ([s[0]] + r)[j] == '.'
          ensures i == j
        {
          assert ([s[0]] + r)[i] == r[i - 1];
          assert ([s[0]] + r)[j] == r[j - 1];
        }
      }
    }
  }

  /** The output is the input with characters left out, the rest in order. */
  lemma {:induction false} KeepDecimalSubsequence(s: string, hasDot: bool)
    ensures IsSubsequence(KeepDecimal(s, hasDot), s)
    decreases |s|
  {
    if s != [] {
      if IsAsciiDigit(s[0]) {
        KeepDecimalSubsequence(s[1..], hasDot);
      } else if s[0] == '.' && !hasDot {
        KeepDecimalSubsequence(s[1..], true);
      } else {
        KeepDecimalSubsequence(s[1..], hasDot);
        var r := KeepDecimal(s[1..], hasDot);
        if r != [] {
          assert IsSubsequence(r, s) by { assert IsSubsequence(r, s[1..]); }
        }
      }
    }
  }

  /** Text already made of digits and at most one `.` (none if one was seen) comes out unchanged. */
  lemma {:induction false} KeepDecimalFixed(t: string, hasDot: bool)
    requires forall i :: 0 <= i < |t| ==> IsDecimalChar(t[i])
    requires AtMostOneDot(t)
    requires hasDot ==> '.' !in t
    ensures KeepDecimal(t, hasDot) == t
    decreases |t|
  {
    if t != [] {
      var rest := t[1..];
      assert forall i :: 0 <= i < |rest| ==> rest[i] == t[i + 1];
      if t[0] == '.' {
        KeepDecimalFixed(rest, true);
        assert t == ['.'] + rest;
      } else {
        KeepDecimalFixed(rest, hasDot);
        assert t == [t[0]] + rest;
      }
    }
  }

  /** Filtering twice is filtering once. */
  lemma KeepDecimalIdempotent(s: string)
    ensures KeepDecimal(KeepDecimal(s, false), false) == KeepDecimal(s, false)
  {
    KeepDecimalChars(s, false);
    KeepDecimalFixed(KeepDecimal(s, false), false);
  }

  /** After the first `.`, only digits are kept. */
  lemma {:induction false} KeepDecimalAfterDot(s: string)
    ensures KeepDecimal(s, true) == DigitsOf(s)
    decreases |s|
  {
    if s != [] {
      KeepDecimalAfterDot(s[1..]);
    }
  }

  /**
   * The `.` kept is the first one: the output is the digits before it, the `.`, and the
   * digits after it (later dots dropped, later digits kept); without a `.`, just the digits.
   */
  lemma {:induction false} KeepDecimalKeepsFirstDot(s: string)
    ensures var k := IndexOf(s, '.');
      KeepDecimal(s, false) == if k < |s| then DigitsOf(s[..k]) + "." + DigitsOf(s[k + 1..]) else DigitsOf(s)
    decreases |s|
  {
    if s != [] {
      var k := IndexOf(s, '.');
      if s[0] == '.' {
        KeepDecimalAfterDot(s[1..]);
        assert s[..0] == [];
      } else {
        KeepDecimalKeepsFirstDot(s[1..]);
        assert IndexOf(s[1..], '.') == k - 1;
        if k < |s| {
          assert s[1..][..k - 1] == s[1..k];
          assert s[1..][k - 1 + 1..] == s[k + 1..];
          FirstDotLater(s, k);
        } else {
          NoDotLater(s);
        }
      }
    }
  }

  /** A first character other than `.` is kept, as a digit, or dropped, before a later dot. */
  lemma FirstDotLater(s: string, k: nat)
    requires 0 < k < |s| && s[0] != '.'
    requires KeepDecimal(s[1..], false) == DigitsOf(s[1..k]) + "." + DigitsOf(s[k + 1..])
    ensures KeepDecimal(s, false) == DigitsOf(s[..k]) + "." + DigitsOf(s[k + 1..])
  {
    var head: string := if IsAsciiDigit(s[0]) then [s[0]] else [];
    KeepDecimalCons(s);
    DigitsOfPrefix(s, k);
    ConcatAssoc(head, DigitsOf(s[1..k]), DigitsOf(s[k + 1..]));
  }

  /** A first character other than `.` is kept, as a digit, or dropped, when no dot follows. */
  lemma NoDotLater(s: string)
    requires s != [] && s[0] != '.'
    requires KeepDecimal(s[1..], false) == DigitsOf(s[1..])
    ensures KeepDecimal(s, false) == DigitsOf(s)
  {
    KeepDecimalCons(s);
    DigitsOfCons(s);
  }

  /** Before any `.`, the loop keeps a digit and drops anything else. */
  lemma KeepDecimalCons(s: string)
    requires s != [] && s[0] != '.'
    ensures KeepDecimal(s, false) == (if IsAsciiDigit(s[0]) then [s[0]] else []) + KeepDecimal(s[1..], false)
  {
  }

  /** The digits of a non-empty text: its first character if a digit, then the digits of the rest. */
  lemma DigitsOfCons(s: string)
    requires s != []
    ensures DigitsOf(s) == (if IsAsciiDigit(s[0]) then [s[0]] else []) + DigitsOf(s[1..])
  {
  }

  /** `DigitsOfCons` on a non-empty prefix. */
  lemma DigitsOfPrefix(s: string, k: nat)
    requires 0 < k <= |s|
    ensures DigitsOf(s[..k]) == (if IsAsciiDigit(s[0]) then [s[0]] else []) + DigitsOf(s[1..k])
  {
    DigitsOfCons(s[..k]);
    assert s[..k][1..] == s[1..k];
  }

  lemma ConcatAssoc(head: string, a: string, b: string)
    ensures head + (a + "." + b) == (head + a) + "." + b
  {
  }

  /** Every digit of the input survives the filter. */
  lemma {:induction false} KeepsEveryDigit(s: string, hasDot: bool)
    ensures DigitsOf(KeepDecimal(s, hasDot)) == DigitsOf(s)
    decreases |s|
  {
    if s != [] {
      if IsAsciiDigit(s[0]) {
        KeepsEveryDigit(s[1..], hasDot);
        var r := [s[0]] + KeepDecimal(s[1..], hasDot);
        assert r[0] == s[0] && r[1..] == KeepDecimal(s[1..], hasDot);
      } else if s[0] == '.' && !hasDot {
        KeepsEveryDigit(s[1..], true);
        var r := ['.'] + KeepDecimal(s[1..], true);
        assert r[0] == '.' && r[1..] == KeepDecimal(s[1..], true);
      } else {
        KeepsEveryDigit(s[1..], hasDot);
      }
    }
  }

  /** Text of digits and `.` carries no sign. */
  lemma DecimalTextUnsigned(r: string)
    requires forall i :: 0 <= i < |r| ==> IsDecimalChar(r[i])
    ensures Unsigned(r) == r && !IsNegated(r)
  {
    if r != [] { assert IsDecimalChar(r[0]); }
  }

  /** Text of digits with at most one `.` splits at its `.` into two runs of digits. */
  lemma DecimalTextParts(r: string)
    requires forall i :: 0 <= i < |r| ==> IsDecimalChar(r[i])
    requires AtMostOneDot(r)
    ensures WholePart(r) == r[..IndexOf(r, '.')] && AllDigits(WholePart(r))
    ensures IndexOf(r, '.') < |r| ==> FractionPart(r) == r[IndexOf(r, '.') + 1..]
    ensures IndexOf(r, '.') == |r| ==> FractionPart(r) == []
    ensures AllDigits(FractionPart(r))
  {
    DecimalTextUnsigned(r);
    WholeDigits(r);
    FractionDigits(r);
  }

  /** Before the first `.`, text of digits and dots holds only digits. */
  lemma WholeDigits(r: string)
    requires forall i :: 0 <= i < |r| ==> IsDecimalChar(r[i])
    ensures AllDigits(r[..IndexOf(r, '.')])
  {
    var whole := r[..IndexOf(r, '.')];
    forall i | 0 <= i < |whole| ensures IsAsciiDigit(whole[i]) {
      assert whole[i] == r[i] && IsDecimalChar(r[i]);
    }
  }

  /** After the only `.`, text of digits and dots holds only digits. */
  lemma FractionDigits(r: string)
    requires forall i :: 0 <= i < |r| ==> IsDecimalChar(r[i])
    requires AtMostOneDot(r)
    ensures IndexOf(r, '.') < |r| ==> AllDigits(r[IndexOf(r, '.') + 1..])
  {
    var j := IndexOf(r, '.');
    if j < |r| {
      var fraction := r[j + 1..];
      forall i | 0 <= i < |fraction| ensures IsAsciiDigit(fraction[i]) {
        assert fraction[i] == r[j + 1 + i] && IsDecimalChar(r[j + 1 + i]);
        assert r[j] == '.';
      }
    }
  }

  /** Text of digits with at most one `.` parses exactly when it holds a digit. */
  lemma DecimalTextParses(r: string)
    requires forall i :: 0 <= i < |r| ==> IsDecimalChar(r[i])
    requires AtMostOneDot(r)
    ensures ParseDouble(r).Some? <==> DigitsOf(r) != []
  {
    DecimalTextParts(r);
    var j := IndexOf(r, '.');
    assert ParseDouble(r).Some? <==> r[..j] != [] || (j < |r| && r[j + 1..] != []);
    DigitSplitsAtDot(r);
  }

  /** Text holds a digit exactly when some digit sits before or after its first `.`. */
  lemma DigitSplitsAtDot(r: string)
    requires forall i :: 0 <= i < |r| ==> IsDecimalChar(r[i])
    requires AtMostOneDot(r)
    ensures var j := IndexOf(r, '.');
      DigitsOf(r) != [] <==> r[..j] != [] || (j < |r| && r[j + 1..] != [])
  {
    var j := IndexOf(r, '.');
    if DigitsOf(r) != [] {
      var d := DigitsOf(r)[0];
      assert d in DigitsOf(r);
      var i :| 0 <= i < |r| && r[i] == d;
      if i < j {
        assert r[..j][i] == r[i];
      } else {
        assert r[j + 1..][i - j - 1] == r[i];
      }
    }
    if r[..j] != [] {
      assert r[0] == r[..j][0] && IsDecimalChar(r[0]);
      assert r[0] in DigitsOf(r);
    } else if j < |r| && r[j + 1..] != [] {
      assert r[j + 1] == r[j + 1..][0] && IsDecimalChar(r[j + 1]);
      WholeDigits(r);
      FractionDigits(r);
      assert AllDigits(r[j + 1..]);
      assert r[j + 1] in DigitsOf(r);
    }
  }

  /** The filtered cost parses exactly when the input held a digit. */
  lemma FilteredCostParses(s: string)
    ensures ParseDouble(KeepDecimal(s, false)).Some? <==> DigitsOf(s) != []
  {
    KeepDecimalChars(s, false);
    KeepsEveryDigit(s, false);
    DecimalTextParses(KeepDecimal(s, false));
  }

  /**
   * The `onChange` handler for the cost text: the filtered text is written back only when it
   * differs, so the write itself triggers one more call that changes nothing.
   */
  method OnEstimatedCostTextChange(vm: WorkOrderForm.WorkOrderFormViewModel)
    modifies vm`estimatedCostText
    ensures vm.estimatedCostText == KeepDecimal(old(vm.estimatedCostText), false)
    ensures KeepDecimal(vm.estimatedCostText, false) == vm.estimatedCostText
  {
    var newValue := vm.estimatedCostText;
    var filtered := FilterToDecimalString(newValue);
    if filtered != newValue {
      vm.estimatedCostText := filtered;
    }
    KeepDecimalIdempotent(newValue);
  }
}
