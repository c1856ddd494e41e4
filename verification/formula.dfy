/**
 * The input classifier and the subscript formatter of the lookup tool:
 * `isFormula` decides whether the user typed a formula or a name, and
 * `formatWithSubscript` renders the digits of a formula as Unicode subscripts.
 */
module Formula {

  /** Code point of SUBSCRIPT ZERO (U+2080); digit d is rendered as 8320 + d. */
  const SUBSCRIPT_ZERO: int := 8320

  /** `\d` of a JavaScript regular expression without the `u` flag. */
  predicate IsDigit(c: char) {
    '0' <= c <= '9'
  }

  /** `[A-Za-z0-9]` */
  predicate IsAsciiAlnum(c: char) {
    'A' <= c <= 'Z' || 'a' <= c <= 'z' || '0' <= c <= '9'
  }

  predicate IsSubscriptDigit(c: char) {
    '₀' <= c <= '₉'
  }

  /** `parseInt` of a single digit character. */
  function DigitValue(c: char): (d: nat)
    requires IsDigit(c)
    ensures d <= 9
  {
    c as int - '0' as int
  }

  /** `String.fromCharCode(8320 + parseInt(num))` */
  function Subscript(c: char): (r: char)
    requires IsDigit(c)
    ensures IsSubscriptDigit(r) && !IsDigit(r) && r != '\\'
    ensures r as int - SUBSCRIPT_ZERO == DigitValue(c)
  {
    (SUBSCRIPT_ZERO + DigitValue(c)) as char
  }

  predicate ContainsDigit(s: string) {
    exists i :: 0 <= i < |s| && IsDigit(s[i])
  }

  /**
   * `/[A-Za-z0-9]/.test(input) && /\d/.test(input)`. The first test is implied by
   * the second, so the classifier only asks whether the text holds a digit.
   */
  function IsFormula(input: string): (r: bool)
    ensures r <==> ContainsDigit(input)
  {
    (exists i :: 0 <= i < |input| && IsAsciiAlnum(input[i]))
    && (exists i :: 0 <= i < |input| && IsDigit(input[i]))
  }

  lemma ClassifierExamples()
    ensures IsFormula("H2O") && IsFormula("B12") && IsFormula("vitamin B12")
    ensures !IsFormula("water") && !IsFormula("")
  {
    assert IsDigit("H2O"[1]);
    assert IsDigit("B12"[1]);
    assert IsDigit("vitamin B12"[9]);
  }

  predicate AllDigits(s: string) {
    forall i :: 0 <= i < |s| ==> IsDigit(s[i])
  }

  /** An escaped digit starts `s`: the first alternative `\\\d` of the pattern matches here. */
  predicate EscapeAt(s: string) {
    |s| >= 2 && s[0] == '\\' && IsDigit(s[1])
  }

  /** Length of the maximal digit run that starts `s` (the greedy `\d+`). */
  function DigitRunLength(s: string): (n: nat)
    ensures n <= |s| && AllDigits(s[..n])
    ensures n < |s| ==> !IsDigit(s[n])
    ensures s != [] && IsDigit(s[0]) ==> n >= 1
  {
    if s != [] && IsDigit(s[0]) then 1 + DigitRunLength(s[1..]) else 0
  }

  /** `match.split("").map(...).join("")` over a matched digit run. */
  function SubscriptRun(run: string): (r: string)
    requires AllDigits(run)
    ensures |r| == |run|
    ensures forall i :: 0 <= i < |run| ==> r[i] == Subscript(run[i])
  {
    seq(|run|, i requires 0 <= i < |run| => Subscript(run[i]))
  }

  /**
   * `input.replace(/\\\d|(\d+)/g, ...)`: the pattern is tried left to right; an
   * escaped digit loses its backslash, a maximal digit run is subscripted digit by
   * digit, and a position where nothing matches is copied.
   */
  function FormatWithSubscript(input: string): (r: string)
    ensures |r| == |input| - EscapeCount(input)
    decreases |input|
  {
    if input == [] then []
    else if EscapeAt(input) then [input[1]] + FormatWithSubscript(input[2..])
    else if IsDigit(input[0]) then
      var n := DigitRunLength(input);
      assert forall i :: 0 <= i < n ==> input[..n][i] == input[i];
      EscapeCountSkipsDigits(input, n);
      SubscriptRun(input[..n]) + FormatWithSubscript(input[n..])
    else [input[0]] + FormatWithSubscript(input[1..])
  }

  /** Characters a scan step emits at the start of `s`: an escaped digit without its
      backslash, the subscript of a digit, or the character itself. */
  function ScanHead(s: string): (h: string)
    requires s != []
    ensures |h| == 1
  {
    if EscapeAt(s) then [s[1]] else if IsDigit(s[0]) then [Subscript(s[0])] else [s[0]]
  }

  /** How many input characters a scan step consumes. */
  function ScanWidth(s: string): (w: nat)
    requires s != []
    ensures 1 <= w <= |s|
  {
    if EscapeAt(s) then 2 else 1
  }

  /** The same transform as a character-by-character scan (reference definition). */
  function Scan(s: string): string
    decreases |s|
  {
    if s == [] then [] else ScanHead(s) + Scan(s[ScanWidth(s)..])
  }

  /** Subscripting a run is subscripting its first digit, then the rest of the run. */
  lemma SubscriptRunCons(run: string)
    requires run != [] && AllDigits(run)
    ensures AllDigits(run[1..])
    ensures SubscriptRun(run) == [Subscript(run[0])] + SubscriptRun(run[1..])
  {
    var tail := run[1..];
    forall i | 0 <= i < |tail| ensures IsDigit(tail[i]) {
      assert tail[i] == run[i + 1];
    }
  }

  lemma {:induction false} ScanDigitRun(run: string, rest: string)
    requires AllDigits(run)
    ensures Scan(run + rest) == SubscriptRun(run) + Scan(rest)
    decreases |run|
  {
    if run == [] {
      assert run + rest == rest;
    } else {
      var s := run + rest;
      var tail := run[1..];
      assert s[0] == run[0];
      assert ScanHead(s) == [Subscript(run[0])] && ScanWidth(s) == 1 by {
        assert IsDigit(s[0]);
      }
      assert s[1..] == tail + rest;
      SubscriptRunCons(run);
      ScanDigitRun(tail, rest);
      calc {
        Scan(s);
        [Subscript(run[0])] + Scan(tail + rest);
        [Subscript(run[0])] + (SubscriptRun(tail) + Scan(rest));
        ([Subscript(run[0])] + SubscriptRun(tail)) + Scan(rest);
      }
    }
  }

  /** Replacing whole digit runs is the same as subscripting each digit on its own. */
  lemma {:induction false} ReplaceIsScan(s: string)
    ensures FormatWithSubscript(s) == Scan(s)
    decreases |s|
  {
    if s == [] {
    } else if EscapeAt(s) {
      ReplaceIsScan(s[2..]);
    } else if IsDigit(s[0]) {
      var n := DigitRunLength(s);
      assert s == s[..n] + s[n..];
      ScanDigitRun(s[..n], s[n..]);
      ReplaceIsScan(s[n..]);
    } else {
      ReplaceIsScan(s[1..]);
    }
  }

  /** Number of backslash-digit pairs that the formatter consumes as escapes. */
  function EscapeCount(s: string): (k: nat)
    ensures 2 * k <= |s|
    decreases |s|
  {
    if s == [] then 0
    else if EscapeAt(s) then 1 + EscapeCount(s[2..])
    else EscapeCount(s[1..])
  }

  /** A digit never starts an escape, so a run of digits holds none. */
  lemma {:induction false} EscapeCountSkipsDigits(s: string, n: nat)
    requires n <= |s|
    requires forall i :: 0 <= i < n ==> IsDigit(s[i])
    ensures EscapeCount(s) == EscapeCount(s[n..])
    decreases n
  {
    if n > 0 {
      var t := s[1..];
      assert !EscapeAt(s) by {
        assert IsDigit(s[0]);
      }
      assert EscapeCount(s) == EscapeCount(t);
      assert forall i :: 0 <= i < n - 1 ==> IsDigit(t[i]) by {
        forall i | 0 <= i < n - 1 ensures IsDigit(t[i]) {
          assert t[i] == s[i + 1];
        }
      }
      EscapeCountSkipsDigits(t, n - 1);
      assert t[n - 1..] == s[n..];
    }
  }

  /** Digit-free text is returned unchanged. */
  lemma {:induction false} FormatDigitFree(s: string)
    requires !ContainsDigit(s)
    ensures FormatWithSubscript(s) == s
  {
    ReplaceIsScan(s);
    ScanDigitFree(s);
  }

  lemma {:induction false} ScanDigitFree(s: string)
    requires !ContainsDigit(s)
    ensures Scan(s) == s
    decreases |s|
  {
    if s != [] {
      assert !IsDigit(s[0]);
      assert !ContainsDigit(s[1..]) by {
        forall i | 0 <= i < |s[1..]| ensures !IsDigit(s[1..][i]) {
          assert s[1..][i] == s[i + 1];
        }
      }
      ScanDigitFree(s[1..]);
    }
  }

  /**
   * Text without a backslash is mapped position by position: every digit becomes
   * its subscript and every other character is kept.
   */
  lemma {:induction false} FormatPointwise(s: string, i: nat)
    requires '\\' !in s
    requires i < |s|
    ensures |FormatWithSubscript(s)| == |s|
    ensures FormatWithSubscript(s)[i] == if IsDigit(s[i]) then Subscript(s[i]) else s[i]
  {
    ReplaceIsScan(s);
    ScanPointwise(s, i);
  }

  lemma {:induction false} ScanPointwise(s: string, i: nat)
    requires '\\' !in s
    requires i < |s|
    ensures |Scan(s)| == |s|
    ensures Scan(s)[i] == if IsDigit(s[i]) then Subscript(s[i]) else s[i]
    decreases |s|
  {
    assert !EscapeAt(s);
    assert '\\' !in s[1..];
    if |s| > 1 {
      ScanPointwise(s[1..], if i > 0 then i - 1 else 0);
    }
  }

  /** Value of an ASCII digit or a subscript digit, the numerals a reader sees. */
  function NumeralValue(c: char): nat
    requires IsDigit(c) || IsSubscriptDigit(c)
  {
    if IsDigit(c) then DigitValue(c) else c as int - SUBSCRIPT_ZERO
  }

  /** The numerals of `s`, in order, whatever their size. */
  function Numerals(s: string): seq<nat>
    decreases |s|
  {
    if s == [] then []
    else if IsDigit(s[0]) || IsSubscriptDigit(s[0]) then [NumeralValue(s[0])] + Numerals(s[1..])
    else Numerals(s[1..])
  }

  /** Number of plain ASCII digits in `s`. */
  function PlainDigitCount(s: string): nat
    decreases |s|
  {
    if s == [] then 0 else (if IsDigit(s[0]) then 1 else 0) + PlainDigitCount(s[1..])
  }

  /** Values of the plain ASCII digits of `s`, in order. */
  function PlainDigits(s: string): seq<nat>
    decreases |s|
  {
    if s == [] then []
    else if IsDigit(s[0]) then [DigitValue(s[0])] + PlainDigits(s[1..])
    else PlainDigits(s[1..])
  }

  /** Values of the escaped digits of `s`, one per backslash-digit pair, in order. */
  function EscapedDigits(s: string): seq<nat>
    decreases |s|
  {
    if s == [] then []
    else if EscapeAt(s) then [DigitValue(s[1])] + EscapedDigits(s[2..])
    else EscapedDigits(s[1..])
  }

  lemma {:induction false} NumeralsAppend(a: string, b: string)
    ensures Numerals(a + b) == Numerals(a) + Numerals(b)
    ensures PlainDigitCount(a + b) == PlainDigitCount(a) + PlainDigitCount(b)
    ensures PlainDigits(a + b) == PlainDigits(a) + PlainDigits(b)
    decreases |a|
  {
    if a == [] {
      assert a + b == b;
    } else {
      assert (a + b)[0] == a[0] && (a + b)[1..] == a[1..] + b;
      NumeralsAppend(a[1..], b);
    }
  }

  /**
   * Formatting keeps every numeral and their order (only their size changes), and
   * the plain-size digits left in the output are exactly the escaped ones, in order.
   */
  lemma {:induction false} FormatKeepsNumerals(s: string)
    ensures Numerals(FormatWithSubscript(s)) == Numerals(s)
    ensures PlainDigitCount(FormatWithSubscript(s)) == EscapeCount(s)
    ensures PlainDigits(FormatWithSubscript(s)) == EscapedDigits(s)
  {
    ReplaceIsScan(s);
    ScanKeepsNumerals(s);
  }

  lemma {:induction false} ScanKeepsNumerals(s: string)
    ensures Numerals(Scan(s)) == Numerals(s)
    ensures PlainDigitCount(Scan(s)) == EscapeCount(s)
    ensures PlainDigits(Scan(s)) == EscapedDigits(s)
    decreases |s|
  {
    if s == [] {
    } else if EscapeAt(s) {
      ScanKeepsNumerals(s[2..]);
      NumeralsAppend([s[1]], Scan(s[2..]));
      assert s[1..][0] == s[1] && s[1..][1..] == s[2..];
    } else if IsDigit(s[0]) {
      ScanKeepsNumerals(s[1..]);
      NumeralsAppend([Subscript(s[0])], Scan(s[1..]));
    } else {
      ScanKeepsNumerals(s[1..]);
      NumeralsAppend([s[0]], Scan(s[1..]));
    }
  }

  /**
   * Escapes are local: formatting two pieces separately is formatting them together,
   * unless the first piece ends in a backslash and the second starts with a digit.
   */
  lemma {:induction false} FormatConcat(a: string, b: string)
    requires a == [] || b == [] || a[|a| - 1] != '\\' || !IsDigit(b[0])
    ensures FormatWithSubscript(a + b) == FormatWithSubscript(a) + FormatWithSubscript(b)
  {
    ReplaceIsScan(a + b);
    ReplaceIsScan(a);
    ReplaceIsScan(b);
    ScanConcat(a, b);
  }

  lemma {:induction false} ScanConcat(a: string, b: string)
    requires a == [] || b == [] || a[|a| - 1] != '\\' || !IsDigit(b[0])
    ensures Scan(a + b) == Scan(a) + Scan(b)
    decreases |a|
  {
    if a == [] {
      assert a + b == b;
    } else {
      var h, t := ScanHead(a), a[ScanWidth(a)..];
      assert Scan(a + b) == h + Scan(t + b) by {
        ScanStepConcat(a, b);
      }
      assert Scan(t + b) == Scan(t) + Scan(b) by {
        ScanStepConcat(a, b);
        ScanConcat(t, b);
      }
      assert Scan(a) == h + Scan(t);
    }
  }

  /** The first scan step over `a + b` is the one over `a`, and what it leaves is the
      rest of `a` followed by `b`. */
  lemma ScanStepConcat(a: string, b: string)
    requires a != []
    requires b == [] || a[|a| - 1] != '\\' || !IsDigit(b[0])
    ensures ScanHead(a + b) == ScanHead(a) && ScanWidth(a + b) == ScanWidth(a)
    ensures (a + b)[ScanWidth(a)..] == a[ScanWidth(a)..] + b
    ensures |a| > ScanWidth(a) ==> a[ScanWidth(a)..][|a| - ScanWidth(a) - 1] == a[|a| - 1]
  {
    var s := a + b;
    assert s[0] == a[0];
    assert EscapeAt(s) == EscapeAt(a) by {
      if |a| >= 2 {
        assert s[1] == a[1];
      } else if b != [] {
        assert s[1] == b[0];
      }
    }
  }

  lemma FormatterExamples()
    ensures FormatWithSubscript("H2O") == "H₂O"
    ensures FormatWithSubscript("C12") == "C₁₂"
  {
    ScanStep("O", "", "O");
    ScanStep("2O", "O", "₂");
    ScanStep("H2O", "2O", "H");
    ReplaceIsScan("H2O");

    ScanStep("2", "", "₂");
    ScanStep("12", "2", "₁");
    ScanStep("C12", "12", "C");
    ReplaceIsScan("C12");
  }

  /** An escape keeps exactly one digit at normal size. */
  lemma EscapeExamples()
    ensures FormatWithSubscript("Fe\\2O3") == "Fe2O₃"
    ensures FormatWithSubscript("\\23") == "2₃"
  {
    ScanStep("3", "", "₃");
    ScanStep("O3", "3", "O");
    ScanStep("\\2O3", "O3", "2");
    ScanStep("e\\2O3", "\\2O3", "e");
    ScanStep("Fe\\2O3", "e\\2O3", "F");
    ReplaceIsScan("Fe\\2O3");

    ScanStep("\\23", "3", "2");
    ReplaceIsScan("\\23");
  }

  /** One scan step on a concrete text: it emits `head` and leaves `rest`. */
  lemma ScanStep(s: string, rest: string, head: string)
    requires s != [] && ScanHead(s) == head && s[ScanWidth(s)..] == rest
    ensures Scan(s) == head + Scan(rest)
  {
  }
}
