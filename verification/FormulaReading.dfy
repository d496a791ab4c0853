/**
 * How the tokenizer reads a formula a person types: numbers with a point and
 * with grouping commas, units glued to them, the signs of a printed sheet and
 * the two words of the base price.
 */
module FormulaReading {
  import opened Wrappers
  import opened Text
  import opened Decimals
  import opened FormulaLexer
  import opened FormulaGrammar
  import opened FormulaPrinter
  import opened FormulaRoundTrip

  // ----- the value of a number as it is typed -----

  lemma {:induction false} LeadingZero(digits: string)
    requires AllDigits(digits)
    ensures DigitsValue(['0'] + digits) == DigitsValue(digits)
  {
    var s := ['0'] + digits;
    if digits == "" {
      assert s[..0] == "";
    } else {
      LeadingZero(digits[..|digits| - 1]);
      assert s[..|s| - 1] == ['0'] + digits[..|digits| - 1];
    }
  }

  lemma {:induction false} LeadingZerosCount(digits: string)
    requires AllDigits(digits)
    ensures DigitsValue(DropLeadingZeros(digits)) == DigitsValue(digits)
  {
    if digits == "" {
      assert "0"[..0] == "";
    } else if digits[0] == '0' && |digits| > 1 {
      LeadingZerosCount(digits[1..]);
      LeadingZero(digits[1..]);
      assert digits == ['0'] + digits[1..];
    }
  }

  /** What the digits after the point are worth. */
  function FractionValue(digits: string): real
    requires AllDigits(digits)
  {
    DigitsValue(digits) as real / TenTo(|digits|)
  }

  lemma {:induction false} TrailingZero(digits: string)
    requires AllDigits(digits) && digits != "" && digits[|digits| - 1] == '0'
    ensures FractionValue(digits[..|digits| - 1]) == FractionValue(digits)
  {
    var front := digits[..|digits| - 1];
    TenTimes(DigitsValue(front), TenTo(|front|));
    assert DigitsValue(digits) == 10 * DigitsValue(front);
  }

  lemma {:induction false} TenTimes(n: nat, d: real)
    requires d > 0.0
    ensures (10 * n) as real / (10.0 * d) == n as real / d
  {
    assert (10 * n) as real == 10.0 * n as real;
  }

  lemma {:induction false} TrailingZerosCount(digits: string)
    requires AllDigits(digits)
    ensures FractionValue(DropTrailingZeros(digits)) == FractionValue(digits)
  {
    if digits != "" && digits[|digits| - 1] == '0' {
      TrailingZerosCount(digits[..|digits| - 1]);
      TrailingZero(digits);
    }
  }

  /** A number with a point is worth the digits before it and, in tenths of tenths, those after it; one without is worth its digits. */
  lemma {:induction false} NumeralMeans(whole: string, fraction: string)
    requires AllDigits(whole) && AllDigits(fraction) && (whole != "" || fraction != "")
    ensures IsNumeral(whole + "." + fraction)
    ensures ValueOf(Numeral(whole + "." + fraction)) == DigitsValue(whole) as real + FractionValue(fraction)
    ensures whole != "" ==> IsNumeral(whole) && ValueOf(Numeral(whole)) == DigitsValue(whole) as real
  {
    SplitAtPoint(whole, fraction);
    LeadingZerosCount(whole);
    TrailingZerosCount(fraction);
  }

  /** A figure with a sign is worth as much below zero, and zero has none. */
  lemma {:induction false} NegativesMean(s: string)
    requires IsNumeral(s)
    ensures var d := Numeral(s);
            && (ValueOf(d) != 0.0 ==> ValueOf(d.(negative := true)) == -ValueOf(d))
            && (d == Decimal(false, "0", "") ==> !Canonical(d.(negative := true)))
  {
    var d := Numeral(s);
    if d.whole == "0" && d.fraction == "" {
      assert DigitsValue("0") == 0 by {
        assert "0"[..0] == "";
      }
    }
  }

  /** A text of digits and points is a number exactly when it has a digit and no second point. */
  lemma {:induction false} NumeralIff(s: string)
    requires forall i :: 0 <= i < |s| ==> IsNumberChar(s[i])
    ensures IsNumeral(s) <==> (exists i :: 0 <= i < |s| && IsDigit(s[i]))
                              && (forall i, j :: 0 <= i < j < |s| ==> s[i] != '.' || s[j] != '.')
  {
    var p := PointAt(s);
    assert forall i :: 0 <= i < p ==> IsDigit(WholePart(s)[i]);
    if p < |s| {
      var f := FractionPart(s);
      assert forall i :: 0 <= i < |f| ==> f[i] == s[p + 1 + i];
      assert forall j :: p < j < |s| ==> s[j] == f[j - p - 1];
      assert WholePart(s) != "" ==> IsDigit(s[0]);
      assert f != "" && AllDigits(f) ==> IsDigit(s[p + 1]);
    }
  }

  // ----- commas -----

  /** Exactly three digits open the text. */
  predicate OpensGroup(s: string) {
    |s| >= 3 && AllDigits(s[..3]) && (|s| > 3 ==> !IsDigit(s[3]))
  }

  /** A comma belongs to the number before it exactly outside a function's arguments and before a group of three digits. */
  lemma {:induction false} CommaInNumber(digits: string, rest: string, inArgs: bool)
    requires AllDigits(digits) && digits != ""
    ensures NumberSpan(digits + ("," + rest), inArgs)
         == if !inArgs && OpensGroup(rest) then |digits| + 1 + NumberSpan(rest, inArgs) else |digits|
  {
    DigitsSpan(digits, "," + rest, inArgs);
    assert ("," + rest)[1..] == rest;
    assert |rest| >= 3 ==> rest[..3][0] == rest[0] && rest[..3][1] == rest[1] && rest[..3][2] == rest[2];
  }

  // ----- units -----

  predicate IsUnit(w: string) {
    var lower := Lower(w);
    lower == "kg" || lower == "mm" || lower == "m" || lower == "etb" || lower == "birr"
  }

  predicate IsWholeWord(w: string, after: string) {
    w != "" && (forall i :: 0 <= i < |w| ==> IsWord(w[i])) && (after != "" ==> !IsWord(after[0]))
  }

  /** Where `word` is found at the front of `w + after`, it is found in `w`. */
  lemma {:induction false} StartsInWord(w: string, after: string, word: string)
    requires IsWholeWord(w, after) && forall i :: 0 <= i < |word| ==> 'a' <= word[i] <= 'z'
    ensures StartsWith(w + after, word) ==> |word| <= |w| && Lower(w[..|word|]) == word
    ensures |word| <= |w| && Lower(w[..|word|]) == word ==> StartsWith(w + after, word)
  {
    var s := w + after;
    assert |w| < |word| <= |s| ==> Lower(s[..|word|])[|w|] == LowerChar(after[0]);
    if |word| <= |w| {
      assert s[..|word|] == w[..|word|];
    }
  }

  lemma {:induction false} UnitOfWord(w: string, after: string)
    requires IsWholeWord(w, after)
    ensures UnitSpan(w + after) == if IsUnit(w) then |w| else 0
  {
    StartsInWord(w, after, "kg");
    StartsInWord(w, after, "mm");
    StartsInWord(w, after, "m");
    StartsInWord(w, after, "etb");
    StartsInWord(w, after, "birr");
    var n := UnitLength(w + after);
    assert w[..|w|] == w;
    if IsUnit(w) {
      assert n == |w|;
    } else if 0 < n < |w| {
      assert (w + after)[n] == w[n];
    }
  }

  lemma {:induction false} DigitsAreBitten(digits: string, tail: string, open: Brackets, afterFunction: bool)
    requires AllDigits(digits) && digits != "" && IsNumeral(digits) && NumberSpan(digits + tail, InArgs(open)) == |digits|
    ensures BiteOf(digits + tail, open, afterFunction) == Take(Num(Numeral(digits)), |digits| + UnitSpan(tail), open)
  {
    var s := digits + tail;
    assert s[..|digits|] == digits && s[|digits|..] == tail && s[0] == digits[0];
    assert StripCommas(digits) == digits;
  }

  lemma {:induction false} DigitsBite(digits: string, tail: string, open: Brackets, afterFunction: bool)
    requires AllDigits(digits) && digits != "" && NumberSpan(tail, InArgs(open)) == 0
    ensures IsNumeral(digits) && digits + tail != ""
    ensures BiteOf(digits + tail, open, afterFunction) == Take(Num(Numeral(digits)), |digits| + UnitSpan(tail), open)
  {
    NumeralMeans(digits, "");
    DigitsSpan(digits, tail, InArgs(open));
    DigitsAreBitten(digits, tail, open, afterFunction);
  }

  lemma {:induction false} NumberTaken(s: string, d: Decimal, n: nat, rest: string, open: Brackets, afterFunction: bool)
    requires s != "" && n <= |s| && s[n..] == rest && BiteOf(s, open, afterFunction) == Take(Num(d), n, open)
    ensures Lex(s, open, afterFunction) == Prepend(Num(d), Lex(rest, open, false))
  {
    LexTakes(s, open, afterFunction, Num(d), n, open);
  }

  /** A number is taken with whatever unit is glued to it. */
  lemma {:induction false} LexDigits(digits: string, tail: string, open: Brackets, afterFunction: bool)
    requires AllDigits(digits) && digits != "" && NumberSpan(tail, InArgs(open)) == 0
    ensures IsNumeral(digits)
    ensures Lex(digits + tail, open, afterFunction) == Prepend(Num(Numeral(digits)), Lex(tail[UnitSpan(tail)..], open, false))
  {
    var s, n := digits + tail, |digits| + UnitSpan(tail);
    DigitsBite(digits, tail, open, afterFunction);
    PastBoth(digits, tail, UnitSpan(tail));
    NumberTaken(s, Numeral(digits), n, tail[UnitSpan(tail)..], open, afterFunction);
  }

  lemma {:induction false} PastBoth(a: string, b: string, n: nat)
    requires n <= |b|
    ensures (a + b)[|a| + n..] == b[n..]
  {
  }

  /** kg, mm, m, ETB and birr glued to a number are read over, as whole words and in any case; any other word is a name. */
  lemma {:induction false} UnitsAreReadOver(digits: string, w: string, after: string, open: Brackets, afterFunction: bool)
    requires AllDigits(digits) && digits != "" && IsWholeWord(w, after) && IsNameStart(w[0])
    ensures IsNumeral(digits)
    ensures Lex(digits + (w + after), open, afterFunction)
         == Prepend(Num(Numeral(digits)),
                    if IsUnit(w) then Lex(after, open, false) else Prepend(Id(w), Lex(after, open, IsFunction(w))))
  {
    var tail := w + after;
    assert tail[0] == w[0];
    UnitOfWord(w, after);
    LexDigits(digits, tail, open, afterFunction);
    if IsUnit(w) {
      assert tail[|w|..] == after;
    } else {
      assert tail[0..] == tail;
      LexName(w, after, open, false);
    }
  }

  // ----- signs -----

  /** × and ÷ are read as * and /, the minus sign and both dashes as -. */
  lemma {:induction false} SignsAreReadAs(c: char, plain: char, rest: string, open: Brackets, afterFunction: bool)
    requires (c == '×' && plain == '*') || (c == '÷' && plain == '/') || ((c == '−' || c == '–' || c == '—') && plain == '-')
    ensures Lex([c] + rest, open, afterFunction)
         == Lex([plain] + rest, open, afterFunction) == Prepend(Op(plain), Lex(rest, open, false))
  {
    assert ([c] + rest)[1..] == rest == ([plain] + rest)[1..];
    LexTakes([c] + rest, open, afterFunction, Op(plain), 1, open);
    LexTakes([plain] + rest, open, afterFunction, Op(plain), 1, open);
  }

  /** A bracket opens a function's arguments exactly after a function's name; any other sign changes no bracket. */
  lemma {:induction false} PlainSignsAreRead(c: char, rest: string, open: Brackets, afterFunction: bool)
    requires c == '+' || c == '-' || c == '*' || c == '/' || c == '(' || c == ')' || c == ','
    ensures Lex([c] + rest, open, afterFunction)
         == Prepend(Op(c), Lex(rest,
              if c == '(' then open + [afterFunction] else if c == ')' && open != [] then open[..|open| - 1] else open, false))
  {
    LexTakes([c] + rest, open, afterFunction, Op(c), 1, AfterOperator(c, open, afterFunction));
    assert ([c] + rest)[1..] == rest;
  }

  /** Any other character is refused, where it stands. */
  lemma {:induction false} OthersAreRefused(c: char, rest: string, open: Brackets, afterFunction: bool)
    requires !IsSpace(c) && !IsWord(c) && c != '.'
    requires c != '+' && c != '-' && c != '*' && c != '/' && c != '(' && c != ')' && c != ','
    requires c != '×' && c != '÷' && c != '−' && c != '–' && c != '—'
    ensures Lex([c] + rest, open, afterFunction) == Err(UnexpectedCharacter)
  {
  }

  // ----- the base price -----

  /** "base" and "price" with any spaces between, in any case, are the one name. */
  lemma {:induction false} BasePriceIsOneName(base: string, spaces: string, price: string, after: string)
    requires Lower(base) == "base" && Lower(price) == "price"
    requires spaces != "" && forall i :: 0 <= i < |spaces| ==> IsSpace(spaces[i])
    ensures CollapseBasePrice(base + (spaces + (price + after))) == "base" + CollapseBasePrice(after)
  {
    var tail := spaces + (price + after);
    var s := base + tail;
    assert |base| == 4 && s[..4] == base && s[4..] == tail;
    SpacesSpan(spaces, price + after);
    assert s[4 + |spaces|..] == price + after && (price + after)[..5] == price;
    assert s[9 + |spaces|..] == after;
  }

  lemma {:induction false} SpacesSpan(spaces: string, after: string)
    requires (forall i :: 0 <= i < |spaces| ==> IsSpace(spaces[i])) && after != "" && LowerChar(after[0]) == 'p'
    ensures SpaceSpan(spaces + after) == |spaces|
  {
    if spaces == "" {
      assert spaces + after == after;
    } else {
      assert (spaces + after)[1..] == spaces[1..] + after;
      SpacesSpan(spaces[1..], after);
    }
  }

  // ----- characters -----

  /** The classes of characters: digits, letters and the underscore, and what `\\s` matches. */
  lemma {:induction false} CharactersAre(c: char)
    ensures var n := c as int;
            && (IsDigit(c) <==> 48 <= n <= 57)
            && (IsNameStart(c) <==> 65 <= n <= 90 || n == 95 || 97 <= n <= 122)
            && (IsWord(c) <==> 48 <= n <= 57 || 65 <= n <= 90 || n == 95 || 97 <= n <= 122)
            && (IsSpace(c) <==>
                  || 9 <= n <= 13 || n == 32 || n == 160 || n == 5760 || 8192 <= n <= 8202
                  || n == 8232 || n == 8233 || n == 8239 || n == 8287 || n == 12288 || n == 65279)
            && LowerChar(c) as int == if 65 <= n <= 90 then n + 32 else n
  {
  }
}
