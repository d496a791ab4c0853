/**
 * The tokenizer of src/common/formula.ts. `Tokens` says what the token list
 * of a text is, one token off the front at a time; `Tokenize` is the source's
 * index-walking loop, proved to compute it.
 */
module FormulaLexer {
  import opened Wrappers
  import opened Text
  import opened Decimals

  datatype Token =
    | Num(value: Decimal)
    | Id(name: string)
    | Op(symbol: char)

  datatype FormulaError =
    | TooLong
    | NotANumber
    | UnexpectedCharacter
    | EmptyFormula
    | EndsTooEarly
    | UnexpectedToken
    | MissingClosingBracket
    | UnknownName
    | NeedsAValue
    | DivisionByZero

  type Lexed = Result<seq<Token>, FormulaError>

  datatype Function = Max | Min | Round | Floor | Ceil | Abs

  /** The FUNCTIONS table, keyed by the lower-case name. */
  function FunctionNamed(lower: string): Option<Function> {
    if lower == "max" then Some(Max)
    else if lower == "min" then Some(Min)
    else if lower == "round" then Some(Round)
    else if lower == "floor" then Some(Floor)
    else if lower == "ceil" then Some(Ceil)
    else if lower == "abs" then Some(Abs)
    else None
  }

  predicate IsFunction(name: string) {
    FunctionNamed(Lower(name)).Some?
  }

  predicate IsFunctionToken(t: Token) {
    t.Id? && IsFunction(t.name)
  }

  // ----- "base price" is one identifier -----

  function SpaceSpan(s: string): (n: nat)
    ensures n <= |s|
    ensures forall i :: 0 <= i < n ==> IsSpace(s[i])
    ensures n < |s| ==> !IsSpace(s[n])
  {
    if s == "" || !IsSpace(s[0]) then 0 else 1 + SpaceSpan(s[1..])
  }

  /** The text opens with `word`, in any case. */
  predicate StartsWith(s: string, word: string) {
    |word| <= |s| && Lower(s[..|word|]) == word
  }

  /** The length of a match of `/base\s+price/i` at the front, or 0. */
  function BasePriceSpan(s: string): (n: nat)
    ensures n <= |s|
    ensures n > 0 ==> n >= 10
  {
    if StartsWith(s, "base") then
      var k := SpaceSpan(s[4..]);
      if k > 0 && StartsWith(s[4 + k..], "price") then 9 + k else 0
    else 0
  }

  function CollapseBasePrice(s: string): string
    decreases |s|
  {
    if s == "" then ""
    else if BasePriceSpan(s) > 0 then "base" + CollapseBasePrice(s[BasePriceSpan(s)..])
    else [s[0]] + CollapseBasePrice(s[1..])
  }

  // ----- numbers, units and words -----

  predicate IsNumberChar(c: char) {
    IsDigit(c) || c == '.'
  }

  /** `/^\d{3}(?!\d)/`: exactly three digits follow. */
  predicate ThreeDigits(s: string) {
    |s| >= 3 && IsDigit(s[0]) && IsDigit(s[1]) && IsDigit(s[2]) && (|s| > 3 ==> !IsDigit(s[3]))
  }

  /** How far a number runs; a thousands comma belongs to it only outside arguments. */
  function NumberSpan(s: string, inArgs: bool): (n: nat)
    ensures n <= |s|
    ensures s != "" && IsNumberChar(s[0]) ==> n > 0
  {
    if s == "" then 0
    else if IsNumberChar(s[0]) then 1 + NumberSpan(s[1..], inArgs)
    else if s[0] == ',' && !inArgs && ThreeDigits(s[1..]) then 1 + NumberSpan(s[1..], inArgs)
    else 0
  }

  function WordSpan(s: string): (n: nat)
    ensures n <= |s|
    ensures s != "" && IsWord(s[0]) ==> n > 0
    ensures forall i :: 0 <= i < n ==> IsWord(s[i])
    ensures n < |s| ==> !IsWord(s[n])
  {
    if s == "" || !IsWord(s[0]) then 0 else 1 + WordSpan(s[1..])
  }

  /** `/^(kg|mm|m|etb|birr)/i`, the first alternative that fits. */
  function UnitLength(s: string): (n: nat)
    ensures n <= |s|
  {
    if StartsWith(s, "kg") then 2
    else if StartsWith(s, "mm") then 2
    else if StartsWith(s, "m") then 1
    else if StartsWith(s, "etb") then 3
    else if StartsWith(s, "birr") then 4
    else 0
  }

  /** A unit glued to a number is skipped unless it is the start of a longer word. */
  function UnitSpan(s: string): (n: nat)
    ensures n <= |s|
  {
    var n := UnitLength(s);
    if n < |s| && IsWord(s[n]) then 0 else n
  }

  // ----- operators -----

  predicate IsPlainOperator(c: char) {
    c == '+' || c == '-' || c == '*' || c == '/' || c == '(' || c == ')' || c == ','
  }

  /** The SYMBOLS table. */
  function SymbolFor(c: char): Option<char> {
    if c == '×' then Some('*')
    else if c == '÷' then Some('/')
    else if c == '−' || c == '–' || c == '—' then Some('-')
    else None
  }

  /** The bracket kinds still open: true for a function's argument list. */
  type Brackets = seq<bool>

  predicate InArgs(open: Brackets) {
    |open| > 0 && open[|open| - 1]
  }

  function AfterOperator(c: char, open: Brackets, afterFunction: bool): Brackets {
    if c == '(' then open + [afterFunction]
    else if c == ')' && |open| > 0 then open[..|open| - 1]
    else open
  }

  function Append(front: seq<Token>, rest: Lexed): Lexed {
    if rest.Ok? then Ok(front + rest.value) else rest
  }

  function Prepend(t: Token, rest: Lexed): Lexed {
    Append([t], rest)
  }

  /** What the front of a non-empty text is: skipped, taken as a token, or refused. */
  datatype Bite =
    | Skip
    | Take(token: Token, length: nat, open: Brackets)
    | Refuse(error: FormulaError)

  /**
   * One turn of the loop on a non-empty text `s` inside the brackets `open`;
   * `afterFunction` says whether the token before `s` is a function's name.
   */
  function BiteOf(s: string, open: Brackets, afterFunction: bool): (b: Bite)
    requires s != ""
    ensures b.Take? ==> 0 < b.length <= |s|
  {
    if IsSpace(s[0]) then Skip
    else if IsNumberChar(s[0]) then NumberBite(s, NumberSpan(s, InArgs(open)), open)
    else if IsNameStart(s[0]) then Take(Id(s[..WordSpan(s)]), WordSpan(s), open)
    else if IsPlainOperator(s[0]) then
      Take(Op(s[0]), 1, AfterOperator(s[0], open, afterFunction))
    else
      match SymbolFor(s[0])
      case Some(c) => Take(Op(c), 1, open)
      case None => Refuse(UnexpectedCharacter)
  }

  /** A number of `n` characters, and the unit glued to it. */
  function NumberBite(s: string, n: nat, open: Brackets): (b: Bite)
    requires n <= |s|
    ensures b.Take? ==> n <= b.length <= |s|
  {
    var raw := StripCommas(s[..n]);
    if IsNumeral(raw) then Take(Num(Numeral(raw)), n + UnitSpan(s[n..]), open) else Refuse(NotANumber)
  }

  function Lex(s: string, open: Brackets, afterFunction: bool): (r: Lexed)
    decreases |s|
  {
    if s == "" then Ok([])
    else
      match BiteOf(s, open, afterFunction)
      case Skip => Lex(s[1..], open, afterFunction)
      case Take(t, n, open') => Prepend(t, Lex(s[n..], open', IsFunctionToken(t)))
      case Refuse(e) => Err(e)
  }

  lemma {:induction false} LexTakes(s: string, open: Brackets, afterFunction: bool, t: Token, n: nat, open': Brackets)
    requires s != "" && BiteOf(s, open, afterFunction) == Take(t, n, open')
    ensures Lex(s, open, afterFunction) == Prepend(t, Lex(s[n..], open', IsFunctionToken(t)))
  {
  }

  lemma {:induction false} LexSkips(s: string, open: Brackets, afterFunction: bool)
    requires s != "" && BiteOf(s, open, afterFunction) == Skip
    ensures Lex(s, open, afterFunction) == Lex(s[1..], open, afterFunction)
  {
  }

  lemma {:induction false} LexRefuses(s: string, open: Brackets, afterFunction: bool, e: FormulaError)
    requires s != "" && BiteOf(s, open, afterFunction) == Refuse(e)
    ensures Lex(s, open, afterFunction) == Err(e)
  {
  }

  function Tokens(source: string): Lexed {
    Lex(CollapseBasePrice(source), [], false)
  }

  predicate EndsInFunction(tokens: seq<Token>) {
    |tokens| > 0 && IsFunctionToken(tokens[|tokens| - 1])
  }

  /** The tokens so far, and those of the text still to walk. */
  function Through(tokens: seq<Token>, text: string, i: nat, open: Brackets): Lexed
    requires i <= |text|
  {
    Append(tokens, Lex(text[i..], open, EndsInFunction(tokens)))
  }

  lemma {:induction false} Starts(text: string)
    ensures Lex(text, [], false) == Through([], text, 0, [])
  {
    assert text[0..] == text;
    AppendNothing(Lex(text, [], false));
  }

  lemma {:induction false} Skips(tokens: seq<Token>, text: string, i: nat, open: Brackets)
    requires i < |text| && BiteOf(text[i..], open, EndsInFunction(tokens)) == Skip
    ensures Through(tokens, text, i, open) == Through(tokens, text, i + 1, open)
  {
    LexSkips(text[i..], open, EndsInFunction(tokens));
    assert text[i..][1..] == text[i + 1..];
  }

  lemma {:induction false} Takes(tokens: seq<Token>, text: string, i: nat, open: Brackets, t: Token, n: nat, open': Brackets)
    requires i < |text| && BiteOf(text[i..], open, EndsInFunction(tokens)) == Take(t, n, open')
    ensures i + n <= |text| && Through(tokens, text, i, open) == Through(tokens + [t], text, i + n, open')
  {
    LexTakes(text[i..], open, EndsInFunction(tokens), t, n, open');
    assert text[i..][n..] == text[i + n..];
    AppendTwice(tokens, t, Lex(text[i + n..], open', IsFunctionToken(t)));
  }

  /** The loop: `i` walks the text, `tokens` and `open` grow as it goes. */
  method Tokenize(source: string) returns (r: Lexed)
    ensures r == Tokens(source)
  {
    var text := CollapseBasePrice(source);
    var tokens: seq<Token> := [];
    var open: Brackets := [];
    var i := 0;
    Starts(text);
    while i < |text|
      invariant 0 <= i <= |text|
      invariant Tokens(source) == Through(tokens, text, i, open)
    {
      var bite := Bitten(text, i, open, EndsInFunction(tokens));
      match bite {
        case Skip =>
          Skips(tokens, text, i, open);
          i := i + 1;
        case Take(t, n, open') =>
          Takes(tokens, text, i, open, t, n, open');
          tokens, open, i := tokens + [t], open', i + n;
        case Refuse(e) =>
          LexRefuses(text[i..], open, EndsInFunction(tokens), e);
          return Err(e);
      }
    }
    assert text[i..] == "" && tokens + [] == tokens;
    r := Ok(tokens);
  }

  /** The body of the loop, at index `i`. */
  method Bitten(text: string, i: nat, open: Brackets, afterFunction: bool) returns (b: Bite)
    requires i < |text|
    ensures b == BiteOf(text[i..], open, afterFunction)
  {
    var ch := text[i];
    if IsSpace(ch) {
      return Skip;
    }
    if IsNumberChar(ch) {
      b := BittenNumber(text, i, open);
      return;
    }
    if IsNameStart(ch) {
      var j := ScanWord(text, i);
      assert text[i..][..j - i] == text[i..j];
      return Take(Id(text[i..j]), j - i, open);
    }
    if IsPlainOperator(ch) {
      var open' := open;
      if ch == '(' {
        open' := open + [afterFunction];
      } else if ch == ')' && |open| > 0 {
        open' := open[..|open| - 1];
      }
      return Take(Op(ch), 1, open');
    }
    var symbol := SymbolFor(ch);
    if symbol.Some? {
      return Take(Op(symbol.value), 1, open);
    }
    return Refuse(UnexpectedCharacter);
  }

  method BittenNumber(text: string, i: nat, open: Brackets) returns (b: Bite)
    requires i < |text|
    ensures b == NumberBite(text[i..], NumberSpan(text[i..], InArgs(open)), open)
  {
    var j := ScanNumber(text, i, InArgs(open));
    ghost var s, n := text[i..], NumberSpan(text[i..], InArgs(open));
    assert s[..n] == text[i..j] && s[n..] == text[j..];
    var raw := StripCommas(text[i..j]);
    if !IsNumeral(raw) {
      return Refuse(NotANumber);
    }
    b := Take(Num(Numeral(raw)), j - i + UnitSpan(text[j..]), open);
  }

  /** The inner loop over a number, from its first character. */
  method ScanNumber(text: string, i: nat, inArgs: bool) returns (j: nat)
    requires i < |text|
    ensures i <= j <= |text| && j - i == NumberSpan(text[i..], inArgs)
  {
    j := i;
    while j < |text| && (IsNumberChar(text[j]) || (text[j] == ',' && !inArgs && ThreeDigits(text[j + 1..])))
      invariant i <= j <= |text|
      invariant NumberSpan(text[i..], inArgs) == (j - i) + NumberSpan(text[j..], inArgs)
    {
      assert text[j..][1..] == text[j + 1..];
      j := j + 1;
    }
    if j < |text| {
      assert text[j..][1..] == text[j + 1..];
    }
  }

  /** The inner loop over a word. */
  method ScanWord(text: string, i: nat) returns (j: nat)
    requires i < |text|
    ensures i <= j <= |text| && j - i == WordSpan(text[i..])
  {
    j := i;
    while j < |text| && IsWord(text[j])
      invariant i <= j <= |text|
      invariant WordSpan(text[i..]) == (j - i) + WordSpan(text[j..])
    {
      assert text[j..][1..] == text[j + 1..];
      j := j + 1;
    }
  }

  lemma {:induction false} AppendNothing(rest: Lexed)
    ensures Append([], rest) == rest
  {
    if rest.Ok? {
      assert [] + rest.value == rest.value;
    }
  }

  lemma {:induction false} AppendTwice(tokens: seq<Token>, t: Token, rest: Lexed)
    ensures Append(tokens, Prepend(t, rest)) == Append(tokens + [t], rest)
  {
    if rest.Ok? {
      assert tokens + ([t] + rest.value) == (tokens + [t]) + rest.value;
    }
  }
}
