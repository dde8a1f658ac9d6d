/**
 Card-number validation of `src/validations.rs`: whitespace is dropped, characters and length are
 checked, and the digits pass the Luhn formula (ISO/IEC 7812-1, Annex B).
 */
module CardNumber {
  import opened Options

  const MIN_LENGTH := 8
  const MAX_LENGTH := 19

  type Digit = d: nat | d <= 9

  datatype Outcome = InvalidCharacter | InvalidLength | Checked(valid: bool)

  /** Unicode White_Space, as `split_whitespace` uses it. */
  predicate IsWhitespace(c: char) {
    '\U{0009}' <= c <= '\U{000D}' || c == ' ' || c == '\U{0085}' || c == '\U{00A0}' || c == '\U{1680}'
    || '\U{2000}' <= c <= '\U{200A}' || c == '\U{2028}' || c == '\U{2029}' || c == '\U{202F}'
    || c == '\U{205F}' || c == '\U{3000}'
  }

  function KeptChar(c: char): string {
    if IsWhitespace(c) then "" else [c]
  }

  function Strip(s: string): string {
    if s == "" then "" else KeptChar(s[0]) + Strip(s[1..])
  }

  predicate IsDigitChar(c: char) {
    '0' <= c <= '9'
  }

  /** `validate_card_number_chars`: the digits, unless some character is not one. */
  function Digits(s: string): (r: Option<seq<Digit>>)
    ensures r.Some? <==> forall c :: c in s ==> IsDigitChar(c)
    ensures r.Some? ==> |r.value| == |s|
    ensures r.Some? ==> forall i :: 0 <= i < |s| ==> r.value[i] == s[i] as int - '0' as int
  {
    if s == "" then Some([])
    else if !IsDigitChar(s[0]) then None
    else
      match Digits(s[1..])
      case None => None
      case Some(rest) => Some([(s[0] as int - '0' as int) as Digit] + rest)
  }

  /** The digit doubled, with the digits of the result added. */
  function Doubled(d: Digit): nat {
    (d * 2) / 10 + (d * 2) % 10
  }

  /** The contribution of a digit `idx` places from the right. */
  function Term(d: Digit, idx: nat): nat {
    if idx % 2 == 1 then Doubled(d) else d
  }

  /** The source multiplies by the parities instead of branching. */
  lemma TermFormula(d: Digit, idx: nat)
    ensures Term(d, idx) == ((d * 2) / 10 + (d * 2) % 10) * (idx % 2) + d * ((idx + 1) % 2)
  {
    if idx % 2 == 1 {
      assert (idx + 1) % 2 == 0;
    } else {
      assert idx % 2 == 0 && (idx + 1) % 2 == 1;
    }
  }

  /** The sum over the digits from the right, the last one at place `idx`. */
  function LuhnSum(number: seq<Digit>, idx: nat): nat {
    if number == [] then 0
    else Term(number[|number| - 1], idx) + LuhnSum(number[..|number| - 1], idx + 1)
  }

  /** `luhn` */
  predicate Luhn(number: seq<Digit>) {
    LuhnSum(number, 0) % 10 == 0
  }

  /** `sanitize_card_number` */
  function Sanitize(s: string): Outcome {
    match Digits(Strip(s))
    case None => InvalidCharacter
    case Some(number) =>
      if MIN_LENGTH <= |number| <= MAX_LENGTH then Checked(Luhn(number)) else InvalidLength
  }

  // ---------------------------------------------------------------------------------------------
  // Arithmetic of the formula
  // ---------------------------------------------------------------------------------------------

  /** Odd places double: 0 2 4 6 8 1 3 5 7 9; even places keep the digit. */
  lemma TermIs(d: Digit, idx: nat)
    ensures Term(d, idx) == if idx % 2 == 0 then d as int else if d < 5 then 2 * d else 2 * d - 9
    ensures Term(d, idx) <= 9
  {
  }

  /** At either kind of place, distinct digits contribute distinct amounts. */
  lemma TermInjective(a: Digit, b: Digit, idx: nat)
    requires a != b
    ensures Term(a, idx) != Term(b, idx)
  {
    hide Term;
    TermIs(a, idx);
    TermIs(b, idx);
  }

  lemma {:induction false} SumBound(number: seq<Digit>, idx: nat)
    ensures LuhnSum(number, idx) <= 9 * |number|
  {
    if number != [] {
      TermIs(number[|number| - 1], idx);
      SumBound(number[..|number| - 1], idx + 1);
    }
  }

  /** For every accepted number the u8 sum does not overflow. */
  lemma SumFitsU8(s: string)
    ensures Sanitize(s).Checked? ==> LuhnSum(Digits(Strip(s)).value, 0) <= 171
  {
    hide LuhnSum, Strip, Digits, Luhn;
    if Sanitize(s).Checked? {
      SumBound(Digits(Strip(s)).value, 0);
    }
  }

  lemma {:induction false} SumSplits(xs: seq<Digit>, ys: seq<Digit>, idx: nat)
    ensures LuhnSum(xs + ys, idx) == LuhnSum(xs, idx + |ys|) + LuhnSum(ys, idx)
    decreases |ys|
  {
    if ys == [] {
      assert xs + ys == xs;
    } else {
      SumSplits(xs, ys[..|ys| - 1], idx + 1);
      assert (xs + ys)[..|xs + ys| - 1] == xs + ys[..|ys| - 1];
    }
  }

  lemma SumOfOne(d: Digit, idx: nat)
    ensures LuhnSum([d], idx) == Term(d, idx)
  {
    assert [d][..0] == [];
  }

  lemma SumAround(left: seq<Digit>, d: Digit, right: seq<Digit>)
    ensures LuhnSum(left + [d] + right, 0)
         == LuhnSum(left, 1 + |right|) + Term(d, |right|) + LuhnSum(right, 0)
  {
    hide Term, LuhnSum;
    SumSplits(left + [d], right, 0);
    SumSplits(left, [d], |right|);
    SumOfOne(d, |right|);
  }

  // ---------------------------------------------------------------------------------------------
  // What the check detects
  // ---------------------------------------------------------------------------------------------

  /** Changing any single digit of a valid number makes it invalid. */
  lemma SingleErrorDetected(left: seq<Digit>, d: Digit, e: Digit, right: seq<Digit>)
    requires d != e
    ensures Luhn(left + [d] + right) ==> !Luhn(left + [e] + right)
  {
    hide Term, LuhnSum;
    SumAround(left, d, right);
    SumAround(left, e, right);
    TermIs(d, |right|);
    TermIs(e, |right|);
    TermInjective(d, e, |right|);
    if Luhn(left + [d] + right) {
      ResiduesApart(LuhnSum(left, 1 + |right|) + LuhnSum(right, 0), Term(d, |right|), Term(e, |right|));
    }
  }

  lemma ResiduesApart(rest: nat, x: nat, y: nat)
    requires (rest + x) % 10 == 0 && x <= 9 && y <= 9 && x != y
    ensures (rest + y) % 10 != 0
  {
  }

  lemma PairTerms(a: Digit, b: Digit, idx: nat)
    ensures (Term(a, idx + 1) + Term(b, idx)) % 10 == (Term(b, idx + 1) + Term(a, idx)) % 10
       <==> a == b || (a == 0 && b == 9) || (a == 9 && b == 0)
  {
    hide Term;
    TermIs(a, idx);
    TermIs(b, idx);
    TermIs(a, idx + 1);
    TermIs(b, idx + 1);
    PairResidues(a, b);
    assert idx % 2 == 0 <==> (idx + 1) % 2 == 1;
  }

  lemma PairResidues(a: Digit, b: Digit)
    ensures var x: int := if a < 5 then 2 * a else 2 * a - 9;
            var y: int := if b < 5 then 2 * b else 2 * b - 9;
            (x + b) % 10 == (y + a) % 10 <==> a == b || (a == 0 && b == 9) || (a == 9 && b == 0)
  {
  }

  lemma SumAroundPair(left: seq<Digit>, a: Digit, b: Digit, right: seq<Digit>)
    ensures LuhnSum(left + [a, b] + right, 0)
         == LuhnSum(left, 2 + |right|) + (Term(a, |right| + 1) + Term(b, |right|)) + LuhnSum(right, 0)
  {
    hide Term, LuhnSum;
    SumAround(left + [a], b, right);
    SumSplits(left, [a], |right| + 1);
    SumOfOne(a, |right| + 1);
    assert left + [a] + [b] + right == left + [a, b] + right;
  }

  /** Swapping two adjacent digits of a valid number goes unnoticed exactly when they are equal or are
      0 and 9. */
  lemma SwapDetectedExactly(left: seq<Digit>, a: Digit, b: Digit, right: seq<Digit>)
    ensures Luhn(left + [a, b] + right) ==>
              (Luhn(left + [b, a] + right) <==> a == b || (a == 0 && b == 9) || (a == 9 && b == 0))
  {
    hide Term, LuhnSum;
    SumAroundPair(left, a, b, right);
    SumAroundPair(left, b, a, right);
    PairTerms(a, b, |right|);
    if Luhn(left + [a, b] + right) {
      SameRest(LuhnSum(left, 2 + |right|) + LuhnSum(right, 0),
               Term(a, |right| + 1) + Term(b, |right|), Term(b, |right| + 1) + Term(a, |right|));
    }
  }

  lemma SameRest(rest: nat, x: nat, y: nat)
    requires (rest + x) % 10 == 0
    ensures (rest + y) % 10 == 0 <==> x % 10 == y % 10
  {
  }

  /** Every prefix has exactly one check digit. */
  lemma CheckDigitUnique(prefix: seq<Digit>)
    ensures exists d: Digit :: Luhn(prefix + [d])
    ensures forall d: Digit, e: Digit :: Luhn(prefix + [d]) && Luhn(prefix + [e]) ==> d == e
  {
    hide LuhnSum, Term;
    var rest := LuhnSum(prefix, 1);
    forall d: Digit ensures Luhn(prefix + [d]) <==> (rest + d) % 10 == 0 {
      SumSplits(prefix, [d], 0);
      SumOfOne(d, 0);
      TermIs(d, 0);
    }
    hide Luhn;
    var check := CheckResidue(rest);
    assert Luhn(prefix + [check]);
    forall d: Digit, e: Digit | Luhn(prefix + [d]) && Luhn(prefix + [e]) ensures d == e {
      SameResidue(rest, d, e);
    }
  }

  lemma CheckResidue(rest: nat) returns (d: Digit)
    ensures (rest + d) % 10 == 0
  {
    d := (10 - rest % 10) % 10;
  }

  lemma SameResidue(rest: nat, x: nat, y: nat)
    requires (rest + x) % 10 == 0 && (rest + y) % 10 == 0 && x <= 9 && y <= 9
    ensures x == y
  {
  }

  lemma {:induction false} StripConcat(s: string, t: string)
    ensures Strip(s + t) == Strip(s) + Strip(t)
  {
    hide Strip, KeptChar;
    if s == "" {
      StripNothing();
      assert s + t == t;
    } else {
      StripConcat(s[1..], t);
      StripHead(s);
      StripHead(s + t);
      assert (s + t)[1..] == s[1..] + t;
      Associates(KeptChar(s[0]), Strip(s[1..]), Strip(t));
    }
  }

  lemma StripNothing()
    ensures Strip("") == ""
  {
  }

  lemma StripHead(s: string)
    requires s != ""
    ensures Strip(s) == KeptChar(s[0]) + Strip(s[1..])
  {
  }

  lemma Associates(x: string, y: string, z: string)
    ensures x + (y + z) == (x + y) + z
  {
  }

  /** Nothing but whitespace is dropped. */
  lemma {:induction false} StripKeepsRest(s: string)
    requires forall c :: c in s ==> !IsWhitespace(c)
    ensures Strip(s) == s
  {
    hide IsWhitespace;
    if s != "" {
      assert s[0] in s;
      StripKeepsRest(s[1..]);
    }
  }

  /** Whitespace anywhere in the input makes no difference. */
  lemma WhitespaceIrrelevant(s: string, gap: string, t: string)
    requires forall c :: c in gap ==> IsWhitespace(c)
    ensures Sanitize(s + gap + t) == Sanitize(s + t)
  {
    hide Strip, Digits, Luhn, IsWhitespace;
    StripConcat(s + gap, t);
    StripConcat(s, gap);
    StripConcat(s, t);
    StripBlank(gap);
    assert Strip(s) + "" == Strip(s);
  }

  lemma {:induction false} StripBlank(gap: string)
    requires forall c :: c in gap ==> IsWhitespace(c)
    ensures Strip(gap) == ""
  {
    if gap != "" {
      assert gap[0] in gap;
      StripBlank(gap[1..]);
    }
  }

  // ---------------------------------------------------------------------------------------------
  // The verdict on the input
  // ---------------------------------------------------------------------------------------------

  /** Neither a decimal digit nor one of the 25 code points with the Unicode property White_Space. */
  predicate Stranger(c: char) {
    && !(48 <= c as int <= 57)
    && c as int !in {
         0x9, 0xA, 0xB, 0xC, 0xD, 0x20, 0x85, 0xA0, 0x1680,
         0x2000, 0x2001, 0x2002, 0x2003, 0x2004, 0x2005, 0x2006, 0x2007, 0x2008, 0x2009, 0x200A,
         0x2028, 0x2029, 0x202F, 0x205F, 0x3000}
  }

  /** The digits of the input in order, whatever lies between them. */
  function DigitsIn(s: string): seq<int> {
    if s == "" then []
    else if 48 <= s[0] as int <= 57 then [s[0] as int - 48] + DigitsIn(s[1..])
    else DigitsIn(s[1..])
  }

  /** What a digit followed by `after` more counts: itself, or twice itself less 9 when that exceeds 9. */
  function Weight(digit: int, after: nat): int {
    if after % 2 == 0 then digit else if 2 * digit > 9 then 2 * digit - 9 else 2 * digit
  }

  /** The check sum, taken from the left. */
  function CheckSum(digits: seq<int>): int {
    if digits == [] then 0 else Weight(digits[0], |digits| - 1) + CheckSum(digits[1..])
  }

  ghost predicate HasStranger(s: string) {
    exists i :: 0 <= i < |s| && Stranger(s[i])
  }

  /** Strangers are refused; then fewer than 8 or more than 19 digits are; and what remains is valid
      exactly when its check sum ends in 0. */
  lemma Verdict(s: string)
    ensures HasStranger(s) <==> Sanitize(s) == InvalidCharacter
    ensures !HasStranger(s) && !(8 <= |DigitsIn(s)| <= 19) <==> Sanitize(s) == InvalidLength
    ensures !HasStranger(s) && 8 <= |DigitsIn(s)| <= 19 ==>
              Sanitize(s) == Checked(CheckSum(DigitsIn(s)) % 10 == 0)
  {
    hide Strip, Digits, LuhnSum, DigitsIn, CheckSum, HasStranger;
    StrippedDigits(s);
    if !HasStranger(s) {
      SumIsCheckSum(Digits(Strip(s)).value);
    }
  }

  lemma StrangerIs(c: char)
    ensures Stranger(c) <==> !IsWhitespace(c) && !IsDigitChar(c)
    ensures IsWhitespace(c) ==> !IsDigitChar(c)
  {
  }

  lemma StrangerAtHead(s: string)
    requires s != ""
    ensures HasStranger(s) <==> Stranger(s[0]) || HasStranger(s[1..])
  {
    hide Stranger;
    assert forall i :: 0 < i < |s| ==> s[i] == s[1..][i - 1];
    if HasStranger(s[1..]) {
      var i :| 0 <= i < |s[1..]| && Stranger(s[1..][i]);
      assert Stranger(s[i + 1]);
    }
  }

  lemma DigitsAtHead(c: char, rest: string)
    ensures Digits([c] + rest) == if !IsDigitChar(c) || Digits(rest).None? then None
                                  else Some([(c as int - '0' as int) as Digit] + Digits(rest).value)
  {
    assert ([c] + rest)[1..] == rest;
  }

  lemma {:induction false} StrippedDigits(s: string)
    ensures HasStranger(s) <==> Digits(Strip(s)).None?
    ensures !HasStranger(s) ==> Digits(Strip(s)).value == DigitsIn(s)
  {
    hide HasStranger, Stranger, IsWhitespace, Digits, Strip;
    if s == "" {
      NoDigits();
    } else {
      StrippedDigits(s[1..]);
      StrangerAtHead(s);
      StrangerIs(s[0]);
      StripHead(s);
      DigitsAtHead(s[0], Strip(s[1..]));
    }
  }

  lemma NoDigits()
    ensures Strip("") == "" && Digits("") == Some([]) && !HasStranger("")
  {
  }

  lemma {:induction false} SumIsCheckSum(number: seq<Digit>)
    ensures LuhnSum(number, 0) == CheckSum(number)
  {
    hide LuhnSum, Term, Weight;
    SumBound([], |number|);
    if number == [] {
      SumBound(number, 0);
    } else {
      SumIsCheckSum(number[1..]);
      SumAround([], number[0], number[1..]);
      WeightIsTerm(number[0], |number| - 1);
      assert [] + [number[0]] + number[1..] == number;
    }
  }

  lemma WeightIsTerm(d: Digit, after: nat)
    ensures Weight(d, after) == Term(d, after)
  {
    TermIs(d, after);
    hide Term;
  }
}
