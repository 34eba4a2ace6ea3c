/** The pieces of Ruby's String and Array behaviour that the application's code leans on:
    `to_s` of a possibly-nil value, `String#to_i`, inclusive and exclusive range slices,
    and substring matching. */
module RubyCore {
  import opened Wrappers

  function Min(a: int, b: int): int {
    if a <= b then a else b
  }

  /** The characters Ruby treats as white space in `String#to_i` and in `String#split`
      called without a pattern. */
  predicate IsSpace(c: char) {
    c == ' ' || c == '\t' || c == '\n' || c == '\U{B}' || c == '\U{C}' || c == '\r'
  }

  predicate IsDigit(c: char) {
    '0' <= c <= '9'
  }

  /** `nil.to_s` is the empty string; `String#to_s` is the string itself. */
  function ToS(s: Option<string>): string {
    if s.Some? then s.value else ""
  }

  /** `word` occurs in `text` starting at index `i`. */
  predicate OccursAt(text: string, word: string, i: nat) {
    i + |word| <= |text| && text[i..i + |word|] == word
  }

  /** `word` occurs in `text` as a run of consecutive characters. */
  predicate Contains(text: string, word: string) {
    exists i: nat :: i <= |text| && OccursAt(text, word, i)
  }

  function Pow10(n: nat): (p: nat)
    ensures p >= 1
  {
    if n == 0 then 1 else 10 * Pow10(n - 1)
  }

  /** The digit values `String#to_i` reads from the front of `s`: a run of decimal digits
      in which a single `_` may stand between two digits. */
  function DigitRun(s: string): (ds: seq<nat>)
    ensures |ds| <= |s|
    ensures forall i :: 0 <= i < |ds| ==> ds[i] < 10
    ensures |ds| == |s| ==> forall i :: 0 <= i < |s| ==> IsDigit(s[i])
    decreases |s|
  {
    if |s| == 0 || !IsDigit(s[0]) then []
    else
      var d := (s[0] as int - '0' as int) as nat;
      if |s| >= 3 && s[1] == '_' && IsDigit(s[2]) then [d] + DigitRun(s[2..])
      else [d] + DigitRun(s[1..])
  }

  /** The number the digits spell, most significant first. */
  function DigitsValue(ds: seq<nat>): (v: nat)
    requires forall i :: 0 <= i < |ds| ==> ds[i] < 10
    ensures v < Pow10(|ds|)
  {
    if |ds| == 0 then 0
    else
      var prefix := DigitsValue(ds[..|ds| - 1]);
      assert prefix + 1 <= Pow10(|ds| - 1);
      assert (prefix + 1) * 10 <= Pow10(|ds| - 1) * 10;
      prefix * 10 + ds[|ds| - 1]
  }

  /** `s` without its leading white space. */
  function SkipSpace(s: string): (t: string)
    ensures |t| <= |s| && t == s[|s| - |t|..]
    ensures |t| > 0 ==> !IsSpace(t[0])
  {
    if |s| > 0 && IsSpace(s[0]) then SkipSpace(s[1..]) else s
  }

  /** The digits of a decimal number after its sign: base 10 admits an optional `0d` or `0D`
      prefix before the digit run. */
  function Unprefixed(t: string): (u: string)
    ensures |u| <= |t| && u == t[|t| - |u|..]
    ensures |u| < |t| <==> |t| >= 2 && t[0] == '0' && (t[1] == 'd' || t[1] == 'D')
  {
    if |t| >= 2 && t[0] == '0' && (t[1] == 'd' || t[1] == 'D') then t[2..] else t
  }

  /** Ruby's `String#to_i` (base 10): leading white space is skipped, one optional sign is
      read, then an optional `0d` prefix and the digit run; whatever follows is ignored and
      a string without digits gives 0. It never fails. */
  function ToI(s: string): (n: int)
    ensures n < 0 ==> '-' in s
    ensures |s| > 0 && !IsSpace(s[0]) && !IsDigit(s[0]) && s[0] != '-' && s[0] != '+' ==> n == 0
  {
    var t := SkipSpace(s);
    if |t| > 0 && (t[0] == '-' || t[0] == '+') then
      var magnitude: int := DigitsValue(DigitRun(Unprefixed(t[1..])));
      if t[0] == '-' then (assert s[|s| - |t|] == '-'; -magnitude) else magnitude
    else DigitsValue(DigitRun(Unprefixed(t)))
  }

  /** The prefix is read before the digits: `"0d3".to_i` is 3. */
  lemma DecimalPrefixExample()
    ensures ToI("0d3") == 3
  {
    var s := "0d3";
    assert !IsSpace(s[0]) && SkipSpace(s) == s;
    assert s[0] != '-' && s[0] != '+';
    assert s[2..] == "3" && Unprefixed(s) == "3";
    assert "3"[1..] == [] && DigitRun("3") == [3];
    assert DigitsValue([3]) == 3 by {
      assert [3][..0] == [];
    }
  }

  /** The prefix follows the sign: `"-0D12".to_i` is -12. */
  lemma SignedPrefixExample()
    ensures ToI("-0D12") == -12
  {
    var s := "-0D12";
    assert !IsSpace(s[0]) && SkipSpace(s) == s;
    assert s[1..] == "0D12";
    assert "0D12"[2..] == "12" && Unprefixed(s[1..]) == "12";
    assert "12"[1..] == "2" && "2"[1..] == [];
    assert DigitRun("2") == [2] && DigitRun("12") == [1, 2];
    assert DigitsValue([1, 2]) == 12 by {
      assert [1, 2][..1] == [1] && [1][..0] == [];
    }
  }

  /** `x.to_i` for a value that may be `nil`; `nil.to_i` is 0. */
  function NilToI(s: Option<string>): int {
    if s.Some? then ToI(s.value) else 0
  }

  /** A number of at least 1000 needs four characters, so a string of at most four
      characters whose `to_i` reaches 1000 is made of exactly four digits. */
  lemma FourDigitsNeeded(s: string)
    requires |s| <= 4 && ToI(s) >= 1000
    ensures |s| == 4 && forall i :: 0 <= i < 4 ==> IsDigit(s[i])
  {
    var t := SkipSpace(s);
    if |t| > 0 && (t[0] == '-' || t[0] == '+') {
      var ds := DigitRun(Unprefixed(t[1..]));
      assert |ds| <= 3;
      Pow10Monotonic(|ds|, 3);
      assert false;
    } else {
      var ds := DigitRun(Unprefixed(t));
      if |ds| <= 3 {
        Pow10Monotonic(|ds|, 3);
        assert false;
      }
      assert |ds| == |Unprefixed(t)| == |t| == |s|;
      assert Unprefixed(t) == t == s;
    }
  }

  lemma {:induction false} Pow10Monotonic(m: nat, n: nat)
    requires m <= n
    ensures Pow10(m) <= Pow10(n)
  {
    if m < n {
      Pow10Monotonic(m, n - 1);
    }
  }

  /** Ruby's `s[0..m]`: the end index is inclusive, and a negative one counts from the end
      (`s[0..-1]` is all of `s`); an end before the start gives the empty string. */
  function PrefixThrough<T>(s: seq<T>, m: int): seq<T> {
    if m >= 0 then s[..Min(m + 1, |s|)]
    else if |s| + m + 1 >= 0 then s[..|s| + m + 1]
    else []
  }

  /** How many elements `slice(0...n)` keeps of a sequence of length `len`. */
  function KeptLength(len: nat, n: int): nat {
    if n >= 0 then Min(n, len)
    else if len + n >= 0 then len + n
    else 0
  }

  /** Ruby's `s.slice(0...n)`: the end index is exclusive, and a negative one counts from
      the end. */
  function PrefixBefore<T>(s: seq<T>, n: int): (r: seq<T>)
    ensures |r| == KeptLength(|s|, n) <= |s|
    ensures r == s[..|r|]
  {
    if n >= 0 then s[..Min(n, |s|)]
    else if |s| + n >= 0 then s[..|s| + n]
    else []
  }
}
