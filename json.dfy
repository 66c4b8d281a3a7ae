/** Fields of a JSON request body as the handlers test them: JavaScript truthiness
    (`!x`), `parseInt(x)` and `parseFloat(x)`. */
module Json {
  import opened Api
  import opened Text

  /** A field of a parsed JSON body: absent (`undefined`), `null`, a number (whole
      numbers only) or a string. */
  datatype Field = Undefined | Null | Number(num: int) | Str(s: string)

  /** `!!x`: `undefined`, `null`, 0 and "" are falsy; every other number and string is
      truthy, including "0". */
  predicate Truthy(f: Field)
  {
    match f
    case Undefined => false
    case Null => false
    case Number(n) => n != 0
    case Str(s) => s != ""
  }

  /** The value of a decimal or hexadecimal digit in either case, -1 for any other
      character. */
  function DigitValue(c: char): (d: int)
    ensures -1 <= d < 16
    ensures '0' <= c <= '9' ==> d == c as int - '0' as int
  {
    if '0' <= c <= '9' then c as int - '0' as int
    else if 'a' <= c <= 'f' then c as int - 'a' as int + 10
    else if 'A' <= c <= 'F' then c as int - 'A' as int + 10
    else -1
  }

  predicate IsDigit(c: char, radix: int)
  {
    0 <= DigitValue(c) < radix
  }

  /** The value of the run of digits `s` starts with, read most significant first
      onto `acc`. */
  function RunValue(s: string, radix: nat, acc: int): int
  {
    if s == [] || !IsDigit(s[0], radix) then acc
    else RunValue(s[1..], radix, acc * radix + DigitValue(s[0]))
  }

  /** The leading number of `s`, as `parseInt` (with `allowHex`) and `parseFloat`
      (without it, whole numbers only) read it: leading white space is skipped, then
      an optional sign, then for `parseInt` an optional `0x` prefix, and then the
      longest run of digits; None (NaN) when that run is empty. */
  function NumberPrefix(s: string, allowHex: bool): Option<int>
  {
    var t := TrimStart(s);
    var negative := t != [] && t[0] == '-';
    var u := if t != [] && (t[0] == '-' || t[0] == '+') then t[1..] else t;
    var hex := allowHex && |u| >= 2 && u[0] == '0' && (u[1] == 'x' || u[1] == 'X');
    var radix: nat := if hex then 16 else 10;
    var v := if hex then u[2..] else u;
    if v == [] || !IsDigit(v[0], radix) then None
    else
      var x := RunValue(v, radix, 0);
      Some(if negative then -x else x)
  }

  /** `parseInt(x)`; a number is read back from its decimal rendering
      (`DecimalRoundTrip`). */
  function ParsedInt(f: Field): Option<int>
  {
    match f
    case Undefined => None
    case Null => None
    case Number(n) => Some(n)
    case Str(s) => NumberPrefix(s, true)
  }

  /** `parseFloat(x)`, for whole numbers. */
  function ParsedFloat(f: Field): Option<int>
  {
    match f
    case Undefined => None
    case Null => None
    case Number(n) => Some(n)
    case Str(s) => NumberPrefix(s, false)
  }

  /** `!x || isNaN(parseInt(x))` fails exactly when this holds. */
  predicate ValidBodyId(f: Field)
  {
    Truthy(f) && ParsedInt(f).Some?
  }

  /** `parseInt(x)` of a field that parses. */
  function IntOf(f: Field): int
    requires ParsedInt(f).Some?
  {
    ParsedInt(f).value
  }

  // ---------------------------------------------------------------------------
  // Reading a number back from its decimal rendering
  // ---------------------------------------------------------------------------

  function DigitChar(d: int): char
    requires 0 <= d < 10
  {
    ('0' as int + d) as char
  }

  /** The decimal digits of `n`, most significant first, with no leading zero. */
  function Digits(n: nat): (ds: string)
    ensures ds != []
    ensures forall k :: 0 <= k < |ds| ==> IsDigit(ds[k], 10)
    decreases n
  {
    if n < 10 then [DigitChar(n)] else Digits(n / 10) + [DigitChar(n % 10)]
  }

  /** `String(n)` for a whole number `n`. */
  function Decimal(n: int): string
  {
    if n < 0 then "-" + Digits(-n) else Digits(n)
  }

  predicate AllDigits(s: string, radix: nat)
  {
    forall k :: 0 <= k < |s| ==> IsDigit(s[k], radix)
  }

  /** One more digit at the end of a run scales the value read so far by the radix. */
  lemma {:induction false} RunValueSnoc(ds: string, c: char, radix: nat, acc: int)
    requires AllDigits(ds, radix) && IsDigit(c, radix)
    ensures RunValue(ds + [c], radix, acc) == RunValue(ds, radix, acc) * radix + DigitValue(c)
  {
    if ds == [] {
      assert ([] + [c])[1..] == [];
    } else {
      assert (ds + [c])[1..] == ds[1..] + [c];
      assert IsDigit(ds[0], radix);
      assert AllDigits(ds[1..], radix) by {
        forall k | 0 <= k < |ds[1..]| ensures IsDigit(ds[1..][k], radix) {
          assert ds[1..][k] == ds[k + 1];
        }
      }
      RunValueSnoc(ds[1..], c, radix, acc * radix + DigitValue(ds[0]));
    }
  }

  lemma {:induction false} RunValueOfDigits(n: nat)
    ensures RunValue(Digits(n), 10, 0) == n
    decreases n
  {
    if n >= 10 {
      RunValueOfDigits(n / 10);
      var init := Digits(n / 10);
      assert AllDigits(init, 10) by {
        forall k | 0 <= k < |init| ensures IsDigit(init[k], 10) {
          assert init[k] == Digits(n)[k];
        }
      }
      RunValueSnoc(init, DigitChar(n % 10), 10, 0);
    }
  }

  /** A run of decimal digits, with or without a minus sign in front, is read as its
      value. */
  lemma SignedDigits(ds: string, negative: bool, allowHex: bool)
    requires ds != [] && AllDigits(ds, 10)
    ensures var s := if negative then "-" + ds else ds;
      var x := RunValue(ds, 10, 0);
      NumberPrefix(s, allowHex) == Some(if negative then -x else x)
  {
    var s := if negative then "-" + ds else ds;
    assert IsDigit(ds[0], 10);
    assert !IsWhitespace(s[0]);
    assert TrimStart(s) == s;
    var u := if negative then s[1..] else s;
    assert u == ds;
    assert |u| >= 2 ==> IsDigit(u[1], 10);
  }

  /** Reading the decimal rendering of a number with `parseInt` or `parseFloat` gives
      the number back, which is why a number field parses to itself. */
  lemma DecimalRoundTrip(n: int)
    ensures NumberPrefix(Decimal(n), true) == Some(n)
    ensures NumberPrefix(Decimal(n), false) == Some(n)
  {
    var m := if n < 0 then -n else n;
    RunValueOfDigits(m);
    SignedDigits(Digits(m), n < 0, true);
    SignedDigits(Digits(m), n < 0, false);
  }

  /** A string that starts with "0" is truthy and parses to 0, so it passes the
      `!x || isNaN(parseInt(x))` test that the number 0 fails. */
  lemma ZeroTextPasses(rest: string)
    requires rest == [] || !IsDigit(rest[0], 10)
    requires rest == [] || (rest[0] != 'x' && rest[0] != 'X')
    ensures ValidBodyId(Str("0" + rest)) && IntOf(Str("0" + rest)) == 0
    ensures !ValidBodyId(Number(0))
  {
    var s := "0" + rest;
    assert !IsWhitespace(s[0]);
    assert TrimStart(s) == s;
    assert s[1..] == rest;
    assert |s| >= 2 ==> s[1] == rest[0];
    assert IsDigit(s[0], 10);
    assert RunValue(s, 10, 0) == RunValue(rest, 10, 0) == 0;
    assert NumberPrefix(s, true) == Some(0);
  }

  /** The empty string and a string with no leading number parse to NaN. */
  lemma NoLeadingNumber(s: string)
    requires var t := TrimStart(s); t == [] || (t[0] != '-' && t[0] != '+' && !IsDigit(t[0], 10))
    ensures ParsedInt(Str(s)).None? && ParsedFloat(Str(s)).None?
  {
  }
}
