/**
 * The phone-number check `validate_phone`: `re.match(r"^1[3-9]\d{9}$", phone)`.
 * The pattern is a fixed run of single-character atoms, so matching it means
 * matching each atom against one character from the start of the string
 * (`re.match` anchors there), followed by Python's `$`.
 */
module Validation {
  import opened Text

  /** One single-character atom of a regular expression. */
  datatype CharClass =
    | Lit(c: char)                 // a literal character such as `1`
    | Range(lo: char, hi: char)    // a bracket range such as `[3-9]`
    | Digit                        // `\d`

  predicate IsAsciiDigit(c: char) {
    '0' <= c <= '9'
  }

  predicate InClass(k: CharClass, c: char) {
    match k
    case Lit(l) => c == l
    case Range(lo, hi) => lo <= c <= hi
    case Digit => IsAsciiDigit(c)
  }

  /** The atoms of `PHONE_REGEX` between `^` and `$`, by position: `1`, `[3-9]`, then `\d` nine times. */
  function PhoneAtom(i: nat): CharClass {
    if i == 0 then Lit('1') else if i == 1 then Range('3', '9') else Digit
  }

  /** Number of atoms in `PHONE_REGEX`. */
  const PhoneAtoms: nat := 11

  /** The atoms from position `i` on match the characters of `s` at the same positions. */
  predicate MatchFrom(s: string, i: nat)
    decreases PhoneAtoms - i
  {
    i >= PhoneAtoms || (i < |s| && InClass(PhoneAtom(i), s[i]) && MatchFrom(s, i + 1))
  }

  /** Python's `$` without MULTILINE: at the end of `s`, or just before a final newline. */
  predicate DollarAt(s: string, i: int) {
    i == |s| || (0 <= i == |s| - 1 && s[i] == '\n')
  }

  /** `bool(re.match(PHONE_REGEX, phone))`: every atom matches from the start, then `$`. */
  predicate ValidatePhone(phone: string) {
    MatchFrom(phone, 0) && DollarAt(phone, PhoneAtoms)
  }

  /** Matching the remaining atoms is matching each atom at its own position. */
  lemma {:induction false} MatchFromPositionwise(s: string, i: nat)
    requires i <= PhoneAtoms
    ensures MatchFrom(s, i) <==> (i == PhoneAtoms || |s| >= PhoneAtoms) && forall j :: i <= j < PhoneAtoms ==> InClass(PhoneAtom(j), s[j])
    decreases PhoneAtoms - i
  {
    if i < PhoneAtoms {
      MatchFromPositionwise(s, i + 1);
    }
  }

  /** The shape the validator accepts: `1`, one of `3`-`9`, nine digits, then nothing or one newline. */
  predicate PhoneShape(s: string) {
    && (|s| == 11 || (|s| == 12 && s[11] == '\n'))
    && s[0] == '1'
    && '3' <= s[1] <= '9'
    && forall i :: 2 <= i < 11 ==> IsAsciiDigit(s[i])
  }

  /** The regex-based validator accepts exactly the strings of `PhoneShape`. */
  lemma ValidatePhoneIffShape(s: string)
    ensures ValidatePhone(s) <==> PhoneShape(s)
  {
    MatchFromPositionwise(s, 0);
    if ValidatePhone(s) {
      assert forall i :: 2 <= i < 11 ==> IsAsciiDigit(s[i]) by {
        forall i | 2 <= i < 11
          ensures IsAsciiDigit(s[i])
        {
          assert InClass(PhoneAtom(i), s[i]);
        }
      }
    }
  }

  /** Every `"1"` + one of `3`-`9` + nine digits is accepted, alone or followed by one newline. */
  lemma ValidatePhoneAcceptsMobileNumbers(second: char, digits: string)
    requires '3' <= second <= '9'
    requires |digits| == 9 && forall i :: 0 <= i < 9 ==> IsAsciiDigit(digits[i])
    ensures ValidatePhone(['1', second] + digits)
    ensures ValidatePhone(['1', second] + digits + "\n")
  {
    var s := ['1', second] + digits;
    assert forall i :: 2 <= i < 11 ==> s[i] == digits[i - 2];
    ValidatePhoneIffShape(s);
    var t := s + "\n";
    assert forall i :: 0 <= i < 11 ==> t[i] == s[i];
    ValidatePhoneIffShape(t);
  }

  /** `re.match` anchors at the start: a first character other than `1` is rejected. */
  lemma ValidatePhoneRejectsBadFirst(s: string)
    requires |s| > 0 && s[0] != '1'
    ensures !ValidatePhone(s)
  {
    ValidatePhoneIffShape(s);
  }

  /** A second character `0`, `1` or `2` (or any character outside `3`-`9`) is rejected. */
  lemma ValidatePhoneRejectsBadSecond(s: string)
    requires |s| > 1 && !('3' <= s[1] <= '9')
    ensures !ValidatePhone(s)
  {
    ValidatePhoneIffShape(s);
  }

  /** Fewer or more than nine digits after the prefix are rejected. */
  lemma ValidatePhoneRejectsWrongDigitCount(prefix: string, digits: string, rest: string)
    requires |prefix| == 2
    requires forall i :: 0 <= i < |digits| ==> IsAsciiDigit(digits[i])
    requires |digits| != 9
    requires rest == "" || rest == "\n"
    ensures !ValidatePhone(prefix + digits + rest)
  {
    var s := prefix + digits + rest;
    ValidatePhoneIffShape(s);
    // the only lengths PhoneShape admits put a newline or a twelfth digit where it cannot be
    if |digits| == 8 && rest == "\n" {
      assert s[10] == '\n';
    }
    if |digits| == 10 && rest == "" {
      assert s[11] == digits[9];
    }
  }

  /** A number the validator accepts strips to its eleven digits, which the validator accepts again. */
  lemma StripValidPhone(s: string)
    requires ValidatePhone(s)
    ensures Strip(s) == s[..11]
    ensures ValidatePhone(Strip(s))
  {
    ValidatePhoneIffShape(s);
    assert LeadCount(s) == 0;
    if |s| == 12 {
      assert s[..|s| - 1] == s[..11];
      assert TrailCount(s[..11]) == 0;
      assert TrailCount(s) == 1;
      assert s[LeadCount(s)..] == s;
    } else {
      assert s[LeadCount(s)..] == s && s[..11] == s;
      assert TrailCount(s) == 0;
    }
    ValidatePhoneIffShape(s[..11]);
  }
}
