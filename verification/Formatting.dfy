// Numbers printed with an underscore before every third digit from the right.
module Formatting {

  predicate IsDigit(c: char) {
    '0' <= c <= '9'
  }

  function Digit(d: nat): char
    requires d < 10
  {
    '0' + d as char
  }

  /** The decimal representation. */
  function Decimal(n: nat): string {
    if n < 10 then [Digit(n)] else Decimal(n / 10) + [Digit(n % 10)]
  }

  /** The number a string of digits denotes. */
  function Read(s: string): nat
    requires forall i :: 0 <= i < |s| ==> IsDigit(s[i])
  {
    if s == "" then 0 else assert IsDigit(s[|s| - 1]); 10 * Read(s[..|s| - 1]) + (s[|s| - 1] as int - '0' as int)
  }

  lemma {:induction false} DecimalReadsBack(n: nat)
    ensures forall i :: 0 <= i < |Decimal(n)| ==> IsDigit(Decimal(n)[i])
    ensures |Decimal(n)| > 0 && Read(Decimal(n)) == n
    ensures if n == 0 then Decimal(n) == "0" else Decimal(n)[0] != '0'
  {
    if n < 10 {
      assert Decimal(n)[..0] == "";
    } else {
      DecimalReadsBack(n / 10);
      assert Decimal(n)[..|Decimal(n)| - 1] == Decimal(n / 10);
    }
  }

  /** The string without its underscores. */
  function Stripped(s: string): string {
    if s == "" then "" else Stripped(s[..|s| - 1]) + if s[|s| - 1] == '_' then "" else [s[|s| - 1]]
  }

  lemma StrippedPush(s: string, c: char)
    ensures Stripped(s + [c]) == Stripped(s) + if c == '_' then "" else [c]
  {
    assert (s + [c])[..|s|] == s;
  }

  /** In a string that is to have this length, underscores stand exactly where 3, 7, 11, ...
      characters follow. */
  predicate GroupedWithin(s: string, length: nat) {
    forall k :: 0 <= k < |s| ==> (s[k] == '_' <==> (length - 1 - k) % 4 == 3)
  }

  predicate Grouped(s: string) {
    GroupedWithin(s, |s|)
  }

  lemma GroupedPush(s: string, length: nat, c: char)
    requires GroupedWithin(s, length) && (c == '_' <==> (length - 1 - |s|) % 4 == 3)
    ensures GroupedWithin(s + [c], length)
  {
  }

  /** The length of n grouped digits after the first one printed. */
  function GroupedLength(n: nat): nat {
    n + n / 3
  }

  /** Where the next character lands, r digits before the end: an underscore is due exactly when r
      is a multiple of three. */
  lemma NextPosition(r: nat)
    requires r > 0
    ensures r % 3 == 0 <==> (GroupedLength(r) - 1) % 4 == 3
    ensures GroupedLength(r) == GroupedLength(r - 1) + if r % 3 == 0 then 2 else 1
    ensures r % 3 == 0 ==> (GroupedLength(r) - 2) % 4 == 2
    ensures GroupedLength(r - 1) % 4 != 3
  {
  }

  /** What the loop has printed after i digits. */
  function Printed(digits: string, i: nat): string
    requires i <= |digits|
  {
    if i == 0 then ""
    else Printed(digits, i - 1) + Separator(digits, i - 1) + [digits[i - 1]]
  }

  function Separator(digits: string, i: nat): string
    requires i < |digits|
  {
    if i > 0 && (|digits| - i) % 3 == 0 then "_" else ""
  }

  /** i digits in, the length still to come is known, and underscores stand where they should. */
  ghost predicate WellPrinted(digits: string, i: nat)
    requires 0 < |digits| && i <= |digits|
  {
    var s := Printed(digits, i);
    var length := 1 + GroupedLength(|digits| - 1);
    && Stripped(s) == digits[..i] && GroupedWithin(s, length)
    && (i > 0 ==> |s| + GroupedLength(|digits| - i) == length)
  }

  lemma OneMoreDigit(s: string, left: nat, length: nat, c: char)
    requires left > 0 && IsDigit(c) && GroupedWithin(s, length) && |s| + GroupedLength(left) == length
    ensures var s' := s + (if left % 3 == 0 then "_" else "") + [c];
            Stripped(s') == Stripped(s) + [c] && GroupedWithin(s', length) && |s'| + GroupedLength(left - 1) == length
  {
    NextPosition(left);
    hide GroupedLength, GroupedWithin;
    var t := s + if left % 3 == 0 then "_" else "";
    if left % 3 == 0 {
      StrippedPush(s, '_');
      GroupedPush(s, length, '_');
    } else {
      assert t == s;
    }
    StrippedPush(t, c);
    GroupedPush(t, length, c);
    hide Stripped;
  }

  lemma {:induction false} PrintingIsGrouped(digits: string, i: nat)
    requires 0 < |digits| && i <= |digits| && forall j :: 0 <= j < |digits| ==> IsDigit(digits[j])
    ensures WellPrinted(digits, i)
  {
    NothingLeft();
    hide GroupedLength, GroupedWithin, Stripped;
    if i == 0 {
    } else if i == 1 {
      NextPosition(|digits|);
      StrippedPush("", digits[0]);
      GroupedPush("", 1 + GroupedLength(|digits| - 1), digits[0]);
      assert Printed(digits, 1) == "" + [digits[0]];
    } else {
      PrintingIsGrouped(digits, i - 1);
      OneMoreDigit(Printed(digits, i - 1), |digits| - (i - 1), 1 + GroupedLength(|digits| - 1), digits[i - 1]);
      assert digits[..i] == digits[..i - 1] + [digits[i - 1]];
    }
  }

  lemma NothingLeft()
    ensures GroupedLength(0) == 0 && Stripped("") == "" && forall n :: GroupedWithin("", n)
  {
  }

  /** A string in groups of three, without leading zeros, that denotes the number once its underscores
      are deleted. */
  ghost predicate Denotes(s: string, num: nat) {
    && Grouped(s) && s != "" && s[0] != '_' && Stripped(s) == Decimal(num)
    && (forall i :: 0 <= i < |Stripped(s)| ==> IsDigit(Stripped(s)[i])) && Read(Stripped(s)) == num
    && if num == 0 then Stripped(s) == "0" else s[0] != '0'
  }

  lemma {:induction false} FirstPrinted(digits: string, i: nat)
    requires 0 < i <= |digits|
    ensures Printed(digits, i) != "" && Printed(digits, i)[0] == digits[0]
  {
    if i == 1 {
      assert Printed(digits, 0) + Separator(digits, 0) == "";
    } else {
      FirstPrinted(digits, i - 1);
    }
  }

  lemma PrintedDenotes(num: nat)
    ensures Denotes(Printed(Decimal(num), |Decimal(num)|), num)
  {
    var digits := Decimal(num);
    DecimalReadsBack(num);
    PrintingIsGrouped(digits, |digits|);
    FirstPrinted(digits, |digits|);
    NothingLeft();
    hide Decimal, Stripped, Read, Printed, GroupedLength;
    assert digits[..|digits|] == digits && IsDigit(digits[0]);
  }

  /** Prints a number in groups of three digits: deleting the underscores and reading the decimal
      gives the number back. */
  method FormatNumberWithUnderscores(num: nat) returns (result: string)
    ensures Denotes(result, num)
  {
    var chars := Decimal(num);
    result := "";
    hide Decimal;
    for i := 0 to |chars|
      invariant result == Printed(chars, i)
    {
      if i > 0 && (|chars| - i) % 3 == 0 {
        result := result + ['_'];
      }
      result := result + [chars[i]];
    }
    PrintedDenotes(num);
    hide Denotes;
  }

  /** The first block has one to three digits and every other block exactly three. */
  lemma BlocksOfThree(s: string, k: nat)
    requires Grouped(s) && k < |s| && s[0] != '_'
    ensures s[k] == '_' ==> k + 3 < |s| && s[k + 1] != '_' && s[k + 2] != '_' && s[k + 3] != '_'
                            && (k + 4 < |s| ==> s[k + 4] == '_')
    ensures |s| > 3 ==> s[1] == '_' || s[2] == '_' || s[3] == '_'
  {
    FourthFromTheRight(|s| - 1 - k);
    FourthFromTheRight(|s| - 1);
    hide IsDigit;
  }

  /** Of any four neighbours exactly one has three, seven, eleven, ... characters after it. */
  lemma FourthFromTheRight(r: nat)
    ensures r % 4 == 3 ==> r >= 3 && (r - 1) % 4 != 3 && (r - 2) % 4 != 3 && (r - 3) % 4 != 3
    ensures r % 4 == 3 && r >= 4 ==> (r - 4) % 4 == 3
    ensures r % 4 != 3 ==> (r - 1) % 4 == 3 || (r - 2) % 4 == 3 || (r - 3) % 4 == 3
  {
  }
}
