/**
 * Base-64 counters in ids (`intToBase64` and `uuid` of src/infras/libs/utils.ts)
 * and the acceptance of task ids (`_getTaskId` of src/event-listeners/event-object.ts).
 */
module Ids {
  import opened Common

  const WORD := 0x1_0000_0000

  /** The 64 digits; they are distinct. */
  ghost predicate Alphabet(a: string) {
    |a| == 64 && NoDup(a)
  }

  /** `num >>>= 6`: reduce to 32 bits, then drop the last digit. */
  function Shift(n: int): (m: int)
    ensures n > 0 ==> 0 <= m < n && m < WORD
  {
    n % WORD / 64
  }

  /** The digits of `n`; the shift `>>>` first reduces to 32 bits, and the loop stops at zero or below. */
  function Digits(a: string, n: int): string
    requires |a| == 64
    decreases if n < 0 then 0 else n
  {
    if n <= 0 then "" else Digits(a, Shift(n)) + [a[n % 64]]
  }

  /** Zero is spelled '0', whatever the alphabet's zero digit is. */
  function Encode(a: string, n: int): string
    requires |a| == 64
  {
    if n == 0 then "0" else Digits(a, n)
  }

  lemma MoveDigit(a: string, n: int, rest: string)
    requires |a| == 64 && n > 0
    ensures Digits(a, n) + rest == Digits(a, Shift(n)) + ([a[n % 64]] + rest)
  {
    assert Digits(a, Shift(n)) + [a[n % 64]] + rest == Digits(a, Shift(n)) + ([a[n % 64]] + rest);
  }

  method IntToBase64(a: string, num: int) returns (result: string)
    requires |a| == 64
    ensures result == Encode(a, num)
  {
    if num == 0 {
      return "0";
    }
    result := "";
    var n := num;
    while n > 0
      invariant Digits(a, num) == Digits(a, n) + result
    {
      var digit := a[n % 64];
      MoveDigit(a, n, result);
      result := [digit] + result;
      n := Shift(n);
    }
  }

  function DigitValue(a: string, c: char): (k: nat)
    ensures k <= |a|
    ensures k < |a| ==> a[k] == c
  {
    if a == "" then 0 else if a[0] == c then 0 else 1 + DigitValue(a[1..], c)
  }

  /** Plain base-64 reading, most significant digit first. */
  function Decode(a: string, s: string): nat {
    if s == "" then 0 else 64 * Decode(a, s[..|s| - 1]) + DigitValue(a, s[|s| - 1])
  }

  lemma {:induction false} DigitValueOf(a: string, k: nat)
    requires NoDup(a) && k < |a|
    ensures DigitValue(a, a[k]) == k
  {
    if k > 0 {
      assert a[0] != a[k];
      assert a[1..][k - 1] == a[k];
      DigitValueOf(a[1..], k - 1);
    }
  }

  lemma ShiftAndMask(n: int)
    requires n > 0
    ensures 64 * Shift(n) + n % 64 == n % WORD
    ensures Shift(n) % WORD == Shift(n)
    ensures n < WORD ==> Shift(n) == n / 64
  {
    assert n == WORD * (n / WORD) + n % WORD;
    assert n % 64 == n % WORD % 64;
  }

  lemma {:induction false} DecodeDigits(a: string, n: int)
    requires Alphabet(a)
    ensures Decode(a, Digits(a, n)) == if n <= 0 then 0 else n % WORD
    decreases if n < 0 then 0 else n
  {
    if n > 0 {
      ShiftAndMask(n);
      DecodeDigits(a, Shift(n));
      DigitValueOf(a, n % 64);
      LastDigit(a, n);
    }
  }

  lemma LastDigit(a: string, n: int)
    requires Alphabet(a) && n > 0
    ensures Decode(a, Digits(a, n)) == 64 * Decode(a, Digits(a, Shift(n))) + DigitValue(a, a[n % 64])
  {
    var s := Digits(a, n);
    assert s[..|s| - 1] == Digits(a, Shift(n));
  }

  lemma FitsIff(n: int)
    ensures (if n <= 0 then 0 else n % WORD) == n <==> 0 <= n < WORD
  {}

  /** Decoding gives back every number but zero exactly when it fits in 32 bits. */
  lemma Base64RoundTrip(a: string, n: int)
    requires Alphabet(a) && n != 0
    ensures Decode(a, Encode(a, n)) == n <==> 0 < n < WORD
  {
    DecodeDigits(a, n);
    FitsIff(n);
  }

  /** Different counters below 2^32 have different codes. */
  lemma Base64Injective(a: string, m: int, n: int)
    requires Alphabet(a) && 0 < m < WORD && 0 < n < WORD
    ensures Encode(a, m) == Encode(a, n) <==> m == n
  {
    Base64RoundTrip(a, m);
    Base64RoundTrip(a, n);
  }

  /** A counter has exactly four digits from 64^3 until 64^4. */
  lemma FourDigits(a: string, n: int)
    requires |a| == 64 && 0 < n < WORD
    ensures |Encode(a, n)| == 4 <==> 262144 <= n < 16777216
  {
    LengthStep(a, n);
    LengthStep(a, n / 64);
    LengthStep(a, n / 64 / 64);
    LengthStep(a, n / 64 / 64 / 64);
    FourDivisions(n);
  }

  lemma LengthStep(a: string, n: int)
    requires |a| == 64 && 0 <= n < WORD
    ensures n > 0 ==> |Digits(a, n)| == 1 + |Digits(a, n / 64)|
    ensures n == 0 <==> |Digits(a, n)| == 0
  {
    if n > 0 {
      ShiftAndMask(n);
    }
  }

  lemma FourDivisions(n: int)
    requires n > 0
    ensures n / 64 / 64 / 64 > 0 <==> n >= 262144
    ensures n / 64 / 64 / 64 / 64 == 0 <==> n < 16777216
  {}

  /** An id: the code of the minute counter, then the random part. */
  function Uuid(a: string, minutes: int, random: string): string
    requires |a| == 64
  {
    Encode(a, minutes - 28656451) + random
  }

  // ------------------------------------------------------------------ task ids

  predicate IsDigit(c: char) {
    '0' <= c <= '9'
  }

  function DigitOf(c: char): nat
    requires IsDigit(c)
  {
    c as int - '0' as int
  }

  function CharOf(d: nat): char
    requires d < 10
  {
    ('0' as int + d) as char
  }

  /** A number printed in decimal. */
  function Decimal(n: nat): (s: string)
    ensures |s| > 0 && forall i :: 0 <= i < |s| ==> IsDigit(s[i])
    ensures |s| > 1 ==> s[0] != '0'
    ensures n > 0 ==> s[0] != '0'
  {
    if n < 10 then [CharOf(n)] else Decimal(n / 10) + [CharOf(n % 10)]
  }

  /** The value of the longest prefix of decimal digits, none of which is `None`. */
  function Leading(s: string, base: nat, seen: bool, acc: nat): Option<nat>
    requires base == 10 || base == 16
    decreases |s|
  {
    if s != "" && InBase(s[0], base) then Leading(s[1..], base, true, acc * base + BaseValue(s[0], base))
    else if seen then Some(acc) else None
  }

  predicate InBase(c: char, base: nat) {
    IsDigit(c) || (base == 16 && ('a' <= c <= 'f' || 'A' <= c <= 'F'))
  }

  function BaseValue(c: char, base: nat): nat
    requires InBase(c, base)
  {
    if IsDigit(c) then DigitOf(c) else if c >= 'a' then c as int - 'a' as int + 10 else c as int - 'A' as int + 10
  }

  predicate IsSpace(c: char) {
    c == ' ' || c == '\t' || c == '\n' || c == '\r'
  }

  function TrimStart(s: string): string {
    if s != "" && IsSpace(s[0]) then TrimStart(s[1..]) else s
  }

  /** JavaScript's `parseInt`: leading space, an optional sign, an optional `0x`, then digits. */
  function ParseInt(s: string): Option<int> {
    var t := TrimStart(s);
    var negative := t != "" && t[0] == '-';
    var u := if t != "" && (t[0] == '-' || t[0] == '+') then t[1..] else t;
    var v := if |u| >= 2 && u[0] == '0' && (u[1] == 'x' || u[1] == 'X') then Leading(u[2..], 16, false, 0)
             else Leading(u, 10, false, 0);
    if v.None? then None else Some(var n: int := v.value; if negative then -n else n)
  }

  /** A number, or not a number, turned into a string. */
  function Printed(n: Option<int>): string {
    if n.None? then "NaN" else if n.value < 0 then "-" + Decimal(-n.value) else Decimal(n.value)
  }

  /** The first piece of a split at dashes. */
  function FirstPiece(s: string): (p: string)
    ensures p <= s && '-' !in p
    ensures |p| < |s| ==> s[|p|] == '-'
  {
    if s == "" || s[0] == '-' then "" else [s[0]] + FirstPiece(s[1..])
  }

  /** The test that `_getTaskId` makes on a given task id. */
  predicate Accepted(taskId: string, id: string) {
    var sp0 := FirstPiece(taskId);
    |taskId| == |id| + 7 && |sp0| == 6 && Printed(ParseInt(sp0)) == sp0
  }

  function Mint(today: string, id: string): string {
    today + "-" + id
  }

  /** The event's task id: the given one if it passes, else a new one. */
  function GetTaskId(taskId: string, id: string, today: string): string {
    if Accepted(taskId, id) then taskId else Mint(today, id)
  }

  function Pad2(n: nat): string {
    if n < 10 then "0" + Decimal(n) else Decimal(n)
  }

  /** yymmdd. */
  function DateString(year: nat, month: nat, day: nat): string {
    Pad2(year % 100) + Pad2(month) + Pad2(day)
  }

  ghost predicate AllDigits(s: string) {
    forall i :: 0 <= i < |s| ==> IsDigit(s[i])
  }

  /** The value of a string of digits. */
  function Value(s: string): nat
    requires forall i :: 0 <= i < |s| ==> IsDigit(s[i])
  {
    if s == "" then 0 else 10 * Value(s[..|s| - 1]) + DigitOf(s[|s| - 1])
  }

  /** Printing is undone by reading, so different numbers print differently. */
  lemma {:induction false} DecimalReads(n: nat)
    ensures Value(Decimal(n)) == n
  {
    var s := Decimal(n);
    if n < 10 {
      assert s[..0] == "";
    } else {
      DecimalReads(n / 10);
      assert s[..|s| - 1] == Decimal(n / 10);
    }
  }

  lemma DecimalInjective(m: nat, n: nat)
    ensures Decimal(m) == Decimal(n) <==> m == n
  {
    DecimalReads(m);
    DecimalReads(n);
  }

  function PowTen(n: nat): nat {
    if n == 0 then 1 else 10 * PowTen(n - 1)
  }

  lemma Regroup(v: nat, d0: nat, p: nat, rest: nat, d: nat)
    requires v == d0 * p + rest
    ensures 10 * v + d == d0 * (10 * p) + (10 * rest + d)
  {}

  lemma {:induction false} ValueCons(s: string)
    requires s != "" && AllDigits(s)
    ensures Value(s) == DigitOf(s[0]) * PowTen(|s| - 1) + Value(s[1..])
  {
    if |s| > 1 {
      var p := s[..|s| - 1];
      var t := s[1..];
      ValueCons(p);
      assert p[1..] == t[..|t| - 1];
      assert t[|t| - 1] == s[|s| - 1];
      Regroup(Value(p), DigitOf(s[0]), PowTen(|s| - 2), Value(p[1..]), DigitOf(s[|s| - 1]));
    } else {
      assert s[..0] == "" && s[1..] == "";
    }
  }

  lemma {:induction false} LeadingValue(s: string, seen: bool, acc: nat)
    requires AllDigits(s) && (seen || s != "")
    ensures Leading(s, 10, seen, acc) == Some(acc * PowTen(|s|) + Value(s))
  {
    if s != "" {
      var d := DigitOf(s[0]);
      LeadingValue(s[1..], true, acc * 10 + d);
      ValueCons(s);
      Horner(acc, d, PowTen(|s| - 1));
    }
  }

  lemma Horner(acc: nat, d: nat, p: nat)
    ensures (acc * 10 + d) * p == acc * (10 * p) + d * p
  {}

  lemma {:induction false} DecimalValue(s: string)
    requires s != "" && AllDigits(s) && s[0] != '0'
    ensures Value(s) > 0 && Decimal(Value(s)) == s
  {
    var d := DigitOf(s[|s| - 1]);
    if |s| == 1 {
      assert s[..0] == "";
      assert Value(s) == d;
    } else {
      var p := s[..|s| - 1];
      DecimalValue(p);
      assert Value(s) == 10 * Value(p) + d;
      assert Decimal(Value(s)) == Decimal(Value(p)) + [CharOf(d)];
      assert s == p + [s[|s| - 1]];
    }
  }

  /** Parsing and printing gives a dash-free string back exactly when it is the decimal form of a number. */
  lemma PrintedParse(s: string)
    requires |s| == 6 && '-' !in s
    ensures Printed(ParseInt(s)) == s <==> AllDigits(s) && s[0] != '0'
  {
    if AllDigits(s) && s[0] != '0' {
      assert TrimStart(s) == s;
      assert IsDigit(s[0]) && IsDigit(s[1]);
      LeadingValue(s, false, 0);
      DecimalValue(s);
    }
  }

  /** A task id is kept exactly when it is six digits that do not start with zero, a dash, and as many characters as an id has. */
  lemma AcceptedIff(taskId: string, id: string)
    ensures Accepted(taskId, id)
       <==> |taskId| == |id| + 7 && AllDigits(taskId[..6]) && taskId[0] != '0' && taskId[6] == '-'
  {
    if |taskId| == |id| + 7 {
      var sp0 := FirstPiece(taskId);
      var head := taskId[..6];
      assert forall i :: 0 <= i < 6 ==> head[i] == taskId[i];
      if |sp0| == 6 {
        assert head == sp0;
        PrintedParse(sp0);
      } else if |sp0| < 6 {
        assert head[|sp0|] == '-';
      } else {
        assert sp0[6] == taskId[6];
      }
    }
  }

  lemma Pad2Digits(n: nat)
    requires n < 100
    ensures |Pad2(n)| == 2 && AllDigits(Pad2(n)) && (Pad2(n)[0] == '0' <==> n < 10)
  {
    if n >= 10 {
      assert Decimal(n) == Decimal(n / 10) + [CharOf(n % 10)];
      assert n / 10 < 10;
    }
  }

  /**
   * A task id minted by one event is accepted by another exactly when their ids
   * are equally long and the year's last two digits do not start with zero.
   */
  lemma MintedAcceptedIff(year: nat, month: nat, day: nat, id: string, other: string)
    requires 1 <= month <= 12 && 1 <= day <= 31
    ensures Accepted(Mint(DateString(year, month, day), id), other) <==> |id| == |other| && year % 100 >= 10
  {
    var date := DateString(year, month, day);
    var taskId := Mint(date, id);
    Pad2Digits(year % 100);
    Pad2Digits(month);
    Pad2Digits(day);
    assert |date| == 6 && AllDigits(date) && date[0] == Pad2(year % 100)[0];
    assert |taskId| == |id| + 7;
    assert taskId[..6] == date && taskId[6] == '-';
    AcceptedIff(taskId, other);
  }

  /**
   * While the minute counter has four digits, from 262144 until 16777216, every
   * event keeps the task ids that other events minted in a year that ends in 10
   * or more.
   */
  lemma TaskIdsAreShared(a: string, year: nat, month: nat, day: nat, minutes: int, random: string,
                         later: int, random': string, today: string)
    requires |a| == 64 && |random| == |random'|
    requires 1 <= month <= 12 && 1 <= day <= 31 && year % 100 >= 10
    requires 262144 <= minutes - 28656451 < 16777216 && 262144 <= later - 28656451 < 16777216
    ensures var taskId := Mint(DateString(year, month, day), Uuid(a, minutes, random));
            GetTaskId(taskId, Uuid(a, later, random'), today) == taskId
  {
    FourDigits(a, minutes - 28656451);
    FourDigits(a, later - 28656451);
    MintedAcceptedIff(year, month, day, Uuid(a, minutes, random), Uuid(a, later, random'));
  }

  lemma Pad2Reads(n: nat)
    requires n < 100
    ensures AllDigits(Pad2(n)) && Value(Pad2(n)) == n
  {
    Pad2Digits(n);
    DecimalReads(n);
    if n < 10 {
      var s := Pad2(n);
      assert s[..1] == "0" && "0"[..0] == "";
      assert s[1] == Decimal(n)[0];
      assert Decimal(n)[..0] == "";
    }
  }

  lemma {:induction false} ValueConcat(s: string, t: string)
    requires AllDigits(s) && AllDigits(t)
    ensures AllDigits(s + t) && Value(s + t) == Value(s) * PowTen(|t|) + Value(t)
  {
    if t == "" {
      assert s + t == s;
    } else {
      var u := s + t;
      assert u[..|u| - 1] == s + t[..|t| - 1];
      ValueConcat(s, t[..|t| - 1]);
      Regroup(Value(s + t[..|t| - 1]), Value(s), PowTen(|t| - 1), Value(t[..|t| - 1]), DigitOf(t[|t| - 1]));
    }
  }

  /** The date string reads as the number yymmdd. */
  lemma DateReads(year: nat, month: nat, day: nat)
    requires 1 <= month <= 12 && 1 <= day <= 31
    ensures var s := DateString(year, month, day);
            |s| == 6 && AllDigits(s) && Value(s) == year % 100 * 10000 + month * 100 + day
  {
    var y, m, d := Pad2(year % 100), Pad2(month), Pad2(day);
    Pad2Digits(year % 100);
    Pad2Digits(month);
    Pad2Digits(day);
    Pad2Reads(year % 100);
    Pad2Reads(month);
    Pad2Reads(day);
    ValueConcat(y, m);
    ValueConcat(y + m, d);
    assert PowTen(2) == 10 * PowTen(1) && PowTen(1) == 10 * PowTen(0);
  }

  /**
   * Whatever task id a request brings: the one its event settles on is kept by
   * every event whose id is as long, from the year 10 of a century on.
   */
  lemma SettledTaskIdStays(taskId: string, id: string, year: nat, month: nat, day: nat, other: string, today: string)
    requires 1 <= month <= 12 && 1 <= day <= 31 && year % 100 >= 10 && |id| == |other|
    ensures var settled := GetTaskId(taskId, id, DateString(year, month, day));
            GetTaskId(settled, other, today) == settled
  {
    AcceptedIff(taskId, id);
    AcceptedIff(taskId, other);
    MintedAcceptedIff(year, month, day, id, other);
  }
}
