/** The text both programs put into messages: numbers, comma-separated lists, day names. */
module Text {
  import opened Basics
  import opened TimeSlots

  // ---------- numbers ----------

  predicate IsDigit(c: char) { '0' <= c <= '9' }

  function DigitValue(c: char): (d: nat)
    requires IsDigit(c)
    ensures d < 10
  {
    c as int - '0' as int
  }

  function Digit(d: nat): (c: char)
    requires d < 10
    ensures IsDigit(c) && DigitValue(c) == d
  {
    ('0' as int + d) as char
  }

  predicate AllDigits(s: string) {
    forall i :: 0 <= i < |s| ==> IsDigit(s[i])
  }

  function PrintNat(n: nat): (s: string)
    ensures s != "" && AllDigits(s)
  {
    if n < 10 then [Digit(n)] else PrintNat(n / 10) + [Digit(n % 10)]
  }

  function NatOf(s: string): (n: int)
    requires AllDigits(s)
    ensures n >= 0
  {
    if s == "" then 0 else 10 * NatOf(s[..|s| - 1]) + DigitValue(s[|s| - 1])
  }

  lemma {:induction false} NatOfPrint(n: nat)
    ensures NatOf(PrintNat(n)) == n
  {
    if n < 10 {
      assert NatOf([Digit(n)][..0]) == 0;
    } else {
      NatOfPrint(n / 10);
      var s := PrintNat(n);
      assert s[..|s| - 1] == PrintNat(n / 10);
    }
  }

  function PrintInt(n: int): (s: string)
    ensures s != ""
  {
    if n < 0 then "-" + PrintNat(-n) else PrintNat(n)
  }

  /** At least two characters, filled up with a leading zero. */
  function Pad2(n: int): (s: string)
    ensures s != ""
  {
    if 0 <= n < 10 then "0" + PrintNat(n) else PrintInt(n)
  }

  predicate InInt32(n: int) { -0x8000_0000 <= n < 0x8000_0000 }

  /** The Java parser of decimal integers. */
  function ParseInt(s: string): (r: Option<int>)
    ensures r.Some? ==> InInt32(r.value)
  {
    var negative := s != "" && s[0] == '-';
    var digits := if s != "" && (s[0] == '-' || s[0] == '+') then s[1..] else s;
    if digits == "" || !AllDigits(digits) then None
    else
      var n := if negative then -NatOf(digits) else NatOf(digits);
      if InInt32(n) then Some(n) else None
  }

  /** Java reads back every 32-bit number C++ prints. */
  lemma ParsePrint(n: int)
    requires InInt32(n)
    ensures ParseInt(PrintInt(n)) == Some(n)
  {
    var s := PrintInt(n);
    if n < 0 {
      NatOfPrint(-n);
      assert s[1..] == PrintNat(-n);
    } else {
      NatOfPrint(n);
      assert IsDigit(s[0]);
    }
  }

  /** Exactly which texts Java takes for a number: digits, leading zeros included, with or
      without a sign. */
  lemma ParseIntIff(s: string, n: int)
    ensures ParseInt(s) == Some(n)
            <==> InInt32(n)
                 && exists digits :: digits != "" && AllDigits(digits)
                                     && ((s in [digits, "+" + digits] && NatOf(digits) == n)
                                         || (s == "-" + digits && -NatOf(digits) == n))
  {
    if ParseInt(s) == Some(n) {
      if s[0] == '-' || s[0] == '+' {
        assert s == [s[0]] + s[1..] && AllDigits(s[1..]);
      } else {
        assert AllDigits(s);
      }
    }
    if exists digits :: digits != "" && AllDigits(digits)
                        && ((s in [digits, "+" + digits] && NatOf(digits) == n)
                            || (s == "-" + digits && -NatOf(digits) == n))
    {
      var digits :| digits != "" && AllDigits(digits)
                    && ((s in [digits, "+" + digits] && NatOf(digits) == n)
                        || (s == "-" + digits && -NatOf(digits) == n));
      assert IsDigit(digits[0]);
      if s != digits {
        assert s[1..] == digits;
      }
    }
  }

  /** Leading zeros do not count. */
  lemma {:induction false} LeadingZero(digits: string)
    requires AllDigits(digits)
    ensures NatOf("0" + digits) == NatOf(digits)
  {
    var s := "0" + digits;
    if digits == "" {
      assert s[..0] == "" && NatOf(s[..0]) == 0;
    } else {
      LeadingZero(digits[..|digits| - 1]);
      assert s[..|s| - 1] == "0" + digits[..|digits| - 1];
    }
  }

  function DigitPrefix(s: string): (k: nat)
    ensures k <= |s| && AllDigits(s[..k])
  {
    if s == "" || !IsDigit(s[0]) then 0 else 1 + DigitPrefix(s[1..])
  }

  predicate IsSpace(c: char) { c == ' ' || '\t' <= c <= '\r' }

  function SkipSpace(s: string): (r: string)
    ensures |r| <= |s|
  {
    if s != "" && IsSpace(s[0]) then SkipSpace(s[1..]) else s
  }

  /** The C++ parser: skips blanks, takes a sign and as many digits as follow. */
  function Stoi(s: string): (r: Option<int>) {
    var t := SkipSpace(s);
    var negative := t != "" && t[0] == '-';
    var u := if t != "" && (t[0] == '-' || t[0] == '+') then t[1..] else t;
    var k := DigitPrefix(u);
    if k == 0 then None
    else
      var n := if negative then -NatOf(u[..k]) else NatOf(u[..k]);
      if InInt32(n) then Some(n) else None
  }

  lemma {:induction false} DigitPrefixAll(s: string)
    requires AllDigits(s)
    ensures DigitPrefix(s) == |s|
  {
    if s != "" {
      DigitPrefixAll(s[1..]);
    }
  }

  /** Two digits with a leading zero read back as the number. */
  lemma StoiPad2(n: int)
    requires 0 <= n < 100
    ensures |Pad2(n)| == 2 && AllDigits(Pad2(n)) && Stoi(Pad2(n)) == Some(n)
  {
    var s := Pad2(n);
    if n >= 10 {
      assert PrintNat(n / 10) == [Digit(n / 10)];
      NatOfPrint(n);
    } else {
      assert s == ['0', Digit(n)];
      assert s[..1] == "0" && NatOf("0") == 0 by {
        assert "0"[..0] == "";
      }
    }
    DigitPrefixAll(s);
    assert s[..2] == s;
  }

  // ---------- comma-separated lists ----------

  function IndexOf(s: string, c: char): (i: nat)
    ensures i <= |s| && (i < |s| ==> s[i] == c)
    ensures forall j :: 0 <= j < i ==> s[j] != c
  {
    if s == "" || s[0] == c then 0 else 1 + IndexOf(s[1..], c)
  }

  function SplitAll(s: string, c: char): (parts: seq<string>)
    ensures parts != []
    decreases |s|
  {
    var i := IndexOf(s, c);
    if i == |s| then [s] else [s[..i]] + SplitAll(s[i + 1..], c)
  }

  function DropTrailingEmpty(parts: seq<string>): (r: seq<string>)
    ensures |r| <= |parts| && (forall i :: 0 <= i < |r| ==> r[i] == parts[i])
  {
    if parts != [] && parts[|parts| - 1] == "" then DropTrailingEmpty(parts[..|parts| - 1]) else parts
  }

  /** Java's split at commas: trailing empty parts disappear, but a text without a comma is
      always one part. */
  function JavaSplit(s: string): (parts: seq<string>) {
    if ',' !in s then [s] else DropTrailingEmpty(SplitAll(s, ','))
  }

  function Join(parts: seq<string>, c: char): (s: string) {
    if parts == [] then ""
    else if |parts| == 1 then parts[0]
    else parts[0] + [c] + Join(parts[1..], c)
  }

  lemma IndexOfFirst(a: string, c: char, b: string)
    requires c !in a
    ensures IndexOf(a + [c] + b, c) == |a|
  {
    var s := a + [c] + b;
    assert s[|a|] == c;
    assert forall j :: 0 <= j < |a| ==> s[j] == a[j] && a[j] in a;
  }

  lemma {:induction false} SplitJoin(parts: seq<string>, c: char)
    requires parts != [] && forall p <- parts :: c !in p
    ensures SplitAll(Join(parts, c), c) == parts
  {
    if |parts| == 1 {
      var i := IndexOf(parts[0], c);
      assert parts[0] in parts;
    } else {
      assert parts[0] in parts;
      IndexOfFirst(parts[0], c, Join(parts[1..], c));
      var s := Join(parts, c);
      assert s[..|parts[0]|] == parts[0] && s[|parts[0]| + 1..] == Join(parts[1..], c);
      SplitJoin(parts[1..], c);
    }
  }

  /** Java's split undoes the client's comma-separated assembly when no part holds a comma
      and the last part is not empty. */
  lemma JavaSplitJoin(parts: seq<string>)
    requires |parts| >= 2 && (forall p <- parts :: ',' !in p) && parts[|parts| - 1] != ""
    ensures JavaSplit(Join(parts, ',')) == parts
  {
    SplitJoin(parts, ',');
    assert Join(parts, ',')[|parts[0]|] == ',';
  }

  // ---------- days ----------

  function DayName(day: Day): (s: string)
    ensures s != ""
  {
    match day
    case MONDAY => "MONDAY"
    case TUESDAY => "TUESDAY"
    case WEDNESDAY => "WEDNESDAY"
    case THURSDAY => "THURSDAY"
    case FRIDAY => "FRIDAY"
    case SATURDAY => "SATURDAY"
    case SUNDAY => "SUNDAY"
  }

  function ParseDay(s: string): (r: Option<Day>)
    ensures r.Some? ==> DayName(r.value) == s
  {
    if s == "MONDAY" then Some(MONDAY)
    else if s == "TUESDAY" then Some(TUESDAY)
    else if s == "WEDNESDAY" then Some(WEDNESDAY)
    else if s == "THURSDAY" then Some(THURSDAY)
    else if s == "FRIDAY" then Some(FRIDAY)
    else if s == "SATURDAY" then Some(SATURDAY)
    else if s == "SUNDAY" then Some(SUNDAY)
    else None
  }

  function UpperChar(c: char): char {
    if 'a' <= c <= 'z' then (c as int - 32) as char else c
  }

  function Upper(s: string): (r: string)
    ensures |r| == |s|
  {
    seq(|s|, i requires 0 <= i < |s| => UpperChar(s[i]))
  }

  lemma DayRoundTrip(day: Day)
    ensures ParseDay(DayName(day)) == Some(day) && Upper(DayName(day)) == DayName(day)
    ensures forall c <- DayName(day) :: 'A' <= c <= 'Z'
  {
  }
}
