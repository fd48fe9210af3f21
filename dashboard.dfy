/** The dashboard's computations: the dropout and income totals, the palette
    index of a course or teacher, and the status chip of today's classes. */
module Dashboard {
  import opened Js
  import opened Seqs

  /** Dropouts per month. */
  function DesertoresCantidades(): seq<int> {
    [5, 3, 7, 4, 6, 8]
  }

  /** Income per month. */
  function MonthlyIngresos(): seq<int> {
    [12500, 14200, 15800, 13600, 16900, 18200]
  }

  /** `totalDesertores` and `totalIngresos` over the screen's data. */
  lemma Totals()
    ensures Sum(DesertoresCantidades()) == 33
    ensures Sum(MonthlyIngresos()) == 91200
  {
    assert DesertoresCantidades()[1..] == [3, 7, 4, 6, 8];
    assert MonthlyIngresos()[1..] == [14200, 15800, 13600, 16900, 18200];
  }

  // ---------------------------------------------------------------------------
  // The palette

  function Colors(): seq<string> {
    ["#0455a2", "#6c8221", "#5c6bc0", "#26a69a", "#ec407a"]
  }

  /** JavaScript's `%`: the remainder takes the sign of the dividend. */
  function JsRem(a: int, b: int): (r: int)
    requires b > 0
    ensures -b < r < b
    ensures a >= 0 ==> r == a % b
    ensures a < 0 ==> r <= 0
  {
    if a >= 0 then a % b else -((-a) % b)
  }

  /** `COLORS[id % COLORS.length]`: `None` stands for the `undefined` an
      index outside the palette reads. */
  function ColorOf(id: int): (c: Option<string>)
    ensures c.Some? <==> id >= 0 || id % |Colors()| == 0
    ensures c.Some? ==> c.value in Colors()
    ensures id >= 0 ==> c == Some(Colors()[id % |Colors()|])
  {
    var k := JsRem(id, |Colors()|);
    if 0 <= k then Some(Colors()[k]) else None
  }

  /** Ids one apart get different colours, and the palette repeats every five ids. */
  lemma ColorCycle(id: nat)
    ensures ColorOf(id + |Colors()|) == ColorOf(id)
    ensures ColorOf(id + 1) != ColorOf(id)
  {
  }

  // ---------------------------------------------------------------------------
  // Class status

  /** `s.split(":")[0]`: the text before the first colon. */
  function BeforeColon(s: string): (r: string)
    ensures ':' !in r
    ensures r <= s
    ensures |r| < |s| ==> s[|r|] == ':'
    decreases |s|
  {
    if s == [] || s[0] == ':' then [] else [s[0]] + BeforeColon(s[1..])
  }

  predicate IsDigit(c: char) {
    '0' <= c <= '9'
  }

  /** The white space and line terminators JavaScript's `parseInt` skips:
      tab, line feed, vertical tab, form feed, carriage return, the byte-order
      mark, the line and paragraph separators, and every space separator. */
  predicate IsSpace(c: char) {
    var n := c as int;
    (0x09 <= n <= 0x0D) || n == 0x20 || n == 0xA0 || n == 0x1680
    || (0x2000 <= n <= 0x200A) || n == 0x2028 || n == 0x2029 || n == 0x202F
    || n == 0x205F || n == 0x3000 || n == 0xFEFF
  }

  /** The value of `c` as a digit: `0-9`, then `a-z` and `A-Z` from 10 on;
      any other character is 36, a digit of no base. */
  function CharDigit(c: char): (d: nat)
    ensures d <= 36
    ensures IsDigit(c) <==> d < 10
  {
    if '0' <= c <= '9' then c as int - '0' as int
    else if 'a' <= c <= 'z' then c as int - 'a' as int + 10
    else if 'A' <= c <= 'Z' then c as int - 'A' as int + 10
    else 36
  }

  function DigitValue(c: char): int
    requires IsDigit(c)
  {
    CharDigit(c)
  }

  /** The longest prefix made of digits of base `radix`. */
  function LeadingDigits(s: string, radix: nat): (r: string)
    ensures r <= s
    ensures forall i :: 0 <= i < |r| ==> CharDigit(r[i]) < radix
    ensures |r| < |s| ==> CharDigit(s[|r|]) >= radix
    decreases |s|
  {
    if s == [] || CharDigit(s[0]) >= radix then [] else [s[0]] + LeadingDigits(s[1..], radix)
  }

  function TrimStart(s: string): (r: string)
    ensures |r| > 0 ==> !IsSpace(r[0])
    decreases |s|
  {
    if s != [] && IsSpace(s[0]) then TrimStart(s[1..]) else s
  }

  /** The number a string of base-`radix` digits denotes, read left to right. */
  function DigitsValue(ds: string, radix: nat): (n: nat)
    requires forall i :: 0 <= i < |ds| ==> CharDigit(ds[i]) < radix
    decreases |ds|
  {
    if ds == [] then 0
    else DigitsValue(ds[..|ds| - 1], radix) * radix + CharDigit(ds[|ds| - 1])
  }

  function Unsigned(t: string): string {
    if |t| > 0 && (t[0] == '-' || t[0] == '+') then t[1..] else t
  }

  /** Whether the unsigned text starts with the `0x` or `0X` prefix. */
  predicate HexPrefixed(u: string) {
    |u| >= 2 && u[0] == '0' && (u[1] == 'x' || u[1] == 'X')
  }

  /** The base `parseInt` reads in when no radix is given. */
  function RadixOf(u: string): nat {
    if HexPrefixed(u) then 16 else 10
  }

  /** The digits `parseInt` reads: after the sign and any `0x` prefix, the
      longest run of digits of the base. */
  function ParsedDigits(s: string): (ds: string)
    ensures forall i :: 0 <= i < |ds| ==> CharDigit(ds[i]) < RadixOf(Unsigned(TrimStart(s)))
  {
    var u := Unsigned(TrimStart(s));
    LeadingDigits(if HexPrefixed(u) then u[2..] else u, RadixOf(u))
  }

  /** `Number.parseInt(s)` with no radix: leading white space, an optional
      sign, a `0x` or `0X` prefix that switches to base 16, then the longest
      run of digits of the base; `None` is `NaN`, when that run is empty. */
  function ParseInt(s: string): (r: Option<int>)
    ensures r.None? <==> ParsedDigits(s) == []
    ensures r.Some? ==> (r.value < 0 ==> TrimStart(s)[0] == '-')
    ensures r.Some? ==> var n: int := DigitsValue(ParsedDigits(s), RadixOf(Unsigned(TrimStart(s))));
                        r.value == if TrimStart(s)[0] == '-' then -n else n
  {
    var t := TrimStart(s);
    var ds := ParsedDigits(s);
    var n := DigitsValue(ds, RadixOf(Unsigned(t)));
    if ds == [] then None
    else if |t| > 0 && t[0] == '-' then Some(-(n as int))
    else Some(n)
  }

  /** Leading white space does not change what `parseInt` reads. */
  lemma LeadingSpaceIgnored(c: char, s: string)
    requires IsSpace(c)
    ensures ParseInt([c] + s) == ParseInt(s)
  {
    assert ([c] + s)[1..] == s;
  }

  /** A `0x` prefix reads the hexadecimal digits after it, and `0x` with no
      hexadecimal digit after it is `NaN`. */
  lemma HexPrefixRead(x: char, ds: string)
    requires x == 'x' || x == 'X'
    requires forall i :: 0 <= i < |ds| ==> CharDigit(ds[i]) < 16
    ensures ParseInt(['0', x] + ds) == if ds == [] then None else Some(DigitsValue(ds, 16))
  {
    var s := ['0', x] + ds;
    assert s[0] == '0' && s[1] == x && s[2..] == ds;
    assert TrimStart(s) == s;
    assert Unsigned(s) == s;
    assert HexPrefixed(s) && RadixOf(s) == 16;
    AllDigitsLead(ds, 16);
    assert ParsedDigits(s) == ds;
  }

  /** A class written `0x9:00` starts at hour 9, as `parseInt` reads hex. */
  lemma HexHourStart()
    ensures StartHour("0x9:00") == Some(9)
    ensures ClassStatus(9, "0x9:00") == Completada
    ensures ClassStatus(8, "0x9:00") == Pendiente
  {
    BeforeColonAt("0x9:00", 3);
    assert "0x9:00"[..3] == ['0', 'x'] + "9";
    HexPrefixRead('x', "9");
    assert DigitsValue("9", 16) == 9 by {
      assert "9"[..0] == [];
    }
  }

  /** The class's starting hour, `parseInt(hora.split(":")[0])`. */
  function StartHour(hora: string): Option<int> {
    ParseInt(BeforeColon(hora))
  }

  datatype Status = Completada | Pendiente

  function ChipColor(s: Status): string {
    if s == Completada then "success" else "primary"
  }

  /** The chip of a class at the current hour `hour`: complete once the hour
      has reached the class's starting hour; a start that does not parse
      compares false, so such a class stays pending. */
  function ClassStatus(hour: int, hora: string): (s: Status)
    ensures s == Completada <==> StartHour(hora).Some? && hour >= StartHour(hora).value
    ensures ChipColor(s) == (if s == Completada then "success" else "primary")
  {
    var h := StartHour(hora);
    if h.Some? && hour >= h.value then Completada else Pendiente
  }

  /** Once complete, a class stays complete for the rest of the day. */
  lemma StatusMonotone(h1: int, h2: int, hora: string)
    requires h1 <= h2 && ClassStatus(h1, hora) == Completada
    ensures ClassStatus(h2, hora) == Completada
  {
  }

  /** The printed form of a number is all digits and reads back as that number. */
  lemma {:induction false} NatToStringDigits(n: nat)
    ensures forall i :: 0 <= i < |NatToString(n)| ==> IsDigit(NatToString(n)[i])
    ensures DigitsValue(NatToString(n), 10) == n
    decreases n
  {
    var s := NatToString(n);
    if n < 10 {
      DigitCharValue(n);
    } else {
      NatToStringDigits(n / 10);
      DigitCharValue(n % 10);
      assert s[..|s| - 1] == NatToString(n / 10);
    }
  }

  lemma DigitCharValue(d: nat)
    requires d < 10
    ensures IsDigit(DigitChar(d)) && DigitValue(DigitChar(d)) == d
  {
    assert "0123456789"[d] as int == '0' as int + d by {
      if d == 0 {} else if d == 1 {} else if d == 2 {} else if d == 3 {} else if d == 4 {}
      else if d == 5 {} else if d == 6 {} else if d == 7 {} else if d == 8 {} else {}
    }
  }

  /** A time `ds + ":" + mm` whose hour part is a run of digits starts at
      the hour those digits denote. */
  lemma DigitsStartHour(ds: string, mm: string)
    requires |ds| > 0 && forall i :: 0 <= i < |ds| ==> IsDigit(ds[i])
    ensures StartHour(ds + ":" + mm) == Some(DigitsValue(ds, 10))
  {
    NoColonBefore(ds, mm);
    ParseDigits(ds);
  }

  lemma ParseDigits(ds: string)
    requires |ds| > 0 && forall i :: 0 <= i < |ds| ==> IsDigit(ds[i])
    ensures ParseInt(ds) == Some(DigitsValue(ds, 10))
  {
    assert !IsSpace(ds[0]);
    assert TrimStart(ds) == ds;
    assert Unsigned(ds) == ds;
    assert !HexPrefixed(ds);
    AllDigitsLead(ds, 10);
  }

  /** A number printed in decimal before the colon is read back as that hour. */
  lemma PrintedHourRoundTrip(hh: nat, mm: string)
    ensures StartHour(NatToString(hh) + ":" + mm) == Some(hh)
  {
    NatToStringDigits(hh);
    DigitsStartHour(NatToString(hh), mm);
  }

  lemma {:induction false} NoColonBefore(ds: string, mm: string)
    requires forall i :: 0 <= i < |ds| ==> IsDigit(ds[i])
    ensures BeforeColon(ds + ":" + mm) == ds
    decreases |ds|
  {
    if ds != [] {
      NoColonBefore(ds[1..], mm);
      assert (ds + ":" + mm)[1..] == ds[1..] + ":" + mm;
      assert [ds[0]] + ds[1..] == ds;
    } else {
      assert ds + ":" + mm == ":" + mm;
    }
  }

  lemma {:induction false} AllDigitsLead(ds: string, radix: nat)
    requires forall i :: 0 <= i < |ds| ==> CharDigit(ds[i]) < radix
    ensures LeadingDigits(ds, radix) == ds
    decreases |ds|
  {
    if ds != [] {
      AllDigitsLead(ds[1..], radix);
      assert [ds[0]] + ds[1..] == ds;
    }
  }

  // ---------------------------------------------------------------------------
  // Today's classes

  function ClassHours(): seq<string> {
    ["09:00", "10:30", "12:00", "15:30", "17:00"]
  }

  /** The classes start at 9, 10, 12, 15 and 17 o'clock. */
  lemma ClassStarts()
    ensures StartHour(ClassHours()[0]) == Some(9)
    ensures StartHour(ClassHours()[1]) == Some(10)
    ensures StartHour(ClassHours()[2]) == Some(12)
    ensures StartHour(ClassHours()[3]) == Some(15)
    ensures StartHour(ClassHours()[4]) == Some(17)
  {
    ClassStartAt(0);
    ClassStartAt(1);
    ClassStartAt(2);
    ClassStartAt(3);
    ClassStartAt(4);
  }

  /** The start of the class at position `k` of today's list. */
  lemma ClassStartAt(k: int)
    requires 0 <= k < |ClassHours()|
    ensures StartHour(ClassHours()[k]) == Some([9, 10, 12, 15, 17][k])
  {
    ClassHourDigits(k);
    TwoDigitHour(ClassHours()[k]);
  }

  /** The class at position `k` is written with two digits, then a colon,
      and those digits denote the `k`-th starting hour. */
  lemma ClassHourDigits(k: int)
    requires 0 <= k < |ClassHours()|
    ensures var hora := ClassHours()[k];
      |hora| >= 3 && IsDigit(hora[0]) && IsDigit(hora[1]) && hora[2] == ':'
      && 10 * DigitValue(hora[0]) + DigitValue(hora[1]) == [9, 10, 12, 15, 17][k]
  {
    // The case split makes `k` concrete, so each time's characters are known.
    if k == 0 {} else if k == 1 {} else if k == 2 {} else if k == 3 {} else {}
  }

  /** At noon the first three classes are complete and the last two pending. */
  lemma NoonStatuses()
    ensures forall k :: 0 <= k < 3 ==> ClassStatus(12, ClassHours()[k]) == Completada
    ensures forall k :: 3 <= k < 5 ==> ClassStatus(12, ClassHours()[k]) == Pendiente
  {
    forall k | 0 <= k < 5
      ensures ClassStatus(12, ClassHours()[k]) == (if k < 3 then Completada else Pendiente)
    {
      ClassStartAt(k);
    }
  }

  /** A time written `hh:...` starts at hour `hh`, leading zero allowed. */
  lemma TwoDigitHour(hora: string)
    requires |hora| >= 3 && IsDigit(hora[0]) && IsDigit(hora[1]) && hora[2] == ':'
    ensures StartHour(hora) == Some(10 * DigitValue(hora[0]) + DigitValue(hora[1]))
  {
    BeforeColonAt(hora, 2);
    ParseDigits(hora[..2]);
    TwoDigitsValue(hora[..2]);
  }

  /** The text before the first colon, when that colon is at `n`. */
  lemma {:induction false} BeforeColonAt(hora: string, n: nat)
    requires n < |hora| && hora[n] == ':' && forall i :: 0 <= i < n ==> hora[i] != ':'
    ensures BeforeColon(hora) == hora[..n]
    decreases n
  {
    if n > 0 {
      BeforeColonAt(hora[1..], n - 1);
      assert [hora[0]] + hora[1..][..n - 1] == hora[..n];
    }
  }

  lemma TwoDigitsValue(ds: string)
    requires |ds| == 2 && IsDigit(ds[0]) && IsDigit(ds[1])
    ensures DigitsValue(ds, 10) == 10 * DigitValue(ds[0]) + DigitValue(ds[1])
  {
    assert ds[..1][..0] == [];
    assert DigitsValue(ds[..1], 10) == DigitValue(ds[0]);
  }
}
