/** The duration parsers: the scanner for xsd:duration texts (section 3.2.6 of W3C XML Schema Part 2, with the
    extensions of the code), its copy in the checker, the short form, and the printer of the short form. */
module Duration {
  import opened Tables

  const INT_MAX: int := 0x7fff_ffff
  const INT_MIN: int := -0x8000_0000
  const LLONG_MAX: int := 0x7fff_ffff_ffff_ffff

  predicate Narrow(x: int) {
    INT_MIN <= x <= INT_MAX
  }

  /** A `long long` can hold the value. */
  predicate Wide(x: int) {
    -LLONG_MAX - 1 <= x <= LLONG_MAX
  }

  /** A value stored in a `short`. */
  function Short(x: int): int {
    (x + 0x8000) % 0x1_0000 - 0x8000
  }

  /** A value stored in an `int`. */
  function Int(x: int): int {
    (x - INT_MIN) % 0x1_0000_0000 + INT_MIN
  }

  // ---- Numbers ----

  predicate IsDigit(ch: char) {
    '0' <= ch <= '9'
  }

  predicate AllDigits(s: string) {
    forall i :: 0 <= i < |s| ==> IsDigit(s[i])
  }

  /** The value of the digits at the head of s, read after a number n. */
  function Leading(s: string, n: nat): nat {
    if s != [] && IsDigit(s[0]) then Leading(s[1..], 10 * n + (s[0] as int - '0' as int)) else n
  }

  /** `atoll` of a text that begins with a digit. */
  function Number(s: string): nat {
    Leading(s, 0)
  }

  lemma {:induction false} LeadingStops(d: string, rest: string, n: nat)
    requires AllDigits(d) && (rest == [] || !IsDigit(rest[0]))
    ensures Leading(d + rest, n) == Leading(d, n)
  {
    if d == [] {
      assert d + rest == rest;
    } else {
      LeadingStops(d[1..], rest, 10 * n + (d[0] as int - '0' as int));
      assert (d + rest)[1..] == d[1..] + rest;
    }
  }

  lemma {:induction false} LeadingGrows(s: string, n: nat)
    ensures Leading(s, n) >= n
  {
    if s != [] && IsDigit(s[0]) {
      LeadingGrows(s[1..], 10 * n + (s[0] as int - '0' as int));
    }
  }

  // ---- The scanner ----

  const UNITS: set<char> := {'S', 'M', 'H', 'D', 'W', 'Y'}

  /** The seconds in a unit; M is a minute behind T and 31 days before it. */
  function Seconds(unit: char, time: bool): nat {
    if unit == 'S' then 1
    else if unit == 'M' then (if time then 60 else 31 * 24 * 60 * 60)
    else if unit == 'H' then 60 * 60
    else if unit == 'D' then 24 * 60 * 60
    else if unit == 'W' then 7 * 24 * 60 * 60
    else 365 * 24 * 60 * 60
  }

  /** How much a unit adds to the count of approximations that the checker keeps: one for a month, two for
      a year. */
  function Roughness(unit: char, time: bool): nat {
    if unit == 'Y' then 2 else if unit == 'M' && !time then 1 else 0
  }

  /** The state of the scanner, or how it ended early. `rough` is the count of approximations so far. */
  datatype State =
    | Going(total: int, temp: int, got: bool, time: bool, rough: nat)
    | Failed(status: int)
    | Undefined

  const FRESH: State := Going(0, 0, false, false, 0)

  /** The scanner looks at the first character of s, which is not empty. */
  function Fed(st: State, s: string): State
    requires s != []
  {
    if !st.Going? then st
    else if s[0] in UNITS then
      var k := Seconds(s[0], st.time);
      if !st.got then Failed(2)
      else if !Wide(k * st.temp) || !Wide(st.total + k * st.temp) then Undefined
      else Going(st.total + k * st.temp, 0, false, st.time, st.rough + Roughness(s[0], st.time))
    else if s[0] == 'T' then st.(time := true)
    else if IsDigit(s[0]) then
      if st.temp != 0 then st
      else if !Wide(Number(s)) then Undefined
      else if st.total <= INT_MIN || st.total >= INT_MAX then Failed(3)
      else st.(temp := Number(s), got := true)
    else Failed(2)
  }

  /** The scanner runs to the end of s. */
  function Scanned(st: State, s: string): State
    decreases |s|
  {
    if s == [] then st else Scanned(Fed(st, s), s[1..])
  }

  /** What a parser returns: a status, and the interval if it was set. */
  datatype Result = Returned(status: int, interval: Option<int>) | Overflow

  /** The end of the scan: a last number counts as seconds, then the sign and the range. `warning` is the
      status of an approximate duration. */
  function Finished(st: State, negative: bool, warning: int): Result {
    match st
    case Failed(status) => Returned(status, None)
    case Undefined => Overflow
    case Going(total, temp, _, _, _) =>
      var sum := if negative then 0 - (total + temp) else total + temp;
      if !Wide(total + temp) || !Wide(sum) then Overflow
      else if Narrow(sum) then Returned(if warning < 0 then warning else 0, Some(sum))
      else Returned(3, None)
  }

  predicate Negative(text: string) {
    text != [] && text[0] == '-'
  }

  /** Where the scan begins: behind a sign and a P. */
  function Body(text: string): string {
    var t := if Negative(text) then text[1..] else text;
    if t != [] && t[0] == 'P' then t[1..] else t
  }

  function Rough(st: State): nat {
    if st.Going? then st.rough else 0
  }

  /** `DtXMLIntervalSeconds` of the library. */
  function LibraryResult(text: string): Result {
    if text == [] then Returned(4, None)
    else
      var st := Scanned(FRESH, Body(text));
      Finished(st, Negative(text), if Rough(st) > 0 then -1 else 0)
  }

  /** Its copy in the checker: the warning is a `short` that is counted down. */
  function CheckerResult(text: string): Result {
    if text == [] then Returned(4, None)
    else
      var st := Scanned(FRESH, Body(text));
      Finished(st, Negative(text), Short(0 - Rough(st)))
  }

  // ---- The loops ----

  /** The character of a C string at an index up to and including its length. */
  function CharAt(text: string, i: nat): char
    requires i <= |text|
  {
    if i < |text| then text[i] else 0 as char
  }

  lemma ScanStep(st: State, text: string, i: nat)
    requires i <= |text|
    ensures Scanned(st, text[i..]) == if i < |text| then Scanned(Fed(st, text[i..]), text[i + 1..]) else st
    ensures i < |text| && !Fed(st, text[i..]).Going? ==> Scanned(st, text[i..]) == Fed(st, text[i..])
  {
    hide Fed;
    if i < |text| {
      assert text[i..][1..] == text[i + 1..];
      if !Fed(st, text[i..]).Going? {
        ScanStops(Fed(st, text[i..]), text[i + 1..]);
      }
    }
  }

  lemma {:induction false} ScanStops(st: State, s: string)
    requires !st.Going?
    ensures Scanned(st, s) == st
    decreases |s|
  {
    if s != [] {
      ScanStops(st, s[1..]);
    }
  }

  lemma ShortSteps(rough: nat, k: nat)
    ensures Short(Short(0 - rough) - k) == Short(0 - (rough + k)) && Short(0) == 0
  {
  }

  method ReadNumber(text: string, at: nat) returns (n: nat)
    requires at < |text|
    ensures n == Number(text[at..])
  {
    n := 0;
    var i := at;
    while i < |text| && IsDigit(text[i])
      invariant at <= i <= |text|
      invariant Number(text[at..]) == Leading(text[i..], n)
    {
      assert text[i..][1..] == text[i + 1..];
      n := 10 * n + (text[i] as int - '0' as int);
      i := i + 1;
    }
  }

  /** `DtXMLIntervalSeconds` of the library. */
  method ParseInLibrary(text: string) returns (r: Result)
    ensures r == LibraryResult(text)
  {
    hide Scanned, Number, Short;
    if |text| == 0 {
      return Returned(4, None);
    }
    var ptr, end := 0, |text|;
    var negative, time, got := false, false, false;
    var temp, total := 0, 0;
    var warning := 0;
    ghost var rough: nat := 0;
    if text[ptr] == '-' {
      negative := true;
      ptr := ptr + 1;
    }
    if CharAt(text, ptr) == 'P' {
      ptr := ptr + 1;
    }
    assert text[ptr..] == Body(text);
    ghost var goal := Scanned(FRESH, Body(text));
    
    var more := true;
    while more
      invariant more ==> ptr <= end && goal == Scanned(Going(total, temp, got, time, rough), text[ptr..])
      invariant !more ==> goal == Going(total, temp, got, time, rough)
      invariant warning == if rough > 0 then 1 else 0
      invariant Wide(total)
      decreases more, end - ptr
    {
      var ch := CharAt(text, ptr);
      ScanStep(Going(total, temp, got, time, rough), text, ptr);
      if ptr < end && ch in UNITS {
        if !got {
          return Returned(2, None);
        }
        var k := Seconds(ch, time);
        if !Wide(k * temp) || !Wide(total + k * temp) {
          return Overflow;
        }
        total := total + k * temp;
        if Roughness(ch, time) > 0 {
          warning := 1;
        }
        rough := rough + Roughness(ch, time);
        temp, got := 0, false;
      } else if ptr < end && ch == 'T' {
        time := true;
      } else if ptr < end && IsDigit(ch) {
        if temp == 0 {
          var n := ReadNumber(text, ptr);
          if !Wide(n) {
            return Overflow;
          }
          temp, got := n, true;
          if total <= INT_MIN || total >= INT_MAX {
            return Returned(3, None);
          }
        }
      } else if ptr != end {
        return Returned(2, None);
      }
      more := ptr < end;
      ptr := ptr + 1;
    }
    if temp != 0 {
      if !Wide(total + temp) {
        return Overflow;
      }
      total := total + temp;
    }
    if negative {
      if !Wide(0 - total) {
        return Overflow;
      }
      total := 0 - total;
    }
    var status := 0;
    if warning == 1 {
      status := -1;
    }
    if INT_MIN <= total <= INT_MAX {
      r := Returned(status, Some(total));
    } else {
      r := Returned(3, None);
    }
  }

  /** `DtXMLIntervalSeconds` of the checker. */
  method ParseInChecker(text: string) returns (r: Result)
    ensures r == CheckerResult(text)
  {
    hide Scanned, Number, Short;
    if |text| == 0 {
      return Returned(4, None);
    }
    var ptr, end := 0, |text|;
    var negative, time, got := false, false, false;
    var temp, total := 0, 0;
    var warning := 0;
    ghost var rough: nat := 0;
    if text[ptr] == '-' {
      negative := true;
      ptr := ptr + 1;
    }
    if CharAt(text, ptr) == 'P' {
      ptr := ptr + 1;
    }
    assert text[ptr..] == Body(text);
    ghost var goal := Scanned(FRESH, Body(text));
    ShortSteps(0, 0);
    var more := true;
    while more
      invariant more ==> ptr <= end && goal == Scanned(Going(total, temp, got, time, rough), text[ptr..])
      invariant !more ==> goal == Going(total, temp, got, time, rough)
      invariant warning == Short(0 - rough)
      invariant Wide(total)
      decreases more, end - ptr
    {
      var ch := CharAt(text, ptr);
      ScanStep(Going(total, temp, got, time, rough), text, ptr);
      if ptr < end && ch in UNITS {
        if !got {
          return Returned(2, None);
        }
        var k := Seconds(ch, time);
        if !Wide(k * temp) || !Wide(total + k * temp) {
          return Overflow;
        }
        total := total + k * temp;
        ShortSteps(rough, Roughness(ch, time));
        warning := Short(warning - Roughness(ch, time));
        rough := rough + Roughness(ch, time);
        temp, got := 0, false;
      } else if ptr < end && ch == 'T' {
        time := true;
      } else if ptr < end && IsDigit(ch) {
        if temp == 0 {
          var n := ReadNumber(text, ptr);
          if !Wide(n) {
            return Overflow;
          }
          temp, got := n, true;
          if total <= INT_MIN || total >= INT_MAX {
            return Returned(3, None);
          }
        }
      } else if ptr != end {
        return Returned(2, None);
      }
      more := ptr < end;
      ptr := ptr + 1;
    }
    if temp != 0 {
      if !Wide(total + temp) {
        return Overflow;
      }
      total := total + temp;
    }
    if negative {
      if !Wide(0 - total) {
        return Overflow;
      }
      total := 0 - total;
    }
    var status := 0;
    if warning < 0 {
      status := warning;
    }
    if INT_MIN <= total <= INT_MAX {
      r := Returned(status, Some(total));
    } else {
      r := Returned(3, None);
    }
  }

  // ---- Well-formed durations ----

  /** The parts of a well-formed duration: the time mark T, or a number and its unit. */
  datatype Field = Mark | Part(digits: string, unit: char)

  predicate WellFormed(f: Field) {
    f.Part? ==> f.digits != [] && AllDigits(f.digits) && f.unit in {'Y', 'M', 'W', 'D', 'H', 'S'}
  }

  predicate AllWellFormed(fields: seq<Field>) {
    forall i :: 0 <= i < |fields| ==> WellFormed(fields[i])
  }

  function Written(fields: seq<Field>): string {
    if fields == [] then []
    else FieldText(fields[0]) + Written(fields[1..])
  }

  function FieldText(f: Field): string {
    if f.Mark? then "T" else f.digits + [f.unit]
  }

  /** Number times unit, over all the parts. */
  function Sum(fields: seq<Field>, time: bool): nat {
    if fields == [] then 0
    else if fields[0].Mark? then Sum(fields[1..], true)
    else Seconds(fields[0].unit, time) * Number(fields[0].digits) + Sum(fields[1..], time)
  }

  /** Some number begins where the sum before it has reached INT_MAX already. */
  predicate Late(total: int, fields: seq<Field>, time: bool, tail: string)
    decreases |fields|
  {
    if fields == [] then tail != [] && total >= INT_MAX
    else if fields[0].Mark? then Late(total, fields[1..], true, tail)
    else
      || total >= INT_MAX
      || Late(total + Seconds(fields[0].unit, time) * Number(fields[0].digits), fields[1..], time, tail)
  }

  lemma {:induction false} LateIsLarge(total: int, fields: seq<Field>, time: bool, tail: string)
    requires Late(total, fields, time, tail)
    ensures total + Sum(fields, time) >= INT_MAX
    decreases |fields|
  {
    if fields != [] && fields[0].Mark? {
      LateIsLarge(total, fields[1..], true, tail);
    } else if fields != [] && total < INT_MAX {
      LateIsLarge(total + Seconds(fields[0].unit, time) * Number(fields[0].digits), fields[1..], time, tail);
    }
  }

  predicate StartsWithDigit(s: string) {
    s != [] && IsDigit(s[0])
  }

  /** The rest of a number that has been read is skipped. */
  lemma {:induction false} SkipDigits(st: State, d: string, rest: string)
    requires st.Going? && st.temp != 0 && AllDigits(d)
    ensures Scanned(st, d + rest) == Scanned(st, rest)
  {
    if d == [] {
      assert d + rest == rest;
    } else {
      assert (d + rest)[1..] == d[1..] + rest;
      SkipDigits(st, d[1..], rest);
    }
  }

  /** A whole number, leading zeros included, is read once. */
  lemma {:induction false} ScanNumber(st: State, d: string, rest: string)
    requires st.Going? && st.temp == 0 && d != [] && AllDigits(d) && !StartsWithDigit(rest)
    ensures Scanned(st, d + rest) ==
      if !Wide(Number(d)) then Undefined
      else if st.total <= INT_MIN || st.total >= INT_MAX then Failed(3)
      else Scanned(st.(temp := Number(d), got := true), rest)
    decreases |d|
  {
    var s := d + rest;
    assert s[1..] == d[1..] + rest;
    LeadingStops(d, rest, 0);
    var next := Fed(st, s);
    if !next.Going? {
      ScanStops(next, s[1..]);
    } else if next.temp != 0 {
      SkipDigits(next, d[1..], rest);
    } else if d[1..] == [] {
      assert s[1..] == rest;
    } else {
      LeadingGrows(d[1..], d[0] as int - '0' as int);
      ScanNumber(next, d[1..], rest);
      SameNumber(d);
    }
  }

  lemma SameNumber(d: string)
    requires |d| > 1 && AllDigits(d) && Number(d) == 0
    ensures Number(d[1..]) == 0
  {
    LeadingGrows(d[1..], d[0] as int - '0' as int);
  }

  function Roughs(fields: seq<Field>, time: bool): nat {
    if fields == [] then 0
    else if fields[0].Mark? then Roughs(fields[1..], true)
    else Roughness(fields[0].unit, time) + Roughs(fields[1..], time)
  }

  lemma UnitIsNoDigit(f: Field)
    requires f.Part? && WellFormed(f)
    ensures f.unit in UNITS && !IsDigit(f.unit)
  {
  }

  /** What the scanner makes of the parts and a last number: unless 64 bits overflow, it stops at a number
      that comes late, or ends with the sum. */
  ghost predicate ScanIs(end: State, st: State, fields: seq<Field>, tail: string)
    requires st.Going?
  {
    || end.Undefined?
    || (Late(st.total, fields, st.time, tail) && end == Failed(3))
    || (&& !Late(st.total, fields, st.time, tail) && end.Going?
        && end.total == st.total + Sum(fields, st.time) && end.temp == Number(tail)
        && end.rough == st.rough + Roughs(fields, st.time))
  }

  lemma ScanTail(st: State, tail: string)
    requires st.Going? && st.total >= 0 && st.temp == 0 && !st.got && AllDigits(tail)
    ensures ScanIs(Scanned(st, tail), st, [], tail)
    ensures st.total + Number(tail) < INT_MAX ==> !Scanned(st, tail).Undefined?
  {
    if tail != [] {
      assert tail + [] == tail;
      ScanNumber(st, tail, []);
    }
  }

  /** One part: the state after it, or the early end. */
  lemma ScanPart(st: State, f: Field, rest: string)
    requires st.Going? && st.total >= 0 && st.temp == 0 && f.Part? && WellFormed(f)
    ensures var n := Seconds(f.unit, st.time) * Number(f.digits);
            var end := Scanned(st, f.digits + [f.unit] + rest);
            || (end.Undefined? && !Wide(st.total + n))
            || (st.total >= INT_MAX && end == Failed(3))
            || (&& st.total < INT_MAX
                && end == Scanned(Going(st.total + n, 0, false, st.time, st.rough + Roughness(f.unit, st.time)), rest))
  {
    hide Seconds, Roughness, Number, Scanned, Fed, IsDigit, UNITS;
    var d, tail := f.digits, [f.unit] + rest;
    UnitIsNoDigit(f);
    assert d + [f.unit] + rest == d + tail;
    ScanNumber(st, d, tail);
    UnitLasts(f.unit, st.time, Number(d));
    if Wide(Number(d)) && st.total < INT_MAX {
      ScanUnit(st.(temp := Number(d), got := true), f.unit, rest);
    }
  }

  lemma ScanUnit(st: State, unit: char, rest: string)
    requires st.Going? && st.got && unit in UNITS
    ensures var n := Seconds(unit, st.time) * st.temp;
            Scanned(st, [unit] + rest) ==
              if !Wide(n) || !Wide(st.total + n) then Undefined
              else Scanned(Going(st.total + n, 0, false, st.time, st.rough + Roughness(unit, st.time)), rest)
  {
    hide Seconds, Roughness, UNITS;
    var s := [unit] + rest;
    assert s[1..] == rest;
    if !Fed(st, s).Going? {
      ScanStops(Fed(st, s), rest);
    }
  }

  lemma UnitLasts(unit: char, time: bool, n: nat)
    ensures Seconds(unit, time) * n >= n
  {
  }

  lemma WrittenMore(fields: seq<Field>, tail: string)
    ensures fields == [] ==> Written(fields) + tail == tail
    ensures fields != [] ==> Written(fields) + tail == FieldText(fields[0]) + (Written(fields[1..]) + tail)
  {
    hide FieldText;
    if fields == [] {
      assert [] + tail == tail;
    } else {
      Regroup(FieldText(fields[0]), Written(fields[1..]), tail);
    }
  }

  lemma Regroup(a: string, b: string, c: string)
    ensures (a + b) + c == a + (b + c)
  {
  }

  lemma {:induction false} ScanFields(st: State, fields: seq<Field>, tail: string)
    requires st.Going? && st.total >= 0 && st.temp == 0 && !st.got && AllWellFormed(fields) && AllDigits(tail)
    ensures ScanIs(Scanned(st, Written(fields) + tail), st, fields, tail)
    ensures st.total + Sum(fields, st.time) + Number(tail) < INT_MAX ==> !Scanned(st, Written(fields) + tail).Undefined?
    decreases |fields|
  {
    hide Seconds, Roughness, Scanned, Number, AllDigits, WellFormed, Written;
    WrittenMore(fields, tail);
    if fields == [] {
      ScanTail(st, tail);
    } else {
      var f, more := fields[0], fields[1..];
      var rest := Written(more) + tail;
      if f.Mark? {
        ScanMark(st, rest);
        ScanFields(st.(time := true), more, tail);
      } else {
        ScanPart(st, f, rest);
        var n := Seconds(f.unit, st.time) * Number(f.digits);
        ScanFields(Going(st.total + n, 0, false, st.time, st.rough + Roughness(f.unit, st.time)), more, tail);
      }
    }
  }

  lemma ScanMark(st: State, rest: string)
    requires st.Going?
    ensures Scanned(st, "T" + rest) == Scanned(st.(time := true), rest)
  {
    assert ("T" + rest)[1..] == rest;
  }

  /** A duration: an optional sign, an optional P, the parts, and perhaps a last number without a unit. */
  function DurationText(negative: bool, p: bool, fields: seq<Field>, tail: string): string {
    (if negative then "-" else "") + (if p then "P" else "") + Written(fields) + tail
  }

  lemma WrittenStart(fields: seq<Field>, tail: string)
    requires AllWellFormed(fields) && AllDigits(tail)
    ensures var s := Written(fields) + tail; s == [] || (s[0] != '-' && s[0] != 'P')
  {
    hide Number;
    var s := Written(fields) + tail;
    if fields == [] {
      assert s == tail;
    } else if fields[0].Part? {
      assert WellFormed(fields[0]);
      assert s[0] == fields[0].digits[0];
    } else {
      assert s[0] == 'T';
    }
  }

  lemma BodyOf(negative: bool, p: bool, fields: seq<Field>, tail: string)
    requires AllWellFormed(fields) && AllDigits(tail)
    ensures var text := DurationText(negative, p, fields, tail);
            Negative(text) == negative && Body(text) == Written(fields) + tail
  {
    hide Written, AllDigits, AllWellFormed;
    var text, s := DurationText(negative, p, fields, tail), Written(fields) + tail;
    WrittenStart(fields, tail);
    var t := if p then "P" + s else s;
    assert text == if negative then "-" + t else t;
    assert ("-" + t)[1..] == t && ("P" + s)[1..] == s;
  }

  /** The numbers with the unit, added up. */
  function Total(fields: seq<Field>, unit: char): nat {
    if fields == [] then 0
    else (if fields[0].Part? && fields[0].unit == unit then Number(fields[0].digits) else 0) + Total(fields[1..], unit)
  }

  /** How many parts come before the first T. */
  function Dates(fields: seq<Field>): (n: nat)
    ensures n <= |fields|
  {
    if fields == [] || fields[0].Mark? then 0 else 1 + Dates(fields[1..])
  }

  /** The length of a duration in seconds: a year is 365 days, a month 31 days, and M behind a T is a minute. */
  function Meant(fields: seq<Field>): nat {
    var n := Dates(fields);
    31_536_000 * Total(fields, 'Y') + 2_678_400 * Total(fields[..n], 'M') + 604_800 * Total(fields, 'W')
      + 86_400 * Total(fields, 'D') + 3_600 * Total(fields, 'H') + 60 * Total(fields[n..], 'M') + Total(fields, 'S')
  }

  /** The same when every part is behind a T. */
  function Timed(fields: seq<Field>): nat {
    31_536_000 * Total(fields, 'Y') + 604_800 * Total(fields, 'W') + 86_400 * Total(fields, 'D')
      + 3_600 * Total(fields, 'H') + 60 * Total(fields, 'M') + Total(fields, 'S')
  }

  lemma TotalStep(fields: seq<Field>, unit: char)
    requires fields != []
    ensures Total(fields, unit)
      == (if fields[0].Part? && fields[0].unit == unit then Number(fields[0].digits) else 0) + Total(fields[1..], unit)
  {
  }

  lemma TimedStep(fields: seq<Field>)
    requires fields != [] && WellFormed(fields[0])
    ensures Timed(fields) == Timed(fields[1..])
      + if fields[0].Part? then Seconds(fields[0].unit, true) * Number(fields[0].digits) else 0
  {
    hide Number, AllDigits, Total;
    forall unit
      ensures Total(fields, unit) == Total(fields[1..], unit)
        + if fields[0].Part? && fields[0].unit == unit then Number(fields[0].digits) else 0
    {
      TotalStep(fields, unit);
    }
  }

  lemma {:induction false} SumTimed(fields: seq<Field>)
    requires AllWellFormed(fields)
    ensures Sum(fields, true) == Timed(fields)
  {
    hide Number, Seconds, Timed;
    if fields == [] {
      TimedNothing();
    } else {
      assert WellFormed(fields[0]);
      SumTimed(fields[1..]);
      TimedStep(fields);
    }
  }

  lemma TimedNothing()
    ensures Timed([]) == 0
  {
  }

  /** One part before the first T. */
  lemma MeantStep(fields: seq<Field>)
    requires fields != [] && fields[0].Part? && WellFormed(fields[0])
    ensures Meant(fields) == Seconds(fields[0].unit, false) * Number(fields[0].digits) + Meant(fields[1..])
  {
    hide Number, AllDigits, Total;
    var rest, n := fields[1..], Dates(fields);
    assert fields[..n][1..] == rest[..n - 1] && fields[n..] == rest[n - 1..];
    TotalStep(fields[..n], 'M');
    forall unit
      ensures Total(fields, unit)
        == Total(rest, unit) + if fields[0].unit == unit then Number(fields[0].digits) else 0
    {
      TotalStep(fields, unit);
    }
  }

  lemma {:induction false} SumMeant(fields: seq<Field>)
    requires AllWellFormed(fields)
    ensures Sum(fields, false) == Meant(fields)
  {
    hide Number, Seconds, Meant;
    if fields == [] || fields[0].Mark? {
      SumTimed(fields);
      MeantTimed(fields);
    } else {
      assert WellFormed(fields[0]);
      SumMeant(fields[1..]);
      MeantStep(fields);
    }
  }

  lemma MeantTimed(fields: seq<Field>)
    requires fields == [] || fields[0].Mark?
    ensures Meant(fields) == Timed(fields)
  {
    assert fields[..0] == [] && fields[0..] == fields;
  }

  /** Part i is of no fixed length: a year, or a month. */
  predicate Approximate(fields: seq<Field>, time: bool, i: nat)
    requires i < |fields|
  {
    fields[i].Part? && (fields[i].unit == 'Y' || (fields[i].unit == 'M' && !time && i < Dates(fields)))
  }

  lemma {:induction false} RoughsIff(fields: seq<Field>, time: bool)
    ensures Roughs(fields, time) > 0 <==> exists i :: 0 <= i < |fields| && Approximate(fields, time, i)
  {
    if fields != [] {
      var now := time || fields[0].Mark?;
      RoughsIff(fields[1..], now);
      forall i | 0 <= i < |fields| - 1
        ensures Approximate(fields, time, i + 1) <==> Approximate(fields[1..], now, i)
      {
      }
      if i :| 0 <= i < |fields| && Approximate(fields, time, i) {
        assert i == 0 || Approximate(fields[1..], now, i - 1);
      }
      if i :| 0 <= i < |fields| - 1 && Approximate(fields[1..], now, i) {
        assert Approximate(fields, time, i + 1);
      }
      assert Roughness(if fields[0].Part? then fields[0].unit else 'T', time) > 0 <==> Approximate(fields, time, 0);
    }
  }

  /** On every well-formed duration, unless 64 bits overflow, the interval is the signed sum of number times
      unit, and it is given exactly when it fits an `int` and no number comes late; a sum below INT_MAX is
      always given. */
  lemma WellFormedDuration(negative: bool, p: bool, fields: seq<Field>, tail: string)
    requires AllWellFormed(fields) && AllDigits(tail)
    ensures var text := DurationText(negative, p, fields, tail);
            var size := Meant(fields) + Number(tail);
            var value := if negative then 0 - size else size;
            var warning := if exists i :: 0 <= i < |fields| && Approximate(fields, false, i) then -1 else 0;
            text != [] ==>
              && (size < INT_MAX ==> LibraryResult(text) == Returned(warning, Some(value)))
              && (|| LibraryResult(text).Overflow?
                  || LibraryResult(text) ==
                     if Narrow(value) && !Late(0, fields, false, tail) then Returned(warning, Some(value))
                     else Returned(3, None))
  {
    hide Scanned, Number, Written, Sum, Meant, Approximate, Roughs, AllDigits, AllWellFormed, DurationText, Late;
    SumMeant(fields);
    RoughsIff(fields, false);
    BodyOf(negative, p, fields, tail);
    ScanFields(FRESH, fields, tail);
    if Late(0, fields, false, tail) {
      LateIsLarge(0, fields, false, tail);
    }
  }

  // ---- Malformed texts ----

  /** Digits, units and time marks only, and a digit between a unit and the one before it. */
  predicate Shaped(s: string, got: bool) {
    s == [] || if s[0] in {'Y', 'M', 'W', 'D', 'H', 'S'} then got && Shaped(s[1..], false)
               else if s[0] == 'T' then Shaped(s[1..], got)
               else '0' <= s[0] <= '9' && Shaped(s[1..], true)
  }

  /** A number begins where the sum before it does not fit an `int` any more. */
  predicate Overdue(st: State, s: string)
    decreases |s|
  {
    s != [] && (|| (st.Going? && '0' <= s[0] <= '9' && (st.total <= -0x8000_0000 || st.total >= 0x7fff_ffff))
                || Overdue(Fed(st, s), s[1..]))
  }

  lemma {:induction false} ScanShaped(st: State, s: string)
    requires st.Going? && (st.temp != 0 ==> st.got)
    ensures Scanned(st, s).Going? ==> Shaped(s, st.got)
    ensures Scanned(st, s) == Failed(2) ==> !Shaped(s, st.got)
    ensures Scanned(st, s).Failed? && Scanned(st, s) != Failed(2) ==> Scanned(st, s) == Failed(3) && Overdue(st, s)
    decreases |s|
  {
    hide Seconds, Number;
    if s != [] {
      var next := Fed(st, s);
      if next.Going? {
        ScanShaped(next, s[1..]);
      } else {
        ScanStops(next, s[1..]);
      }
    }
  }

  /** The empty text is refused with status 4. A text is refused as malformed, with status 2, only if behind its sign
      and its P it is not of that shape, and a text that is given an interval is of that shape. Any other text is
      refused with status 2, or with status 3 if a number begins after the sum has left the range of an `int`. */
  lemma AcceptedIsShaped(text: string)
    ensures text == [] ==> LibraryResult(text) == Returned(4, None)
    ensures LibraryResult(text).Returned? && LibraryResult(text).interval.Some? ==> Shaped(Body(text), false)
    ensures LibraryResult(text).Returned? && LibraryResult(text).status == 2 ==> !Shaped(Body(text), false)
    ensures text != [] && LibraryResult(text).Returned? && !Shaped(Body(text), false) ==>
      || LibraryResult(text) == Returned(2, None)
      || (LibraryResult(text) == Returned(3, None) && Overdue(FRESH, Body(text)))
  {
    hide Scanned, Shaped;
    ScanShaped(FRESH, Body(text));
  }

  // ---- The two copies ----

  /** The approximations in a text: two for every Y, one for every M that no T precedes. */
  function Approximations(s: string, time: bool): nat {
    if s == [] then 0
    else
      var n := if s[0] == 'Y' then 2 else if s[0] == 'M' && !time then 1 else 0;
      n + Approximations(s[1..], time || s[0] == 'T')
  }

  /** A scan that does not end early has counted exactly those. */
  lemma {:induction false} ScanCounts(st: State, s: string)
    requires st.Going? && Scanned(st, s).Going?
    ensures Scanned(st, s).rough == st.rough + Approximations(s, st.time)
    decreases |s|
  {
    hide Seconds;
    if s != [] {
      var next := Fed(st, s);
      if next.Going? {
        ScanCounts(next, s[1..]);
      } else {
        ScanStops(next, s[1..]);
      }
    }
  }

  /** The sign and the P add none. */
  lemma BodyCounts(text: string)
    ensures Approximations(Body(text), false) == Approximations(text, false)
  {
    var t := if Negative(text) then text[1..] else text;
    assert Approximations(t, false) == Approximations(text, false);
  }

  /** The copies do the same on every text up to the way they count approximations. On a text that they accept, the
      signs of their statuses agree if and only if it has no approximations, or the number of them, kept in 16 bits
      and counted down, comes out negative. */
  lemma CopiesAgree(text: string)
    ensures LibraryResult(text).Overflow? <==> CheckerResult(text).Overflow?
    ensures LibraryResult(text).Returned? ==> LibraryResult(text).interval == CheckerResult(text).interval
    ensures LibraryResult(text).Returned? && (LibraryResult(text).status > 0 || CheckerResult(text).status > 0) ==>
      LibraryResult(text) == CheckerResult(text)
    ensures LibraryResult(text).Returned? && LibraryResult(text).interval.Some? ==>
      var n := Approximations(text, false);
      && (LibraryResult(text).status < 0 <==> n > 0)
      && ((LibraryResult(text).status < 0 <==> CheckerResult(text).status < 0) <==>
          n == 0 || 1 <= n % 0x1_0000 <= 0x8000)
  {
    hide Scanned, Approximations, Body, Short;
    if text != [] {
      var st := Scanned(FRESH, Body(text));
      ShortIsNegative(Rough(st));
      if st.Going? {
        ScanCounts(FRESH, Body(text));
        BodyCounts(text);
      }
    }
  }

  lemma ShortIsNegative(rough: nat)
    ensures Short(0 - rough) < 0 <==> 1 <= rough % 0x1_0000 <= 0x8000
  {
    var r := rough % 0x1_0000;
    assert Short(0 - rough) == Short(0 - r);
  }

  lemma {:induction false} RoughBound(st: State, s: string)
    requires st.Going?
    ensures Rough(Scanned(st, s)) <= st.rough + |s| + if st.got then 1 else 0
    decreases |s|
  {
    hide Seconds;
    if s != [] {
      var next := Fed(st, s);
      if next.Going? {
        RoughBound(next, s[1..]);
      } else {
        ScanStops(next, s[1..]);
      }
    }
  }

  /** Texts that are not enormous get the same answer, the coding of the warning apart. */
  lemma CopiesAgreeOnShortTexts(text: string)
    requires |text| <= 0x8000 && LibraryResult(text).Returned?
    ensures CheckerResult(text).Returned? && CheckerResult(text).interval == LibraryResult(text).interval
    ensures
      || CheckerResult(text).status == LibraryResult(text).status
      || (CheckerResult(text).status < 0 && LibraryResult(text).status == -1)
  {
    CopiesAgree(text);
    RoughBound(FRESH, Body(text));
    if text != [] {
      ShortIsNegative(Rough(Scanned(FRESH, Body(text))));
    }
  }

  function Years(n: nat): string {
    if n == 0 then [] else "0Y" + Years(n - 1)
  }

  lemma {:induction false} ScanYears(rough: nat, n: nat)
    ensures Scanned(Going(0, 0, false, false, rough), Years(n)) == Going(0, 0, false, false, rough + 2 * n)
    decreases n
  {
    if n > 0 {
      var st := Going(0, 0, false, false, rough);
      var f, rest := Part("0", 'Y'), Years(n - 1);
      assert "0" + ['Y'] == "0Y";
      ScanPart(st, f, rest);
      ScanYears(rough + 2, n - 1);
    }
  }

  /** A family on which they do differ, from 16385 years of zero length on: the checker takes an approximate
      duration for an exact one. */
  lemma CopiesDiffer(n: nat)
    requires n > 0 && (n % 0x8000 == 0 || n % 0x8000 > 0x4000)
    ensures LibraryResult(Years(n)) == Returned(-1, Some(0)) && CheckerResult(Years(n)) == Returned(0, Some(0))
  {
    hide Scanned, Short;
    var text := Years(n);
    assert text[0] == '0';
    ScanYears(0, n);
    DoubledCount(n);
  }

  lemma DoubledCount(n: nat)
    ensures Short(0 - 2 * n) < 0 <==> 1 <= n % 0x8000 <= 0x4000
  {
    hide Short;
    ShortIsNegative(2 * n);
    assert 2 * n % 0x1_0000 == 2 * (n % 0x8000);
  }

  // ---- The short form ----

  predicate IsSpace(ch: char) {
    ch == ' ' || 9 <= ch as int <= 13
  }

  function TrimLeft(s: string): string {
    if s != [] && IsSpace(s[0]) then TrimLeft(s[1..]) else s
  }

  function TrimRight(s: string): string {
    if s != [] && IsSpace(s[|s| - 1]) then TrimRight(s[..|s| - 1]) else s
  }

  /** `StrStrtoi`: a trimmed decimal number with an optional sign, all of it, that fits an `int`. */
  function ToInt(s: string): Option<int> {
    var t := TrimLeft(TrimRight(s));
    var signed := t != [] && (t[0] == '-' || t[0] == '+');
    var d := if signed then t[1..] else t;
    if d == [] || !AllDigits(d) then None
    else
      var n := if signed && t[0] == '-' then 0 - Number(d) else Number(d);
      if Narrow(n) then Some(n) else None
  }

  /** The seconds in a suffix of the short form, if it is one. */
  function Multiplier(suffix: char): Option<nat> {
    if suffix == 's' then Some(1)
    else if suffix == 'm' then Some(60)
    else if suffix == 'h' then Some(60 * 60)
    else if suffix == 'd' then Some(24 * 60 * 60)
    else if suffix == 'w' then Some(7 * 24 * 60 * 60)
    else None
  }

  /** `DtIntervalSeconds`: a number and perhaps a suffix. The product is stored in an `int`, whatever its size. */
  function ParsedShort(text: string): Result {
    if text == [] then Returned(4, None)
    else
      var last := text[|text| - 1];
      var multiplier := if IsDigit(last) then Some(1) else Multiplier(last);
      var number := if IsDigit(last) then text else text[..|text| - 1];
      if multiplier.None? then Returned(1, None)
      else if |number| > 31 then Returned(3, None)
      else if ToInt(number).None? then Returned(2, None)
      else Returned(0, Some(Int(ToInt(number).value * multiplier.value)))
  }

  function Digits(n: nat): (d: string)
    ensures d != [] && AllDigits(d)
  {
    var last := [('0' as int + n % 10) as char];
    if n < 10 then last else Digits(n / 10) + last
  }

  /** A number printed with %d. */
  function Decimal(n: int): string {
    if n < 0 then "-" + Digits(-n) else Digits(n)
  }

  /** `DtSecondsInterval`: the largest unit that divides the interval. */
  function Printed(interval: int): string {
    if interval == 0 then "0s"
    else if interval % (60 * 60 * 24 * 7) == 0 then Decimal(interval / (60 * 60 * 24 * 7)) + "w"
    else if interval % (60 * 60 * 24) == 0 then Decimal(interval / (60 * 60 * 24)) + "d"
    else if interval % (60 * 60) == 0 then Decimal(interval / (60 * 60)) + "h"
    else if interval % 60 == 0 then Decimal(interval / 60) + "m"
    else Decimal(interval) + "s"
  }

  /** A text copied into a buffer, cut to fit with its NUL. */
  function Copied(text: string, size: nat): string
    requires size > 0
  {
    if |text| < size then text else text[..size - 1]
  }

  lemma {:induction false} LeadingMore(d: string, ch: char, n: nat)
    requires AllDigits(d) && IsDigit(ch)
    ensures Leading(d + [ch], n) == 10 * Leading(d, n) + (ch as int - '0' as int)
  {
    if d == [] {
      assert d + [ch] == [ch];
    } else {
      LeadingMore(d[1..], ch, 10 * n + (d[0] as int - '0' as int));
      assert (d + [ch])[1..] == d[1..] + [ch];
    }
  }

  lemma {:induction false} NumberOfDigits(n: nat)
    ensures Number(Digits(n)) == n
  {
    var ch := ('0' as int + n % 10) as char;
    if n < 10 {
      assert [] + [ch] == [ch];
      LeadingMore([], ch, 0);
    } else {
      NumberOfDigits(n / 10);
      LeadingMore(Digits(n / 10), ch, 0);
    }
  }

  function PowerOfTen(k: nat): nat {
    if k == 0 then 1 else 10 * PowerOfTen(k - 1)
  }

  lemma {:induction false} DigitsLength(n: nat, k: nat)
    requires k > 0 && n < PowerOfTen(k)
    ensures |Digits(n)| <= k
  {
    if n >= 10 {
      DigitsLength(n / 10, k - 1);
    }
  }

  lemma DecimalBack(n: int)
    requires Narrow(n)
    ensures ToInt(Decimal(n)) == Some(n) && 1 <= |Decimal(n)| <= 11
  {
    hide Number;
    var m := if n < 0 then -n else n;
    var d := Digits(m);
    NumberOfDigits(m);
    assert PowerOfTen(10) == 10_000_000_000;
    DigitsLength(m, 10);
    var t := Decimal(n);
    assert !IsSpace(t[0]) && !IsSpace(t[|t| - 1]);
    if n < 0 {
      assert t[1..] == d;
    }
  }

  lemma SuffixBack(n: int, suffix: char)
    requires Narrow(n) && Multiplier(suffix).Some? && Narrow(n * Multiplier(suffix).value)
    ensures ParsedShort(Decimal(n) + [suffix]) == Returned(0, Some(n * Multiplier(suffix).value))
  {
    hide Decimal, ToInt, Multiplier;
    DecimalBack(n);
    SuffixIsNoDigit(suffix);
    var text := Decimal(n) + [suffix];
    assert text[..|text| - 1] == Decimal(n);
  }

  lemma SuffixIsNoDigit(suffix: char)
    requires Multiplier(suffix).Some?
    ensures !IsDigit(suffix)
  {
  }

  /** Printing any 32-bit interval into a buffer of at least 13 characters and parsing it gives it back. */
  lemma PrintedIsParsed(interval: int, size: nat)
    requires Narrow(interval) && size >= 13
    ensures ParsedShort(Copied(Printed(interval), size)) == Returned(0, Some(interval))
  {
    hide Decimal, ParsedShort;
    var suffix := if interval == 0 then 's' else if interval % (60 * 60 * 24 * 7) == 0 then 'w'
      else if interval % (60 * 60 * 24) == 0 then 'd' else if interval % (60 * 60) == 0 then 'h'
      else if interval % 60 == 0 then 'm' else 's';
    var k := Multiplier(suffix).value;
    var n := interval / k;
    assert n * k == interval;
    assert Printed(interval) == Decimal(n) + [suffix] by {
      if interval == 0 {
        ZeroPrinted();
      }
    }
    DecimalBack(n);
    SuffixBack(n, suffix);
  }

  lemma ZeroPrinted()
    ensures Decimal(0) + ['s'] == "0s"
  {
  }

  /** A number with a suffix is parsed to the product exactly when the product fits an `int`; otherwise a wrong
      interval is returned with status 0. */
  lemma ShortFormIsExactIff(n: int, suffix: char)
    requires Narrow(n) && Multiplier(suffix).Some?
    ensures var r := ParsedShort(Decimal(n) + [suffix]);
            r.Returned? && r.status == 0 && (r.interval == Some(n * Multiplier(suffix).value) <==>
                Narrow(n * Multiplier(suffix).value))
  {
    hide Decimal, ToInt, Multiplier;
    DecimalBack(n);
    SuffixIsNoDigit(suffix);
    var text := Decimal(n) + [suffix];
    assert text[..|text| - 1] == Decimal(n);
  }

  predicate AllSpace(s: string) {
    forall i :: 0 <= i < |s| ==> s[i] == ' ' || 9 <= s[i] as int <= 13
  }

  lemma {:induction false} TrimLeftOf(l: string, t: string)
    requires AllSpace(l) && t != [] && !IsSpace(t[0])
    ensures TrimLeft(l + t) == t
  {
    if l == [] {
      assert l + t == t;
    } else {
      TrimLeftOf(l[1..], t);
      assert (l + t)[1..] == l[1..] + t;
    }
  }

  lemma {:induction false} TrimRightOf(t: string, r: string)
    requires AllSpace(r) && t != [] && !IsSpace(t[|t| - 1])
    ensures TrimRight(t + r) == t
  {
    if r == [] {
      assert t + r == t;
    } else {
      TrimRightOf(t, r[..|r| - 1]);
      assert (t + r)[..|t + r| - 1] == t + r[..|r| - 1];
    }
  }

  /** A number may have a sign and whitespace around it; it is read if it fits an `int`. */
  lemma NumberIsRead(l: string, sign: string, d: string, r: string)
    requires AllSpace(l) && AllSpace(r) && sign in {"", "+", "-"} && d != [] && AllDigits(d)
    ensures var n := if sign == "-" then 0 - Number(d) else Number(d);
      ToInt(l + (sign + d) + r) == if -0x8000_0000 <= n <= 0x7fff_ffff then Some(n) else None
  {
    hide Number, TrimLeft, TrimRight;
    var t := sign + d;
    assert l + t + r == l + (t + r);
    assert (l + t)[|l + t| - 1] == d[|d| - 1];
    TrimRightOf(l + t, r);
    TrimLeftOf(l, t);
    assert sign != "" ==> t[1..] == d;
    assert sign == "" ==> t == d;
  }

  /** What is refused, and why: an empty text, a last character that is neither a digit nor one of the suffixes, a
      number of more than 31 characters, and one that is not a decimal number or does not fit. */
  lemma ShortFormRefuses(text: string)
    ensures ParsedShort(text).Returned?
    ensures var r := ParsedShort(text);
      if text == [] then r == Returned(4, None)
      else
        var last := text[|text| - 1];
        var number := if '0' <= last <= '9' then text else text[..|text| - 1];
        if !('0' <= last <= '9') && last !in {'s', 'm', 'h', 'd', 'w'} then r == Returned(1, None)
        else if |number| > 31 then r == Returned(3, None)
        else r.status == (if ToInt(number) == None then 2 else 0) && (r.interval == None <==> ToInt(number) == None)
  {
    hide ToInt;
  }
}
