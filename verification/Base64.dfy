/** The Base64 codec of section 5.2 of RFC 1521: the encoder, the decoder that merges bits in place, and its
    length-only form. Characters are unsigned bytes; a text is a C string without its terminating NUL. */
module Base64 {

  predicate IsText(s: seq<bv8>) {
    forall i :: 0 <= i < |s| ==> s[i] != 0
  }

  type Text = s: seq<bv8> | IsText(s)

  const PAD: bv8 := 61
  const SPECIAL: bv8 := 0xf0
  const END: bv8 := 0xfd
  const SPACE: bv8 := 0xfe
  const INVALID: bv8 := 0xff

  // ---- The alphabet ----

  /** The alphabet: A to Z, a to z, 0 to 9, '+' and '/'. */
  function Letter(d: bv8): bv8
    requires d < 64
  {
    if d < 26 then 65 + d else if d < 52 then 71 + d else if d < 62 then d - 4 else if d == 62 then 43 else 47
  }

  predicate IsLetter(ch: bv8) {
    65 <= ch <= 90 || 97 <= ch <= 122 || 48 <= ch <= 57 || ch == 43 || ch == 47
  }

  predicate IsSpace(ch: bv8) {
    9 <= ch <= 13 || ch == 32
  }

  function Value(ch: bv8): (d: bv8)
    requires IsLetter(ch)
    ensures d < 64 && Letter(d) == ch
  {
    if ch == 43 then 62 else if ch == 47 then 63 else if ch <= 57 then ch + 4 else if ch <= 90 then ch - 65 else ch - 71
  }

  lemma ValueOfLetter(d: bv8)
    requires d < 64
    ensures IsLetter(Letter(d)) && Value(Letter(d)) == d
  {
  }

  // ---- The reverse map ----

  /** What the map says of a character that is not in the alphabet. */
  function Blank(ch: bv8): bv8 {
    if ch == 0 || ch == PAD then END else if IsSpace(ch) then SPACE else INVALID
  }

  /** The map after the first n letters have been filled in. */
  function Filled(ch: bv8, n: int): bv8 {
    if IsLetter(ch) && Value(ch) as int < n then Value(ch) else Blank(ch)
  }

  /** The finished map. */
  function Class(ch: bv8): bv8 {
    if IsLetter(ch) then Value(ch) else Blank(ch)
  }

  ghost predicate Reverse(rmap: array<bv8>)
    reads rmap
  {
    rmap.Length == 256 && forall j :: 0 <= j < 256 ==> rmap[j] == Class(j as bv8)
  }

  lemma FillStep(ch: bv8, n: int)
    requires 0 <= n < 64
    ensures (n as bv8) < 64
    ensures Filled(ch, n + 1) == if ch == Letter(n as bv8) then n as bv8 else Filled(ch, n)
  {
    assert n as bv8 < 64;
  }

  lemma FillBounds(ch: bv8)
    ensures Filled(ch, 0) == Blank(ch) && Filled(ch, 64) == Class(ch)
  {
    if IsLetter(ch) {
      assert Value(ch) < 64;
    }
  }

  lemma NextByte(b: bv8)
    ensures b != 255 ==> (b + 1) as int == b as int + 1
    ensures b as int < 255 ==> b != 255
  {
  }

  lemma {:induction false} ByteFor(j: int) returns (b: bv8)
    requires 0 <= j < 256
    ensures b as int == j
  {
    if j == 0 {
      b := 0;
    } else {
      b := ByteFor(j - 1);
      NextByte(b);
      b := b + 1;
    }
  }

  lemma ByteBack(b: bv8)
    ensures (b as int) as bv8 == b
  {
  }

  lemma IndexOfByte(j: int)
    requires 0 <= j < 256
    ensures (j as bv8) as int == j
  {
    var b := ByteFor(j);
    ByteBack(b);
  }

  method InitializeReverseMap(rmap: array<bv8>)
    requires rmap.Length == 256
    modifies rmap
    ensures Reverse(rmap)
  {
    hide Letter, Filled, IsLetter, Class;
    rmap[0] := END;
    for i := 1 to 256
      invariant forall j :: 0 <= j < i ==> rmap[j] == Blank(j as bv8)
    {
      var ch := i as bv8;
      IndexOfByte(i);
      if IsSpace(ch) {
        rmap[i] := SPACE;
      } else if ch == PAD {
        rmap[i] := END;
      } else {
        rmap[i] := INVALID;
      }
    }
    forall j | 0 <= j < 256
      ensures rmap[j] == Filled(j as bv8, 0)
    {
      FillBounds(j as bv8);
    }
    for i := 0 to 64
      invariant forall j :: 0 <= j < 256 ==> rmap[j] == Filled(j as bv8, i)
    {
      FillStep(0, i);
      var at := Letter(i as bv8) as int;
      rmap[at] := i as bv8;
      forall j | 0 <= j < 256
        ensures rmap[j] == Filled(j as bv8, i + 1)
      {
        FillStep(j as bv8, i);
        IndexOfByte(j);
      }
    }
    forall j | 0 <= j < 256
      ensures rmap[j] == Class(j as bv8)
    {
      FillBounds(j as bv8);
    }
  }

  method Lookup(rmap: array<bv8>, ch: bv8) returns (ofs: bv8)
    requires Reverse(rmap)
    ensures ofs == Class(ch)
  {
    ofs := rmap[ch as int];
  }

  // ---- Encoding ----

  /** The 6-bit groups of a byte string, zero bits added on the right. */
  function Digits(b: seq<bv8>): (d: seq<bv8>)
    ensures forall i :: 0 <= i < |d| ==> d[i] < 64
    ensures |d| == DigitCount(|b|)
  {
    if |b| == 0 then []
    else if |b| == 1 then Quantum(b[0], 0, 0)[..2]
    else if |b| == 2 then Quantum(b[0], b[1], 0)[..3]
    else Quantum(b[0], b[1], b[2]) + Digits(b[3..])
  }

  function DigitCount(n: nat): nat {
    n / 3 * 4 + if n % 3 == 0 then 0 else n % 3 + 1
  }

  function Quantum(a: bv8, b: bv8, c: bv8): (d: seq<bv8>)
    ensures |d| == 4 && forall i :: 0 <= i < 4 ==> d[i] < 64
  {
    [a >> 2, ((a & 3) << 4) + (b >> 4), ((b & 15) << 2) + (c >> 6), c & 63]
  }

  predicate AreDigits(d: seq<bv8>) {
    forall i :: 0 <= i < |d| ==> d[i] < 64
  }

  function Letters(d: seq<bv8>): (t: seq<bv8>)
    requires AreDigits(d)
    ensures |t| == |d| && forall i :: 0 <= i < |d| ==> t[i] == Letter(d[i])
  {
    seq(|d|, i requires 0 <= i < |d| => Letter(d[i]))
  }

  function Padding(n: nat): seq<bv8> {
    if n % 3 == 0 then [] else if n % 3 == 1 then [PAD, PAD] else [PAD]
  }

  /** The encoding of a byte string. */
  function Encoded(b: seq<bv8>): seq<bv8> {
    Letters(Digits(b)) + Padding(|b|)
  }

  lemma EncodedMore(b: seq<bv8>)
    requires |b| >= 3
    ensures var q := Quantum(b[0], b[1], b[2]);
            Encoded(b) == [Letter(q[0]), Letter(q[1]), Letter(q[2]), Letter(q[3])] + Encoded(b[3..])
  {
    hide Letter, Quantum, DigitCount, Digits, Letters;
    var q := Quantum(b[0], b[1], b[2]);
    DigitsMore(b);
    LettersMore(q, Digits(b[3..]));
  }

  lemma LettersMore(q: seq<bv8>, d: seq<bv8>)
    requires AreDigits(q) && AreDigits(d) && |q| == 4
    ensures AreDigits(q + d)
    ensures Letters(q + d) == [Letter(q[0]), Letter(q[1]), Letter(q[2]), Letter(q[3])] + Letters(d)
  {
    hide Letter;
  }

  lemma DigitsMore(b: seq<bv8>)
    requires |b| >= 3
    ensures Digits(b) == Quantum(b[0], b[1], b[2]) + Digits(b[3..])
  {
    hide Quantum, DigitCount;
  }

  method PutFour(target: array<bv8>, at: nat, w: bv8, x: bv8, y: bv8, z: bv8)
    requires at + 4 <= target.Length
    modifies target
    ensures target[..at + 4] == old(target[..at]) + [w, x, y, z]
  {
    target[at], target[at + 1], target[at + 2], target[at + 3] := w, x, y, z;
  }

  lemma EncodedNothing()
    ensures Encoded([]) == []
  {
  }

  /** `b64_ntop`: the text and its NUL, or failure when the target cannot hold both. */
  method Encode(src: seq<bv8>, target: array<bv8>) returns (r: int)
    modifies target
    ensures r == if |Encoded(src)| < target.Length then |Encoded(src)| else -1
    ensures r >= 0 ==> target[..r] == Encoded(src) && target[r] == 0
  {
    hide Letter, Quantum, Encoded, Letters;
    var pos, datalength := 0, 0;
    while 2 < |src| - pos
      invariant 0 <= pos <= |src|
      invariant 0 <= datalength <= target.Length
      invariant Encoded(src) == target[..datalength] + Encoded(src[pos..])
    {
      var input := src[pos..pos + 3];
      EncodedMore(src[pos..]);
      assert src[pos..][3..] == src[pos + 3..];
      var output := Quantum(input[0], input[1], input[2]);
      if datalength + 4 > target.Length {
        return -1;
      }
      PutFour(target, datalength, Letter(output[0]), Letter(output[1]), Letter(output[2]), Letter(output[3]));
      pos, datalength := pos + 3, datalength + 4;
    }
    if pos != |src| {
      var left := src[pos..];
      var output := Quantum(left[0], if |left| == 2 then left[1] else 0, 0);
      LastQuantum(left);
      if datalength + 4 > target.Length {
        return -1;
      }
      var third := if |left| == 1 then PAD else Letter(output[2]);
      PutFour(target, datalength, Letter(output[0]), Letter(output[1]), third, PAD);
      datalength := datalength + 4;
    } else {
      EncodedNothing();
      assert src[pos..] == [];
    }
    if datalength >= target.Length {
      return -1;
    }
    target[datalength] := 0;
    r := datalength;
  }

  lemma LastQuantum(left: seq<bv8>)
    requires 1 <= |left| <= 2
    ensures var d := Quantum(left[0], if |left| == 2 then left[1] else 0, 0);
            Encoded(left) == [Letter(d[0]), Letter(d[1]), if |left| == 1 then PAD else Letter(d[2]), PAD]
  {
    hide Letter, Quantum;
  }

  /** The alphabet and the pad character as table 1 of the RFC lists them, and whitespace as `isspace` does. */
  lemma AlphabetWrittenOut()
    ensures [Letter(0), Letter(1), Letter(2), Letter(3), Letter(4), Letter(5), Letter(6), Letter(7),
             Letter(8), Letter(9), Letter(10), Letter(11), Letter(12), Letter(13), Letter(14), Letter(15),
             Letter(16), Letter(17), Letter(18), Letter(19), Letter(20), Letter(21), Letter(22), Letter(23),
             Letter(24), Letter(25), Letter(26), Letter(27), Letter(28), Letter(29), Letter(30), Letter(31)]
      == [65, 66, 67, 68, 69, 70, 71, 72, 73, 74, 75, 76, 77, 78, 79, 80,
          81, 82, 83, 84, 85, 86, 87, 88, 89, 90, 97, 98, 99, 100, 101, 102]
    ensures PAD == 61 && forall ch :: IsSpace(ch) <==> ch in {9, 10, 11, 12, 13, 32}
  {
  }

  /** The second half of the alphabet. */
  lemma AlphabetWrittenOn()
    ensures [Letter(32), Letter(33), Letter(34), Letter(35), Letter(36), Letter(37), Letter(38), Letter(39),
             Letter(40), Letter(41), Letter(42), Letter(43), Letter(44), Letter(45), Letter(46), Letter(47),
             Letter(48), Letter(49), Letter(50), Letter(51), Letter(52), Letter(53), Letter(54), Letter(55),
             Letter(56), Letter(57), Letter(58), Letter(59), Letter(60), Letter(61), Letter(62), Letter(63)]
      == [103, 104, 105, 106, 107, 108, 109, 110, 111, 112, 113, 114, 115, 116, 117, 118,
          119, 120, 121, 122, 48, 49, 50, 51, 52, 53, 54, 55, 56, 57, 43, 47]
  {
  }

  /** The four digits of a quantum, side by side, are its 24 bits. */
  lemma QuantumBits(a: bv8, b: bv8, c: bv8)
    ensures var q := Quantum(a, b, c);
      ((q[0] as bv24) << 18) | ((q[1] as bv24) << 12) | ((q[2] as bv24) << 6) | (q[3] as bv24)
        == ((a as bv24) << 16) | ((b as bv24) << 8) | (c as bv24)
  {
  }

  lemma {:induction false} EncodedLength(b: seq<bv8>)
    ensures |Encoded(b)| == (|b| + 2) / 3 * 4
  {
    hide Letter, Quantum, Encoded;
    if |b| == 0 {
      EncodedNothing();
    } else if |b| < 3 {
      LastQuantum(b);
    } else {
      EncodedMore(b);
      EncodedLength(b[3..]);
    }
  }

  /** The encoding, quantum by quantum: four letters for each three bytes, ... */
  lemma {:induction false} EncodedGroup(b: seq<bv8>, g: nat)
    requires g < |b| / 3
    ensures var q := Quantum(b[3 * g], b[3 * g + 1], b[3 * g + 2]);
      && |Encoded(b)| >= 4 * g + 4
      && Encoded(b)[4 * g..4 * g + 4] == [Letter(q[0]), Letter(q[1]), Letter(q[2]), Letter(q[3])]
  {
    hide Letter, Quantum, Encoded;
    EncodedMore(b);
    if g > 0 {
      var rest, f := b[3..], g - 1;
      EncodedGroup(rest, f);
      assert rest[3 * f] == b[3 * g] && rest[3 * f + 1] == b[3 * g + 1] && rest[3 * f + 2] == b[3 * g + 2];
      assert Encoded(b)[4 * g..4 * g + 4] == Encoded(rest)[4 * f..4 * f + 4];
    }
  }

  /** ... and for one or two bytes that are left two or three letters, and pad characters up to four. */
  lemma {:induction false} EncodedEnd(b: seq<bv8>)
    requires |b| % 3 != 0
    ensures |Encoded(b)| == |b| / 3 * 4 + 4
    ensures var q := if |b| % 3 == 1 then Quantum(b[|b| - 1], 0, 0) else Quantum(b[|b| - 2], b[|b| - 1], 0);
      Encoded(b)[|b| / 3 * 4..] == [Letter(q[0]), Letter(q[1]), if |b| % 3 == 1 then 61 else Letter(q[2]), 61]
  {
    hide Letter, Quantum, Encoded;
    if |b| < 3 {
      LastQuantum(b);
    } else {
      var rest := b[3..];
      EncodedMore(b);
      EncodedEnd(rest);
      assert Encoded(b)[|b| / 3 * 4..] == Encoded(rest)[|rest| / 3 * 4..];
    }
  }

  // ---- Decoding ----

  /** The text without its whitespace. */
  function Clean(t: seq<bv8>): seq<bv8> {
    if t == [] then [] else (if IsSpace(t[0]) then [] else [t[0]]) + Clean(t[1..])
  }

  /** A byte completed by a digit in place 1, 2 or 3 of its quantum. */
  function Merge(high: bv8, x: bv8, place: nat): bv8 {
    high | (x >> if place == 1 then 4 else if place == 2 then 2 else 0)
  }

  /** What a digit in a given place leaves for the next byte. */
  function Left(x: bv8, place: nat): bv8 {
    if place == 0 then x << 2 else if place == 1 then (x & 15) << 4 else if place == 2 then (x & 3) << 6 else 0
  }

  /** The bits left over after the digits d, as the high bits of the next byte. */
  function Partial(d: seq<bv8>): bv8 {
    if d == [] then 0 else Left(d[|d| - 1], (|d| - 1) % 4)
  }

  /** The bytes that are complete after the digits d. */
  function Whole(d: seq<bv8>): seq<bv8> {
    if d == [] then []
    else
      var front, place := d[..|d| - 1], (|d| - 1) % 4;
      Whole(front) + if place == 0 then [] else [Merge(Partial(front), d[|d| - 1], place)]
  }

  /** The number of leading letters. */
  function Lead(t: seq<bv8>): (n: nat)
    ensures n <= |t| && (forall i :: 0 <= i < n ==> IsLetter(t[i])) && (n < |t| ==> !IsLetter(t[n]))
  {
    if t != [] && IsLetter(t[0]) then 1 + Lead(t[1..]) else 0
  }

  predicate AreLetters(t: seq<bv8>) {
    forall i :: 0 <= i < |t| ==> IsLetter(t[i])
  }

  function Values(t: seq<bv8>): (d: seq<bv8>)
    requires AreLetters(t)
    ensures |d| == |t| && forall i :: 0 <= i < |t| ==> d[i] == Value(t[i]) && d[i] < 64
  {
    seq(|t|, i requires 0 <= i < |t| => Value(t[i]))
  }

  /** The digits of a text without whitespace. */
  function DigitsOf(t: seq<bv8>): (d: seq<bv8>)
    ensures |d| == Lead(t) && AreDigits(d)
  {
    Values(t[..Lead(t)])
  }

  /** The digits are followed by exactly the pad characters that their number demands. */
  predicate WellPadded(t: seq<bv8>) {
    var n, tail := Lead(t), t[Lead(t)..];
    match n % 4
    case 0 => tail == []
    case 1 => false
    case 2 => tail == [PAD, PAD]
    case _ => tail == [PAD]
  }

  /** The number of target bytes that n digits touch. */
  function Room(n: nat): nat {
    match n % 4
    case 0 => n / 4 * 3
    case k => n / 4 * 3 + k
  }

  lemma Places(n: nat)
    ensures (n + 1) % 4 == if n % 4 == 3 then 0 else n % 4 + 1
    ensures (n + 1) * 3 / 4 == n * 3 / 4 + if n % 4 == 0 then 0 else 1
    ensures Room(n + 1) == n * 3 / 4 + if n % 4 == 0 || n % 4 == 3 then 1 else 2
  {
    var q, r := n / 4, n % 4;
    assert n == 4 * q + r;
    assert n * 3 / 4 == 3 * q + if r == 0 then 0 else r - 1;
  }

  lemma {:induction false} WholeLength(d: seq<bv8>)
    ensures |Whole(d)| == |d| * 3 / 4
  {
    hide Merge, Partial, Room;
    if d != [] {
      WholeLength(d[..|d| - 1]);
      Places(|d| - 1);
    }
  }

  /** What `b64_pton_do` returns for a text without whitespace and a target of the given size. */
  function Result(t: seq<bv8>, size: nat): int {
    if WellPadded(t) && Room(Lead(t)) <= size && Partial(DigitsOf(t)) == 0 then |Whole(DigitsOf(t))| else -1
  }

  /** What `b64_pton_len` returns for a text without whitespace. */
  function LengthResult(t: seq<bv8>): int {
    if WellPadded(t) then Lead(t) * 3 / 4 else -1
  }

  // ---- The two directions ----

  /** Adding one digit. */
  lemma OneMore(d: seq<bv8>, x: bv8)
    ensures Whole(d + [x]) == Whole(d) + if |d| % 4 == 0 then [] else [Merge(Partial(d), x, |d| % 4)]
    ensures Partial(d + [x]) == Left(x, |d| % 4)
  {
    assert (d + [x])[..|d|] == d;
  }

  /** Whole quanta are decoded on their own. */
  lemma {:induction false} MoreDigits(d: seq<bv8>, q: seq<bv8>)
    requires |d| % 4 == 0
    ensures Whole(d + q) == Whole(d) + Whole(q)
    ensures q != [] ==> Partial(d + q) == Partial(q)
  {
    hide *;
    if q == [] {
      assert d + q == d;
      NoDigits();
    } else {
      var front, x := q[..|q| - 1], q[|q| - 1];
      assert d + q == d + front + [x];
      assert front + [x] == q;
      MoreDigits(d, front);
      OneMore(d + front, x);
      OneMore(front, x);
      SamePlace(|d|, |front|);
      if front != [] {
        assert Partial(d + front) == Partial(front);
      }
    }
  }

  lemma NoDigits()
    ensures Whole([]) == []
  {
  }

  lemma SamePlace(m: nat, n: nat)
    requires m % 4 == 0
    ensures (m + n) % 4 == n % 4
  {
    var q, p := m / 4, n / 4;
    assert m + n == 4 * (q + p) + n % 4;
  }

  lemma {:induction false} DigitsAppend(b: seq<bv8>, g: seq<bv8>)
    requires |b| % 3 == 0
    ensures Digits(b + g) == Digits(b) + Digits(g)
  {
    hide *;
    if b == [] {
      NoBytes();
      assert b + g == g;
    } else {
      assert (b + g)[3..] == b[3..] + g;
      DigitsMore(b);
      DigitsMore(b + g);
      DigitsAppend(b[3..], g);
    }
  }

  /** The bits of three bytes, there and back. */
  lemma BytesBack(a: bv8, b: bv8, c: bv8)
    ensures var q := Quantum(a, b, c);
            && Merge(Left(q[0], 0), q[1], 1) == a
            && Merge(Left(q[1], 1), q[2], 2) == b
            && Merge(Left(q[2], 2), q[3], 3) == c
            && (b == 0 ==> Left(q[1], 1) == 0)
            && (c == 0 ==> Left(q[2], 2) == 0)
  {
  }

  /** The bits of four digits, there and back. */
  lemma FourBack(w: bv8, x: bv8, y: bv8, z: bv8)
    requires w < 64 && x < 64 && y < 64 && z < 64
    ensures Quantum(Merge(Left(w, 0), x, 1), Merge(Left(x, 1), y, 2), Merge(Left(y, 2), z, 3)) == [w, x, y, z]
  {
  }

  lemma TwoBack(w: bv8, x: bv8)
    requires w < 64 && x < 64 && Left(x, 1) == 0
    ensures Quantum(Merge(Left(w, 0), x, 1), 0, 0)[..2] == [w, x]
  {
  }

  lemma ThreeBack(w: bv8, x: bv8, y: bv8)
    requires w < 64 && x < 64 && y < 64 && Left(y, 2) == 0
    ensures Quantum(Merge(Left(w, 0), x, 1), Merge(Left(x, 1), y, 2), 0)[..3] == [w, x, y]
  {
  }

  lemma Complete()
    ensures forall x :: Left(x, 3) == 0
  {
  }

  /** The decoding of one quantum. */
  lemma OneQuantum(q: seq<bv8>)
    requires 2 <= |q| <= 4
    ensures Partial(q) == Left(q[|q| - 1], |q| - 1)
    ensures |q| == 2 ==> Whole(q) == [Merge(Left(q[0], 0), q[1], 1)]
    ensures |q| == 3 ==> Whole(q) == [Merge(Left(q[0], 0), q[1], 1), Merge(Left(q[1], 1), q[2], 2)]
    ensures |q| == 4 ==>
      Whole(q) == [Merge(Left(q[0], 0), q[1], 1), Merge(Left(q[1], 1), q[2], 2), Merge(Left(q[2], 2), q[3], 3)]
  {
    hide *;
    if |q| == 2 {
      TwoDigits(q[0], q[1]);
      assert q == [q[0], q[1]];
    } else {
      ThreeDigits(q[0], q[1], q[2]);
      if |q| == 3 {
        assert q == [q[0], q[1], q[2]];
      } else {
        FourDigits(q[0], q[1], q[2], q[3]);
        assert q == [q[0], q[1], q[2], q[3]];
      }
    }
  }

  lemma TwoDigits(w: bv8, x: bv8)
    ensures Whole([w, x]) == [Merge(Left(w, 0), x, 1)] && Partial([w, x]) == Left(x, 1)
  {
    hide *;
    NoDigits();
    OneMore([], w);
    assert [] + [w] == [w];
    OneMore([w], x);
    assert [w] + [x] == [w, x];
  }

  lemma ThreeDigits(w: bv8, x: bv8, y: bv8)
    ensures Whole([w, x, y]) == [Merge(Left(w, 0), x, 1), Merge(Left(x, 1), y, 2)] && Partial([w, x, y]) == Left(y, 2)
  {
    hide *;
    TwoDigits(w, x);
    OneMore([w, x], y);
    assert [w, x] + [y] == [w, x, y];
  }

  lemma FourDigits(w: bv8, x: bv8, y: bv8, z: bv8)
    ensures Whole([w, x, y, z]) == [Merge(Left(w, 0), x, 1), Merge(Left(x, 1), y, 2), Merge(Left(y, 2), z, 3)]
    ensures Partial([w, x, y, z]) == Left(z, 3)
  {
    hide *;
    ThreeDigits(w, x, y);
    OneMore([w, x, y], z);
    assert [w, x, y] + [z] == [w, x, y, z];
  }

  lemma ShortDigits(b: seq<bv8>)
    requires 1 <= |b| <= 3
    ensures Digits(b) == Quantum(b[0], if |b| > 1 then b[1] else 0, if |b| > 2 then b[2] else 0)[..|b| + 1]
  {
    hide Quantum;
  }

  lemma WholeQuantum(b: seq<bv8>)
    requires 1 <= |b| <= 3
    ensures Whole(Digits(b)) == b && Partial(Digits(b)) == 0
  {
    hide *;
    var x, y := if |b| > 1 then b[1] else 0, if |b| > 2 then b[2] else 0;
    BytesBack(b[0], x, y);
    ShortDigits(b);
    OneQuantum(Digits(b));
    Complete();
    assert |b| == 1 ==> b == [b[0]];
    assert |b| == 2 ==> b == [b[0], x];
    assert |b| == 3 ==> b == [b[0], x, y];
  }

  lemma DigitsQuantum(q: seq<bv8>)
    requires 2 <= |q| <= 4 && AreDigits(q) && Partial(q) == 0
    ensures Digits(Whole(q)) == q
  {
    hide Whole, Partial, Merge, Quantum, Left;
    OneQuantum(q);
    if |q| == 2 {
      TwoBack(q[0], q[1]);
    } else if |q| == 3 {
      ThreeBack(q[0], q[1], q[2]);
    } else {
      FourBack(q[0], q[1], q[2], q[3]);
    }
  }

  /** Decoding the digits of a byte string gives it back, with no stray bits. */
  lemma {:induction false} WholeOfDigits(b: seq<bv8>)
    ensures Whole(Digits(b)) == b && Partial(Digits(b)) == 0
  {
    hide Whole, Partial, Digits;
    if |b| == 0 {
      NoBytes();
    } else {
      var m := (|b| - 1) / 3 * 3;
      assert b == b[..m] + b[m..];
      WholeOfDigits(b[..m]);
      DigitsAppend(b[..m], b[m..]);
      WholeQuantum(b[m..]);
      MoreDigits(Digits(b[..m]), Digits(b[m..]));
    }
  }

  lemma NoBytes()
    ensures Digits([]) == [] && Whole([]) == [] && Partial([]) == 0
  {
  }

  /** Digits without stray bits are the digits of what they decode to. */
  lemma {:induction false} DigitsOfWhole(d: seq<bv8>)
    requires AreDigits(d) && |d| % 4 != 1 && Partial(d) == 0
    ensures Digits(Whole(d)) == d
  {
    hide Whole, Partial, Digits;
    if |d| == 0 {
      NoBytes();
    } else {
      var m := (|d| - 1) / 4 * 4;
      var head, q := d[..m], d[m..];
      assert d == head + q;
      MoreDigits(head, q);
      DigitsQuantum(q);
      WholeLength(head);
      EvenPartial(head);
      DigitsOfWhole(head);
      DigitsAppend(Whole(head), Whole(q));
    }
  }

  lemma EvenPartial(d: seq<bv8>)
    ensures |d| % 4 == 0 ==> Partial(d) == 0
  {
  }

  lemma AcceptedIsEncoding(t: seq<bv8>)
    requires WellPadded(t) && Partial(DigitsOf(t)) == 0
    ensures t == Encoded(Whole(DigitsOf(t)))
  {
    hide Whole, Partial, Digits, Value, Letter, DigitCount, Padding;
    var d := DigitsOf(t);
    DigitsOfWhole(d);
    WholeLength(d);
    assert Letters(d) == t[..Lead(t)];
    PaddingFor(|d|);
  }

  lemma PaddingFor(n: nat)
    ensures n % 4 == 0 ==> Padding(n * 3 / 4) == []
    ensures n % 4 == 2 ==> Padding(n * 3 / 4) == [PAD, PAD]
    ensures n % 4 == 3 ==> Padding(n * 3 / 4) == [PAD]
  {
    var q, r := n / 4, n % 4;
    assert n * 3 / 4 == 3 * q + if r == 0 then 0 else r - 1;
  }

  /** The decoder accepts exactly the encodings: a text is well padded and has no stray bits if and only if
      it is the encoding of what it decodes to. */
  lemma AcceptsEncodings(t: seq<bv8>)
    ensures WellPadded(t) && Partial(DigitsOf(t)) == 0 <==> exists b :: t == Encoded(b)
    ensures WellPadded(t) && Partial(DigitsOf(t)) == 0 ==> t == Encoded(Whole(DigitsOf(t)))
  {
    hide *;
    if WellPadded(t) && Partial(DigitsOf(t)) == 0 {
      AcceptedIsEncoding(t);
    }
    if b :| t == Encoded(b) {
      EncodedParts(b);
      WholeOfDigits(b);
    }
  }

  /** The parts of an encoding, as the decoder sees them. */
  lemma EncodedParts(b: seq<bv8>)
    ensures Lead(Encoded(b)) == |Digits(b)| && DigitsOf(Encoded(b)) == Digits(b) && WellPadded(Encoded(b))
  {
    hide Digits, DigitCount, Values, IsLetter, Letter;
    var d := Digits(b);
    ValuesOfLetters(d);
    PadIsNoLetter();
    Parts(Letters(d), Padding(|b|));
    DigitPlaces(|b|);
  }

  lemma DigitPlaces(n: nat)
    ensures DigitCount(n) % 4 == if n % 3 == 0 then 0 else n % 3 + 1
  {
  }

  lemma ValuesOfLetters(d: seq<bv8>)
    requires AreDigits(d)
    ensures AreLetters(Letters(d)) && Values(Letters(d)) == d
  {
    hide Value, Letter, IsLetter;
    forall i | 0 <= i < |d|
      ensures IsLetter(Letter(d[i])) && Value(Letter(d[i])) == d[i]
    {
      ValueOfLetter(d[i]);
    }
  }

  lemma PadIsNoLetter()
    ensures !IsLetter(PAD)
  {
  }

  lemma Parts(head: seq<bv8>, rest: seq<bv8>)
    requires AreLetters(head)
    requires rest == [] || !IsLetter(rest[0])
    ensures Lead(head + rest) == |head| && (head + rest)[|head|..] == rest && DigitsOf(head + rest) == Values(head)
  {
    LeadOf(head, rest);
    assert (head + rest)[..|head|] == head;
  }

  lemma {:induction false} LeadOf(head: seq<bv8>, tail: seq<bv8>)
    requires forall i :: 0 <= i < |head| ==> IsLetter(head[i])
    requires tail == [] || !IsLetter(tail[0])
    ensures Lead(head + tail) == |head|
  {
    if head == [] {
      assert head + tail == tail;
    } else {
      LeadOf(head[1..], tail);
      assert (head + tail)[1..] == head[1..] + tail;
    }
  }

  // ---- Round trip, canonicity, lengths ----

  /** The target holds the bytes, and one more if their encoding is padded. */
  predicate Holds(size: nat, b: seq<bv8>) {
    size >= |b| + if |b| % 3 == 0 then 0 else 1
  }

  /** Decoding the encoding of any byte string gives it back, and succeeds exactly when the target has a byte
      for each, and one more when the encoding is padded. */
  lemma RoundTrip(b: seq<bv8>, size: nat)
    ensures Clean(Encoded(b)) == Encoded(b) && IsText(Encoded(b))
    ensures Whole(DigitsOf(Encoded(b))) == b
    ensures Result(Encoded(b), size) == if Holds(size, b) then |b| else -1
  {
    hide Whole, Partial, Digits, Clean, Letter, Letters;
    EncodedParts(b);
    WholeOfDigits(b);
    EncodedPlain(b);
    CleanPlain(Encoded(b));
  }

  /** Encodings hold neither whitespace nor NUL. */
  lemma EncodedPlain(b: seq<bv8>)
    ensures forall i :: 0 <= i < |Encoded(b)| ==> !IsSpace(Encoded(b)[i]) && Encoded(b)[i] != 0
  {
    hide Digits;
  }

  lemma {:induction false} CleanPlain(t: seq<bv8>)
    requires forall i :: 0 <= i < |t| ==> !IsSpace(t[i])
    ensures Clean(t) == t
  {
    hide IsSpace;
    if t != [] {
      CleanPlain(t[1..]);
    }
  }

  /** Whatever text is accepted is, without its whitespace, the encoding of the result; and an encoding is
      accepted wherever it fits, however it is broken up by whitespace. */
  lemma Canonical(t: Text, size: nat)
    ensures Result(Clean(t), size) >= 0 <==>
      exists b :: Clean(t) == Encoded(b) && Holds(size, b)
    ensures Result(Clean(t), size) >= 0 ==> Clean(t) == Encoded(Whole(DigitsOf(Clean(t))))
  {
    hide Whole, Partial, Digits, Clean, Encoded, WellPadded, Room;
    AcceptsEncodings(Clean(t));
    if Result(Clean(t), size) >= 0 {
      RoundTrip(Whole(DigitsOf(Clean(t))), size);
    }
    if b :| Clean(t) == Encoded(b) && Holds(size, b) {
      RoundTrip(b, size);
    }
  }

  lemma EncodingInjective(a: seq<bv8>, b: seq<bv8>)
    requires Encoded(a) == Encoded(b)
    ensures a == b
  {
    RoundTrip(a, 0);
    RoundTrip(b, 0);
  }

  /** The length form returns what the full form returns, and where it returns r and the target has r + 1
      bytes, the full form returns r or fails because of stray bits only. */
  lemma LengthAgrees(t: seq<bv8>, size: nat)
    ensures Result(t, size) >= 0 ==> LengthResult(t) == Result(t, size)
    ensures LengthResult(t) >= 0 && size >= LengthResult(t) + 1 ==>
      Result(t, size) == if Partial(DigitsOf(t)) == 0 then LengthResult(t) else -1
  {
    hide Whole, Partial;
    WholeLength(DigitsOf(t));
  }

  // ---- The methods ----

  /** The character that a C string has at an index up to and including its length. */
  function At(src: Text, i: nat): (ch: bv8)
    requires i <= |src|
    ensures ch == 0 <==> i == |src|
  {
    if i < |src| then src[i] else 0
  }

  lemma CleanStep(src: Text, i: nat)
    requires i < |src|
    ensures Clean(src[i..]) == if IsSpace(src[i]) then Clean(src[i + 1..]) else [src[i]] + Clean(src[i + 1..])
  {
    assert src[i..][1..] == src[i + 1..];
  }

  /** Skips whitespace: `ch` is the first other character at or after `pos`, or NUL; `next` is behind it. */
  method SkipSpace(src: Text, rmap: array<bv8>, pos: nat) returns (ch: bv8, next: nat)
    requires Reverse(rmap) && pos <= |src|
    ensures ch == 0 ==> Clean(src[pos..]) == []
    ensures ch != 0 ==> next <= |src| && Clean(src[pos..]) == [ch] + Clean(src[next..])
  {
    hide Clean, Class, IsSpace, Reverse;
    ch, next := At(src, pos), pos + 1;
    while ch != 0
      invariant pos < next <= |src| + 1
      invariant ch == At(src, next - 1)
      invariant Clean(src[pos..]) == Clean(src[next - 1..])
      decreases |src| + 1 - next
    {
      CleanStep(src, next - 1);
      var ofs := Lookup(rmap, ch);
      ClassOf(ch);
      if ofs != SPACE {
        return;
      }
      ch, next := At(src, next), next + 1;
    }
    CleanNothing(src[next - 1..]);
  }

  lemma CleanNothing(t: seq<bv8>)
    requires t == []
    ensures Clean(t) == []
  {
  }

  lemma ClassOf(ch: bv8)
    ensures Class(ch) < SPECIAL <==> IsLetter(ch)
    ensures IsLetter(ch) ==> Class(ch) == Value(ch) < 64
    ensures Class(ch) == SPACE <==> IsSpace(ch)
    ensures Class(ch) == END <==> ch == 0 || ch == PAD
  {
  }

  /** The rest of `b64_pton_do` and `b64_pton_len` behind the first pad character. */
  method ReadPadding(src: Text, rmap: array<bv8>, pos: nat, state: nat) returns (ok: bool)
    requires Reverse(rmap) && pos <= |src|
    ensures ok <==> (state == 2 && Clean(src[pos..]) == [PAD]) || (state == 3 && Clean(src[pos..]) == [])
  {
    hide Clean, Reverse;
    if state < 2 || state > 3 {
      return false;
    }
    var ch, next := 0, pos;
    if state == 2 {
      ch, next := SkipSpace(src, rmap, pos);
      assert ch != 0 ==> Clean(src[pos..])[0] == ch;
      if ch != PAD {
        return false;
      }
    }
    ch, next := SkipSpace(src, rmap, next);
    ok := ch == 0;
  }

  /** Where the decoder stands after the digits d: the complete bytes, and the bits left over in the next. */
  ghost predicate Written(target: array<bv8>, tarindex: nat, state: nat, d: seq<bv8>)
    reads target
  {
    && state == |d| % 4 && Room(|d|) <= target.Length
    && tarindex == |Whole(d)| == |d| * 3 / 4
    && tarindex <= target.Length && target[..tarindex] == Whole(d)
    && (state != 0 ==> tarindex < target.Length && target[tarindex] == Partial(d))
  }

  /** One digit: its bits are merged into the target in place, if there is room. */
  method PutDigit(target: array<bv8>, tarindex: nat, state: nat, ofs: bv8, ghost d: seq<bv8>)
    returns (ok: bool, index: nat, next: nat)
    requires Written(target, tarindex, state, d)
    modifies target
    ensures ok <==> Room(|d| + 1) <= target.Length
    ensures ok ==> Written(target, index, next, d + [ofs])
  {
    hide Whole, Partial, Merge, Left, Room;
    index, next := tarindex, state;
    OneMore(d, ofs);
    Places(|d|);
    if state == 0 {
      if tarindex >= target.Length {
        return false, index, next;
      }
      target[tarindex] := Left(ofs, 0);
      next := 1;
    } else if state == 1 {
      if tarindex + 1 >= target.Length {
        return false, index, next;
      }
      target[tarindex] := Merge(target[tarindex], ofs, 1);
      target[tarindex + 1] := Left(ofs, 1);
      index := tarindex + 1;
      next := 2;
    } else if state == 2 {
      if tarindex + 1 >= target.Length {
        return false, index, next;
      }
      target[tarindex] := Merge(target[tarindex], ofs, 2);
      target[tarindex + 1] := Left(ofs, 2);
      index := tarindex + 1;
      next := 3;
    } else {
      if tarindex >= target.Length {
        return false, index, next;
      }
      target[tarindex] := Merge(target[tarindex], ofs, 3);
      index := tarindex + 1;
      next := 0;
    }
    ok := true;
  }

  lemma {:induction false} AtLeast(head: seq<bv8>, t: seq<bv8>)
    requires AreLetters(head) && head <= t
    ensures |head| <= Lead(t)
  {
    if head != [] {
      AtLeast(head[1..], t[1..]);
    }
  }

  lemma RoomGrows(m: nat, n: nat)
    requires m <= n
    ensures Room(m) <= Room(n) && Room(0) == 0
  {
  }

  lemma Regroup(head: seq<bv8>, ch: bv8, rest: seq<bv8>)
    ensures head + ([ch] + rest) == (head + [ch]) + rest && head + [ch] <= head + ([ch] + rest)
  {
    assert head + ([ch] + rest) == (head + [ch]) + rest;
  }

  /** A text is refused for a character that is neither letter nor pad, ... */
  lemma BadCharacter(head: seq<bv8>, ch: bv8, rest: seq<bv8>, size: nat)
    requires AreLetters(head) && !IsLetter(ch) && ch != PAD
    ensures Result(head + ([ch] + rest), size) == -1
  {
    hide IsLetter, Room, Partial, Whole, DigitsOf, Lead;
    Parts(head, [ch] + rest);
  }

  /** ... and for digits that the target has no room for. */
  lemma NoRoom(head: seq<bv8>, t: seq<bv8>, size: nat)
    requires AreLetters(head) && head <= t && Room(|head|) > size
    ensures Result(t, size) == -1
  {
    hide IsLetter, Room, Partial, Whole, DigitsOf, Lead, WellPadded;
    AtLeast(head, t);
    RoomGrows(|head|, Lead(t));
  }

  /** The first half of `b64_pton_do`, up to the end of the digits. */
  method ReadDigits(src: Text, rmap: array<bv8>, target: array<bv8>)
    returns (ok: bool, ch: bv8, pos: nat, tarindex: nat, state: nat, ghost head: seq<bv8>)
    requires Reverse(rmap) && rmap != target
    modifies target
    ensures !ok ==> Result(Clean(src), target.Length) == -1
    ensures ok ==> AreLetters(head) && Written(target, tarindex, state, Values(head))
    ensures ok && ch == PAD ==> pos <= |src| && Clean(src) == head + [PAD] + Clean(src[pos..])
    ensures ok && ch != PAD ==> Clean(src) == head
  {
    hide Clean, Reverse, Result, IsLetter, IsSpace, Class, Value, Room, Written, Values;
    hide Whole, Partial, Lead, DigitsOf, WellPadded, Letter, Quantum;
    state, tarindex, pos, ch := 0, 0, 0, 0;
    head := [];
    ghost var text := Clean(src);
    StartWritten(target);
    assert src[0..] == src;
    while true
      invariant pos <= |src|
      invariant AreLetters(head) && text == head + Clean(src[pos..])
      invariant Written(target, tarindex, state, Values(head))
      invariant Reverse(rmap)
      decreases |src| - pos
    {
      ch := At(src, pos);
      pos := pos + 1;
      var ofs := Lookup(rmap, ch);
      ClassOf(ch);
      if ch != 0 {
        CleanStep(src, pos - 1);
      }
      if ofs >= SPECIAL {
        if ofs == SPACE {
          continue;
        }
        if ofs == END {
          break;
        }
        BadCharacter(head, ch, Clean(src[pos..]), target.Length);
        ok := false;
        return;
      }
      MoreValues(head, ch);
      ok, tarindex, state := PutDigit(target, tarindex, state, ofs, Values(head));
      Regroup(head, ch, Clean(src[pos..]));
      head := head + [ch];
      if !ok {
        NoRoom(head, text, target.Length);
        return;
      }
    }
    ok := true;
    if ch != PAD {
      CleanNothing(src[pos - 1..]);
    }
  }

  lemma StartWritten(target: array<bv8>)
    ensures AreLetters([]) && Written(target, 0, 0, Values([]))
  {
  }

  lemma MoreValues(head: seq<bv8>, ch: bv8)
    requires AreLetters(head) && IsLetter(ch)
    ensures AreLetters(head + [ch]) && Values(head + [ch]) == Values(head) + [Value(ch)]
  {
    hide Value, IsLetter;
  }

  /** `b64_pton_do`: the bits of every digit go into the target in place; then the padding is checked, and
      that no bits are left over. */
  method Decode(src: Text, rmap: array<bv8>, target: array<bv8>) returns (r: int)
    requires Reverse(rmap) && rmap != target
    modifies target
    ensures r == Result(Clean(src), target.Length)
    ensures r >= 0 ==> r <= target.Length && target[..r] == Whole(DigitsOf(Clean(src)))
  {
    hide Clean, Reverse, Whole, Partial, Lead, DigitsOf, IsLetter, Value, Room, Values;
    var ok, ch, pos, tarindex, state;
    ghost var head;
    ok, ch, pos, tarindex, state, head := ReadDigits(src, rmap, target);
    if !ok {
      return -1;
    }
    if ch == PAD {
      PadIsNoLetter();
      Parts(head, [PAD] + Clean(src[pos..]));
      assert head + [PAD] + Clean(src[pos..]) == head + ([PAD] + Clean(src[pos..]));
      assert ([PAD] + Clean(src[pos..]))[1..] == Clean(src[pos..]);
      var padded := ReadPadding(src, rmap, pos, state);
      if !padded || target[tarindex] != 0 {
        return -1;
      }
    } else {
      Parts(head, []);
      assert head + [] == head;
      EvenPartial(Values(head));
      if state != 0 {
        return -1;
      }
    }
    r := tarindex;
  }

  /** `b64_pton_len`: the same without a target. */
  method DecodedLength(src: Text, rmap: array<bv8>) returns (r: int)
    requires Reverse(rmap)
    ensures r == LengthResult(Clean(src))
  {
    hide Clean, Reverse, Lead, DigitsOf, IsLetter, IsSpace, Class, Value;
    var state, tarindex, pos, ch := 0, 0, 0, 0;
    ghost var head: seq<bv8>, text := [], Clean(src);
    assert src[0..] == src;
    while true
      invariant pos <= |src|
      invariant AreLetters(head) && text == head + Clean(src[pos..])
      invariant state == |head| % 4 && tarindex == |head| * 3 / 4
      decreases |src| - pos
    {
      ch := At(src, pos);
      pos := pos + 1;
      var ofs := Lookup(rmap, ch);
      ClassOf(ch);
      if ch != 0 {
        CleanStep(src, pos - 1);
      }
      if ofs >= SPECIAL {
        if ofs == SPACE {
          continue;
        }
        if ofs == END {
          break;
        }
        Parts(head, [ch] + Clean(src[pos..]));
        return -1;
      }
      Places(|head|);
      match state {
        case 0 =>
          state := 1;
        case 1 =>
          tarindex := tarindex + 1;
          state := 2;
        case 2 =>
          tarindex := tarindex + 1;
          state := 3;
        case _ =>
          tarindex := tarindex + 1;
          state := 0;
      }
      head := head + [ch];
    }
    if ch == PAD {
      Parts(head, [PAD] + Clean(src[pos..]));
      assert ([PAD] + Clean(src[pos..]))[1..] == Clean(src[pos..]);
      var padded := ReadPadding(src, rmap, pos, state);
      if !padded {
        return -1;
      }
    } else {
      CleanNothing(src[pos - 1..]);
      Parts(head, []);
      if state != 0 {
        return -1;
      }
    }
    r := tarindex;
  }

  // ---- b64_pton ----

  /** The reverse map and whether it has been filled. */
  class Decoder {
    var rmap: array<bv8>
    var initialized: bool

    ghost predicate Valid()
      reads this, rmap
    {
      rmap.Length == 256 && (initialized ==> Reverse(rmap))
    }

    constructor ()
      ensures Valid() && fresh(rmap) && !initialized
    {
      rmap := new bv8[256](i => 0);
      initialized := false;
    }

    /** `b64_pton`: a text is accepted if and only if, without its whitespace, it is the encoding of bytes that
        the target holds, and those bytes are then in the target. Without a target the length is returned, of
        any well-padded text. */
    method Pton(src: Text, target: array?<bv8>) returns (r: int)
      requires Valid() && rmap != target
      modifies this`initialized, rmap, target
      ensures Valid() && initialized
      ensures target != null ==>
        (r >= 0 <==> exists b :: Clean(src) == Encoded(b) && Holds(target.Length, b))
      ensures target != null && r >= 0 ==> r <= target.Length && Clean(src) == Encoded(target[..r])
      ensures target == null ==> r == LengthResult(Clean(src))
      ensures target != null && r >= 0 ==> r == LengthResult(Clean(src))
    {
      hide Clean, Encoded, Whole, DigitsOf, LengthResult, Result, Reverse;
      if !initialized {
        InitializeReverseMap(rmap);
        initialized := true;
      }
      if target != null {
        r := Decode(src, rmap, target);
        Canonical(src, target.Length);
        LengthAgrees(Clean(src), target.Length);
      } else {
        r := DecodedLength(src, rmap);
      }
    }
  }
}
