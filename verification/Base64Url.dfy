/** Base64 with the URL alphabet and no padding, as section 5 of RFC 4648 and Go's decoder have it. */
module Base64Url {
  import opened Common

  type Sextet = v: nat | v < 64

  // ---- the alphabet ---------------------------------------------------------------------------

  function Letter(v: Sextet): char {
    if v < 26 then ('A' as int + v) as char
    else if v < 52 then ('a' as int + (v - 26)) as char
    else if v < 62 then ('0' as int + (v - 52)) as char
    else if v == 62 then '-' else '_'
  }

  function Value(c: char): Option<Sextet> {
    if 'A' <= c <= 'Z' then Some(c as int - 'A' as int)
    else if 'a' <= c <= 'z' then Some(c as int - 'a' as int + 26)
    else if '0' <= c <= '9' then Some(c as int - '0' as int + 52)
    else if c == '-' then Some(62)
    else if c == '_' then Some(63) else None
  }

  predicate InAlphabet(s: string) {
    forall i :: 0 <= i < |s| ==> Value(s[i]).Some?
  }

  function Letters(v: seq<Sextet>): (s: string)
    ensures |s| == |v|
  {
    if v == [] then [] else [Letter(v[0])] + Letters(v[1..])
  }

  /** The six-bit values of the letters; line breaks are skipped, anything else is an error. */
  function Values(s: string): Option<seq<Sextet>> {
    if s == [] then Some([])
    else if s[0] == '\r' || s[0] == '\n' then Values(s[1..])
    else
      match (Value(s[0]), Values(s[1..]))
      case (Some(v), Some(others)) => Some([v] + others)
      case _ => None
  }

  lemma LetterRoundTrip(v: Sextet)
    ensures Value(Letter(v)) == Some(v)
  {
  }

  lemma ValueRoundTrip(c: char)
    requires Value(c).Some?
    ensures Letter(Value(c).value) == c
  {
  }

  lemma {:induction false} ValuesOfLetters(v: seq<Sextet>)
    ensures Values(Letters(v)) == Some(v) && InAlphabet(Letters(v))
  {
    if v != [] {
      LetterRoundTrip(v[0]);
      ValuesOfLetters(v[1..]);
      assert Letters(v)[1..] == Letters(v[1..]);
      assert [v[0]] + v[1..] == v;
    }
  }

  lemma {:induction false} LettersOfValues(s: string)
    requires InAlphabet(s)
    ensures Values(s).Some? && |Values(s).value| == |s| && Letters(Values(s).value) == s
  {
    if s != [] {
      ValueRoundTrip(s[0]);
      LettersOfValues(s[1..]);
      assert ([Value(s[0]).value] + Values(s[1..]).value)[1..] == Values(s[1..]).value;
    }
  }

  // ---- three bytes and four six-bit values ---------------------------------------------------------

  datatype Group = One(a: Byte) | Two(a: Byte, b: Byte) | Three(a: Byte, b: Byte, c: Byte)

  datatype Quantum =
    | Pair(w: Sextet, x: Sextet)
    | Triple(w: Sextet, x: Sextet, y: Sextet)
    | Full(w: Sextet, x: Sextet, y: Sextet, z: Sextet)

  function ToQuantum(g: Group): Quantum {
    match g
    case One(a) => Pair(a / 4, a % 4 * 16)
    case Two(a, b) => Triple(a / 4, a % 4 * 16 + b / 16, b % 16 * 4)
    case Three(a, b, c) => Full(a / 4, a % 4 * 16 + b / 16, b % 16 * 4 + c / 64, c % 64)
  }

  /** Bits that do not fill a byte are dropped. */
  function ToGroup(q: Quantum): Group {
    match q
    case Pair(w, x) => One(w * 4 + x / 16)
    case Triple(w, x, y) => Two(w * 4 + x / 16, x % 16 * 16 + y / 4)
    case Full(w, x, y, z) => Three(w * 4 + x / 16, x % 16 * 16 + y / 4, y % 4 * 64 + z)
  }

  predicate NoLooseBits(q: Quantum) {
    match q
    case Pair(_, x) => x % 16 == 0
    case Triple(_, _, y) => y % 4 == 0
    case Full(_, _, _, _) => true
  }

  lemma SplitInFour(a: Byte, b: Byte)
    ensures (a % 4 * 16 + b / 16) / 16 == a % 4 && (a % 4 * 16 + b / 16) % 16 == b / 16
    ensures a % 4 * 16 / 16 == a % 4 && a / 4 * 4 + a % 4 == a
  {
  }

  lemma SplitInSixteen(b: Byte, c: Byte)
    ensures (b % 16 * 4 + c / 64) / 4 == b % 16 && (b % 16 * 4 + c / 64) % 4 == c / 64
    ensures b % 16 * 4 / 4 == b % 16 && b / 16 * 16 + b % 16 == b && c / 64 * 64 + c % 64 == c
  {
  }

  lemma GroupBack(g: Group)
    ensures ToGroup(ToQuantum(g)) == g
  {
    match g {
      case One(a) =>
        SplitInFour(a, 0);
      case Two(a, b) =>
        SplitInFour(a, b);
        SplitInSixteen(b, 0);
      case Three(a, b, c) =>
        SplitInFour(a, b);
        SplitInSixteen(b, c);
    }
  }

  lemma QuantumBack(q: Quantum)
    ensures ToQuantum(ToGroup(q)) == q <==> NoLooseBits(q)
  {
    match q {
      case Pair(w, x) =>
        HighBits(w, x);
      case Triple(w, x, y) =>
        HighBits(w, x);
        MiddleBits(x, y);
      case Full(w, x, y, z) =>
        HighBits(w, x);
        MiddleBits(x, y);
        LowBits(y, z);
    }
  }

  lemma HighBits(w: Sextet, x: Sextet)
    ensures (w * 4 + x / 16) / 4 == w && (w * 4 + x / 16) % 4 == x / 16
  {
  }

  lemma MiddleBits(x: Sextet, y: Sextet)
    ensures (x % 16 * 16 + y / 4) / 16 == x % 16 && (x % 16 * 16 + y / 4) % 16 == y / 4
  {
  }

  lemma LowBits(y: Sextet, z: Sextet)
    ensures (y % 4 * 64 + z) / 64 == y % 4 && (y % 4 * 64 + z) % 64 == z
  {
  }

  function ToQuanta(gs: seq<Group>): (qs: seq<Quantum>)
    ensures |qs| == |gs|
  {
    seq(|gs|, i requires 0 <= i < |gs| => ToQuantum(gs[i]))
  }

  function ToGroups(qs: seq<Quantum>): (gs: seq<Group>)
    ensures |gs| == |qs|
  {
    seq(|qs|, i requires 0 <= i < |qs| => ToGroup(qs[i]))
  }

  lemma GroupsBack(gs: seq<Group>)
    ensures ToGroups(ToQuanta(gs)) == gs
  {
    forall i | 0 <= i < |gs|
      ensures ToGroups(ToQuanta(gs))[i] == gs[i]
    {
      GroupBack(gs[i]);
    }
  }

  // ---- grouping -----------------------------------------------------------------------------------

  function Groups(b: seq<Byte>): seq<Group> {
    if b == [] then []
    else if |b| == 1 then [One(b[0])]
    else if |b| == 2 then [Two(b[0], b[1])]
    else [Three(b[0], b[1], b[2])] + Groups(b[3..])
  }

  function BytesOf(g: Group): seq<Byte> {
    match g
    case One(a) => [a]
    case Two(a, b) => [a, b]
    case Three(a, b, c) => [a, b, c]
  }

  function Bytes(gs: seq<Group>): seq<Byte> {
    if gs == [] then [] else BytesOf(gs[0]) + Bytes(gs[1..])
  }

  /** A lone value at the end is an error. */
  function Quanta(v: seq<Sextet>): Option<seq<Quantum>> {
    if v == [] then Some([])
    else if |v| == 1 then None
    else if |v| == 2 then Some([Pair(v[0], v[1])])
    else if |v| == 3 then Some([Triple(v[0], v[1], v[2])])
    else
      match Quanta(v[4..])
      case None => None
      case Some(others) => Some([Full(v[0], v[1], v[2], v[3])] + others)
  }

  function SextetsOf(q: Quantum): seq<Sextet> {
    match q
    case Pair(w, x) => [w, x]
    case Triple(w, x, y) => [w, x, y]
    case Full(w, x, y, z) => [w, x, y, z]
  }

  function Sextets(qs: seq<Quantum>): seq<Sextet> {
    if qs == [] then [] else SextetsOf(qs[0]) + Sextets(qs[1..])
  }

  /** Only the last group, or quantum, may be short. */
  predicate RegularGroups(gs: seq<Group>) {
    forall i :: 0 <= i < |gs| - 1 ==> gs[i].Three?
  }

  predicate RegularQuanta(qs: seq<Quantum>) {
    forall i :: 0 <= i < |qs| - 1 ==> qs[i].Full?
  }

  lemma {:induction false} BytesOfGroups(b: seq<Byte>)
    ensures Bytes(Groups(b)) == b && RegularGroups(Groups(b))
  {
    if |b| >= 3 {
      BytesOfGroups(b[3..]);
      assert Groups(b)[1..] == Groups(b[3..]);
      assert [b[0], b[1], b[2]] + b[3..] == b;
    }
  }

  lemma {:induction false} GroupsOfBytes(gs: seq<Group>)
    requires RegularGroups(gs)
    ensures Groups(Bytes(gs)) == gs
  {
    if gs != [] {
      GroupsOfBytes(gs[1..]);
      var b := Bytes(gs);
      if gs[0].Three? {
        assert b[3..] == Bytes(gs[1..]);
      } else {
        assert gs[1..] == [] && b == BytesOf(gs[0]);
      }
      assert gs == [gs[0]] + gs[1..];
    }
  }

  lemma FullFirst(q: Quantum, v: seq<Sextet>)
    requires q.Full?
    ensures Quanta(SextetsOf(q) + v) == if Quanta(v).None? then None else Some([q] + Quanta(v).value)
  {
    assert (SextetsOf(q) + v)[4..] == v;
  }

  lemma ShortAlone(q: Quantum)
    requires !q.Full?
    ensures Quanta(SextetsOf(q)) == Some([q])
  {
  }

  lemma {:induction false} QuantaOfSextets(qs: seq<Quantum>)
    requires RegularQuanta(qs)
    ensures Quanta(Sextets(qs)) == Some(qs)
  {
    if qs != [] {
      QuantaOfSextets(qs[1..]);
      assert qs == [qs[0]] + qs[1..];
      if qs[0].Full? {
        FullFirst(qs[0], Sextets(qs[1..]));
      } else {
        assert qs[1..] == [] && qs == [qs[0]] && Sextets(qs) == SextetsOf(qs[0]);
        ShortAlone(qs[0]);
      }
    }
  }

  lemma {:induction false} SextetsOfQuanta(v: seq<Sextet>)
    ensures Quanta(v).Some? <==> |v| % 4 != 1
    ensures Quanta(v).Some? ==> RegularQuanta(Quanta(v).value) && Sextets(Quanta(v).value) == v
    decreases |v|
  {
    if |v| >= 4 {
      SextetsOfQuanta(v[4..]);
      if Quanta(v[4..]).Some? {
        var q := Full(v[0], v[1], v[2], v[3]);
        assert ([q] + Quanta(v[4..]).value)[1..] == Quanta(v[4..]).value;
        assert [v[0], v[1], v[2], v[3]] + v[4..] == v;
      }
    }
  }

  // ---- the codec ------------------------------------------------------------------------------------

  function Encode(b: seq<Byte>): string {
    Letters(Sextets(ToQuanta(Groups(b))))
  }

  function Decode(s: string): Option<seq<Byte>> {
    match Values(s)
    case None => None
    case Some(v) =>
      match Quanta(v)
      case None => None
      case Some(qs) => Some(Bytes(ToGroups(qs)))
  }

  lemma NoDots(s: string)
    requires InAlphabet(s)
    ensures '.' !in s
  {
  }

  /** Decoding inverts encoding, whatever the bytes; and nothing but letters is written. */
  lemma DecodeOfEncode(b: seq<Byte>)
    ensures Decode(Encode(b)) == Some(b)
    ensures InAlphabet(Encode(b)) && '.' !in Encode(b)
  {
    var gs := Groups(b);
    BytesOfGroups(b);
    GroupsBack(gs);
    QuantaOfSextets(ToQuanta(gs));
    ValuesOfLetters(Sextets(ToQuanta(gs)));
    NoDots(Encode(b));
  }

  predicate Canonical(s: string) {
    match Values(s)
    case None => false
    case Some(v) =>
      match Quanta(v)
      case None => false
      case Some(qs) => forall i :: 0 <= i < |qs| ==> NoLooseBits(qs[i])
  }

  /**
   * A string over the alphabet decodes unless one letter is left over, and encodes back to itself
   * exactly when its last letter carries no loose bits; other strings decode to the same bytes.
   */
  lemma EncodeOfDecode(s: string)
    requires InAlphabet(s)
    ensures Decode(s).Some? <==> |s| % 4 != 1
    ensures Decode(s).Some? ==> (Encode(Decode(s).value) == s <==> Canonical(s))
  {
    LettersOfValues(s);
    var v := Values(s).value;
    SextetsOfQuanta(v);
    if Decode(s).Some? {
      var qs := Quanta(v).value;
      var gs := ToGroups(qs);
      assert RegularGroups(gs);
      GroupsOfBytes(gs);
      BackFromGroups(qs);
      QuantaOfSextets(ToQuanta(gs));
      ValuesOfLetters(Sextets(ToQuanta(gs)));
    }
  }

  lemma BackFromGroups(qs: seq<Quantum>)
    requires RegularQuanta(qs)
    ensures RegularQuanta(ToQuanta(ToGroups(qs)))
    ensures ToQuanta(ToGroups(qs)) == qs <==> forall i :: 0 <= i < |qs| ==> NoLooseBits(qs[i])
  {
    var rs := ToQuanta(ToGroups(qs));
    forall i | 0 <= i < |qs|
      ensures rs[i] == qs[i] <==> NoLooseBits(qs[i])
    {
      QuantumBack(qs[i]);
    }
  }

  // ---- the letters one by one -----------------------------------------------------------------------

  const UPPER := "ABCDEFGHIJKLMNOPQRSTUVWXYZ"
  const LOWER := "abcdefghijklmnopqrstuvwxyz"
  const DIGITS := "0123456789"

  /** Table 2 of RFC 4648. */
  const ALPHABET := UPPER + LOWER + DIGITS + "-_"

  lemma UpperLetter(v: Sextet)
    requires v < 26
    ensures Letter(v) == UPPER[v]
  {
  }

  lemma LowerLetter(v: Sextet)
    requires 26 <= v < 52
    ensures Letter(v) == LOWER[v - 26]
  {
  }

  lemma LetterOfTheTable(v: Sextet)
    ensures |ALPHABET| == 64 && Letter(v) == ALPHABET[v]
  {
    if v < 26 {
      UpperLetter(v);
    } else if v < 52 {
      LowerLetter(v);
    }
  }

  /** Of the 16 bits of two bytes the six that start at bit 0, 6, 4 or 2, the highest being bit 0. */
  function SixOf(a: Byte, b: Byte, phase: nat): Sextet
    requires phase < 4
  {
    var two: nat := a * 256 + b;
    (match phase case 0 => two / 1024 case 1 => two / 16 case 2 => two / 64 case _ => two / 256) % 64
  }

  function ByteAt(b: seq<Byte>, i: nat): Byte {
    if i < |b| then b[i] else 0
  }

  /** The six bits of `b` from bit 6k on, the first being the highest of the first byte; after the last come zeros. */
  function SixBits(b: seq<Byte>, k: nat): Sextet {
    SixOf(ByteAt(b, 3 * k / 4), ByteAt(b, 3 * k / 4 + 1), k % 4)
  }

  lemma HighestSix(a: Byte, b: Byte)
    ensures SixOf(a, b, 0) == a / 4
  {
    assert a * 256 + b == a / 4 * 1024 + (a % 4 * 256 + b);
  }

  lemma DropRest(x: nat, rest: nat)
    ensures rest < 16 ==> (x * 16 + rest) / 16 == x
    ensures rest < 64 ==> (x * 64 + rest) / 64 == x
  {
  }

  lemma SixAbove(high: nat, six: nat, rest: nat, two: nat)
    requires six < 64
    ensures rest < 16 && two == (64 * high + six) * 16 + rest ==> two / 16 % 64 == six
    ensures rest < 64 && two == (64 * high + six) * 64 + rest ==> two / 64 % 64 == six
  {
    DropRest(64 * high + six, rest);
    assert (64 * high + six) % 64 == six;
  }

  lemma SixFromBitSix(a: Byte, b: Byte)
    ensures SixOf(a, b, 1) == a % 4 * 16 + b / 16
  {
    SixAbove(a / 4, a % 4 * 16 + b / 16, b % 16, a * 256 + b);
  }

  lemma SixFromBitFour(a: Byte, b: Byte)
    ensures SixOf(a, b, 2) == a % 16 * 4 + b / 64
  {
    SixAbove(a / 16, a % 16 * 4 + b / 64, b % 64, a * 256 + b);
  }

  lemma FirstSixBits(b: seq<Byte>)
    ensures SixBits(b, 0) == ByteAt(b, 0) / 4
    ensures SixBits(b, 1) == ByteAt(b, 0) % 4 * 16 + ByteAt(b, 1) / 16
    ensures SixBits(b, 2) == ByteAt(b, 1) % 16 * 4 + ByteAt(b, 2) / 64
    ensures SixBits(b, 3) == ByteAt(b, 2) % 64
  {
    HighestSix(ByteAt(b, 0), ByteAt(b, 1));
    SixFromBitSix(ByteAt(b, 0), ByteAt(b, 1));
    SixFromBitFour(ByteAt(b, 1), ByteAt(b, 2));
  }

  /** The letters of the first group. */
  lemma FirstLetters(b: seq<Byte>, k: nat)
    requires b != [] && k < |SextetsOf(ToQuantum(Groups(b)[0]))|
    ensures k < 4 && SextetsOf(ToQuantum(Groups(b)[0]))[k] == SixBits(b, k)
  {
    FirstSixBits(b);
    assert k == 0 || k == 1 || k == 2 || k == 3;
  }

  lemma GroupByGroup(b: seq<Byte>)
    requires |b| >= 3
    ensures Sextets(ToQuanta(Groups(b)))
            == SextetsOf(ToQuantum(Groups(b)[0])) + Sextets(ToQuanta(Groups(b[3..])))
    ensures |SextetsOf(ToQuantum(Groups(b)[0]))| == 4
  {
    assert Groups(b)[1..] == Groups(b[3..]);
    assert ToQuanta(Groups(b))[1..] == ToQuanta(Groups(b[3..]));
  }

  lemma BitsMoveOn(b: seq<Byte>, k: nat)
    requires |b| >= 3 && k >= 4
    ensures SixBits(b, k) == SixBits(b[3..], k - 4)
  {
    assert 3 * k / 4 == 3 * (k - 4) / 4 + 3 && k % 4 == (k - 4) % 4;
  }

  lemma {:induction false} SextetIsSixBits(b: seq<Byte>, k: nat)
    requires k < |Sextets(ToQuanta(Groups(b)))|
    ensures Sextets(ToQuanta(Groups(b)))[k] == SixBits(b, k)
    decreases k
  {
    if |b| >= 3 {
      GroupByGroup(b);
    }
    if |b| >= 3 && k >= 4 {
      SextetIsSixBits(b[3..], k - 4);
      BitsMoveOn(b, k);
    } else {
      FirstLetters(b, k);
    }
  }

  lemma {:induction false} LetterAt(v: seq<Sextet>, k: nat)
    requires k < |v|
    ensures Letters(v)[k] == Letter(v[k])
  {
    if k > 0 {
      LetterAt(v[1..], k - 1);
    }
  }

  lemma {:induction false} LengthOfEncoding(b: seq<Byte>)
    ensures |Encode(b)| == (4 * |b| + 2) / 3
  {
    if |b| >= 3 {
      GroupByGroup(b);
      LengthOfEncoding(b[3..]);
    } else if b != [] {
      assert Sextets(ToQuanta(Groups(b))) == SextetsOf(ToQuantum(Groups(b)[0]));
    }
  }

  /** The encoding is the bits of the bytes, six at a time, each six as the letter of the table. */
  lemma EncodeIsTheStandard(b: seq<Byte>, k: nat)
    requires k < |Encode(b)|
    ensures |Encode(b)| == (4 * |b| + 2) / 3
    ensures Encode(b)[k] == ALPHABET[SixBits(b, k)]
  {
    LengthOfEncoding(b);
    var v := Sextets(ToQuanta(Groups(b)));
    SextetIsSixBits(b, k);
    LetterAt(v, k);
    LetterOfTheTable(v[k]);
  }

  // ---- any text --------------------------------------------------------------------------------------

  predicate IsBreak(c: char) {
    c == '\r' || c == '\n'
  }

  function Unbroken(s: string): string {
    if s == [] then [] else (if IsBreak(s[0]) then [] else [s[0]]) + Unbroken(s[1..])
  }

  lemma LetterInFront(c: char, s: string)
    ensures InAlphabet([c] + s) <==> Value(c).Some? && InAlphabet(s)
  {
    var t := [c] + s;
    assert t[0] == c && forall i :: 0 <= i < |s| ==> t[i + 1] == s[i];
    if InAlphabet(t) {
      assert forall i :: 0 <= i < |s| ==> Value(s[i]) == Value(t[i + 1]);
    }
  }

  lemma {:induction false} ValuesOfUnbroken(s: string)
    ensures Values(s) == Values(Unbroken(s))
    ensures Values(s).Some? <==> InAlphabet(Unbroken(s))
  {
    if s != [] {
      var rest := Unbroken(s[1..]);
      ValuesOfUnbroken(s[1..]);
      if !IsBreak(s[0]) {
        assert Unbroken(s) == [s[0]] + rest && Unbroken(s)[1..] == rest;
        LetterInFront(s[0], rest);
      } else {
        assert Unbroken(s) == rest;
      }
    }
  }

  /** Of any text the line breaks do not matter; without them it decodes iff it is letters and none is left over. */
  lemma AnyTextDecodes(s: string)
    ensures Decode(s) == Decode(Unbroken(s))
    ensures Decode(s).Some? <==> InAlphabet(Unbroken(s)) && |Unbroken(s)| % 4 != 1
  {
    ValuesOfUnbroken(s);
    if InAlphabet(Unbroken(s)) {
      EncodeOfDecode(Unbroken(s));
    }
  }
}
