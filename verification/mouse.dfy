/** Mouse reports in the three encodings a terminal may use: printing, parsing and round trips. */
module Mouse {
  import opened Prelude

  const MAX_MOUSE_SEQUENCE := 64
  const SGR_PREFIX: seq<u8> := [0x1b, '[' as u8, '<' as u8]
  const LEGACY_PREFIX: seq<u8> := [0x1b, '[' as u8, 'M' as u8]

  datatype MouseEvent = MouseEvent(code: u16, x: u16, y: u16, release: bool)

  datatype Format = Sgr | LegacyDefault | LegacyUtf8 | LegacySgr

  datatype Sequence = Complete(length: nat, event: MouseEvent) | Partial | Invalid

  // ---- decimal numbers

  const ZERO: u8 := '0' as u8

  function Digits(n: nat): (d: seq<u8>)
    ensures d != [] && forall i :: 0 <= i < |d| ==> IsDigit(d[i])
  {
    if n < 10 then [ZERO + n] else Digits(n / 10) + [ZERO + n % 10]
  }

  predicate IsDigit(b: u8) {
    '0' as u8 <= b <= '9' as u8
  }

  /** Decimal digits after `acc`, refusing anything that does not fit in 16 bits. */
  function DigitsValue(s: seq<u8>, acc: u16): Option<u16> {
    if s == [] then Some(acc)
    else if !IsDigit(s[0]) || acc * 10 + (s[0] - ZERO) >= TWO_16 then None
    else DigitsValue(s[1..], acc * 10 + (s[0] - ZERO))
  }

  /** The standard parser of a 16-bit number: an optional plus sign and at least one digit. */
  function ParseU16(s: seq<u8>): Option<u16> {
    if s == [] then None
    else if s[0] == '+' as u8 then (if |s| == 1 then None else DigitsValue(s[1..], 0))
    else DigitsValue(s, 0)
  }

  lemma {:induction false} DigitsValueConcat(a: seq<u8>, b: seq<u8>, acc: u16)
    ensures DigitsValue(a + b, acc) == if DigitsValue(a, acc).Some? then DigitsValue(b, DigitsValue(a, acc).value)
            else None
  {
    if a == [] {
      assert a + b == b;
    } else {
      assert (a + b)[1..] == a[1..] + b;
      if IsDigit(a[0]) && acc * 10 + (a[0] - ZERO) < TWO_16 {
        DigitsValueConcat(a[1..], b, acc * 10 + (a[0] - ZERO));
      }
    }
  }

  /** The number that digits stand for, read from the right. */
  function Number(s: seq<u8>): int {
    if s == [] then 0 else Number(s[..|s| - 1]) * 10 + (s[|s| - 1] - ZERO)
  }

  lemma {:induction false} DigitsValueExactly(s: seq<u8>)
    ensures DigitsValue(s, 0).Some? <==> (forall i :: 0 <= i < |s| ==> IsDigit(s[i])) && Number(s) < TWO_16
    ensures DigitsValue(s, 0).Some? ==> DigitsValue(s, 0).value == Number(s) >= 0
    ensures (forall i :: 0 <= i < |s| ==> IsDigit(s[i])) ==> Number(s) >= 0
  {
    if s != [] {
      var front, last := s[..|s| - 1], s[|s| - 1];
      DigitsValueExactly(front);
      assert s == front + [last];
      DigitsValueConcat(front, [last], 0);
      assert [last][1..] == [] && [last][0] == last;
      assert forall i :: 0 <= i < |front| ==> s[i] == front[i];
    }
  }

  /** Read are exactly the digits of a 16-bit number, with leading zeros and one plus sign if they come. */
  lemma ParsesExactly(s: seq<u8>)
    ensures var digits := if s != [] && s[0] == '+' as u8 then s[1..] else s;
            && (ParseU16(s).Some? <==>
                  digits != [] && (forall i :: 0 <= i < |digits| ==> IsDigit(digits[i])) && Number(digits) < TWO_16)
            && (ParseU16(s).Some? ==> ParseU16(s).value == Number(digits))
  {
    DigitsValueExactly(s);
    if s != [] {
      DigitsValueExactly(s[1..]);
    }
  }

  lemma {:induction false} DigitsRoundTrip(n: u16)
    ensures ParseU16(Digits(n)) == Some(n) == DigitsValue(Digits(n), 0)
    ensures |Digits(n)| <= 5
  {
    DigitsLength(n, 5);
    if n >= 10 {
      DigitsRoundTrip(n / 10);
      DigitsValueConcat(Digits(n / 10), [ZERO + n % 10], 0);
      assert [ZERO + n % 10][1..] == [];
    } else {
      assert Digits(n) == [ZERO + n] && Digits(n)[1..] == [];
      assert DigitsValue(Digits(n)[1..], n) == Some(n);
    }
    assert IsDigit(Digits(n)[0]);
  }

  function Pow10(k: nat): nat {
    if k == 0 then 1 else 10 * Pow10(k - 1)
  }

  lemma {:induction false} DigitsLength(n: nat, k: nat)
    requires n < Pow10(k) && k > 0
    ensures |Digits(n)| <= k
  {
    if n >= 10 {
      DigitsLength(n / 10, k - 1);
    }
  }

  // ---- SGR reports

  function EncodeSgr(e: MouseEvent): seq<u8> {
    SGR_PREFIX + Digits(e.code) + [';' as u8] + Digits(e.x) + [';' as u8] + Digits(e.y)
    + [if e.release then 'm' as u8 else 'M' as u8]
  }

  predicate Terminator(b: u8) {
    b == 'M' as u8 || b == 'm' as u8
  }

  /** The index of the first terminator among the first `limit` bytes. */
  function FirstTerminator(bytes: seq<u8>, limit: nat): (r: Option<nat>)
    ensures r.Some? ==> r.value < |bytes| && r.value < limit && Terminator(bytes[r.value])
  {
    if bytes == [] || limit == 0 then None
    else if Terminator(bytes[0]) then Some(0)
    else
      match FirstTerminator(bytes[1..], limit - 1)
      case None => None
      case Some(i) => Some(i + 1)
  }

  function Split(s: seq<u8>): seq<seq<u8>> {
    match FirstSemicolon(s)
    case None => [s]
    case Some(i) => [s[..i]] + Split(s[i + 1..])
  }

  function FirstSemicolon(s: seq<u8>): (r: Option<nat>)
    ensures r.Some? ==> r.value < |s|
  {
    if s == [] then None
    else if s[0] == ';' as u8 then Some(0)
    else
      match FirstSemicolon(s[1..])
      case None => None
      case Some(i) => Some(i + 1)
  }

  function SgrSequence(bytes: seq<u8>): Sequence
    requires SGR_PREFIX <= bytes
  {
    match FirstTerminator(bytes, MAX_MOUSE_SEQUENCE)
    case None => if |bytes| < MAX_MOUSE_SEQUENCE then Partial else Invalid
    case Some(end) =>
      NoEarlyTerminator(bytes);
      var fields := Split(bytes[3..end]);
      if |fields| != 3 || ParseU16(fields[0]).None? || ParseU16(fields[1]).None? || ParseU16(fields[2]).None?
        then Invalid
      else Complete(end + 1, MouseEvent(ParseU16(fields[0]).value, ParseU16(fields[1]).value, ParseU16(fields[2]).value,
                                        bytes[end] == 'm' as u8))
  }

  lemma NoEarlyTerminator(bytes: seq<u8>)
    requires SGR_PREFIX <= bytes
    ensures FirstTerminator(bytes, MAX_MOUSE_SEQUENCE).Some? ==> FirstTerminator(bytes, MAX_MOUSE_SEQUENCE).value >= 3
  {
    assert bytes[0] == SGR_PREFIX[0] && bytes[1] == SGR_PREFIX[1] && bytes[2] == SGR_PREFIX[2];
    assert bytes[1..][1..] == bytes[2..] && bytes[1..][0] == bytes[1] && bytes[2..][0] == bytes[2];
  }

  lemma {:induction false} TerminatorIs(bytes: seq<u8>, limit: nat, i: nat)
    requires i < |bytes| && i < limit && Terminator(bytes[i])
    requires forall j :: 0 <= j < i ==> !Terminator(bytes[j])
    ensures FirstTerminator(bytes, limit) == Some(i)
  {
    if i > 0 {
      TerminatorIs(bytes[1..], limit - 1, i - 1);
    }
  }

  lemma {:induction false} NoTerminator(bytes: seq<u8>, limit: nat)
    requires forall j :: 0 <= j < |bytes| ==> !Terminator(bytes[j])
    ensures FirstTerminator(bytes, limit) == None
  {
    if bytes != [] && limit > 0 {
      NoTerminator(bytes[1..], limit - 1);
    }
  }

  lemma {:induction false} SemicolonIs(a: seq<u8>, b: seq<u8>)
    requires FreeOfSemicolons(a)
    ensures FirstSemicolon(a) == None
    ensures FirstSemicolon(a + [';' as u8] + b) == Some(|a|)
  {
    if a != [] {
      SemicolonIs(a[1..], b);
      assert (a + [';' as u8] + b)[1..] == a[1..] + [';' as u8] + b;
    }
  }

  predicate FreeOfSemicolons(s: seq<u8>) {
    forall i :: 0 <= i < |s| ==> s[i] != ';' as u8
  }

  lemma SplitFirst(a: seq<u8>, rest: seq<u8>)
    requires FreeOfSemicolons(a)
    ensures Split(a) == [a]
    ensures Split(a + [';' as u8] + rest) == [a] + Split(rest)
  {
    hide FirstSemicolon;
    var all := a + [';' as u8] + rest;
    SemicolonIs(a, rest);
    assert all[..|a|] == a && all[|a| + 1..] == rest;
  }

  lemma SplitThree(a: seq<u8>, b: seq<u8>, c: seq<u8>)
    requires FreeOfSemicolons(a) && FreeOfSemicolons(b) && FreeOfSemicolons(c)
    ensures Split(a + [';' as u8] + (b + [';' as u8] + c)) == [a, b, c]
  {
    hide Split, FreeOfSemicolons;
    SplitFirst(a, b + [';' as u8] + c);
    SplitFirst(b, c);
    SplitFirst(c, []);
  }

  lemma EncodedSgrShape(e: MouseEvent)
    ensures var bytes := EncodeSgr(e);
            && SGR_PREFIX <= bytes && 3 < |bytes| <= 21
            && (forall j :: 0 <= j < |bytes| - 1 ==> !Terminator(bytes[j]))
            && bytes[|bytes| - 1] == (if e.release then 'm' as u8 else 'M' as u8)
            && bytes[3..|bytes| - 1] == Digits(e.code) + [';' as u8] + (Digits(e.x) + [';' as u8] + Digits(e.y))
  {
    DigitsRoundTrip(e.code);
    DigitsRoundTrip(e.x);
    DigitsRoundTrip(e.y);
    var body := Digits(e.code) + [';' as u8] + (Digits(e.x) + [';' as u8] + Digits(e.y));
    var last := if e.release then 'm' as u8 else 'M' as u8;
    assert EncodeSgr(e) == SGR_PREFIX + body + [last];
    assert forall j :: 0 <= j < |body| ==> IsDigit(body[j]) || body[j] == ';' as u8;
  }

  /** Every event survives printing and parsing, whatever bytes follow it. */
  lemma SgrRoundTrip(e: MouseEvent, rest: seq<u8>)
    ensures SgrSequence(EncodeSgr(e) + rest) == Complete(|EncodeSgr(e)|, e)
  {
    hide EncodeSgr, Digits, ParseU16;
    EncodedSgrShape(e);
    var bytes := EncodeSgr(e) + rest;
    var end := |EncodeSgr(e)| - 1;
    forall j | 0 <= j < end ensures !Terminator(bytes[j]) {
      assert bytes[j] == EncodeSgr(e)[j];
    }
    TerminatorIs(bytes, MAX_MOUSE_SEQUENCE, end);
    assert bytes[3..end] == EncodeSgr(e)[3..end];
    SplitThree(Digits(e.code), Digits(e.x), Digits(e.y));
    DigitsRoundTrip(e.code);
    DigitsRoundTrip(e.x);
    DigitsRoundTrip(e.y);
  }

  /** A report cut short after its introducer is recognised as incomplete. */
  lemma SgrPrefixIsPartial(e: MouseEvent, k: nat)
    requires 3 <= k < |EncodeSgr(e)|
    ensures SGR_PREFIX <= EncodeSgr(e)[..k] && SgrSequence(EncodeSgr(e)[..k]) == Partial
  {
    EncodedSgrShape(e);
    assert EncodeSgr(e)[..3] == SGR_PREFIX;
    NoTerminator(EncodeSgr(e)[..k], MAX_MOUSE_SEQUENCE);
  }

  /** Only the first 64 bytes can end a report; until they are there, it is waited for. */
  lemma SgrIsPartialExactly(bytes: seq<u8>)
    requires SGR_PREFIX <= bytes
    ensures SgrSequence(bytes) == Partial <==>
              |bytes| < MAX_MOUSE_SEQUENCE && forall i :: 0 <= i < |bytes| ==> !Terminator(bytes[i])
    ensures SgrSequence(bytes).Complete? ==>
              var end := SgrSequence(bytes).length - 1;
              && 3 <= end < |bytes| && end < MAX_MOUSE_SEQUENCE && Terminator(bytes[end])
              && forall i :: 0 <= i < end ==> !Terminator(bytes[i])
  {
    NoEarlyTerminator(bytes);
    FirstTerminatorIsFirst(bytes, MAX_MOUSE_SEQUENCE);
  }

  lemma {:induction false} FirstTerminatorIsFirst(bytes: seq<u8>, limit: nat)
    ensures var r := FirstTerminator(bytes, limit);
            forall i :: 0 <= i < |bytes| && i < (if r.Some? then r.value else limit) ==> !Terminator(bytes[i])
  {
    if bytes != [] && limit > 0 && !Terminator(bytes[0]) {
      FirstTerminatorIsFirst(bytes[1..], limit - 1);
      assert forall i :: 0 < i < |bytes| ==> bytes[i] == bytes[1..][i - 1];
    }
  }

  // ---- the single-byte legacy encoding

  function EncodeDefault(e: MouseEvent): seq<u8> {
    if e.code + 32 < 256 && e.x + 32 < 256 && e.y + 32 < 256
    then LEGACY_PREFIX + [e.code + 32, e.x + 32, e.y + 32] else []
  }

  function SaturatingSub32(b: u8): u8 {
    if b < 32 then 0 else b - 32
  }

  function DefaultSequence(bytes: seq<u8>): Sequence {
    if |bytes| < 6 then Partial
    else
      var code := SaturatingSub32(bytes[3]);
      Complete(6, MouseEvent(code, SaturatingSub32(bytes[4]), SaturatingSub32(bytes[5]), code % 4 == 3))
  }

  /** The release bit as the legacy encodings can express it. */
  predicate ReleaseMatches(e: MouseEvent) {
    e.release == (e.code % 4 == 3)
  }

  /** The single-byte encoding round-trips exactly for small fields and an expressible release. */
  lemma DefaultRoundTripExactly(e: MouseEvent, rest: seq<u8>)
    ensures DefaultSequence(EncodeDefault(e) + rest) == Complete(6, e)
       <==> e.code <= 223 && e.x <= 223 && e.y <= 223 && ReleaseMatches(e)
  {
    var bytes := EncodeDefault(e) + rest;
    if e.code <= 223 && e.x <= 223 && e.y <= 223 {
      assert bytes[3] == e.code + 32 && bytes[4] == e.x + 32 && bytes[5] == e.y + 32;
    } else {
      assert bytes == rest;
    }
  }

  // ---- the UTF-8 legacy encoding

  predicate IsScalar(c: int) {
    0 <= c < 0xD800 || 0xE000 <= c < 0x11_0000
  }

  function EncodeChar(c: int): (bytes: seq<u8>)
    requires IsScalar(c)
    ensures |bytes| == Utf8Length(c)
  {
    if c < 0x80 then [c]
    else if c < 0x800 then [0xC0 + c / 0x40, 0x80 + c % 0x40]
    else if c < 0x1_0000 then [0xE0 + c / 0x1000, 0x80 + c / 0x40 % 0x40, 0x80 + c % 0x40]
    else [0xF0 + c / 0x4_0000, 0x80 + c / 0x1000 % 0x40, 0x80 + c / 0x40 % 0x40, 0x80 + c % 0x40]
  }

  predicate Continuation(b: u8) {
    0x80 <= b < 0xC0
  }

  /** The first character of a byte string, by the well-formedness table of section 4 of RFC 3629. */
  function FirstChar(s: seq<u8>): (r: Option<int>)
    ensures r.Some? ==> IsScalar(r.value) && Utf8Length(r.value) <= |s|
  {
    if s == [] then None
    else if s[0] < 0x80 then Some(s[0])
    else if 0xC2 <= s[0] < 0xE0 then
      if |s| >= 2 && Continuation(s[1]) then Some((s[0] as int - 0xC0) * 0x40 + (s[1] as int - 0x80)) else None
    else if 0xE0 <= s[0] < 0xF0 then
      if |s| >= 3 && Continuation(s[1]) && Continuation(s[2])
         && (s[0] == 0xE0 ==> s[1] >= 0xA0) && (s[0] == 0xED ==> s[1] < 0xA0)
      then Some((s[0] as int - 0xE0) * 0x1000 + (s[1] as int - 0x80) * 0x40 + (s[2] as int - 0x80)) else None
    else if 0xF0 <= s[0] < 0xF5 then
      if |s| >= 4 && Continuation(s[1]) && Continuation(s[2]) && Continuation(s[3])
         && (s[0] == 0xF0 ==> s[1] >= 0x90) && (s[0] == 0xF4 ==> s[1] < 0x90)
      then Some((s[0] as int - 0xF0) * 0x4_0000 + (s[1] as int - 0x80) * 0x1000 + (s[2] as int - 0x80) * 0x40
                + (s[3] as int - 0x80)) else None
    else None
  }

  lemma FirstCharOfLongest(c: int, rest: seq<u8>)
    requires 0x1_0000 <= c < 0x11_0000
    ensures FirstChar(EncodeChar(c) + rest) == Some(c)
  {
    var s := EncodeChar(c) + rest;
    assert s[0] == 0xF0 + c / 0x4_0000 && s[1] == 0x80 + c / 0x1000 % 0x40;
    assert s[2] == 0x80 + c / 0x40 % 0x40 && s[3] == 0x80 + c % 0x40;
    assert c / 0x40 / 0x40 == c / 0x1000 && c / 0x1000 / 0x40 == c / 0x4_0000;
  }

  lemma FirstCharOfEncoded(c: int, rest: seq<u8>)
    requires IsScalar(c)
    ensures FirstChar(EncodeChar(c) + rest) == Some(c)
  {
    var s := EncodeChar(c) + rest;
    if c < 0x80 {
      assert s[0] == c;
    } else if c < 0x800 {
      assert s[0] == 0xC0 + c / 0x40 && s[1] == 0x80 + c % 0x40;
    } else if c < 0x1_0000 {
      assert s[0] == 0xE0 + c / 0x1000 && s[1] == 0x80 + c / 0x40 % 0x40 && s[2] == 0x80 + c % 0x40;
      assert c / 0x40 / 0x40 == c / 0x1000;
    } else {
      FirstCharOfLongest(c, rest);
    }
  }

  /** All characters, if every byte belongs to a well-formed one. */
  function DecodeUtf8(s: seq<u8>): Option<seq<int>>
    decreases |s|
  {
    if s == [] then Some([])
    else if FirstChar(s).None? then None
    else
      match DecodeUtf8(s[Utf8Length(FirstChar(s).value)..])
      case None => None
      case Some(rest) => Some([FirstChar(s).value] + rest)
  }

  function Field(v: u16): seq<u8> {
    if IsScalar(v + 32) then EncodeChar(v + 32) else []
  }

  function EncodeUtf8(e: MouseEvent): seq<u8> {
    LEGACY_PREFIX + (Field(e.code) + (Field(e.x) + Field(e.y)))
  }

  function Utf8Sequence(bytes: seq<u8>): Sequence
    requires |bytes| >= 3
  {
    match DecodeUtf8(bytes[3..])
    case None => if |bytes| < MAX_MOUSE_SEQUENCE then Partial else Invalid
    case Some(chars) =>
      if |chars| < 3 then Partial
      else if !Fits(chars[0]) || !Fits(chars[1]) || !Fits(chars[2]) then Invalid
      else Complete(3 + Utf8Length(chars[0]) + Utf8Length(chars[1]) + Utf8Length(chars[2]),
                    MouseEvent(chars[0] - 32, chars[1] - 32, chars[2] - 32, (chars[0] - 32) % 4 == 3))
  }

  predicate Fits(c: int) {
    32 <= c < TWO_16
  }

  /** The values the UTF-8 encoding can carry: not a surrogate, and below 65536 after the offset. */
  predicate Carries(v: u16) {
    Fits(v + 32) && IsScalar(v + 32)
  }

  lemma DecodeField(v: u16, rest: seq<u8>)
    ensures IsScalar(v + 32) ==>
              DecodeUtf8(Field(v) + rest) == if DecodeUtf8(rest).Some? then Some([v + 32] + DecodeUtf8(rest).value)
                else None
    ensures !IsScalar(v + 32) ==> Field(v) + rest == rest
  {
    if IsScalar(v + 32) {
      FirstCharOfEncoded(v + 32, rest);
      assert (Field(v) + rest)[Utf8Length(v + 32)..] == rest;
    }
  }

  /**
   The UTF-8 encoding round-trips exactly when every field can be carried, the release is
   expressible, and whatever follows in the same read is itself well-formed UTF-8.
   */
  lemma Utf8RoundTripExactly(e: MouseEvent, rest: seq<u8>)
    ensures Utf8Sequence(EncodeUtf8(e) + rest) == Complete(|EncodeUtf8(e)|, e)
       <==> Carries(e.code) && Carries(e.x) && Carries(e.y) && ReleaseMatches(e) && DecodeUtf8(rest).Some?
  {
    hide FirstChar, EncodeChar, DecodeUtf8;
    var bytes := EncodeUtf8(e) + rest;
    assert bytes[3..] == Field(e.code) + (Field(e.x) + (Field(e.y) + rest));
    DecodeField(e.code, Field(e.x) + (Field(e.y) + rest));
    DecodeField(e.x, Field(e.y) + rest);
    DecodeField(e.y, rest);
  }

  lemma FirstCharTakesNoStray(s: seq<u8>, i: nat)
    requires i < |s| && s[i] >= 0xF5 && FirstChar(s).Some?
    ensures Utf8Length(FirstChar(s).value) <= i
  {
  }

  /** A byte that UTF-8 never uses. */
  lemma {:induction false} StrayByteIsRefused(s: seq<u8>, i: nat)
    requires i < |s| && s[i] >= 0xF5
    ensures DecodeUtf8(s).None?
    decreases |s|
  {
    if FirstChar(s).Some? {
      FirstCharTakesNoStray(s, i);
      var length := Utf8Length(FirstChar(s).value);
      StrayByteIsRefused(s[length..], i - length);
    }
  }

  /** What cannot be decoded is waited for until 64 bytes are there, and dropped then. */
  lemma UndecodableWaitsForLimit(bytes: seq<u8>, i: nat)
    requires 3 <= i < |bytes| && bytes[i] >= 0xF5
    ensures Utf8Sequence(bytes) == if |bytes| < MAX_MOUSE_SEQUENCE then Partial else Invalid
  {
    StrayByteIsRefused(bytes[3..], i - 3);
  }

  // ---- appending to an output buffer

  function Encoded(e: MouseEvent, format: Format): seq<u8> {
    match format
    case Sgr => EncodeSgr(e)
    case LegacyDefault => EncodeDefault(e)
    case LegacyUtf8 => EncodeUtf8(e)
    case LegacySgr => []
  }

  class Output {
    var bytes: seq<u8>

    method Extend(more: seq<u8>)
      modifies this
      ensures bytes == old(bytes) + more
    {
      bytes := bytes + more;
    }
  }

  /** The fields written one after another. */
  function Fields(values: seq<u16>): seq<u8> {
    if values == [] then [] else Field(values[0]) + Fields(values[1..])
  }

  lemma {:induction false} FieldsGrow(values: seq<u16>, v: u16)
    ensures Fields(values + [v]) == Fields(values) + Field(v)
  {
    hide Field;
    if values == [] {
      assert (values + [v])[1..] == [];
    } else {
      assert (values + [v])[1..] == values[1..] + [v];
      FieldsGrow(values[1..], v);
    }
  }

  method EncodeFields(values: seq<u16>, output: Output)
    modifies output
    ensures output.bytes == old(output.bytes) + Fields(values)
  {
    for i := 0 to |values|
      invariant output.bytes == old(output.bytes) + Fields(values[..i])
    {
      var v: int := values[i];
      if IsScalar(v + 32) {
        output.Extend(EncodeChar(v + 32));
      }
      FieldsGrow(values[..i], values[i]);
      assert values[..i] + [values[i]] == values[..i + 1];
    }
    assert values[..|values|] == values;
  }

  method Encode(e: MouseEvent, output: Output, format: Format)
    modifies output
    ensures output.bytes == old(output.bytes) + Encoded(e, format)
  {
    hide EncodeSgr, EncodeChar, Field;
    match format {
      case Sgr =>
        output.Extend(EncodeSgr(e));
      case LegacyDefault =>
        if e.code + 32 < 256 && e.x + 32 < 256 && e.y + 32 < 256 {
          output.Extend(LEGACY_PREFIX + [e.code + 32, e.x + 32, e.y + 32]);
        }
      case LegacyUtf8 =>
        output.Extend(LEGACY_PREFIX);
        EncodeFields([e.code, e.x, e.y], output);
        ThreeFields(e);
      case LegacySgr =>
    }
  }

  lemma TruncatedCharIsRefused(c: int, k: nat)
    requires IsScalar(c) && 0 < k < |EncodeChar(c)|
    ensures FirstChar(EncodeChar(c)[..k]).None?
  {
    assert EncodeChar(c)[..k][0] == EncodeChar(c)[0];
  }

  lemma {:induction false} FewerFields(values: seq<u16>, k: nat)
    requires k < |Fields(values)| && forall i :: 0 <= i < |values| ==> Field(values[i]) != []
    ensures var r := DecodeUtf8(Fields(values)[..k]); r.Some? ==> |r.value| < |values|
  {
    hide FirstChar, EncodeChar;
    var cut, field := Fields(values)[..k], Field(values[0]);
    if k >= |field| {
      assert cut == field + Fields(values[1..])[..k - |field|];
      DecodeField(values[0], Fields(values[1..])[..k - |field|]);
      FewerFields(values[1..], k - |field|);
    } else if k > 0 {
      assert cut == field[..k];
      var v: int := values[0];
      TruncatedCharIsRefused(v + 32, k);
    }
  }

  /** A report cut short is recognised as incomplete here too, wherever it is cut. */
  lemma Utf8PrefixIsPartial(e: MouseEvent, k: nat)
    requires 3 <= k < |EncodeUtf8(e)| && Carries(e.code) && Carries(e.x) && Carries(e.y)
    ensures Utf8Sequence(EncodeUtf8(e)[..k]) == Partial
  {
    hide FirstChar, EncodeChar, DecodeUtf8, Fields;
    ThreeFields(e);
    FieldLength(e.code);
    FieldLength(e.x);
    FieldLength(e.y);
    assert EncodeUtf8(e)[..k][3..] == Fields([e.code, e.x, e.y])[..k - 3];
    FewerFields([e.code, e.x, e.y], k - 3);
  }

  lemma FieldLength(v: u16)
    ensures |Field(v)| <= 4
  {
  }

  /** What is written in a format is read back by that format's reader, and nothing is written in the other one. */
  lemma WrittenIsReadBack(e: MouseEvent, format: Format, rest: seq<u8>)
    ensures var bytes := Encoded(e, format);
            match format
            case Sgr => SGR_PREFIX <= bytes && SgrSequence(bytes + rest) == Complete(|bytes|, e)
            case LegacyDefault =>
              DefaultSequence(bytes + rest) == Complete(6, e) <==>
                e.code <= 223 && e.x <= 223 && e.y <= 223 && ReleaseMatches(e)
            case LegacyUtf8 =>
              |bytes| >= 3
                && (Utf8Sequence(bytes + rest) == Complete(|bytes|, e) <==>
                      Carries(e.code) && Carries(e.x) && Carries(e.y) && ReleaseMatches(e) && DecodeUtf8(rest).Some?)
            case LegacySgr => bytes == []
  {
    hide SgrSequence, DefaultSequence, Utf8Sequence, EncodeSgr, EncodeDefault, DecodeUtf8, Carries, Field;
    EncodedSgrShape(e);
    SgrRoundTrip(e, rest);
    DefaultRoundTripExactly(e, rest);
    Utf8RoundTripExactly(e, rest);
  }

  lemma ThreeFields(e: MouseEvent)
    ensures Fields([e.code, e.x, e.y]) == Field(e.code) + (Field(e.x) + Field(e.y))
  {
    hide Field;
    assert [e.y][1..] == [] && [e.x, e.y][1..] == [e.y] && [e.code, e.x, e.y][1..] == [e.x, e.y];
    assert Fields([e.y]) == Field(e.y) + [] == Field(e.y);
    assert Fields([e.x, e.y]) == Field(e.x) + Field(e.y);
  }

  /** Parses report after report; it stops at the first incomplete or malformed one. */
  function ParseReports(bytes: seq<u8>): seq<MouseEvent>
    decreases |bytes|
  {
    if !(SGR_PREFIX <= bytes) then []
    else
      match SgrSequence(bytes)
      case Complete(length, event) => if 0 < length <= |bytes| then [event] + ParseReports(bytes[length..]) else []
      case _ => []
  }

  function PrintReports(events: seq<MouseEvent>): seq<u8> {
    if events == [] then [] else EncodeSgr(events[0]) + PrintReports(events[1..])
  }

  /** A whole stream of reports is parsed back event for event. */
  lemma {:induction false} ReportStreamRoundTrip(events: seq<MouseEvent>)
    ensures ParseReports(PrintReports(events)) == events
  {
    if events != [] {
      var rest := PrintReports(events[1..]);
      EncodedSgrShape(events[0]);
      SgrRoundTrip(events[0], rest);
      ReportStreamRoundTrip(events[1..]);
      assert PrintReports(events)[|EncodeSgr(events[0])|..] == rest;
    }
  }

  /** Known reports: a press and a release at column 35, row 9, and the same press in the older formats. */
  lemma KnownReports()
    ensures EncodeSgr(MouseEvent(0, 35, 9, false)) == [27, 91, 60, 48, 59, 51, 53, 59, 57, 77]
    ensures EncodeSgr(MouseEvent(0, 35, 9, true)) == [27, 91, 60, 48, 59, 51, 53, 59, 57, 109]
    ensures EncodeDefault(MouseEvent(0, 35, 9, false)) == [27, 91, 77, 32, 67, 41]
    ensures EncodeUtf8(MouseEvent(0, 35, 9, false)) == [27, 91, 77, 32, 67, 41]
  {
    assert Digits(35) == [51, 53];
  }
}
