/** internal/pkg/gorm/datatype/uuid.go: the UUID column type. `Scan` decodes
    whatever the SQL driver hands over (nothing, a string, a byte slice)
    into the 16 bytes of a UUID; strings are read in the textual form of
    section 3 of RFC 4122 (8-4-4-4-12 hexadecimal digits). */
module GormUuid {
  import opened Common

  newtype Byte = b: int | 0 <= b < 256

  type Uuid = s: seq<Byte> | |s| == 16 witness seq(16, _ => 0)

  const NilUuid: Uuid := seq(16, _ => 0)

  // ---------------------------------------------------------------- hexadecimal

  /** The lower-case digit of a value below 16, as `uuid.UUID.String` prints it. */
  function HexDigit(n: nat): (c: char)
    requires n < 16
  {
    if n < 10 then (48 + n) as char else (87 + n) as char
  }

  /** The value of a hexadecimal digit in either case; anything else is not one. */
  function HexValue(c: char): (r: Option<nat>)
    ensures r.Some? ==> r.value < 16
  {
    if '0' <= c <= '9' then Some(c as int - 48)
    else if 'a' <= c <= 'f' then Some(c as int - 87)
    else if 'A' <= c <= 'F' then Some(c as int - 55)
    else None
  }

  lemma HexDigitValue(n: nat)
    requires n < 16
    ensures HexValue(HexDigit(n)) == Some(n)
  {
  }

  /** Two lower-case digits per byte, high nibble first. */
  function HexOf(bs: seq<Byte>): (s: string)
    ensures |s| == 2 * |bs|
    decreases |bs|
  {
    if |bs| == 0 then []
    else [HexDigit(bs[0] as nat / 16), HexDigit(bs[0] as nat % 16)] + HexOf(bs[1..])
  }

  /** Pairs of hexadecimal digits back to bytes (`xtob`). */
  function DecodeHex(s: string): (r: Option<seq<Byte>>)
    requires |s| % 2 == 0
    ensures r.Some? ==> 2 * |r.value| == |s|
    decreases |s|
  {
    if |s| == 0 then Some([])
    else
      var hi, lo := HexValue(s[0]), HexValue(s[1]);
      var rest := DecodeHex(s[2..]);
      if hi.None? || lo.None? || rest.None? then None
      else Some([(hi.value * 16 + lo.value) as Byte] + rest.value)
  }

  lemma {:induction false} DecodeHexOf(bs: seq<Byte>)
    ensures DecodeHex(HexOf(bs)) == Some(bs)
    decreases |bs|
  {
    if |bs| > 0 {
      var s := HexOf(bs);
      var b := bs[0] as nat;
      HexDigitValue(b / 16);
      HexDigitValue(b % 16);
      assert s[2..] == HexOf(bs[1..]);
      DecodeHexOf(bs[1..]);
      assert [bs[0]] + bs[1..] == bs;
    }
  }

  // ---------------------------------------------------------------- text form

  /** `uuid.UUID.String`: `xxxxxxxx-xxxx-xxxx-xxxx-xxxxxxxxxxxx`. */
  function Format(u: Uuid): (s: string)
    ensures |s| == 36
  {
    HexOf(u[..4]) + "-" + HexOf(u[4..6]) + "-" + HexOf(u[6..8]) + "-" + HexOf(u[8..10]) + "-" + HexOf(u[10..])
  }

  const InvalidFormat: string := "invalid UUID format"

  function InvalidLength(n: nat): string { "invalid UUID length: " + NatToString(n) }

  /** `uuid.Parse` on the 36-character form: hyphens at 8, 13, 18 and 23,
      hexadecimal digit pairs elsewhere. */
  function Parse(s: string): (r: Result<Uuid>)
    ensures |s| != 36 ==> r == Err(InvalidLength(|s|))
    ensures r.Err? ==> r.msg == InvalidFormat || r.msg == InvalidLength(|s|)
  {
    if |s| != 36 then Err(InvalidLength(|s|))
    else if s[8] != '-' || s[13] != '-' || s[18] != '-' || s[23] != '-' then Err(InvalidFormat)
    else
      var g1, g2, g3, g4, g5 := DecodeHex(s[..8]), DecodeHex(s[9..13]), DecodeHex(s[14..18]),
                                DecodeHex(s[19..23]), DecodeHex(s[24..]);
      if g1.None? || g2.None? || g3.None? || g4.None? || g5.None? then Err(InvalidFormat)
      else
        var u: Uuid := g1.value + g2.value + g3.value + g4.value + g5.value;
        Ok(u)
  }

  /** Where the printed form puts the hyphens and the digits of each group. */
  lemma FormatLayout(u: Uuid)
    ensures var s := Format(u);
            s[8] == '-' && s[13] == '-' && s[18] == '-' && s[23] == '-'
            && s[..8] == HexOf(u[..4]) && s[9..13] == HexOf(u[4..6]) && s[14..18] == HexOf(u[6..8])
            && s[19..23] == HexOf(u[8..10]) && s[24..] == HexOf(u[10..])
  {
    var s := Format(u);
    var h1, h2, h3, h4, h5 := HexOf(u[..4]), HexOf(u[4..6]), HexOf(u[6..8]), HexOf(u[8..10]), HexOf(u[10..]);
    assert s == h1 + "-" + h2 + "-" + h3 + "-" + h4 + "-" + h5;
    assert s[..8] == h1;
    assert s[9..13] == h2;
    assert s[14..18] == h3;
    assert s[19..23] == h4;
    assert s[24..] == h5;
  }

  /** Printing a UUID and parsing the text gives the same UUID back. */
  lemma ParseFormat(u: Uuid)
    ensures Parse(Format(u)) == Ok(u)
  {
    FormatLayout(u);
    DecodeHexOf(u[..4]);
    DecodeHexOf(u[4..6]);
    DecodeHexOf(u[6..8]);
    DecodeHexOf(u[8..10]);
    DecodeHexOf(u[10..]);
    assert u[..4] + u[4..6] + u[6..8] + u[8..10] + u[10..] == u;
  }

  /** A byte slice read as a Go string (`string(src)`), byte by byte. */
  function TextOfBytes(b: seq<Byte>): (s: string)
    ensures |s| == |b|
    ensures forall i :: 0 <= i < |b| ==> s[i] as int == b[i] as int
  {
    seq(|b|, i requires 0 <= i < |b| => b[i] as int as char)
  }

  // ---------------------------------------------------------------- Scan

  /** What a driver can hand to `Scan`. */
  datatype Source = NilSource | TextSource(text: string) | BytesSource(bytes: seq<Byte>) | OtherSource(typeName: string)

  datatype ScanOutcome = ScanOutcome(value: Uuid, err: Option<string>)

  /** The value and error `Scan` leaves, starting from `current`. */
  function Scanned(current: Uuid, src: Source): (r: ScanOutcome)
    ensures r.err.Some? ==> r.value == current
    ensures src.NilSource? ==> r == ScanOutcome(current, None)
    ensures src.OtherSource? ==> r.err.Some?
    ensures src.BytesSource? && |src.bytes| == 16 ==> r == ScanOutcome(src.bytes, None)
    decreases if src.BytesSource? then 1 else 0
  {
    match src
    case NilSource => ScanOutcome(current, None)
    case TextSource(s) =>
      if s == "" then ScanOutcome(current, None)
      else
        var p := Parse(s);
        if p.Err? then ScanOutcome(current, Some("Scan: " + p.msg)) else ScanOutcome(p.value, None)
    case BytesSource(b) =>
      if |b| == 0 then ScanOutcome(current, None)
      else if |b| != 16 then Scanned(current, TextSource(TextOfBytes(b)))
      else ScanOutcome(b, None)
    case OtherSource(t) => ScanOutcome(current, Some("Scan: unable to scan type " + t + " into UUID"))
  }

  /** Every error `Scan` reports starts with "Scan: ". */
  lemma ScanErrorsArePrefixed(current: Uuid, src: Source)
    ensures var r := Scanned(current, src);
            r.err.Some? ==> |r.err.value| >= 6 && r.err.value[..6] == "Scan: "
  {
  }

  /** Scanning the printed text of a UUID, as a string or as its 36 bytes,
      yields that UUID. */
  lemma ScanFormatted(current: Uuid, u: Uuid, b: seq<Byte>)
    requires |b| == 36 && TextOfBytes(b) == Format(u)
    ensures Scanned(current, TextSource(Format(u))) == ScanOutcome(u, None)
    ensures Scanned(current, BytesSource(b)) == ScanOutcome(u, None)
  {
    ParseFormat(u);
  }

  /** Text shorter than the canonical 36 characters leaves the value unchanged
      and reports the model's length error after "Scan: ". This includes the
      32-hex-digit form, which google/uuid would accept, and non-hex text of
      length 32, for which it reports a format error instead. */
  lemma ScanRejectsShortText(current: Uuid, s: string)
    requires 0 < |s| < 36
    ensures Scanned(current, TextSource(s)) == ScanOutcome(current, Some("Scan: " + InvalidLength(|s|)))
  {
  }

  /** The column value (`gormDatatype.UUID`). */
  class UuidColumn {
    var value: Uuid

    constructor ()
      ensures value == NilUuid
    {
      value := NilUuid;
    }

    function GetUuid(): Uuid
      reads this
    {
      value
    }

    /** `SetUUID`: afterwards `GetUUID` returns the id that was set. */
    method SetUuid(id: Uuid)
      modifies this
      ensures GetUuid() == id
    {
      value := id;
    }

    /** `Scan`: a byte slice of any length other than 0 and 16 is scanned
        again as a string. */
    method Scan(src: Source) returns (err: Option<string>)
      modifies this
      ensures ScanOutcome(value, err) == Scanned(old(value), src)
      decreases if src.BytesSource? then 1 else 0
    {
      match src
      case NilSource =>
        return None;
      case TextSource(s) =>
        if s == "" {
          return None;
        }
        var p := Parse(s);
        if p.Err? {
          return Some("Scan: " + p.msg);
        }
        value := p.value;
        err := None;
      case BytesSource(b) =>
        if |b| == 0 {
          return None;
        }
        if |b| != 16 {
          err := Scan(TextSource(TextOfBytes(b)));
          return;
        }
        value := b;
        err := None;
      case OtherSource(t) =>
        return Some("Scan: unable to scan type " + t + " into UUID");
    }
  }
}
