/** Cursors of the measurements endpoint: canonical JSON in unpadded base64url (api.py; RFC 4648, sections 3.2 and 5). */
module PageCursor {
  import opened Prelude
  import opened EventCursor

  const MAX_CURSOR_LENGTH: nat := 512

  datatype Payload = Payload(revision: string, start: string, end: string, intervalStart: string, channel: string)

  // Base64url without padding

  function Symbol(v: nat): (c: char)
    requires v < 64
    ensures SymbolValue(c) == Some(v)
  {
    if v < 26 then 'A' + v as char
    else if v < 52 then 'a' + (v - 26) as char
    else if v < 62 then '0' + (v - 52) as char
    else if v == 62 then '-' else '_'
  }

  function SymbolValue(c: char): (v: Option<nat>)
    ensures v.Some? ==> v.value < 64
  {
    if 'A' <= c <= 'Z' then Some((c - 'A') as nat)
    else if 'a' <= c <= 'z' then Some((c - 'a') as nat + 26)
    else if '0' <= c <= '9' then Some((c - '0') as nat + 52)
    else if c == '-' then Some(62)
    else if c == '_' then Some(63) else None
  }

  type Byte = b: nat | b < 256

  /** Three bytes as four symbols. */
  function Group(b0: Byte, b1: Byte, b2: Byte): (s: string)
    ensures |s| == 4
  {
    [Symbol(b0 / 4), Symbol(b0 % 4 * 16 + b1 / 16), Symbol(b1 % 16 * 4 + b2 / 64), Symbol(b2 % 64)]
  }

  function Encode(b: seq<Byte>): (s: string)
    ensures 3 * |s| <= 4 * |b| + 2
  {
    if |b| == 0 then ""
    else if |b| == 1 then [Symbol(b[0] / 4), Symbol(b[0] % 4 * 16)]
    else if |b| == 2 then [Symbol(b[0] / 4), Symbol(b[0] % 4 * 16 + b[1] / 16), Symbol(b[1] % 16 * 4)]
    else Group(b[0], b[1], b[2]) + Encode(b[3..])
  }

  /** The decoder accepts left-over bits that are not zero, as Python's does. */
  function Decode(s: string): Option<seq<Byte>>
    decreases |s|
  {
    if |s| == 0 then Some([])
    else if |s| == 1 then None
    else
      var v0, v1 := SymbolValue(s[0]), SymbolValue(s[1]);
      if v0.None? || v1.None? then None
      else
        var b0 := v0.value * 4 + v1.value / 16;
        if |s| == 2 then Some([b0])
        else
          var v2 := SymbolValue(s[2]);
          if v2.None? then None
          else
            var b1 := v1.value % 16 * 16 + v2.value / 4;
            if |s| == 3 then Some([b0, b1])
            else
              var v3 := SymbolValue(s[3]);
              if v3.None? then None
              else
                match Decode(s[4..])
                case None => None
                case Some(rest) => Some([b0, b1, v2.value % 4 * 64 + v3.value] + rest)
  }

  /** The bits of three bytes, regrouped into four symbols and back. */
  lemma Regrouped(b0: Byte, b1: Byte, b2: Byte)
    ensures b0 / 4 < 64 && b0 % 4 * 16 + b1 / 16 < 64 && b1 % 16 * 4 + b2 / 64 < 64 && b2 % 64 < 64
    ensures b0 / 4 * 4 + (b0 % 4 * 16 + b1 / 16) / 16 == b0
    ensures (b0 % 4 * 16 + b1 / 16) % 16 * 16 + (b1 % 16 * 4 + b2 / 64) / 4 == b1
    ensures (b1 % 16 * 4 + b2 / 64) % 4 * 64 + b2 % 64 == b2
  {
  }

  lemma {:induction false} DecodeEncode(b: seq<Byte>)
    ensures Decode(Encode(b)) == Some(b)
    decreases |b|
  {
    if |b| == 1 {
      OneByte(b[0]);
      assert b == [b[0]];
    } else if |b| == 2 {
      TwoBytes(b[0], b[1]);
      assert b == [b[0], b[1]];
    } else if |b| >= 3 {
      DecodeEncode(b[3..]);
      FourSymbols(b[0], b[1], b[2], Encode(b[3..]), b[3..]);
      FirstThree(b);
    }
  }

  lemma FirstThree<T>(b: seq<T>)
    requires |b| >= 3
    ensures [b[0], b[1], b[2]] + b[3..] == b
  {
  }

  lemma OneByte(b0: Byte)
    ensures Decode(Encode([b0])) == Some([b0])
  {
    Regrouped(b0, 0, 0);
  }

  lemma TwoBytes(b0: Byte, b1: Byte)
    ensures Decode(Encode([b0, b1])) == Some([b0, b1])
  {
    Regrouped(b0, b1, 0);
  }

  lemma DecodesFour(v0: nat, v1: nat, v2: nat, v3: nat, rest: string, b0: Byte, b1: Byte, b2: Byte, bytes: seq<Byte>)
    requires v0 < 64 && v1 < 64 && v2 < 64 && v3 < 64 && Decode(rest) == Some(bytes)
    requires v0 * 4 + v1 / 16 == b0 && v1 % 16 * 16 + v2 / 4 == b1 && v2 % 4 * 64 + v3 == b2
    ensures Decode([Symbol(v0), Symbol(v1), Symbol(v2), Symbol(v3)] + rest) == Some([b0, b1, b2] + bytes)
  {
    var s := [Symbol(v0), Symbol(v1), Symbol(v2), Symbol(v3)] + rest;
    assert s[0] == Symbol(v0) && s[1] == Symbol(v1) && s[2] == Symbol(v2) && s[3] == Symbol(v3);
    assert s[4..] == rest;
  }

  lemma FourSymbols(b0: Byte, b1: Byte, b2: Byte, rest: string, bytes: seq<Byte>)
    requires Decode(rest) == Some(bytes)
    ensures Decode(Group(b0, b1, b2) + rest) == Some([b0, b1, b2] + bytes)
  {
    Regrouped(b0, b1, b2);
    DecodesFour(b0 / 4, b0 % 4 * 16 + b1 / 16, b1 % 16 * 4 + b2 / 64, b2 % 64, rest, b0, b1, b2, bytes);
  }

  lemma {:induction false} EncodeIsUrlsafe(b: seq<Byte>)
    ensures forall i :: 0 <= i < |Encode(b)| ==> SymbolValue(Encode(b)[i]).Some?
    decreases |b|
  {
    if |b| >= 3 {
      EncodeIsUrlsafe(b[3..]);
      GroupIsUrlsafe(b[0], b[1], b[2]);
    }
  }

  lemma GroupIsUrlsafe(b0: Byte, b1: Byte, b2: Byte)
    ensures forall i :: 0 <= i < 4 ==> SymbolValue(Group(b0, b1, b2)[i]).Some?
  {
  }

  /** Several texts decode to the same bytes: only comparing with the encoding tells them apart. */
  lemma DecodingIsLoose()
    ensures Decode("QQ") == Decode("QR") == Some([65])
  {
  }

  // ASCII text

  predicate Ascii(s: string) {
    forall i :: 0 <= i < |s| ==> s[i] as int < 128
  }

  function Bytes(s: string): (b: seq<Byte>)
    requires Ascii(s)
    ensures |b| == |s| && forall i :: 0 <= i < |b| ==> b[i] == s[i] as nat
  {
    seq(|s|, i requires 0 <= i < |s| => s[i] as nat)
  }

  function AsciiText(b: seq<Byte>): (s: Option<string>)
    ensures s.Some? <==> forall i :: 0 <= i < |b| ==> b[i] < 128
    ensures s.Some? ==> |s.value| == |b| && forall i :: 0 <= i < |b| ==> s.value[i] as nat == b[i]
  {
    if forall i :: 0 <= i < |b| ==> b[i] < 128 then Some(seq(|b|, i requires 0 <= i < |b| => b[i] as char)) else None
  }

  lemma TextOfBytes(s: string)
    requires Ascii(s)
    ensures AsciiText(Bytes(s)) == Some(s)
  {
    var t := AsciiText(Bytes(s)).value;
    forall i | 0 <= i < |s| ensures t[i] == s[i] {
      assert t[i] as int == s[i] as int;
    }
    assert t == s;
  }

  // The fields

  predicate IsRevision(s: string) {
    && 5 <= |s| <= 80 && s[..3] == "ds_"
    && forall i :: 3 <= i < |s| ==> LowerHex(s[i])
  }

  predicate IsChannel(s: string) {
    s == "grid_export" || s == "grid_import"
  }

  predicate DigitsAt(s: string, from: nat, to: nat)
    requires from <= to <= |s|
  {
    forall i :: from <= i < to ==> Digit(s[i])
  }

  function NumberAt(s: string, from: nat, to: nat): nat
    requires from <= to <= |s| && DigitsAt(s, from, to)
  {
    NumberOf(s[from..to])
  }

  function DaysIn(year: nat, month: nat): nat {
    if month == 2 then (if year % 4 == 0 && (year % 100 != 0 || year % 400 == 0) then 29 else 28)
    else if month in {4, 6, 9, 11} then 30 else 31
  }

  /** YYYY-MM-DDTHH:MM:SS with up to six decimals and a Z, of a date and a time that exist. */
  predicate IsTimestamp(s: string) {
    && 20 <= |s| <= 27 && s[|s| - 1] == 'Z'
    && DigitsAt(s, 0, 4) && s[4] == '-' && DigitsAt(s, 5, 7) && s[7] == '-' && DigitsAt(s, 8, 10) && s[10] == 'T'
    && DigitsAt(s, 11, 13) && s[13] == ':' && DigitsAt(s, 14, 16) && s[16] == ':' && DigitsAt(s, 17, 19)
    && (|s| == 20 || (|s| >= 22 && s[19] == '.' && DigitsAt(s, 20, |s| - 1)))
    && NumberAt(s, 0, 4) >= 1 && 1 <= NumberAt(s, 5, 7) <= 12
    && 1 <= NumberAt(s, 8, 10) <= DaysIn(NumberAt(s, 0, 4), NumberAt(s, 5, 7))
    && NumberAt(s, 11, 13) <= 23 && NumberAt(s, 14, 16) <= 59 && NumberAt(s, 17, 19) <= 59
  }

  predicate ValidPayload(p: Payload) {
    IsRevision(p.revision) && IsTimestamp(p.start) && IsTimestamp(p.end) && IsTimestamp(p.intervalStart) && IsChannel(p.channel)
  }

  /** ASCII without quotation marks: what a JSON string may show as it is. */
  predicate Plain(s: string) {
    forall i :: 0 <= i < |s| ==> s[i] as int < 128 && s[i] != '"'
  }

  lemma TimestampIsPlain(s: string)
    requires IsTimestamp(s)
    ensures Plain(s)
  {
    forall i | 0 <= i < |s| ensures s[i] as int < 128 && s[i] != '"' {
      assert Digit(s[i]) || s[i] in "-T:.Z";
    }
  }

  lemma FieldsArePlain(p: Payload)
    requires ValidPayload(p)
    ensures Plain(p.revision) && Plain(p.start) && Plain(p.end) && Plain(p.intervalStart) && Plain(p.channel)
  {
    TimestampIsPlain(p.start);
    TimestampIsPlain(p.end);
    TimestampIsPlain(p.intervalStart);
    forall i | 0 <= i < |p.revision| ensures p.revision[i] as int < 128 && p.revision[i] != '"' {
      assert i < 3 ==> p.revision[i] == "ds_"[i];
    }
  }

  // The text

  /** A string value up to its closing quotation mark, and what follows it. */
  function Quoted(value: string, rest: string): string {
    value + ("\"" + rest)
  }

  /** The object with its keys in order and no spaces. */
  function Text(p: Payload): string {
    "{\"channel\":\"" + Quoted(p.channel, ",\"end\":\"" + Quoted(p.end, ",\"interval_start\":\"" + Quoted(p.intervalStart,
    ",\"revision\":\"" + Quoted(p.revision, ",\"start\":\"" + Quoted(p.start, ",\"v\":1}")))))
  }

  /** The next value after a fixed text. */
  function NextField(before: string, s: string): Option<(string, string)> {
    if before <= s then UntilQuote(s[|before|..]) else None
  }

  function UntilQuote(s: string): Option<(string, string)> {
    if s == "" then None
    else if s[0] == '"' then Some(("", s[1..]))
    else
      match UntilQuote(s[1..])
      case None => None
      case Some((value, rest)) => Some(([s[0]] + value, rest))
  }

  /** The payload of a text in canonical form; no other text can equal an encoding. */
  function ParseText(s: string): Option<Payload> {
    match NextField("{\"channel\":\"", s)
    case None => None
    case Some((channel, s1)) =>
      match NextField(",\"end\":\"", s1)
      case None => None
      case Some((end, s2)) =>
        match NextField(",\"interval_start\":\"", s2)
        case None => None
        case Some((intervalStart, s3)) =>
          match NextField(",\"revision\":\"", s3)
          case None => None
          case Some((revision, s4)) =>
            match NextField(",\"start\":\"", s4)
            case None => None
            case Some((start, s5)) =>
              if s5 == ",\"v\":1}" then Some(Payload(revision, start, end, intervalStart, channel)) else None
  }

  lemma {:induction false} UntilQuoteOf(value: string, rest: string)
    requires Plain(value)
    ensures UntilQuote(Quoted(value, rest)) == Some((value, rest))
  {
    var s := Quoted(value, rest);
    if value == "" {
      assert s == ['"'] + rest;
      assert s[1..] == rest;
    } else {
      UntilQuoteOf(value[1..], rest);
      assert s[0] == value[0] && s[1..] == Quoted(value[1..], rest);
      assert [value[0]] + value[1..] == value;
    }
  }

  lemma NextFieldOf(before: string, value: string, rest: string)
    requires Plain(value)
    ensures NextField(before, before + Quoted(value, rest)) == Some((value, rest))
  {
    UntilQuoteOf(value, rest);
    assert (before + Quoted(value, rest))[|before|..] == Quoted(value, rest);
  }

  lemma ParseOfText(p: Payload)
    requires ValidPayload(p)
    ensures ParseText(Text(p)) == Some(p)
  {
    FieldsArePlain(p);
    var s4 := ",\"start\":\"" + Quoted(p.start, ",\"v\":1}");
    var s3 := ",\"revision\":\"" + Quoted(p.revision, s4);
    var s2 := ",\"interval_start\":\"" + Quoted(p.intervalStart, s3);
    var s1 := ",\"end\":\"" + Quoted(p.end, s2);
    NextFieldOf(",\"start\":\"", p.start, ",\"v\":1}");
    NextFieldOf(",\"revision\":\"", p.revision, s4);
    NextFieldOf(",\"interval_start\":\"", p.intervalStart, s3);
    NextFieldOf(",\"end\":\"", p.end, s2);
    NextFieldOf("{\"channel\":\"", p.channel, s1);
  }

  lemma TextIsAscii(p: Payload)
    requires ValidPayload(p)
    ensures Ascii(Text(p)) && 1 <= |Text(p)| <= 246
  {
    FieldsArePlain(p);
    FieldSizes(p);
    PlainTextIsAscii(p);
  }

  lemma FieldSizes(p: Payload)
    requires ValidPayload(p)
    ensures |p.channel| + |p.end| + |p.intervalStart| + |p.revision| + |p.start| <= 172
  {
  }

  lemma PlainTextIsAscii(p: Payload)
    requires Plain(p.revision) && Plain(p.start) && Plain(p.end) && Plain(p.intervalStart) && Plain(p.channel)
    requires |p.channel| + |p.end| + |p.intervalStart| + |p.revision| + |p.start| <= 172
    ensures Ascii(Text(p)) && 1 <= |Text(p)| <= 246
  {
    var s4 := ",\"start\":\"" + Quoted(p.start, ",\"v\":1}");
    var s3 := ",\"revision\":\"" + Quoted(p.revision, s4);
    var s2 := ",\"interval_start\":\"" + Quoted(p.intervalStart, s3);
    var s1 := ",\"end\":\"" + Quoted(p.end, s2);
    FieldIsAscii(",\"start\":\"", p.start, ",\"v\":1}");
    FieldIsAscii(",\"revision\":\"", p.revision, s4);
    FieldIsAscii(",\"interval_start\":\"", p.intervalStart, s3);
    FieldIsAscii(",\"end\":\"", p.end, s2);
    FieldIsAscii("{\"channel\":\"", p.channel, s1);
  }

  lemma FieldIsAscii(before: string, value: string, rest: string)
    requires Ascii(before) && Plain(value) && Ascii(rest)
    ensures Ascii(before + Quoted(value, rest))
    ensures |before + Quoted(value, rest)| == |before| + |value| + 1 + |rest|
  {
  }

  // The cursor

  function EncodeCursor(p: Payload): string
    requires Ascii(Text(p))
  {
    Encode(Bytes(Text(p)))
  }

  /** The ASCII text that a cursor's characters stand for. */
  function DecodeText(value: string): Option<string> {
    if !(1 <= |value| <= MAX_CURSOR_LENGTH) || exists i :: 0 <= i < |value| && SymbolValue(value[i]).None? then None
    else
      match Decode(value)
      case None => None
      case Some(raw) => AsciiText(raw)
  }

  function DecodeCursor(value: string): Option<Payload> {
    match DecodeText(value)
    case None => None
    case Some(text) =>
      match ParseText(text)
      case None => None
      case Some(p) =>
        if !ValidPayload(p) then None
        else if !Ascii(Text(p)) || EncodeCursor(p) != value then None
        else Some(p)
  }

  lemma TextRoundTrip(s: string)
    requires Ascii(s) && 1 <= |s| <= 246
    ensures 1 <= |Encode(Bytes(s))| <= 512 && DecodeText(Encode(Bytes(s))) == Some(s)
  {
    DecodeEncode(Bytes(s));
    EncodeIsUrlsafe(Bytes(s));
    TextOfBytes(s);
  }

  /** Decoding the cursor of a valid payload returns the payload, and the cursor is short enough. */
  lemma PageCursorRoundTrip(p: Payload)
    requires ValidPayload(p)
    ensures Ascii(Text(p)) && 1 <= |EncodeCursor(p)| <= 512
    ensures DecodeCursor(EncodeCursor(p)) == Some(p)
  {
    TextIsAscii(p);
    TextRoundTrip(Text(p));
    ParseOfText(p);
  }

  /** A text is accepted exactly when it is the encoding of a valid payload, which is then the only one. */
  lemma AcceptedCursorIsEncoding(value: string, p: Payload)
    ensures DecodeCursor(value) == Some(p) <==> ValidPayload(p) && Ascii(Text(p)) && EncodeCursor(p) == value
  {
    if ValidPayload(p) {
      PageCursorRoundTrip(p);
    }
  }
}
