/** Opaque pagination cursors: unpadded base64url text around a JSON payload
    (backend/app/utils/cursors.py; the alphabet and padding are those of RFC 4648,
    section 5 and section 3.2). */
module Cursors {
  import opened Common

  type Byte = b: nat | b < 256
  type Sextet = v: nat | v < 64

  // ---------------------------------------------------------------- alphabet

  function SextetChar(v: Sextet): char {
    if v < 26 then 'A' + v as char
    else if v < 52 then 'a' + (v - 26) as char
    else if v < 62 then '0' + (v - 52) as char
    else if v == 62 then '-' else '_'
  }

  /** The URL-safe decoder maps '-' and '_' onto '+' and '/' and so accepts all four. */
  function CharSextet(c: char): Option<Sextet> {
    if 'A' <= c <= 'Z' then Some((c - 'A') as int)
    else if 'a' <= c <= 'z' then Some((c - 'a') as int + 26)
    else if '0' <= c <= '9' then Some((c - '0') as int + 52)
    else if c == '-' || c == '+' then Some(62)
    else if c == '_' || c == '/' then Some(63)
    else None
  }

  lemma AlphabetRoundTrip(v: Sextet)
    ensures CharSextet(SextetChar(v)) == Some(v)
    ensures SextetChar(v) != '=' && SextetChar(v) < '\U{80}'
  {
  }

  /** The characters of section 5 of RFC 4648, which need no escaping in a URL. */
  predicate UrlSafe(c: char) {
    'A' <= c <= 'Z' || 'a' <= c <= 'z' || '0' <= c <= '9' || c == '-' || c == '_'
  }

  // ---------------------------------------------------------------- base64.urlsafe_b64encode

  function EncodeTail(b: seq<Byte>): string
    requires |b| < 3
  {
    if |b| == 0 then ""
    else if |b| == 1 then
      [SextetChar(b[0] / 4), SextetChar(b[0] % 4 * 16), '=', '=']
    else
      [SextetChar(b[0] / 4), SextetChar(b[0] % 4 * 16 + b[1] / 16), SextetChar(b[1] % 16 * 4), '=']
  }

  function EncodeTriple(b0: Byte, b1: Byte, b2: Byte): string {
    [SextetChar(b0 / 4), SextetChar(b0 % 4 * 16 + b1 / 16),
     SextetChar(b1 % 16 * 4 + b2 / 64), SextetChar(b2 % 64)]
  }

  function Encode(b: seq<Byte>): string {
    if |b| < 3 then EncodeTail(b)
    else EncodeTriple(b[0], b[1], b[2]) + Encode(b[3..])
  }

  lemma SextetIsUrlSafe(v: Sextet)
    ensures UrlSafe(SextetChar(v))
  {
  }

  /** Encoded text is URL-safe, but for its padding. */
  lemma {:induction false} EncodedIsUrlSafe(b: seq<Byte>)
    ensures forall i :: 0 <= i < |Encode(b)| ==> UrlSafe(Encode(b)[i]) || Encode(b)[i] == '='
    decreases |b|
  {
    hide UrlSafe, SextetChar, CharSextet;
    forall v: Sextet ensures UrlSafe(SextetChar(v)) {
      SextetIsUrlSafe(v);
    }
    if |b| >= 3 {
      EncodedIsUrlSafe(b[3..]);
    }
  }

  /** Test vectors of section 10 of RFC 4648. */
  lemma EncodeVectors()
    ensures Encode([]) == ""
    ensures Encode([102]) == "Zg=="
    ensures Encode([102, 111]) == "Zm8="
    ensures Encode([102, 111, 111]) == "Zm9v"
  {
    var foo: seq<Byte> := [102, 111, 111];
    assert foo[3..] == [] && EncodeTriple(102, 111, 111) == "Zm9v";
  }

  // ---------------------------------------------------------------- binascii.a2b_base64

  /** The lenient decoder: it skips foreign characters, stops at the padding that completes a
      quad, and rejects input that ends inside one. `left` holds the bits not yet emitted. */
  function Scan(s: string, quad: nat, left: nat, pads: nat): Option<seq<Byte>>
    requires quad < 4 && left < 64
    requires quad == 2 ==> left < 16
    requires quad == 3 ==> left < 4
  {
    if s == "" then
      if quad == 0 then Some([]) else None
    else if s[0] == '=' then
      if quad >= 2 && quad + pads + 1 >= 4 then Some([])
      else Scan(s[1..], quad, left, if quad >= 2 then pads + 1 else pads)
    else
      match CharSextet(s[0])
      case None => Scan(s[1..], quad, left, pads)
      case Some(v) =>
        if quad == 0 then Scan(s[1..], 1, v, 0)
        else if quad == 1 then Prepend(left * 4 + v / 16, Scan(s[1..], 2, v % 16, 0))
        else if quad == 2 then Prepend(left * 16 + v / 4, Scan(s[1..], 3, v % 4, 0))
        else Prepend(left * 64 + v, Scan(s[1..], 0, 0, 0))
  }

  function Prepend(b: Byte, r: Option<seq<Byte>>): Option<seq<Byte>> {
    match r
    case None => None
    case Some(bs) => Some([b] + bs)
  }

  predicate IsAscii(s: string) {
    forall i :: 0 <= i < |s| ==> s[i] < '\U{80}'
  }

  /** `base64.urlsafe_b64decode` on text */
  function Decode(s: string): Option<seq<Byte>> {
    if IsAscii(s) then Scan(s, 0, 0, 0) else None
  }

  lemma ScanOne(c: char, v: Sextet, rest: string, quad: nat, left: nat, pads: nat)
    requires quad < 4 && left < 64 && (quad == 2 ==> left < 16) && (quad == 3 ==> left < 4)
    requires c != '=' && CharSextet(c) == Some(v)
    ensures Scan([c] + rest, quad, left, pads) ==
            if quad == 0 then Scan(rest, 1, v, 0)
            else if quad == 1 then Prepend(left * 4 + v / 16, Scan(rest, 2, v % 16, 0))
            else if quad == 2 then Prepend(left * 16 + v / 4, Scan(rest, 3, v % 4, 0))
            else Prepend(left * 64 + v, Scan(rest, 0, 0, 0))
  {
    assert ([c] + rest)[1..] == rest;
  }

  /** Cutting three bytes into four sextets and putting them together again. */
  lemma TripleArithmetic(b0: Byte, b1: Byte, b2: Byte)
    ensures var v1, v2, v3 := b0 % 4 * 16 + b1 / 16, b1 % 16 * 4 + b2 / 64, b2 % 64;
            && v1 < 64 && v2 < 64
            && b0 / 4 * 4 + v1 / 16 == b0 && v1 % 16 == b1 / 16
            && v1 % 16 * 16 + v2 / 4 == b1 && v2 % 4 == b2 / 64
            && v2 % 4 * 64 + v3 == b2
  {
  }

  lemma ScanTriple(b0: Byte, b1: Byte, b2: Byte, rest: string, pads: nat)
    ensures Scan(EncodeTriple(b0, b1, b2) + rest, 0, 0, pads)
         == Prepend(b0, Prepend(b1, Prepend(b2, Scan(rest, 0, 0, 0))))
  {
    hide Scan, SextetChar, CharSextet, Prepend;
    TripleArithmetic(b0, b1, b2);
    var v0: Sextet, v1: Sextet, v2: Sextet, v3: Sextet :=
      b0 / 4, b0 % 4 * 16 + b1 / 16, b1 % 16 * 4 + b2 / 64, b2 % 64;
    AlphabetRoundTrip(v0);
    AlphabetRoundTrip(v1);
    AlphabetRoundTrip(v2);
    AlphabetRoundTrip(v3);
    var s3 := [SextetChar(v3)] + rest;
    var s2 := [SextetChar(v2)] + s3;
    var s1 := [SextetChar(v1)] + s2;
    assert EncodeTriple(b0, b1, b2) + rest == [SextetChar(v0)] + s1;
    ScanOne(SextetChar(v0), v0, s1, 0, 0, pads);
    ScanOne(SextetChar(v1), v1, s2, 1, v0, 0);
    ScanOne(SextetChar(v2), v2, s3, 2, v1 % 16, 0);
    ScanOne(SextetChar(v3), v3, rest, 3, v2 % 4, 0);
    assert Scan(s3, 3, v2 % 4, 0) == Prepend(b2, Scan(rest, 0, 0, 0));
    assert Scan(s2, 2, v1 % 16, 0) == Prepend(b1, Scan(s3, 3, v2 % 4, 0));
    assert Scan(s1, 1, v0, 0) == Prepend(b0, Scan(s2, 2, v1 % 16, 0));
  }

  lemma ScanTail(b: seq<Byte>, pads: nat)
    requires |b| < 3
    ensures Scan(EncodeTail(b), 0, 0, pads) == Some(b)
  {
    if |b| == 1 {
      ScanLastByte(b[0], pads);
      assert b == [b[0]];
    } else if |b| == 2 {
      ScanLastTwo(b[0], b[1], pads);
      assert b == [b[0], b[1]];
    }
  }

  lemma ScanPads(left: nat)
    requires left < 16
    ensures Scan(['=', '='], 2, left, 0) == Some([])
    ensures left < 4 ==> Scan(['='], 3, left, 0) == Some([])
  {
    assert ['=', '='][1..] == ['='];
    assert Scan(['='], 2, left, 1) == Some([]);
  }

  lemma ScanLastByte(b0: Byte, pads: nat)
    ensures Scan(EncodeTail([b0]), 0, 0, pads) == Some([b0])
  {
    var v0: Sextet, v1: Sextet := b0 / 4, b0 % 4 * 16;
    AlphabetRoundTrip(v0);
    AlphabetRoundTrip(v1);
    assert EncodeTail([b0]) == [SextetChar(v0)] + ([SextetChar(v1)] + ['=', '=']);
    ScanOne(SextetChar(v0), v0, [SextetChar(v1)] + ['=', '='], 0, 0, pads);
    ScanOne(SextetChar(v1), v1, ['=', '='], 1, v0, 0);
    ScanPads(v1 % 16);
    assert v0 * 4 + v1 / 16 == b0 && [b0] + [] == [b0];
  }

  lemma ScanLastTwo(b0: Byte, b1: Byte, pads: nat)
    ensures Scan(EncodeTail([b0, b1]), 0, 0, pads) == Some([b0, b1])
  {
    hide Scan, SextetChar, CharSextet;
    TripleArithmetic(b0, b1, 0);
    var v0: Sextet, v1: Sextet, v2: Sextet := b0 / 4, b0 % 4 * 16 + b1 / 16, b1 % 16 * 4;
    AlphabetRoundTrip(v0);
    AlphabetRoundTrip(v1);
    AlphabetRoundTrip(v2);
    var s2 := [SextetChar(v2)] + ['='];
    assert EncodeTail([b0, b1]) == [SextetChar(v0)] + ([SextetChar(v1)] + s2);
    ScanOne(SextetChar(v0), v0, [SextetChar(v1)] + s2, 0, 0, pads);
    ScanOne(SextetChar(v1), v1, s2, 1, v0, 0);
    ScanOne(SextetChar(v2), v2, ['='], 2, v1 % 16, 0);
    ScanPads(v2 % 4);
    assert [b1] + [] == [b1] && [b0] + [b1] == [b0, b1];
  }

  lemma {:induction false} ScanOfEncode(b: seq<Byte>, pads: nat)
    ensures Scan(Encode(b), 0, 0, pads) == Some(b)
    decreases |b|
  {
    if |b| < 3 {
      ScanTail(b, pads);
    } else {
      ScanTriple(b[0], b[1], b[2], Encode(b[3..]), pads);
      ScanOfEncode(b[3..], 0);
      assert b == [b[0]] + ([b[1]] + ([b[2]] + b[3..]));
    }
  }

  /** Decoding is a left inverse of encoding, for payloads of every length. */
  lemma Base64RoundTrip(b: seq<Byte>)
    ensures Decode(Encode(b)) == Some(b)
  {
    EncodeShape(b);
    ScanOfEncode(b, 0);
  }

  // ---------------------------------------------------------------- which texts decode

  /** The characters that count: the alphabet and the padding. */
  function Significant(s: string): string {
    if s == "" then ""
    else (if s[0] == '=' || CharSextet(s[0]).Some? then [s[0]] else "") + Significant(s[1..])
  }

  lemma {:induction false} ScanSkipsForeign(s: string, quad: nat, left: nat, pads: nat)
    requires quad < 4 && left < 64 && (quad == 2 ==> left < 16) && (quad == 3 ==> left < 4)
    ensures Scan(s, quad, left, pads) == Scan(Significant(s), quad, left, pads)
    decreases |s|
  {
    if s != "" {
      var c, rest := s[0], s[1..];
      var kept := Significant(rest);
      assert ([c] + kept)[0] == c && ([c] + kept)[1..] == kept;
      if c == '=' {
        if !(quad >= 2 && quad + pads + 1 >= 4) {
          ScanSkipsForeign(rest, quad, left, if quad >= 2 then pads + 1 else pads);
        }
      } else if CharSextet(c).None? {
        ScanSkipsForeign(rest, quad, left, pads);
        assert "" + kept == kept;
      } else {
        var v := CharSextet(c).value;
        if quad == 0 {
          ScanSkipsForeign(rest, 1, v, 0);
        } else if quad == 1 {
          ScanSkipsForeign(rest, 2, v % 16, 0);
        } else if quad == 2 {
          ScanSkipsForeign(rest, 3, v % 4, 0);
        } else {
          ScanSkipsForeign(rest, 0, 0, 0);
        }
      }
    }
  }

  /** ASCII text decodes to what its significant characters decode to. */
  lemma ForeignCharactersAreSkipped(s: string)
    requires IsAscii(s)
    ensures Decode(s) == Decode(Significant(s))
  {
    ScanSkipsForeign(s, 0, 0, 0);
    SignificantIsAscii(s);
  }

  lemma {:induction false} SignificantIsAscii(s: string)
    requires IsAscii(s)
    ensures IsAscii(Significant(s))
  {
    if s != "" {
      SignificantIsAscii(s[1..]);
    }
  }

  predicate OfAlphabet(s: string) {
    forall i :: 0 <= i < |s| ==> CharSextet(s[i]).Some?
  }

  /** What is left to read is the text and the padding that completes its last quad. */
  lemma {:induction false} ScanEnds(s: string, quad: nat, left: nat, n: nat)
    requires OfAlphabet(s)
    requires quad < 4 && left < 64 && (quad == 2 ==> left < 16) && (quad == 3 ==> left < 4)
    requires n < 4 && (quad + |s| + n) % 4 == 0
    ensures Scan(s + Repeat('=', n), quad, left, 0).None? <==> n == 3
    decreases |s|
  {
    hide Scan, Repeat, CharSextet;
    if s == "" {
      assert s + Repeat('=', n) == Repeat('=', n);
      PadsEnd(quad, left, n);
    } else {
      var c, rest := s[0], s[1..];
      var v := CharSextet(c).value;
      PaddingIsForeign(c);
      assert s + Repeat('=', n) == [c] + (rest + Repeat('=', n));
      ScanOne(c, v, rest + Repeat('=', n), quad, left, 0);
      ScanEnds(rest, if quad == 3 then 0 else quad + 1,
               if quad == 0 then v else if quad == 1 then v % 16 else if quad == 2 then v % 4 else 0, n);
    }
  }

  lemma PaddingIsForeign(c: char)
    ensures CharSextet(c).Some? ==> c != '='
  {
  }

  lemma PadsEnd(quad: nat, left: nat, n: nat)
    requires quad < 4 && left < 64 && (quad == 2 ==> left < 16) && (quad == 3 ==> left < 4)
    requires n < 4 && (quad + n) % 4 == 0
    ensures Scan(Repeat('=', n), quad, left, 0).None? <==> n == 3
  {
    var pads := Repeat('=', n);
    if quad == 1 {
      assert pads == ['=', '=', '='] && pads[1..] == ['=', '='] && ['=', '='][1..] == ['='];
      assert Scan(['='], quad, left, 0) == None;
      assert Scan(['=', '='], quad, left, 0) == None;
    } else if quad == 2 {
      assert pads == ['=', '='] && pads[1..] == ['='];
    } else if quad == 3 {
      assert pads == ['='];
    }
  }

  /** Exactly which texts of the alphabet decode once their padding is put back: all but those with
      one character too many for whole bytes. */
  lemma DecodesIff(s: string)
    requires OfAlphabet(s)
    ensures Decode(AddPadding(s)).Some? <==> |s| % 4 != 1
  {
    var n := (4 - |s| % 4) % 4;
    ScanEnds(s, 0, 0, n);
    PaddingIsAscii(n);
    forall i | 0 <= i < |s| ensures s[i] < '\U{80}' {
      assert CharSextet(s[i]).Some?;
    }
  }

  lemma {:induction false} PaddingIsAscii(n: nat)
    ensures IsAscii(Repeat('=', n))
  {
    if n > 0 {
      PaddingIsAscii(n - 1);
    }
  }

  // ---------------------------------------------------------------- padding

  /** `text.rstrip("=")` */
  function StripPadding(s: string): string {
    if s != "" && s[|s| - 1] == '=' then StripPadding(s[..|s| - 1]) else s
  }

  function Repeat(c: char, n: nat): string {
    if n == 0 then "" else Repeat(c, n - 1) + [c]
  }

  /** `text + "=" * (-len(text) % 4)` */
  function AddPadding(s: string): string {
    s + Repeat('=', (4 - |s| % 4) % 4)
  }

  lemma TripleShape(b0: Byte, b1: Byte, b2: Byte)
    ensures |EncodeTriple(b0, b1, b2)| == 4
    ensures forall i :: 0 <= i < 4 ==>
              EncodeTriple(b0, b1, b2)[i] != '=' && EncodeTriple(b0, b1, b2)[i] < '\U{80}'
  {
    AlphabetRoundTrip(b0 / 4);
    AlphabetRoundTrip(b0 % 4 * 16 + b1 / 16);
    AlphabetRoundTrip(b1 % 16 * 4 + b2 / 64);
    AlphabetRoundTrip(b2 % 64);
  }

  /** How many padding characters follow the text of `n` bytes. */
  function PadCount(n: nat): nat {
    if n % 3 == 0 then 0 else 3 - n % 3
  }

  /** ASCII text whose last `p` characters, and no others, are padding. */
  ghost predicate PaddedBy(s: string, p: nat) {
    && p <= |s|
    && IsAscii(s)
    && (forall i :: 0 <= i < |s| - p ==> s[i] != '=')
    && (forall i :: |s| - p <= i < |s| ==> s[i] == '=')
  }

  lemma TailShape(b: seq<Byte>)
    requires |b| < 3
    ensures PaddedBy(EncodeTail(b), PadCount(|b|)) && |EncodeTail(b)| % 4 == 0
  {
    if |b| > 0 {
      AlphabetRoundTrip(b[0] / 4);
      AlphabetRoundTrip(b[0] % 4 * 16 + if |b| == 1 then 0 else b[1] / 16);
      if |b| == 2 { AlphabetRoundTrip(b[1] % 16 * 4); }
    }
  }

  /** Encoded text is ASCII, a whole number of quads, and ends in 0, 1 or 2 padding characters. */
  lemma {:induction false} EncodeShape(b: seq<Byte>)
    ensures PaddedBy(Encode(b), PadCount(|b|)) && |Encode(b)| % 4 == 0
    decreases |b|
  {
    if |b| < 3 {
      TailShape(b);
    } else {
      EncodeShape(b[3..]);
      TripleShape(b[0], b[1], b[2]);
      PadCountPeriod(|b|);
      QuadsAppend(EncodeTriple(b[0], b[1], b[2]), Encode(b[3..]));
      PadsAppend(EncodeTriple(b[0], b[1], b[2]), Encode(b[3..]), PadCount(|b|));
    }
  }

  lemma QuadsAppend(head: string, tail: string)
    requires |head| == 4 && |tail| % 4 == 0
    ensures |head + tail| % 4 == 0
  {
  }

  lemma PadCountPeriod(n: nat)
    requires n >= 3
    ensures PadCount(n - 3) == PadCount(n)
  {
  }

  lemma PadsAppend(head: string, tail: string, p: nat)
    requires forall i :: 0 <= i < |head| ==> head[i] != '=' && head[i] < '\U{80}'
    requires PaddedBy(tail, p)
    ensures PaddedBy(head + tail, p)
  {
    var s := head + tail;
    forall i | 0 <= i < |s|
      ensures s[i] < '\U{80}' && (s[i] == '=' <==> i >= |s| - p)
    {
      if i < |head| { assert s[i] == head[i]; } else { assert s[i] == tail[i - |head|]; }
    }
  }

  lemma {:induction false} StripExactly(s: string, p: nat)
    requires forall i :: 0 <= i < |s| ==> s[i] != '='
    ensures StripPadding(s + Repeat('=', p)) == s
  {
    if p == 0 {
      assert s + Repeat('=', 0) == s;
    } else {
      var padded := s + Repeat('=', p);
      assert padded[..|padded| - 1] == s + Repeat('=', p - 1);
      StripExactly(s, p - 1);
    }
  }

  lemma {:induction false} AllPadding(s: string)
    requires forall i :: 0 <= i < |s| ==> s[i] == '='
    ensures s == Repeat('=', |s|)
  {
    if s != "" {
      AllPadding(s[..|s| - 1]);
      assert s == s[..|s| - 1] + [s[|s| - 1]];
    }
  }

  lemma PaddingLength(n: nat, p: nat)
    requires n % 4 == 0 && p < 3 && p <= n
    ensures (4 - (n - p) % 4) % 4 == p
  {
  }

  lemma EncodeLength(b: seq<Byte>)
    ensures b != [] ==> |Encode(b)| >= 4
  {
  }

  /** Dropping the padding loses nothing: the length alone says how much of it to put back. */
  lemma PaddingRoundTrip(b: seq<Byte>)
    ensures AddPadding(StripPadding(Encode(b))) == Encode(b)
    ensures '=' !in StripPadding(Encode(b))
    ensures b != [] ==> StripPadding(Encode(b)) != ""
  {
    hide Encode, StripPadding, Repeat;
    EncodeShape(b);
    EncodeLength(b);
    var p := PadCount(|b|);
    var full := Encode(b);
    var data, padding := full[..|full| - p], full[|full| - p..];
    assert full == data + padding;
    AllPadding(padding);
    StripExactly(data, p);
    assert StripPadding(full) == data;
    PaddingLength(|full|, p);
    assert |data| == |full| - p;
    assert AddPadding(data) == data + Repeat('=', p);
  }

  // ---------------------------------------------------------------- cursors

  /** Timestamps carry a time zone and count microseconds on one time line. */
  datatype CursorPosition = CursorPosition(timestamp: int, entityId: nat)

  /** The JSON and ISO 8601 layer, which the host's libraries provide. */
  datatype Codec = Codec(
    dump: CursorPosition -> seq<Byte>,
    load: seq<Byte> -> Option<CursorPosition>)

  /** JSON text is never empty, and loading a dumped position gives it back. */
  ghost predicate Faithful(codec: Codec) {
    forall p :: codec.dump(p) != [] && codec.load(codec.dump(p)) == Some(p)
  }

  datatype CursorError = InvalidCursor

  function EncodeCursor(codec: Codec, p: CursorPosition): string {
    StripPadding(Encode(codec.dump(p)))
  }

  function DecodeCursor(codec: Codec, text: string): Result<CursorPosition, CursorError> {
    match Decode(AddPadding(text))
    case None => Err(InvalidCursor)
    case Some(payload) =>
      match codec.load(payload)
      case None => Err(InvalidCursor)
      case Some(p) => Ok(p)
  }

  /** Exactly which texts are cursors, and for which position: those whose padded text decodes to a
      payload that loads as it; in particular no text of the alphabet with one character too many,
      and none that is not ASCII. */
  lemma CursorDecodesIff(codec: Codec, text: string)
    ensures forall p :: DecodeCursor(codec, text) == Ok(p) <==>
              Decode(AddPadding(text)).Some? && codec.load(Decode(AddPadding(text)).value) == Some(p)
    ensures OfAlphabet(text) && |text| % 4 == 1 ==> DecodeCursor(codec, text) == Err(InvalidCursor)
    ensures !IsAscii(text) ==> DecodeCursor(codec, text) == Err(InvalidCursor)
  {
    if OfAlphabet(text) {
      DecodesIff(text);
    }
    if !IsAscii(text) {
      var i :| 0 <= i < |text| && text[i] >= '\U{80}';
      assert AddPadding(text)[i] == text[i];
    }
  }

  /** A cursor handed out by the service decodes to the position it was made from. */
  lemma CursorRoundTrip(codec: Codec, p: CursorPosition)
    requires Faithful(codec)
    ensures DecodeCursor(codec, EncodeCursor(codec, p)) == Ok(p)
    ensures EncodeCursor(codec, p) != ""
  {
    assert codec.dump(p) != [];
    PaddingRoundTrip(codec.dump(p));
    Base64RoundTrip(codec.dump(p));
  }
}
