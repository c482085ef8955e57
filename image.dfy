/**
 * Image validation and the vision-API image part. The validator checks the
 * MIME type first, then decodes the base64 text with `validate=True` and
 * compares the decoded size with 10 MiB. Only the decoded length matters, so
 * the decoder is modelled as the function that yields that length or the
 * library's error: the character loop of `binascii.a2b_base64` in strict
 * mode, as `b64decode(..., validate=True)` runs it on Python 3.13. Its
 * partner is the standard base64 encoder of section 4 of RFC 4648, whose
 * every output it accepts with the right length.
 */
module Image {
  import opened Wrappers
  import opened Text
  import opened Json

  const MaxImageSizeMb: nat := 10
  const MebiByte: nat := 1024 * 1024
  const AllowedMimeTypes: set<string> := {"image/jpeg", "image/png", "image/webp"}

  /** `is_valid, error_message`. */
  datatype Validation = Validation(valid: bool, error: string)

  newtype Byte = x: int | 0 <= x < 256

  // ----- base64 -----

  predicate IsB64Char(c: char) {
    ('A' <= c <= 'Z') || ('a' <= c <= 'z') || ('0' <= c <= '9') || c == '+' || c == '/'
  }

  predicate AllB64(s: string) {
    forall i :: 0 <= i < |s| ==> IsB64Char(s[i])
  }

  predicate AllAscii(s: string) {
    forall i :: 0 <= i < |s| ==> s[i] as int < 128
  }

  /** The character of the base64 alphabet for a six-bit value. */
  function Digit(v: int): (c: char)
    requires 0 <= v < 64
    ensures IsB64Char(c)
  {
    if v < 26 then ('A' as int + v) as char
    else if v < 52 then ('a' as int + v - 26) as char
    else if v < 62 then ('0' as int + v - 52) as char
    else if v == 62 then '+' else '/'
  }

  /** The number of `=` characters at the end of `s`. */
  function TrailingPads(s: string): (n: nat)
    ensures n <= |s|
  {
    if |s| > 0 && s[|s| - 1] == '=' then TrailingPads(s[..|s| - 1]) + 1 else 0
  }

  /**
   * What the decoder makes of `n` data characters followed by `p` padding
   * characters: complete groups of four give three bytes each; a last group
   * of two needs exactly two `=` and a last group of three exactly one, and
   * more padding after that completes the group is excess data; one data
   * character alone cannot be decoded; padding after a complete group is
   * passed over.
   */
  function GroupLength(n: nat, p: nat): (r: Result<int, DecodeError>)
    ensures r.Ok? <==> (n % 4 == 0 || (n % 4 == 2 && p == 2) || (n % 4 == 3 && p == 1))
    ensures r.Ok? ==> 4 * r.value <= 3 * n < 4 * r.value + 4
  {
    var q := n % 4;
    var full := 3 * (n / 4);
    if q == 0 then Ok(full)
    else if q == 1 then Err(OneTooMany(n))
    else if q == 2 then (if p == 2 then Ok(full + 1) else if p < 2 then Err(IncorrectPadding) else Err(ExcessData))
    else (if p == 1 then Ok(full + 2) else if p == 0 then Err(IncorrectPadding) else Err(ExcessData))
  }

  /** The errors `base64.b64decode(s, validate=True)` raises, by the text `str(e)` gives. */
  datatype DecodeError =
    | NonAscii
    | LeadingPadding
    | ExcessData
    | NotBase64
    | DiscontinuousPadding
    | OneTooMany(dataChars: nat)
    | IncorrectPadding

  function Message(e: DecodeError): string {
    match e
    case NonAscii => "string argument should contain only ASCII characters"
    case LeadingPadding => "Leading padding not allowed"
    case ExcessData => "Excess data after padding"
    case NotBase64 => "Only base64 data is allowed"
    case DiscontinuousPadding => "Discontinuous padding not allowed"
    case OneTooMany(n) =>
      "Invalid base64-encoded string: number of data characters (" + NatToString(n)
        + ") cannot be 1 more than a multiple of 4"
    case IncorrectPadding => "Incorrect padding"
  }

  /**
   * The state of `binascii.a2b_base64` in strict mode between two characters:
   * the position in the current group of four, the `=` counted towards
   * completing it, whether a `=` has been seen, and the bytes written so far.
   */
  datatype Scan = Scan(quad: nat, pads: nat, padded: bool, bytes: nat)

  /** What the decoder does at the end of the input. */
  function EndOfInput(st: Scan): (r: Result<int, DecodeError>)
    ensures r.Ok? <==> st.quad == 0
    ensures r.Ok? ==> r.value == st.bytes
  {
    if st.quad == 0 then Ok(st.bytes)
    else if st.quad == 1 then Err(OneTooMany(st.bytes / 3 * 4 + 1))
    else Err(IncorrectPadding)
  }

  /**
   * The decoder's loop from position `i`: a `=` either completes a group of
   * two or three data characters (and then nothing may follow it) or is
   * passed over; a character outside the alphabet is refused; a data
   * character after a `=` is refused; a data character moves on in the group
   * and writes a byte from its second character on.
   */
  function ScanFrom(s: string, i: nat, st: Scan): (r: Result<int, DecodeError>)
    requires i <= |s|
    ensures r.Ok? ==> r.value >= 0
    decreases |s| - i
  {
    if i == |s| then EndOfInput(st)
    else if s[i] == '=' then
      var pads := if st.quad >= 2 then st.pads + 1 else st.pads;
      if st.quad >= 2 && st.quad + pads >= 4 then
        (if i + 1 < |s| then Err(ExcessData) else Ok(st.bytes))
      else ScanFrom(s, i + 1, Scan(st.quad, pads, true, st.bytes))
    else if !IsB64Char(s[i]) then Err(NotBase64)
    else if st.padded then Err(DiscontinuousPadding)
    else ScanFrom(s, i + 1, Scan((st.quad + 1) % 4, 0, false, if st.quad == 0 then st.bytes else st.bytes + 1))
  }

  const Start := Scan(0, 0, false, 0)

  /**
   * `len(base64.b64decode(s, validate=True))`, or the message of the error it
   * raises: the text must be ASCII, and then `binascii.a2b_base64` in strict
   * mode refuses a leading `=` and otherwise runs its loop.
   */
  function DecodedLength(s: string): (r: Result<int, DecodeError>)
    ensures r.Ok? ==> r.value >= 0 && AllAscii(s) && (s == [] || s[0] != '=')
  {
    if !AllAscii(s) then Err(NonAscii)
    else if |s| > 0 && s[0] == '=' then Err(LeadingPadding)
    else ScanFrom(s, 0, Start)
  }

  /** The bytes written after `n` data characters: three per group of four and one less than the characters of a started group. */
  function DataBytes(n: nat): nat {
    3 * (n / 4) + (if n % 4 == 0 then 0 else n % 4 - 1)
  }

  function DataState(n: nat): Scan {
    Scan(n % 4, 0, false, DataBytes(n))
  }

  /** Data characters only move the decoder on through its groups. */
  lemma {:induction false} ScanData(s: string, n: nat)
    requires n <= |s| && forall k :: 0 <= k < n ==> IsB64Char(s[k])
    ensures ScanFrom(s, 0, Start) == ScanFrom(s, n, DataState(n))
    decreases n
  {
    if n > 0 {
      ScanData(s, n - 1);
      DataStep(n - 1);
      assert IsB64Char(s[n - 1]) && s[n - 1] != '=';
    }
  }

  /** One more data character: the next position in the group, and one more byte unless the group was empty. */
  lemma DataStep(n: nat)
    ensures var st := DataState(n);
      Scan((st.quad + 1) % 4, 0, false, if st.quad == 0 then st.bytes else st.bytes + 1) == DataState(n + 1)
  {
    var k := n / 4;
    assert n == 4 * k + n % 4;
    if n % 4 == 3 {
      assert (n + 1) / 4 == k + 1 && (n + 1) % 4 == 0;
    } else {
      assert (n + 1) / 4 == k && (n + 1) % 4 == n % 4 + 1;
    }
  }

  /** Padding in a group of fewer than two data characters is passed over to the end of the input. */
  lemma {:induction false} PadsPassedOver(s: string, i: nat, st: Scan)
    requires i <= |s| && st.quad < 2
    requires forall k :: i <= k < |s| ==> s[k] == '='
    ensures ScanFrom(s, i, st) == EndOfInput(st)
    decreases |s| - i
  {
    if i < |s| {
      PadsPassedOver(s, i + 1, Scan(st.quad, st.pads, true, st.bytes));
    }
  }

  /** After `n` data characters, a run of `p` padding characters ends the input as `GroupLength` says. */
  lemma PaddingAfterData(s: string, n: nat, p: nat)
    requires n + p == |s| && forall k :: n <= k < |s| ==> s[k] == '='
    ensures ScanFrom(s, n, DataState(n)) == GroupLength(n, p)
  {
    if n % 4 < 2 {
      PaddingAfterShortGroup(s, n, p);
    } else if n % 4 == 2 {
      PaddingAfterPair(s, n, p);
    } else {
      PaddingAfterTriple(s, n, p);
    }
  }

  lemma PaddingAfterShortGroup(s: string, n: nat, p: nat)
    requires n + p == |s| && forall k :: n <= k < |s| ==> s[k] == '='
    requires n % 4 < 2
    ensures ScanFrom(s, n, DataState(n)) == GroupLength(n, p)
  {
    var st := DataState(n);
    PadsPassedOver(s, n, st);
    if n % 4 == 1 {
      OneOverCount(n);
    }
  }

  /** The count in the decoder's message, worked back from the bytes written, is the number of data characters. */
  lemma OneOverCount(n: nat)
    requires n % 4 == 1
    ensures DataBytes(n) / 3 * 4 + 1 == n
  {
    var k := n / 4;
    assert DataBytes(n) == 3 * k;
  }

  lemma PaddingAfterPair(s: string, n: nat, p: nat)
    requires n + p == |s| && forall k :: n <= k < |s| ==> s[k] == '='
    requires n % 4 == 2
    ensures ScanFrom(s, n, DataState(n)) == GroupLength(n, p)
  {
    if p > 0 {
      PairFirstPad(s, n);
      if p > 1 {
        assert s[n + 1] == '=';
      }
    }
  }

  /** The first `=` after a group of two data characters is counted and waits for the second. */
  lemma PairFirstPad(s: string, n: nat)
    requires n < |s| && s[n] == '=' && n % 4 == 2
    ensures ScanFrom(s, n, DataState(n)) == ScanFrom(s, n + 1, Scan(2, 1, true, DataBytes(n)))
  {
  }

  lemma PaddingAfterTriple(s: string, n: nat, p: nat)
    requires n + p == |s| && forall k :: n <= k < |s| ==> s[k] == '='
    requires n % 4 == 3
    ensures ScanFrom(s, n, DataState(n)) == GroupLength(n, p)
  {
  }

  /**
   * Data characters followed by padding, with no `=` in front: the decoder
   * gives what `GroupLength` says of the two counts.
   */
  lemma PaddedDecodes(s: string, d: string, pad: string)
    requires s == d + pad && AllB64(d) && (d != [] || pad == [])
    requires forall i :: 0 <= i < |pad| ==> pad[i] == '='
    ensures DecodedLength(s) == GroupLength(|d|, |pad|)
  {
    PaddedAscii(d, pad);
    assert forall k :: 0 <= k < |d| ==> s[k] == d[k];
    assert forall k :: |d| <= k < |s| ==> s[k] == pad[k - |d|];
    ScanData(s, |d|);
    PaddingAfterData(s, |d|, |pad|);
  }

  /**
   * The partner of `PaddedDecodes`: every text the decoder accepts is data
   * characters followed by its trailing `=`, and decodes as `GroupLength` says.
   */
  lemma DecodedLengthOk(s: string)
    requires DecodedLength(s).Ok?
    ensures AllB64(s[..|s| - TrailingPads(s)])
    ensures DecodedLength(s) == GroupLength(|s| - TrailingPads(s), TrailingPads(s))
  {
    AcceptedShape(s);
    DataBeforePadding(s);
    SplitDecodes(s);
  }

  /** Alphabet characters and `=` only, no `=` first, and no data character after a `=`. */
  predicate PaddedShape(s: string) {
    && (s == [] || s[0] != '=')
    && (forall k :: 0 <= k < |s| ==> IsB64Char(s[k]) || s[k] == '=')
    && (forall k, l :: 0 <= k < l < |s| && s[k] == '=' ==> s[l] == '=')
  }

  lemma AcceptedShape(s: string)
    requires DecodedLength(s).Ok?
    ensures PaddedShape(s)
  {
    ScanShape(s, 0, Start);
  }

  /** Once the decoder has met a `=`, only `=` may follow for it to succeed. */
  lemma {:induction false} ScanShape(s: string, i: nat, st: Scan)
    requires i <= |s| && ScanFrom(s, i, st).Ok?
    ensures forall k :: i <= k < |s| ==> IsB64Char(s[k]) || s[k] == '='
    ensures st.padded ==> forall k :: i <= k < |s| ==> s[k] == '='
    ensures forall k, l :: i <= k < l < |s| && s[k] == '=' ==> s[l] == '='
    decreases |s| - i
  {
    if i < |s| {
      if s[i] == '=' {
        var pads := if st.quad >= 2 then st.pads + 1 else st.pads;
        if !(st.quad >= 2 && st.quad + pads >= 4) {
          ScanShape(s, i + 1, Scan(st.quad, pads, true, st.bytes));
        }
      } else {
        ScanShape(s, i + 1, Scan((st.quad + 1) % 4, 0, false, if st.quad == 0 then st.bytes else st.bytes + 1));
      }
    }
  }

  lemma SplitDecodes(s: string)
    requires PaddedShape(s)
    ensures DecodedLength(s) == GroupLength(|s| - TrailingPads(s), TrailingPads(s))
  {
    var p := TrailingPads(s);
    DataBeforePadding(s);
    TrailingPadsSuffix(s);
    var d, pad := s[..|s| - p], s[|s| - p..];
    assert s == d + pad;
    assert forall i :: 0 <= i < |pad| ==> pad[i] == s[|s| - p + i];
    PaddedDecodes(s, d, pad);
  }

  lemma DataBeforePadding(s: string)
    requires PaddedShape(s)
    ensures AllB64(s[..|s| - TrailingPads(s)])
  {
    var p := TrailingPads(s);
    TrailingPadsSuffix(s);
    if p < |s| {
      var j := |s| - p - 1;
      var d := s[..|s| - p];
      forall k | 0 <= k < |d| ensures IsB64Char(d[k]) {
        assert d[k] == s[k];
        if k < j {
          assert s[j] != '=';
        }
      }
    }
  }

  /** A `=` that completes a group of two or three data characters must end the text. */
  lemma ExcessDataRefused(d: string, pad: string, rest: string)
    requires AllB64(d) && AllAscii(rest) && rest != []
    requires (|d| % 4 == 3 && pad == "=") || (|d| % 4 == 2 && pad == "==")
    ensures DecodedLength(d + pad + rest) == Err(ExcessData)
  {
    var s := d + pad + rest;
    ScanPrefixAscii(d, pad + rest);
    assert s == d + (pad + rest);
    assert forall k :: 0 <= k < |d| ==> s[k] == d[k];
    ScanData(s, |d|);
    assert s[|d|] == '=';
    if |d| % 4 == 2 {
      assert ScanFrom(s, |d|, DataState(|d|)) == ScanFrom(s, |d| + 1, Scan(2, 1, true, DataBytes(|d|)));
      assert s[|d| + 1] == '=';
    }
  }

  /** A character outside the alphabet, other than `=`, is refused wherever it comes after the data. */
  lemma NonAlphabetRefused(d: string, c: char, rest: string)
    requires AllB64(d) && !IsB64Char(c) && c != '=' && (c as int) < 128 && AllAscii(rest)
    ensures DecodedLength(d + [c] + rest) == Err(NotBase64)
  {
    var s := d + [c] + rest;
    ScanPrefixAscii(d, [c] + rest);
    assert s == d + ([c] + rest);
    assert forall k :: 0 <= k < |d| ==> s[k] == d[k];
    ScanData(s, |d|);
    assert s[|d|] == c;
  }

  /** A data character after a `=` that did not complete its group is refused. */
  lemma DiscontinuousRefused(d: string, c: char, rest: string)
    requires AllB64(d) && d != [] && |d| % 4 != 3 && IsB64Char(c) && AllAscii(rest)
    ensures DecodedLength(d + "=" + [c] + rest) == Err(DiscontinuousPadding)
  {
    var s := d + "=" + [c] + rest;
    ScanPrefixAscii(d, "=" + [c] + rest);
    assert s == d + ("=" + [c] + rest);
    assert forall k :: 0 <= k < |d| ==> s[k] == d[k];
    ScanData(s, |d|);
    assert s[|d|] == '=' && s[|d| + 1] == c;
    var st := DataState(|d|);
    var pads := if st.quad >= 2 then 1 else 0;
    assert ScanFrom(s, |d|, st) == ScanFrom(s, |d| + 1, Scan(st.quad, pads, true, st.bytes));
  }

  lemma ScanPrefixAscii(d: string, t: string)
    requires AllB64(d) && |t| > 0 && (t[0] as int) < 128 && AllAscii(t[1..])
    ensures AllAscii(d + t)
  {
    var s := d + t;
    forall i | 0 <= i < |s| ensures s[i] as int < 128 {
      if i < |d| { assert s[i] == d[i]; }
      else if i > |d| { assert s[i] == t[1..][i - |d| - 1]; }
    }
  }

  /** Strict mode refuses a text made only of padding. */
  lemma PaddingOnlyRefused()
    ensures DecodedLength("=") == Err(LeadingPadding)
    ensures DecodedLength("==") == Err(LeadingPadding)
    ensures DecodedLength("===") == Err(LeadingPadding)
  {
  }

  /** Strict mode refuses anything after the `=` that completes a group. */
  lemma ExcessDataCases()
    ensures DecodedLength("abc==") == Err(ExcessData)
    ensures DecodedLength("ab===") == Err(ExcessData)
    ensures DecodedLength("abc=a") == Err(ExcessData)
  {
    ExcessDataRefused("abc", "=", "=");
    assert "abc==" == "abc" + "=" + "=";
    ExcessDataRefused("ab", "==", "=");
    assert "ab===" == "ab" + "==" + "=";
    ExcessDataRefused("abc", "=", "a");
    assert "abc=a" == "abc" + "=" + "a";
  }

  /** Strict mode refuses data inside the padding and characters outside the alphabet. */
  lemma DiscontinuousCases()
    ensures DecodedLength("ab=c=") == Err(DiscontinuousPadding)
    ensures DecodedLength("a\nb==") == Err(NotBase64)
  {
    DiscontinuousRefused("ab", 'c', "=");
    assert "ab=c=" == "ab" + "=" + ['c'] + "=";
    NonAlphabetRefused("a", '\n', "b==");
    assert "a\nb==" == "a" + ['\n'] + "b==";
  }

  /** The data characters for the given bytes: four for every three, two or three for a short last group. */
  function EncodeData(bs: seq<Byte>): (r: string)
    ensures AllB64(r)
    ensures |r| == 4 * (|bs| / 3) + (if |bs| % 3 == 0 then 0 else |bs| % 3 + 1)
    decreases |bs|
  {
    if |bs| == 0 then ""
    else
      var b0 := bs[0] as int;
      if |bs| == 1 then [Digit(b0 / 4), Digit((b0 % 4) * 16)]
      else
        var b1 := bs[1] as int;
        if |bs| == 2 then [Digit(b0 / 4), Digit((b0 % 4) * 16 + b1 / 16), Digit((b1 % 16) * 4)]
        else
          var b2 := bs[2] as int;
          var group := [Digit(b0 / 4), Digit((b0 % 4) * 16 + b1 / 16), Digit((b1 % 16) * 4 + b2 / 64), Digit(b2 % 64)];
          var rest := EncodeData(bs[3..]);
          assert forall i :: 0 <= i < |rest| ==> (group + rest)[4 + i] == rest[i];
          group + rest
  }

  /** The padding that completes the last group of an encoding of `n` bytes. */
  function Padding(n: nat): string {
    if n % 3 == 1 then "==" else if n % 3 == 2 then "=" else ""
  }

  /** Base64 encoding with padding, as section 4 of RFC 4648 defines it. */
  function Encode(bs: seq<Byte>): (r: string)
    ensures |r| == 4 * ((|bs| + 2) / 3)
    ensures forall i :: 0 <= i < |r| ==> IsB64Char(r[i]) || (r[i] == '=' && i >= |r| - 2)
  {
    var d := EncodeData(bs);
    var r := d + Padding(|bs|);
    assert forall i :: 0 <= i < |d| ==> r[i] == d[i];
    r
  }

  lemma {:induction false} TrailingPadsAfter(d: string, pad: string)
    requires d == [] || d[|d| - 1] != '='
    requires forall i :: 0 <= i < |pad| ==> pad[i] == '='
    ensures TrailingPads(d + pad) == |pad|
    decreases |pad|
  {
    if |pad| == 0 {
      assert d + pad == d;
    } else {
      assert (d + pad)[..|d + pad| - 1] == d + pad[..|pad| - 1];
      TrailingPadsAfter(d, pad[..|pad| - 1]);
    }
  }

  /** Data characters followed by padding are ASCII. */
  lemma PaddedAscii(d: string, pad: string)
    requires AllB64(d)
    requires forall i :: 0 <= i < |pad| ==> pad[i] == '='
    ensures AllAscii(d + pad)
  {
    var s := d + pad;
    forall i | 0 <= i < |s| ensures s[i] as int < 128 {
      if i < |d| { assert s[i] == d[i]; } else { assert s[i] == pad[i - |d|]; }
    }
  }

  /** The group arithmetic of an encoding: the decoder gives back the number of bytes. */
  lemma EncodedGroups(n: nat, m: nat)
    requires m == 4 * (n / 3) + (if n % 3 == 0 then 0 else n % 3 + 1)
    ensures GroupLength(m, |Padding(n)|) == Ok(n)
  {
    var k := n / 3;
    assert n == 3 * k + n % 3;
    assert m / 4 == k && m % 4 == (if n % 3 == 0 then 0 else n % 3 + 1);
  }

  /** The group arithmetic of a canonical encoding: each `=` stands for one byte fewer. */
  lemma CanonicalGroups(len: nat, p: nat)
    requires len % 4 == 0 && p <= 2 && p <= len
    ensures GroupLength(len - p, p) == Ok(3 * (len / 4) - p)
  {
    var k := len / 4;
    assert len == 4 * k;
    if p > 0 {
      assert (len - p) / 4 == k - 1 && (len - p) % 4 == 4 - p;
    }
  }

  /** Strict decoding accepts every standard encoding, and the decoded size is the number of bytes encoded. */
  lemma EncodeDecodes(bs: seq<Byte>)
    ensures DecodedLength(Encode(bs)) == Ok(|bs|)
  {
    var d := EncodeData(bs);
    PaddedDecodes(Encode(bs), d, Padding(|bs|));
    EncodedGroups(|bs|, |d|);
  }

  /** Strict decoding in the sense of section 4 of RFC 4648: whole groups of four, `=` only to fill the last one. */
  predicate RfcCanonical(s: string) {
    |s| % 4 == 0 && TrailingPads(s) <= 2 && forall i :: 0 <= i < |s| - TrailingPads(s) ==> IsB64Char(s[i])
  }

  /** On text that section 4 of RFC 4648 accepts, the library's decoder yields the length the standard implies. */
  lemma RfcCanonicalDecodes(s: string)
    requires RfcCanonical(s)
    ensures DecodedLength(s) == Ok(3 * (|s| / 4) - TrailingPads(s))
  {
    CanonicalAsGroups(s, TrailingPads(s));
  }

  lemma CanonicalAsGroups(s: string, p: nat)
    requires RfcCanonical(s) && p == TrailingPads(s)
    ensures DecodedLength(s) == Ok(3 * (|s| / 4) - p)
  {
    var g := GroupLength(|s| - p, p);
    assert g == Ok(3 * (|s| / 4) - p) by {
      assert |s| % 4 == 0 && p <= 2 && p <= |s|;
      CanonicalGroups(|s|, p);
    }
    assert DecodedLength(s) == g by {
      CanonicalShape(s);
      SplitDecodes(s);
    }
  }

  lemma CanonicalShape(s: string)
    requires RfcCanonical(s)
    ensures PaddedShape(s)
  {
    TrailingPadsSuffix(s);
    assert forall k :: 0 <= k < |s| && s[k] == '=' ==> k >= |s| - TrailingPads(s);
  }

  /** The counted padding is a run of `=` at the end, preceded by something else. */
  lemma {:induction false} TrailingPadsSuffix(s: string)
    ensures forall i :: |s| - TrailingPads(s) <= i < |s| ==> s[i] == '='
    ensures TrailingPads(s) < |s| ==> s[|s| - TrailingPads(s) - 1] != '='
    decreases |s|
  {
    if |s| > 0 && s[|s| - 1] == '=' {
      var t := s[..|s| - 1];
      TrailingPadsSuffix(t);
      assert forall i :: 0 <= i < |t| ==> t[i] == s[i];
    }
  }

  /**
   * The library also accepts any run of `=` after complete groups (`abcd==`
   * gives three bytes), which the standard does not.
   */
  lemma ExcessPaddingAccepted(d: string, pad: string)
    requires AllB64(d) && d != [] && |d| % 4 == 0
    requires pad != [] && forall i :: 0 <= i < |pad| ==> pad[i] == '='
    ensures DecodedLength(d + pad) == Ok(3 * (|d| / 4)) && !RfcCanonical(d + pad)
  {
    PaddedDecodes(d + pad, d, pad);
    TrailingPadsAfter(d, pad);
    assert |d + pad| % 4 == |pad| % 4;
  }

  // ----- the size message -----

  /** `f"{bytes / 2**20:.2f}"`: the mebibyte count rounded half to even at two decimals. */
  function Mebibytes(bytes: nat): (r: string)
    ensures |r| >= 4 && r[|r| - 3] == '.'
  {
    var x := bytes * 100;
    var q := x / MebiByte;
    var rem := x % MebiByte;
    var h := if 2 * rem > MebiByte || (2 * rem == MebiByte && q % 2 == 1) then q + 1 else q;
    NatToString(h / 100) + "." + [DigitChar((h % 100) / 10), DigitChar(h % 10)]
  }

  /**
   * `validate_image(image_data, mime_type)`. `allowedText` is how Python
   * prints the set of allowed types, whose order depends on string hashing.
   */
  function ValidateImage(imageData: string, mimeType: string, allowedText: string): (r: Validation)
    ensures mimeType !in AllowedMimeTypes ==>
      !r.valid && r.error == "Unsupported image format: " + mimeType + ". Allowed: " + allowedText
    ensures mimeType in AllowedMimeTypes ==>
      (r.valid <==> DecodedLength(imageData).Ok? && DecodedLength(imageData).value <= MaxImageSizeMb * MebiByte)
    ensures mimeType in AllowedMimeTypes && DecodedLength(imageData).Err? ==>
      r.error == "Invalid base64 data: " + Message(DecodedLength(imageData).error)
    ensures mimeType in AllowedMimeTypes && DecodedLength(imageData).Ok? && DecodedLength(imageData).value > MaxImageSizeMb * MebiByte ==>
      Contains(r.error, "exceeds limit")
    ensures r.valid <==> r.error == ""
  {
    if mimeType !in AllowedMimeTypes then
      Validation(false, "Unsupported image format: " + mimeType + ". Allowed: " + allowedText)
    else
      var size := DecodedLength(imageData);
      if size.Err? then Validation(false, "Invalid base64 data: " + Message(size.error))
      else if size.value > MaxImageSizeMb * MebiByte then
        var pre := "Image size (" + Mebibytes(size.value) + "MB) ";
        var msg := pre + "exceeds limit (10MB)";
        assert msg == pre + "exceeds limit" + " (10MB)";
        ContainsAt(msg, "exceeds limit", |pre|);
        Validation(false, msg)
      else Validation(true, "")
  }

  /** Text that starts with `=` is not an image: the leading padding is refused before any size is known. */
  lemma LeadingPaddingInvalid(imageData: string, mimeType: string, allowedText: string)
    requires mimeType in AllowedMimeTypes && AllAscii(imageData)
    requires |imageData| > 0 && imageData[0] == '='
    ensures ValidateImage(imageData, mimeType, allowedText) == Validation(false, "Invalid base64 data: " + "Leading padding not allowed")
  {
    assert DecodedLength(imageData) == Err(LeadingPadding);
  }

  /** The size limit in megabytes, compared as a float, is the integer test on bytes: `bytes / 2**20 > 10` exactly when `bytes > 10485760`. */
  lemma SizeLimitInBytes(bytes: nat)
    ensures (bytes as real / MebiByte as real > MaxImageSizeMb as real) <==> bytes > 10485760
  {
  }

  /** A standard encoding of at most 10 MiB of an allowed type is valid. */
  lemma EncodedImageValid(bs: seq<Byte>, mimeType: string, allowedText: string)
    requires mimeType in AllowedMimeTypes && |bs| <= 10485760
    ensures ValidateImage(Encode(bs), mimeType, allowedText) == Validation(true, "")
  {
    EncodeDecodes(bs);
  }

  // ----- the image part for the vision API -----

  function DataUrl(mimeType: string, imageData: string): string {
    "data:" + mimeType + ";base64," + imageData
  }

  /** `preprocess_image_for_llm`: `{"type": "image_url", "image_url": {"url": …}}`. */
  function PreprocessImage(imageData: string, mimeType: string): (r: Json)
    ensures r.JObj? && |r.fields| == 2
    ensures Member(r, "type") == Some(JStr("image_url"))
    ensures Member(r, "image_url").Some? && Member(Member(r, "image_url").value, "url") == Some(JStr(DataUrl(mimeType, imageData)))
  {
    var fields := [Field("type", JStr("image_url")), Field("image_url", JObj([Field("url", JStr(DataUrl(mimeType, imageData)))]))];
    assert fields[..1] == [fields[0]];
    JObj(fields)
  }

  /** Reading a `data:` URL back: the media type up to the first `;`, and the text after `;base64,`. */
  function ParseDataUrl(url: string): (r: Option<(string, string)>)
    ensures r.Some? ==> ';' !in r.value.0 && url == DataUrl(r.value.0, r.value.1)
    ensures StartsWith(url, "data:") && ';' !in url ==> r.None?
  {
    if !StartsWith(url, "data:") then None
    else
      var rest := url[5..];
      var i := Find(rest, ';');
      if i >= 0 && StartsWith(rest[i..], ";base64,") then Some((rest[..i], rest[i + 8..])) else None
  }

  /** The URL carries the type and the data unchanged: both are recovered when the type has no `;`. */
  lemma DataUrlRoundTrip(mimeType: string, imageData: string)
    requires ';' !in mimeType
    ensures ParseDataUrl(DataUrl(mimeType, imageData)) == Some((mimeType, imageData))
  {
    var url := DataUrl(mimeType, imageData);
    var tail := ";base64," + imageData;
    var rest := mimeType + tail;
    assert url == "data:" + rest;
    assert url[..5] == "data:" && url[5..] == rest;
    assert Find(rest, ';') == |mimeType| by { FindAfter(mimeType, tail, ';'); }
    assert rest[|mimeType|..] == tail && rest[..|mimeType|] == mimeType;
    assert tail[..8] == ";base64," && tail[8..] == imageData;
    assert rest[|mimeType| + 8..] == imageData;
  }

  lemma FindAfter(a: string, b: string, c: char)
    requires c !in a && |b| > 0 && b[0] == c
    ensures Find(a + b, c) == |a|
  {
    var s := a + b;
    assert s[|a|] == c;
    assert s[..|a|] == a;
  }
}
