/** The compressed meter envelope: two length bytes, id, payload, 32 checksum bytes. */
module Envelope {
  import opened Common

  const CHECKSUM_LENGTH := 32
  const MIN_LENGTH := 40
  const MAX_ID_LENGTH := 65_535

  datatype CompressedEnvelope = CompressedEnvelope(meterId: Bytes, payload: Bytes, checksum: Bytes)

  function FromBe16(hi: byte, lo: byte): (n: nat) {
    256 * hi + lo
  }

  /** `isUtf8` stands for the standard library's validity test. */
  function ParseEnvelope(isUtf8: Bytes -> bool, data: Bytes): Result<CompressedEnvelope> {
    if |data| < MIN_LENGTH then Err("envelope too short")
    else
      var idLength := FromBe16(data[0], data[1]);
      if |data| < 2 + idLength + CHECKSUM_LENGTH then Err("malformed envelope: meter_id truncated")
      else
        var id := data[2..2 + idLength];
        if !isUtf8(id) then Err("invalid utf-8 meter_id")
        else
          var payloadStart, payloadEnd := 2 + idLength, |data| - CHECKSUM_LENGTH;
          Ok(CompressedEnvelope(id, data[payloadStart..payloadEnd], data[payloadEnd..]))
  }

  /** The frame that carries an envelope. */
  function Encode(e: CompressedEnvelope): Bytes
    requires |e.meterId| <= MAX_ID_LENGTH
  {
    [|e.meterId| / 256, |e.meterId| % 256] + e.meterId + e.payload + e.checksum
  }

  predicate IsFrame(isUtf8: Bytes -> bool, e: CompressedEnvelope) {
    && |e.meterId| <= 65_535 && isUtf8(e.meterId)
    && |e.checksum| == 32
    && |e.meterId| + |e.payload| >= 6
  }

  /** Whatever is accepted re-encodes to the input, byte for byte. */
  lemma ParsedReencodes(isUtf8: Bytes -> bool, data: Bytes)
    requires ParseEnvelope(isUtf8, data).Ok?
    ensures var e := ParseEnvelope(isUtf8, data).value;
            && IsFrame(isUtf8, e) && Encode(e) == data
            && |e.meterId| == 256 * data[0] as int + data[1] as int
            && data[2..] == e.meterId + e.payload + e.checksum && |e.checksum| == 32
  {
    var n := FromBe16(data[0], data[1]);
    assert n / 256 == data[0] && n % 256 == data[1];
    var end := |data| - CHECKSUM_LENGTH;
    assert data == data[..2] + data[2..2 + n] + data[2 + n..end] + data[end..];
    assert data[..2] == [data[0], data[1]];
  }

  /** Every frame parses back to the envelope it carries. */
  lemma EncodedParses(isUtf8: Bytes -> bool, e: CompressedEnvelope)
    requires IsFrame(isUtf8, e)
    ensures ParseEnvelope(isUtf8, Encode(e)) == Ok(e)
  {
    var data, n := Encode(e), |e.meterId|;
    var end := |data| - CHECKSUM_LENGTH;
    assert data[0] == n / 256 && data[1] == n % 256;
    assert FromBe16(data[0], data[1]) == n;
    assert data[2..2 + n] == e.meterId;
    assert data[2 + n..end] == e.payload;
    assert data[end..] == e.checksum;
  }

  /** The accepted language is exactly the encodings of frames. */
  lemma AcceptedIffFrame(isUtf8: Bytes -> bool, data: Bytes)
    ensures ParseEnvelope(isUtf8, data).Ok? <==> exists e :: IsFrame(isUtf8, e) && Encode(e) == data
  {
    if ParseEnvelope(isUtf8, data).Ok? {
      ParsedReencodes(isUtf8, data);
    }
    if e :| IsFrame(isUtf8, e) && Encode(e) == data {
      EncodedParses(isUtf8, e);
    }
  }

  /** Two frames never share bytes. */
  lemma FramesAreUnambiguous(isUtf8: Bytes -> bool, a: CompressedEnvelope, b: CompressedEnvelope)
    requires IsFrame(isUtf8, a) && IsFrame(isUtf8, b) && Encode(a) == Encode(b)
    ensures a == b
  {
    EncodedParses(isUtf8, a);
    EncodedParses(isUtf8, b);
  }

  /** A frame cut below 40 bytes, or before its id and 32 more bytes, is refused; otherwise it
      is taken for a frame with the same id, whose checksum is the last 32 bytes left. */
  lemma CutFrames(isUtf8: Bytes -> bool, e: CompressedEnvelope, n: nat)
    requires IsFrame(isUtf8, e) && n <= |Encode(e)|
    ensures var r := ParseEnvelope(isUtf8, Encode(e)[..n]);
            if n < 40 then r == Err("envelope too short")
            else if n < |e.meterId| + 34 then r == Err("malformed envelope: meter_id truncated")
            else && r.Ok? && r.value.meterId == e.meterId
                 && r.value.payload + r.value.checksum == (e.payload + e.checksum)[..n - 2 - |e.meterId|]
  {
    var cut, m := Encode(e)[..n], |e.meterId|;
    if n >= MIN_LENGTH {
      assert cut[0] == m / 256 && cut[1] == m % 256;
      assert FromBe16(cut[0], cut[1]) == m;
      if n >= m + 34 {
        var header, rest := [m / 256, m % 256], e.payload + e.checksum;
        assert cut == header + e.meterId + rest[..n - 2 - m];
        assert cut[2..2 + m] == e.meterId && cut[2 + m..] == rest[..n - 2 - m];
        assert cut[2 + m..n - CHECKSUM_LENGTH] + cut[n - CHECKSUM_LENGTH..] == cut[2 + m..];
      }
    }
  }
}
