/**
 * The gzip sniff: a file is taken to be gzip-compressed when its first two
 * bytes are the member header's ID1 = 0x1F and ID2 = 0x8B (section 2.3.1 of
 * RFC 1952). Nothing else of the file is inspected.
 */
module FormatDetect {
  import opened Wrappers

  type byte = b: int | 0 <= b < 256

  const GzipMagic: seq<byte> := [0x1F, 0x8B]

  /** file.read(magic, 2): the two leading bytes, or None when the stream ends first. */
  function ReadMagic(bytes: seq<byte>): Option<(byte, byte)>
  {
    if |bytes| < 2 then None else Some((bytes[0], bytes[1]))
  }

  /**
   * `file` is the file's content, or None when it cannot be opened. The result
   * is true exactly when two bytes could be read and they are the gzip magic.
   */
  function IsLikelyGzipped(file: Option<seq<byte>>): (r: bool)
    ensures r <==> file.Some? && |file.value| >= 2 && file.value[..2] == GzipMagic
  {
    match file
    case None => false
    case Some(bytes) =>
      var magic := ReadMagic(bytes);
      magic.Some? && magic.value.0 == 0x1F && magic.value.1 == 0x8B
  }

  /** Every gzip member, whatever follows its magic number, is recognised. */
  lemma GzipMemberDetected(rest: seq<byte>)
    ensures IsLikelyGzipped(Some(GzipMagic + rest))
  {
  }

  /** A FASTQ text file starts with '@' (byte 0x40) and is never taken for gzip. */
  lemma FastqTextNotDetected(bytes: seq<byte>)
    requires |bytes| > 0 && bytes[0] == 0x40
    ensures !IsLikelyGzipped(Some(bytes))
  {
  }

  /** An unopenable file, or one shorter than two bytes, is reported as not gzip. */
  lemma UnreadableNotDetected(file: Option<seq<byte>>)
    requires file.None? || |file.value| < 2
    ensures !IsLikelyGzipped(file)
  {
  }
}
