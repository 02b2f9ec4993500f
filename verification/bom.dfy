/** The byte-order-mark check (`skip_utf8_bom`): three bytes are read; when
    they are exactly the UTF-8 byte order mark `EF BB BF` reading goes on
    after them, otherwise (and when fewer than three bytes exist) the stream
    is rewound so that nothing is lost. The stream is modelled as the byte
    sequence of the file and the outcome as the offset reading resumes at. */
module Bom {

  newtype byte = x: int | 0 <= x < 256

  const Mark: seq<byte> := [0xEF, 0xBB, 0xBF]

  /** Where line reading starts. Only a leading byte order mark is skipped. */
  function StartOffset(bytes: seq<byte>): (k: nat)
    ensures k == 3 <==> |bytes| >= 3 && bytes[..3] == Mark
    ensures k == 0 <==> !(|bytes| >= 3 && bytes[..3] == Mark)
    ensures bytes[..k] == [] || bytes[..k] == Mark
  {
    if |bytes| < 3 then 0
    else if bytes[0] == 0xEF && bytes[1] == 0xBB && bytes[2] == 0xBF then
      assert bytes[..3] == Mark;
      3
    else 0
  }

  /** A file that starts with the mark is read from just after it: the mark
      is removed and nothing else. */
  lemma SkipsMark(rest: seq<byte>)
    ensures StartOffset(Mark + rest) == 3
    ensures (Mark + rest)[StartOffset(Mark + rest)..] == rest
  {
    assert (Mark + rest)[..3] == Mark;
  }

  /** A file that does not start with the mark, including one of fewer than
      three bytes, is read from its first byte. */
  lemma KeepsUnmarked(bytes: seq<byte>)
    requires |bytes| < 3 || bytes[..3] != Mark
    ensures bytes[StartOffset(bytes)..] == bytes
  {
  }
}
