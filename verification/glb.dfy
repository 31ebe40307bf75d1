/**
 * The binary glTF container (GLB) that the exporter writes in binary mode:
 * a 12-byte header (magic `glTF`, version 2, total length), a JSON chunk
 * padded with spaces to a multiple of four bytes and, when the binary
 * buffer is not empty, a BIN chunk padded with zero bytes.  The layout is
 * the one of section 4.4 ("Binary glTF Layout") of the Khronos glTF 2.0
 * specification.
 */
module Glb {
  import opened Bytes
  import opened Wrappers

  const Magic: seq<byte> := [0x67, 0x6C, 0x54, 0x46]    // "glTF"
  const Version: nat := 2
  const JsonTag: seq<byte> := [0x4A, 0x53, 0x4F, 0x4E]  // "JSON"
  const BinTag: seq<byte> := [0x42, 0x49, 0x4E, 0x00]   // "BIN\0"
  const Space: byte := 0x20
  const Zero: byte := 0x00

  /**
   * Bytes needed to bring `n` up to a multiple of four: the exporter's
   * `(4 - (n & 3)) & 3`, where `n & 3` and the final `& 3` are `% 4` on
   * the non-negative values involved.
   */
  function Padding(n: nat): (p: nat)
    ensures p < 4 && (n + p) % 4 == 0
  {
    (4 - n % 4) % 4
  }

  /** `n` copies of the byte `b`. */
  function Fill(b: byte, n: nat): (r: seq<byte>)
    ensures |r| == n && forall k :: 0 <= k < n ==> r[k] == b
  {
    seq(n, _ => b)
  }

  lemma FillStep(b: byte, n: nat)
    ensures Fill(b, n) + [b] == Fill(b, n + 1)
  {
  }

  /**
   * The `length` the exporter computes for the header: 12 bytes of header,
   * the JSON chunk (8 bytes of framing and the padded JSON) and, when the
   * padded binary length is non-zero, the BIN chunk.
   */
  function TotalLength(jsonLength: nat, binLength: nat): (r: nat)
    ensures r % 4 == 0 && jsonLength + 20 <= r
    ensures binLength > 0 <==> r > 20 + jsonLength + Padding(jsonLength)
  {
    var lengthGltf := jsonLength + Padding(jsonLength);
    var lengthBin := binLength + Padding(binLength);
    assert lengthGltf == 4 * (lengthGltf / 4) && lengthBin == 4 * (lengthBin / 4);
    12 + 8 + lengthGltf + (if lengthBin > 0 then 8 + lengthBin else 0)
  }

  /** Whether every length the exporter packs with `struct.pack("I", ...)` fits. */
  predicate Packable(json: seq<byte>, bin: seq<byte>)
  {
    FitsU32(TotalLength(|json|, |bin|))
  }

  /** The chunk contents of a GLB file, padding included. */
  datatype Container = Container(json: seq<byte>, bin: Option<seq<byte>>)

  function FileLength(c: Container): nat
  {
    12 + 8 + |c.json| + (if c.bin.Some? then 8 + |c.bin.value| else 0)
  }

  /** Chunk payloads are four-byte aligned and the whole file length fits in a u32. */
  predicate ValidContainer(c: Container)
  {
    |c.json| % 4 == 0 &&
    (c.bin.Some? ==> |c.bin.value| % 4 == 0) &&
    FitsU32(FileLength(c))
  }

  /** The byte image of a container. */
  function Serialize(c: Container): (r: seq<byte>)
    requires ValidContainer(c)
    ensures |r| == FileLength(c)
  {
    Magic + U32LE(Version) + U32LE(FileLength(c)) +
    U32LE(|c.json|) + JsonTag + c.json +
    (match c.bin
     case None => []
     case Some(b) => U32LE(|b|) + BinTag + b)
  }

  /**
   * The chunks the exporter builds from the encoded JSON and the binary
   * buffer: each padded to a multiple of four, and a BIN chunk exactly
   * when the binary buffer is not empty.
   */
  function Frame(json: seq<byte>, bin: seq<byte>): (c: Container)
    ensures c.bin.Some? <==> |bin| > 0
    ensures |c.json| == |json| + Padding(|json|)
    ensures c.bin.Some? ==> |c.bin.value| == |bin| + Padding(|bin|)
    ensures FileLength(c) == TotalLength(|json|, |bin|)
  {
    var lengthBin := |bin| + Padding(|bin|);
    Container(json + Fill(Space, Padding(|json|)),
              if lengthBin > 0 then Some(bin + Fill(Zero, Padding(|bin|))) else None)
  }

  /** The chunks of a packable pair form a valid container whose length is a multiple of four. */
  lemma FrameValid(json: seq<byte>, bin: seq<byte>)
    requires Packable(json, bin)
    ensures ValidContainer(Frame(json, bin)) && FileLength(Frame(json, bin)) % 4 == 0
  {
    var c := Frame(json, bin);
    var a := |c.json|;
    var b := if c.bin.Some? then 8 + |c.bin.value| else 0;
    assert a % 4 == 0 && b % 4 == 0;
    assert a == 4 * (a / 4) && b == 4 * (b / 4);
    assert FileLength(c) == 4 * (5 + a / 4 + b / 4);
  }

  /** The first twelve bytes of an image are the magic, the version and the file length. */
  lemma SerializeHeader(c: Container)
    requires ValidContainer(c)
    ensures var r := Serialize(c);
      r[..4] == Magic && r[4..8] == U32LE(Version) && r[8..12] == U32LE(FileLength(c))
  {
    var head := Magic + U32LE(Version) + U32LE(FileLength(c));
    var r := Serialize(c);
    assert r == head + r[12..];
    assert head[..4] == Magic && head[4..8] == U32LE(Version) && head[8..12] == U32LE(FileLength(c));
  }

  /** The GLB file the exporter writes for `json` and `bin`. */
  function Pack(json: seq<byte>, bin: seq<byte>): (r: seq<byte>)
    requires Packable(json, bin)
    ensures |r| == TotalLength(|json|, |bin|)
    ensures |r| % 4 == 0
    ensures r[..4] == Magic && r[4..8] == U32LE(Version) && r[8..12] == U32LE(|r|)
  {
    var c := Frame(json, bin);
    FrameValid(json, bin);
    SerializeHeader(c);
    Serialize(c)
  }

  datatype ParseError = Truncated | BadMagic | BadVersion | BadTotalLength | BadJsonChunk | BadBinChunk

  /**
   * Reads a GLB file back: checks the header against the file and splits
   * it into its JSON chunk and optional BIN chunk, refusing anything that
   * is not exactly one or two well-formed chunks.
   */
  function Parse(f: seq<byte>): Result<Container, ParseError>
  {
    if |f| < 20 then Err(Truncated)
    else if f[..4] != Magic then Err(BadMagic)
    else if DecodeU32(f[4..8]) != Version then Err(BadVersion)
    else if DecodeU32(f[8..12]) != |f| then Err(BadTotalLength)
    else
      var jsonLength := DecodeU32(f[12..16]);
      if f[16..20] != JsonTag || jsonLength % 4 != 0 || 20 + jsonLength > |f| then Err(BadJsonChunk)
      else
        var json := f[20..20 + jsonLength];
        var rest := f[20 + jsonLength..];
        if rest == [] then Ok(Container(json, None))
        else if |rest| < 8 then Err(BadBinChunk)
        else
          var binLength := DecodeU32(rest[..4]);
          if rest[4..8] != BinTag || binLength % 4 != 0 || 8 + binLength != |rest| then Err(BadBinChunk)
          else Ok(Container(json, Some(rest[8..])))
  }

  /** Parsing the image of a valid container gives the container back. */
  lemma {:induction false} ParseSerialize(c: Container)
    requires ValidContainer(c)
    ensures Parse(Serialize(c)) == Ok(c)
  {
    var f := Serialize(c);
    var n := |c.json|;
    DecodeEncode(Version);
    DecodeEncode(FileLength(c));
    DecodeEncode(n);
    assert f[..4] == Magic;
    assert f[4..8] == U32LE(Version);
    assert f[8..12] == U32LE(FileLength(c));
    assert f[12..16] == U32LE(n);
    assert f[16..20] == JsonTag;
    assert f[20..20 + n] == c.json;
    var rest := f[20 + n..];
    match c.bin {
      case None =>
        assert rest == [];
      case Some(b) =>
        assert rest == U32LE(|b|) + BinTag + b;
        DecodeEncode(|b|);
        assert rest[..4] == U32LE(|b|);
        assert rest[4..8] == BinTag;
        assert rest[8..] == b;
    }
  }

  /** What follows the JSON chunk in an accepted image: nothing, or the BIN chunk's framing and data. */
  lemma {:induction false} ParseTail(f: seq<byte>)
    requires Parse(f).Ok?
    ensures var c := Parse(f).value;
      var n := |c.json|;
      20 + n <= |f| && f[12..16] == U32LE(n) && f[20..20 + n] == c.json &&
      (c.bin.None? ==> |f| == 20 + n) &&
      (c.bin.Some? ==> |c.bin.value| % 4 == 0 && f[20 + n..] == U32LE(|c.bin.value|) + BinTag + c.bin.value)
  {
    var c := Parse(f).value;
    var n := DecodeU32(f[12..16]);
    EncodeDecode(f[12..16]);
    var rest := f[20 + n..];
    if c.bin.Some? {
      EncodeDecode(rest[..4]);
      assert rest == rest[..4] + rest[4..8] + rest[8..];
    }
  }

  /** Parsing accepts only canonical images: whatever it accepts, it reads back exactly. */
  lemma {:induction false} SerializeParse(f: seq<byte>)
    requires Parse(f).Ok?
    ensures ValidContainer(Parse(f).value) && Serialize(Parse(f).value) == f
  {
    var c := Parse(f).value;
    ParseTail(f);
    var n := |c.json|;
    EncodeDecode(f[4..8]);
    EncodeDecode(f[8..12]);
    assert FileLength(c) == |f|;
    var rest := f[20 + n..];
    assert f == f[..4] + f[4..8] + f[8..12] + f[12..16] + f[16..20] + f[20..20 + n] + rest;
  }

  /**
   * Round trip of the exporter's output: the JSON chunk is the encoded JSON
   * followed by fewer than four spaces, and the BIN chunk, present exactly
   * when the buffer is not empty, is the buffer followed by fewer than four
   * zero bytes.
   */
  lemma PackRoundTrip(json: seq<byte>, bin: seq<byte>)
    requires Packable(json, bin)
    ensures Parse(Pack(json, bin)).Ok?
    ensures var c := Parse(Pack(json, bin)).value;
      |c.json| % 4 == 0 && |json| <= |c.json| < |json| + 4 &&
      c.json[..|json|] == json &&
      (forall k :: |json| <= k < |c.json| ==> c.json[k] == Space) &&
      (c.bin.Some? <==> |bin| > 0) &&
      (c.bin.Some? ==>
         |c.bin.value| % 4 == 0 && |bin| <= |c.bin.value| < |bin| + 4 &&
         c.bin.value[..|bin|] == bin &&
         forall k :: |bin| <= k < |c.bin.value| ==> c.bin.value[k] == Zero)
  {
    ParseSerialize(Frame(json, bin));
  }

  /**
   * After the header comes the JSON chunk: its padded length, the `JSON`
   * tag, the JSON text and the padding spaces.
   */
  lemma JsonChunk(json: seq<byte>, bin: seq<byte>)
    requires Packable(json, bin)
    ensures var r := Pack(json, bin);
      var lengthGltf := |json| + Padding(|json|);
      20 + lengthGltf <= |r| &&
      r[12..16] == U32LE(lengthGltf) && r[16..20] == JsonTag &&
      r[20..20 + |json|] == json &&
      r[20 + |json|..20 + lengthGltf] == Fill(Space, Padding(|json|))
  {
    var c := Frame(json, bin);
    var r := Serialize(c);
    var lengthGltf := |json| + Padding(|json|);
    var pre := Magic + U32LE(Version) + U32LE(FileLength(c)) + U32LE(|c.json|) + JsonTag;
    var tail := r[20 + lengthGltf..];
    assert r == pre + c.json + tail;
    assert r[12..16] == pre[12..16];
    assert r[16..20] == pre[16..20];
    assert r[20..20 + lengthGltf] == c.json;
    assert c.json[..|json|] == json;
    assert c.json[|json|..] == Fill(Space, Padding(|json|));
  }

  /**
   * With an empty binary buffer the file ends after the JSON chunk;
   * otherwise a BIN chunk follows: the padded buffer length, the `BIN\0`
   * tag, the buffer and the padding zeros.
   */
  lemma BinChunk(json: seq<byte>, bin: seq<byte>)
    requires Packable(json, bin)
    ensures var r := Pack(json, bin);
      var lengthGltf := |json| + Padding(|json|);
      (|bin| == 0 <==> |r| == 20 + lengthGltf) &&
      (|bin| > 0 ==>
         28 + lengthGltf <= |r| &&
         r[20 + lengthGltf..24 + lengthGltf] == U32LE(|bin| + Padding(|bin|)) &&
         r[24 + lengthGltf..28 + lengthGltf] == BinTag &&
         r[28 + lengthGltf..] == bin + Fill(Zero, Padding(|bin|)))
  {
    var c := Frame(json, bin);
    var r := Serialize(c);
    var lengthGltf := |json| + Padding(|json|);
    if |bin| > 0 {
      var tail := r[20 + lengthGltf..];
      assert tail == U32LE(|c.bin.value|) + BinTag + c.bin.value;
      assert tail[..4] == U32LE(|c.bin.value|);
      assert tail[4..8] == BinTag;
      assert tail[8..] == c.bin.value;
    }
  }

  /** `Pack` spelled out as the sequence of writes the exporter issues. */
  lemma PackWrites(json: seq<byte>, bin: seq<byte>)
    requires Packable(json, bin)
    ensures var lengthGltf := |json| + Padding(|json|);
      var lengthBin := |bin| + Padding(|bin|);
      var head := Magic + U32LE(Version) + U32LE(TotalLength(|json|, |bin|)) + U32LE(lengthGltf) + JsonTag + json + Fill(Space, Padding(|json|));
      Pack(json, bin) == if lengthBin > 0 then head + U32LE(lengthBin) + BinTag + bin + Fill(Zero, Padding(|bin|)) else head
  {
    var c := Frame(json, bin);
    var pre := Magic + U32LE(Version) + U32LE(TotalLength(|json|, |bin|)) + U32LE(|c.json|) + JsonTag;
    assert pre + c.json == pre + json + Fill(Space, Padding(|json|));
    if c.bin.Some? {
      var tail := U32LE(|c.bin.value|) + BinTag + c.bin.value;
      assert tail == U32LE(|c.bin.value|) + BinTag + bin + Fill(Zero, Padding(|bin|));
      assert Serialize(c) == pre + c.json + tail;
    } else {
      assert Serialize(c) == pre + c.json + [];
    }
  }

  /** The padding loops: one write of the byte `b` per padding byte. */
  method WritePadding(file0: seq<byte>, b: byte, count: nat) returns (file: seq<byte>)
    ensures file == file0 + Fill(b, count)
  {
    file := file0;
    for i := 0 to count
      invariant file == file0 + Fill(b, i)
    {
      FillStep(b, i);
      file := file + [b];
    }
  }

  /**
   * The binary-mode writer, step by step as the exporter issues its writes:
   * header, JSON chunk header, JSON text, one space per padding byte, then
   * the BIN chunk the same way.  `struct.pack("I", length)` raises once the
   * total length no longer fits in 32 bits; by then the magic and the
   * version have been written, and `ok` is false.
   */
  method WriteGlb(json: seq<byte>, bin: seq<byte>) returns (file: seq<byte>, ok: bool)
    ensures ok <==> Packable(json, bin)
    ensures ok ==> file == Pack(json, bin)
    ensures !ok ==> file == Magic + U32LE(Version)
  {
    var lengthGltf := |json|;
    var spacesGltf := (4 - lengthGltf % 4) % 4;
    lengthGltf := lengthGltf + spacesGltf;

    var lengthBin := |bin|;
    var zerosBin := (4 - lengthBin % 4) % 4;
    lengthBin := lengthBin + zerosBin;

    var length := 12 + 8 + lengthGltf;
    if lengthBin > 0 {
      length := length + 8 + lengthBin;
    }

    file := Magic;
    file := file + U32LE(Version);
    if !FitsU32(length) {
      return file, false;
    }
    assert spacesGltf == Padding(|json|) && zerosBin == Padding(|bin|);
    assert length == TotalLength(|json|, |bin|);
    assert FitsU32(lengthGltf) && FitsU32(lengthBin);
    file := file + U32LE(length);

    file := WriteJsonChunk(file, json);

    if lengthBin > 0 {
      file := WriteBinChunk(file, bin);
    }
    ok := true;
    PackWrites(json, bin);
  }

  /** The JSON chunk's writes: its length, its tag, the text and the spaces. */
  method WriteJsonChunk(file0: seq<byte>, json: seq<byte>) returns (file: seq<byte>)
    requires FitsU32(|json| + Padding(|json|))
    ensures file == file0 + U32LE(|json| + Padding(|json|)) + JsonTag + json + Fill(Space, Padding(|json|))
  {
    file := file0 + U32LE(|json| + Padding(|json|));
    file := file + JsonTag;
    file := file + json;
    file := WritePadding(file, Space, Padding(|json|));
  }

  /** The BIN chunk's writes: its length, its tag, the data and the zeros. */
  method WriteBinChunk(file0: seq<byte>, bin: seq<byte>) returns (file: seq<byte>)
    requires FitsU32(|bin| + Padding(|bin|))
    ensures file == file0 + U32LE(|bin| + Padding(|bin|)) + BinTag + bin + Fill(Zero, Padding(|bin|))
  {
    file := file0 + U32LE(|bin| + Padding(|bin|));
    file := file + BinTag;
    file := file + bin;
    file := WritePadding(file, Zero, Padding(|bin|));
  }
}
