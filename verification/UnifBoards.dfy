/** The UNIF chunk walk that extracts a cartridge's board name. */
module UnifBoards {
  import opened Common

  type Byte = b: int | 0 <= b < 0x100

  const UNIF: seq<Byte> := [0x55, 0x4E, 0x49, 0x46]
  const MAPR: seq<Byte> := [0x4D, 0x41, 0x50, 0x52]
  const HEADER_SIZE := 32

  /** The little-endian 32-bit number at `off`. */
  function Le32(data: seq<Byte>, off: nat): (n: nat)
    requires off + 4 <= |data|
  {
    var b0: int, b1: int, b2: int, b3: int := data[off], data[off + 1], data[off + 2], data[off + 3];
    b0 + 0x100 * b1 + 0x1_0000 * b2 + 0x100_0000 * b3
  }

  /** A slice that clamps both ends to the data. */
  function Slice(data: seq<Byte>, lo: nat, hi: nat): seq<Byte>
    requires lo <= hi
  {
    var h := if hi <= |data| then hi else |data|;
    if lo <= h then data[lo..h] else []
  }

  function UpToNul(body: seq<Byte>): (r: seq<Byte>)
    ensures r <= body && 0 !in r
    ensures |r| == |body| || body[|r|] == 0
  {
    if body == [] || body[0] == 0 then [] else [body[0]] + UpToNul(body[1..])
  }

  /** ASCII, with every other byte replaced by U+FFFD. */
  function DecodeAscii(bytes: seq<Byte>): string {
    seq(|bytes|, i requires 0 <= i < |bytes| => if bytes[i] < 0x80 then bytes[i] as char else '\U{FFFD}')
  }

  function BoardFrom(data: seq<Byte>, off: nat): Option<string>
    decreases |data| - off
  {
    if off + 8 > |data| then None
    else
      var len := Le32(data, off + 4);
      if data[off..off + 4] == MAPR then Some(DecodeAscii(UpToNul(Slice(data, off + 8, off + 8 + len))))
      else BoardFrom(data, off + 8 + len)
  }

  function Board(data: seq<Byte>): Option<string> {
    if Slice(data, 0, 4) == UNIF then BoardFrom(data, HEADER_SIZE) else None
  }

  /** The parser's loop; on arbitrary bytes every turn moves the offset on by at least eight. */
  method UnifBoard(data: seq<Byte>) returns (board: Option<string>)
    ensures board == Board(data)
  {
    hide Le32, UpToNul, DecodeAscii, Slice;
    if Slice(data, 0, 4) != UNIF {
      return None;
    }
    var off: nat := HEADER_SIZE;
    var n := |data|;
    ghost var expected := BoardFrom(data, HEADER_SIZE);
    while off + 8 <= n
      invariant expected == BoardFrom(data, off)
      decreases n - off
    {
      var cid := data[off..off + 4];
      var clen := Le32(data, off + 4);
      var body := Slice(data, off + 8, off + 8 + clen);
      if cid == MAPR {
        return Some(DecodeAscii(UpToNul(body)));
      }
      off := off + 8 + clen;
    }
    return None;
  }

  // ---- The writer's side ----

  datatype Chunk = Chunk(id: seq<Byte>, body: seq<Byte>) {
    ghost predicate Valid() {
      |id| == 4 && |body| < 0x1_0000_0000
    }
  }

  function EncodeLe32(n: nat): (r: seq<Byte>)
    requires n < 0x1_0000_0000
  {
    [n % 0x100, n / 0x100 % 0x100, n / 0x1_0000 % 0x100, n / 0x100_0000]
  }

  function EncodeChunks(chunks: seq<Chunk>): seq<Byte>
    requires forall i :: 0 <= i < |chunks| ==> chunks[i].Valid()
  {
    if chunks == [] then []
    else
      assert chunks[0].Valid();
      chunks[0].id + EncodeLe32(|chunks[0].body|) + chunks[0].body + EncodeChunks(chunks[1..])
  }

  /** The body of the first MAPR chunk. */
  function FirstMapr(chunks: seq<Chunk>): Option<seq<Byte>> {
    if chunks == [] then None
    else if chunks[0].id == MAPR then Some(chunks[0].body)
    else FirstMapr(chunks[1..])
  }

  lemma Le32RoundTrip(n: nat, before: seq<Byte>, after: seq<Byte>)
    requires n < 0x1_0000_0000
    ensures Le32(before + EncodeLe32(n) + after, |before|) == n
  {
    var data := before + EncodeLe32(n) + after;
    assert data[|before|] == n % 0x100 && data[|before| + 1] == n / 0x100 % 0x100;
    assert data[|before| + 2] == n / 0x1_0000 % 0x100 && data[|before| + 3] == n / 0x100_0000;
    assert n / 0x100 / 0x100 == n / 0x1_0000 && n / 0x1_0000 / 0x100 == n / 0x100_0000;
  }

  /** Where a chunk is written, the walk reads back its id, its length and its body. */
  lemma ChunkReadBack(before: seq<Byte>, c: Chunk, rest: seq<Byte>)
    requires c.Valid()
    ensures var data := before + c.id + EncodeLe32(|c.body|) + c.body + rest;
      && |data| == |before| + 8 + |c.body| + |rest|
      && data[|before|..|before| + 4] == c.id && Le32(data, |before| + 4) == |c.body|
      && Slice(data, |before| + 8, |before| + 8 + |c.body|) == c.body
  {
    var data := before + c.id + EncodeLe32(|c.body|) + c.body + rest;
    assert data == (before + c.id) + EncodeLe32(|c.body|) + (c.body + rest);
    Le32RoundTrip(|c.body|, before + c.id, c.body + rest);
    hide Le32, EncodeLe32;
    assert data[|before|..|before| + 4] == c.id;
    assert data[|before| + 8..|before| + 8 + |c.body|] == c.body;
  }

  /** From the start of any chunk list the walk finds the first MAPR body, up to its first NUL;
      fewer than eight bytes of trailing data do not matter. */
  lemma {:induction false} WalkFindsFirstMapr(before: seq<Byte>, chunks: seq<Chunk>, tail: seq<Byte>)
    requires forall i :: 0 <= i < |chunks| ==> chunks[i].Valid()
    requires |tail| < 8
    ensures BoardFrom(before + EncodeChunks(chunks) + tail, |before|) ==
      match FirstMapr(chunks) case None => None case Some(body) => Some(DecodeAscii(UpToNul(body)))
    decreases |chunks|
  {
    hide Le32, EncodeLe32, Slice, UpToNul, DecodeAscii;
    var data := before + EncodeChunks(chunks) + tail;
    if chunks != [] {
      var c, rest := chunks[0], EncodeChunks(chunks[1..]) + tail;
      ChunkReadBack(before, c, rest);
      var next := before + c.id + EncodeLe32(|c.body|) + c.body;
      assert data == next + rest && data == next + EncodeChunks(chunks[1..]) + tail;
      WalkFindsFirstMapr(next, chunks[1..], tail);
    }
  }

  /** UNIF round trip: a file written as a header and a chunk list yields the first MAPR name. */
  lemma UnifRoundTrip(header: seq<Byte>, chunks: seq<Chunk>, tail: seq<Byte>)
    requires |header| == 32 && header[..4] == [0x55, 0x4E, 0x49, 0x46]
    requires forall i :: 0 <= i < |chunks| ==> chunks[i].Valid()
    requires |tail| < 8
    ensures Board(header + EncodeChunks(chunks) + tail) ==
      match FirstMapr(chunks) case None => None case Some(body) => Some(DecodeAscii(UpToNul(body)))
  {
    var data := header + EncodeChunks(chunks) + tail;
    assert data[0..4] == header[..4];
    WalkFindsFirstMapr(header, chunks, tail);
  }

  /** The bytes of an ASCII name. */
  function AsciiBytes(name: string): (r: seq<Byte>)
    requires forall c :: c in name ==> c < 0x80 as char
    ensures |r| == |name| && forall i :: 0 <= i < |r| ==> r[i] == name[i] as int
  {
    if name == [] then []
    else
      assert name[0] in name && forall c :: c in name[1..] ==> c in name;
      [name[0] as int] + AsciiBytes(name[1..])
  }

  lemma DecodedIs(bytes: seq<Byte>)
    ensures |DecodeAscii(bytes)| == |bytes|
    ensures forall i :: 0 <= i < |bytes| ==>
      DecodeAscii(bytes)[i] == if bytes[i] < 128 then bytes[i] as char else '\U{FFFD}'
  {
  }

  lemma {:induction false} UpToNulIs(name: seq<Byte>, padding: seq<Byte>)
    requires 0 !in name && (padding != [] ==> padding[0] == 0)
    ensures UpToNul(name + padding) == name
    decreases |name|
  {
    if name == [] {
      assert name + padding == padding;
    } else {
      assert (name + padding)[1..] == name[1..] + padding && name == [name[0]] + name[1..];
      UpToNulIs(name[1..], padding);
    }
  }

  /** The board name comes back: from a UNIF file whose first "MAPR" chunk holds an ASCII name, with or
      without a NUL and anything behind it, the parser returns that name. Other bytes become U+FFFD
      one by one (`DecodedIs`). A file without the magic number has no board. */
  lemma BoardNameReadsBack(header: seq<Byte>, before: seq<Chunk>, name: string, padding: seq<Byte>,
                           after: seq<Chunk>, tail: seq<Byte>)
    requires |header| == 32 && |tail| < 8
    requires forall i :: 0 <= i < |before| ==> before[i].Valid() && before[i].id != [0x4D, 0x41, 0x50, 0x52]
    requires forall i :: 0 <= i < |after| ==> after[i].Valid()
    requires forall c :: c in name ==> '\0' < c < 0x80 as char
    requires (padding != [] ==> padding[0] == 0) && |name| + |padding| < 0x1_0000_0000
    ensures var chunks := before + [Chunk([0x4D, 0x41, 0x50, 0x52], AsciiBytes(name) + padding)] + after;
      && (forall i :: 0 <= i < |chunks| ==> chunks[i].Valid())
      && Board(header + EncodeChunks(chunks) + tail)
         == if header[..4] == [0x55, 0x4E, 0x49, 0x46] then Some(name) else None
  {
    hide Le32, EncodeLe32, Slice, UpToNul, DecodeAscii;
    var body := AsciiBytes(name) + padding;
    var mapr := Chunk([0x4D, 0x41, 0x50, 0x52], body);
    var chunks := before + [mapr] + after;
    assert mapr.Valid();
    forall i | 0 <= i < |chunks| ensures chunks[i].Valid() {
      if i > |before| { assert chunks[i] == after[i - |before| - 1]; }
    }
    FirstMaprIs(before, mapr, after);
    NameReadsBack(name, padding);
    var data := header + EncodeChunks(chunks) + tail;
    if header[..4] == [0x55, 0x4E, 0x49, 0x46] {
      UnifRoundTrip(header, chunks, tail);
    } else {
      FirstFour(header, EncodeChunks(chunks) + tail);
      assert data == header + (EncodeChunks(chunks) + tail);
    }
  }

  lemma FirstFour(header: seq<Byte>, rest: seq<Byte>)
    requires |header| == 32
    ensures Slice(header + rest, 0, 4) == header[..4]
  {
  }

  lemma NameReadsBack(name: string, padding: seq<Byte>)
    requires forall c :: c in name ==> '\0' < c < 0x80 as char
    requires padding != [] ==> padding[0] == 0
    ensures DecodeAscii(UpToNul(AsciiBytes(name) + padding)) == name
  {
    var bytes := AsciiBytes(name);
    forall i | 0 <= i < |bytes| ensures bytes[i] != 0 { assert name[i] in name; }
    UpToNulIs(bytes, padding);
    DecodedIs(bytes);
    forall i | 0 <= i < |name| ensures DecodeAscii(bytes)[i] == name[i] { assert name[i] in name; }
    assert DecodeAscii(bytes) == name;
  }

  lemma {:induction false} FirstMaprIs(before: seq<Chunk>, mapr: Chunk, after: seq<Chunk>)
    requires mapr.id == [0x4D, 0x41, 0x50, 0x52]
    requires forall i :: 0 <= i < |before| ==> before[i].id != [0x4D, 0x41, 0x50, 0x52]
    ensures FirstMapr(before + [mapr] + after) == Some(mapr.body)
    decreases |before|
  {
    var chunks := before + [mapr] + after;
    if before != [] {
      assert chunks[0] == before[0] && chunks[1..] == before[1..] + [mapr] + after;
      FirstMaprIs(before[1..], mapr, after);
    } else {
      assert chunks[0] == mapr;
    }
  }
}
