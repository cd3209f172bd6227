/** The 96-octet key file and the object that keeps the two channel keys. */
module KeyStore {
  import opened Common
  import opened Sha256

  datatype Error = Ok | Size | Magic | Format | Cipher | Kdf | Crc32 | VerifyE | VerifyL | File

  datatype Contents = Contents(iterations: word, salt: seq<octet>, keyE: seq<octet>, keyL: seq<octet>,
                               verifyE: seq<octet>, verifyL: seq<octet>)

  /** CRC-32 over the first 92 octets comes from outside this model. */
  type Crc = seq<octet> -> word

  const FILE_SIZE := 96
  const MAGIC: seq<octet> := [0x42, 0x54, 0x50, 0x4B, 0x45, 0x59, 0x00, 0x00]  // "BTPKEY\0\0"
  const LABEL_E: seq<octet> := [0x62, 0x61, 0x6C, 0x6C, 0x79, 0x2D, 0x63, 0x61, 0x6E, 0x61, 0x6C, 0x2D, 0x62]  // "bally-canal-b"
  const LABEL_L: seq<octet> := [0x62, 0x61, 0x6C, 0x6C, 0x79, 0x2D, 0x63, 0x61, 0x6E, 0x61, 0x6C, 0x2D, 0x63]  // "bally-canal-c"

  function ReadLE(data: seq<octet>): word
    requires |data| == 4
  {
    (data[0] as word) | ((data[1] as word) << 8) | ((data[2] as word) << 16) | ((data[3] as word) << 24)
  }

  function WriteLE(w: word): (data: seq<octet>)
    ensures |data| == 4
  {
    [(w & 0xFF) as octet, ((w >> 8) & 0xFF) as octet, ((w >> 16) & 0xFF) as octet, ((w >> 24) & 0xFF) as octet]
  }

  lemma ReadWriteLE(w: word)
    ensures ReadLE(WriteLE(w)) == w
  {
  }

  lemma WriteReadLE(data: seq<octet>)
    requires |data| == 4
    ensures WriteLE(ReadLE(data)) == data
  {
  }

  // ---------------------------------------------------------------------------
  // What a key file is
  // ---------------------------------------------------------------------------

  ghost predicate Shaped(c: Contents) {
    |c.salt| == 16 && |c.keyE| == 16 && |c.keyL| == 16 && |c.verifyE| == 8 && |c.verifyL| == 8
  }

  /** Each tag is the beginning of the HMAC of its channel's label under its key. */
  ghost predicate Tagged(c: Contents) {
    && Shaped(c)
    && c.verifyE == Hmac(c.keyE, LABEL_E)[..8]
    && c.verifyL == Hmac(c.keyL, LABEL_L)[..8]
  }

  /** The octets in front of the CRC, with the two reserved areas left free. */
  ghost function Body(c: Contents, reserved: octet, padding: seq<octet>): (body: seq<octet>)
    requires Shaped(c) && |padding| == 12
    ensures |body| == 92
  {
    MAGIC + [2, 0, 1, reserved] + WriteLE(c.iterations) + c.salt + c.keyE + c.keyL + c.verifyE + c.verifyL + padding
  }

  /** The file a provisioning tool writes for `c`. */
  ghost function Image(c: Contents, reserved: octet, padding: seq<octet>, crc: Crc): (image: seq<octet>)
    requires Shaped(c) && |padding| == 12
    ensures |image| == FILE_SIZE
  {
    Body(c, reserved, padding) + WriteLE(crc(Body(c, reserved, padding)))
  }

  function Fields(data: seq<octet>): Contents
    requires |data| == FILE_SIZE
  {
    Contents(ReadLE(data[12..16]), data[16..32], data[32..48], data[48..64], data[64..72], data[72..80])
  }

  /** Whether the field `e` names is right; FILE_SIZE comes first because the others need it. */
  ghost predicate Good(e: Error, data: seq<octet>, crc: Crc) {
    match e
    case Ok => true
    case Size => |data| == FILE_SIZE
    case File => true
    case Magic => |data| == FILE_SIZE && data[..8] == MAGIC
    case Format => |data| == FILE_SIZE && data[8] == 2
    case Cipher => |data| == FILE_SIZE && data[9] == 0
    case Kdf => |data| == FILE_SIZE && data[10] == 1
    case Crc32 => |data| == FILE_SIZE && crc(data[..92]) == ReadLE(data[92..])
    case VerifyE => |data| == FILE_SIZE && TagMatches(data, 32, LABEL_E, 64)
    case VerifyL => |data| == FILE_SIZE && TagMatches(data, 48, LABEL_L, 72)
  }

  /** The tag at offset `tag` begins the HMAC of `text` under the key at offset `key`. */
  ghost predicate TagMatches(data: seq<octet>, key: nat, text: seq<octet>, tag: nat)
    requires key + 16 <= |data| && tag + 8 <= |data|
  {
    data[tag..tag + 8] == Hmac(data[key..key + 16], text)[..8]
  }

  /** The order in which the fields are reported. */
  function Rank(e: Error): nat {
    match e
    case Size => 0 case Magic => 1 case Format => 2 case Cipher => 3 case Kdf => 4
    case Crc32 => 5 case VerifyE => 6 case VerifyL => 7 case Ok => 8 case File => 9
  }

  /** The first `k` fields are right. */
  ghost predicate GoodBefore(k: nat, data: seq<octet>, crc: Crc) {
    forall e: Error :: Rank(e) < k ==> Good(e, data, crc)
  }

  /** `e` names the outermost thing that is wrong with the file. */
  ghost predicate FirstWrong(e: Error, data: seq<octet>, crc: Crc) {
    !Good(e, data, crc) && GoodBefore(Rank(e), data, crc)
  }

  lemma OneMoreGood(k: nat, e: Error, data: seq<octet>, crc: Crc)
    requires GoodBefore(k, data, crc) && Rank(e) == k && Good(e, data, crc)
    ensures GoodBefore(k + 1, data, crc)
  {
  }

  lemma AllGood(data: seq<octet>, crc: Crc)
    requires GoodBefore(8, data, crc)
    ensures Good(Size, data, crc) && Good(Magic, data, crc) && Good(Format, data, crc) && Good(Cipher, data, crc)
    ensures Good(Kdf, data, crc) && Good(Crc32, data, crc) && Good(VerifyE, data, crc) && Good(VerifyL, data, crc)
  {
  }

  lemma CutBody(data: seq<octet>)
    requires |data| == FILE_SIZE
    ensures data[..92] == data[..8] + [data[8], data[9], data[10], data[11]] + data[12..16] + data[16..32]
      + data[32..48] + data[48..64] + data[64..72] + data[72..80] + data[80..92]
    ensures data == data[..92] + data[92..]
  {
  }

  /** A file whose fields are all right is exactly the file written for the contents read from it. */
  lemma GoodMeansImage(data: seq<octet>, crc: Crc)
    requires |data| == FILE_SIZE && GoodBefore(8, data, crc)
    ensures Tagged(Fields(data)) && data == Image(Fields(data), data[11], data[80..92], crc)
  {
    AllGood(data, crc);
    WriteReadLE(data[12..16]);
    WriteReadLE(data[92..]);
    CutBody(data);
    assert Body(Fields(data), data[11], data[80..92]) == data[..92];
  }

  lemma BodyParts(c: Contents, reserved: octet, padding: seq<octet>)
    requires Shaped(c) && |padding| == 12
    ensures var body := Body(c, reserved, padding);
      && body[..8] == MAGIC && body[8] == 2 && body[9] == 0 && body[10] == 1 && body[12..16] == WriteLE(c.iterations)
      && body[16..32] == c.salt && body[32..48] == c.keyE && body[48..64] == c.keyL
      && body[64..72] == c.verifyE && body[72..80] == c.verifyL
  {
  }

  lemma ImageParts(body: seq<octet>, tail: seq<octet>)
    requires |body| == 92 && |tail| == 4
    ensures var data := body + tail;
      && data[..92] == body && data[92..] == tail && data[..8] == body[..8] && data[12..16] == body[12..16]
      && data[16..32] == body[16..32] && data[32..48] == body[32..48] && data[48..64] == body[48..64]
      && data[64..72] == body[64..72] && data[72..80] == body[72..80]
  {
  }

  /** The file written for `c` has all fields right and reads back as `c`. */
  lemma ImageIsGood(c: Contents, reserved: octet, padding: seq<octet>, crc: Crc)
    requires Tagged(c) && |padding| == 12
    ensures var data := Image(c, reserved, padding, crc);
      GoodBefore(8, data, crc) && Fields(data) == c
  {
    var body := Body(c, reserved, padding);
    BodyParts(c, reserved, padding);
    ReadWriteLE(c.iterations);
    ReadWriteLE(crc(body));
    ImageParts(body, WriteLE(crc(body)));
  }

  // ---------------------------------------------------------------------------
  // The parser
  // ---------------------------------------------------------------------------

  lemma DiffStep(diff: octet, a: octet, b: octet)
    ensures diff | (a ^ b) == 0 <==> diff == 0 && a == b
  {
  }

  /** equal_bytes. */
  method EqualBytes(left: seq<octet>, right: seq<octet>, size: nat) returns (equal: bool)
    requires size <= |left| && size <= |right|
    ensures equal <==> left[..size] == right[..size]
  {
    var diff: octet := 0;
    for i := 0 to size
      invariant diff == 0 <==> left[..i] == right[..i]
    {
      DiffStep(diff, left[i], right[i]);
      assert left[..i + 1] == left[..i] + [left[i]] && right[..i + 1] == right[..i] + [right[i]];
      diff := diff | (left[i] ^ right[i]);
    }
    equal := diff == 0;
  }

  method VerifyTagMatches(key: seq<octet>, label_: seq<octet>, expected: seq<octet>) returns (matches: bool)
    requires |expected| == 8
    ensures matches <==> expected == Hmac(key, label_)[..8]
  {
    var digest := HmacSha256(key, label_);
    matches := EqualBytes(digest, expected, 8);
    assert expected[..8] == expected;
  }

  /** The checks of parse in front of the key material. */
  method CheckHeader(data: seq<octet>, crc: Crc) returns (error: Error)
    ensures error == Ok ==> |data| == FILE_SIZE && GoodBefore(6, data, crc)
    ensures error != Ok ==> Rank(error) < 6 && FirstWrong(error, data, crc)
  {
    if |data| != FILE_SIZE { return Size; }
    for i := 0 to |MAGIC|
      invariant data[..i] == MAGIC[..i]
    {
      if data[i] != MAGIC[i] {
        assert data[..8][i] != MAGIC[i];
        return Magic;
      }
      assert data[..i + 1] == data[..i] + [data[i]] && MAGIC[..i + 1] == MAGIC[..i] + [MAGIC[i]];
    }
    assert MAGIC[..8] == MAGIC;
    if data[8] != 2 { return Format; }
    if data[9] != 0 { return Cipher; }
    if data[10] != 1 { return Kdf; }
    if crc(data[..92]) != ReadLE(data[92..]) { return Crc32; }
    return Ok;
  }

  /** The checks of parse on the two tags. */
  method CheckTags(data: seq<octet>) returns (error: Error)
    requires |data| == FILE_SIZE
    ensures error == Ok ==> TagMatches(data, 32, LABEL_E, 64) && TagMatches(data, 48, LABEL_L, 72)
    ensures error == VerifyE ==> !TagMatches(data, 32, LABEL_E, 64)
    ensures error == VerifyL ==> TagMatches(data, 32, LABEL_E, 64) && !TagMatches(data, 48, LABEL_L, 72)
    ensures error == Ok || error == VerifyE || error == VerifyL
  {
    var matches := VerifyTagMatches(data[32..48], LABEL_E, data[64..72]);
    if !matches { return VerifyE; }
    matches := VerifyTagMatches(data[48..64], LABEL_L, data[72..80]);
    return if matches then Ok else VerifyL;
  }

  lemma WrongIsNotGood(e: Error, data: seq<octet>, crc: Crc)
    requires FirstWrong(e, data, crc) && Rank(e) < 8
    ensures !GoodBefore(8, data, crc) && e != Ok && e != File
  {
  }

  lemma TagsDecide(e: Error, data: seq<octet>, crc: Crc)
    requires GoodBefore(6, data, crc)
    requires e == Ok ==> Good(VerifyE, data, crc) && Good(VerifyL, data, crc)
    requires e == VerifyE ==> !Good(VerifyE, data, crc)
    requires e == VerifyL ==> Good(VerifyE, data, crc) && !Good(VerifyL, data, crc)
    requires e == Ok || e == VerifyE || e == VerifyL
    ensures e == Ok <==> GoodBefore(8, data, crc)
    ensures e != Ok ==> FirstWrong(e, data, crc)
  {
    if e == VerifyE {
      WrongIsNotGood(e, data, crc);
    } else {
      OneMoreGood(6, VerifyE, data, crc);
      if e == VerifyL {
        WrongIsNotGood(e, data, crc);
      } else {
        OneMoreGood(7, VerifyL, data, crc);
      }
    }
  }

  /** The checks of parse, in its order. */
  method Check(data: seq<octet>, crc: Crc) returns (error: Error)
    ensures error == Ok <==> GoodBefore(8, data, crc)
    ensures error == Ok ==> |data| == FILE_SIZE
    ensures error != Ok ==> error != File && FirstWrong(error, data, crc)
  {
    error := CheckHeader(data, crc);
    if error == Ok {
      error := CheckTags(data);
      TagsDecide(error, data, crc);
    } else {
      WrongIsNotGood(error, data, crc);
    }
  }

  /** KeyStore::parse: names the first wrong field, or returns the contents when none is wrong. */
  method Parse(data: seq<octet>, crc: Crc) returns (error: Error, out: Option<Contents>)
    ensures error == Ok <==> GoodBefore(8, data, crc)
    ensures error == Ok ==> |data| == FILE_SIZE && out == Some(Fields(data))
    ensures error != Ok ==> error != File && FirstWrong(error, data, crc) && out == None
  {
    error := Check(data, crc);
    out := if error == Ok then Some(Fields(data)) else None;
  }

  /** parse accepts exactly the files a provisioning tool writes for correctly tagged contents,
      and gets those contents back. */
  lemma ParseInvertsImage(data: seq<octet>, crc: Crc)
    ensures GoodBefore(8, data, crc) <==>
      exists c, reserved, padding :: Tagged(c) && |padding| == 12 && data == Image(c, reserved, padding, crc)
    ensures forall c, reserved, padding ::
              Tagged(c) && |padding| == 12 && data == Image(c, reserved, padding, crc) ==> Fields(data) == c
  {
    forall c, reserved, padding | Tagged(c) && |padding| == 12 && data == Image(c, reserved, padding, crc)
      ensures Fields(data) == c && GoodBefore(8, data, crc)
    {
      ImageIsGood(c, reserved, padding, crc);
    }
    if GoodBefore(8, data, crc) {
      AllGood(data, crc);
      GoodMeansImage(data, crc);
    }
  }

  /** What a parse reports, octet by octet; the labels are "bally-canal-b" and "bally-canal-c". */
  lemma ParseInWords(error: Error, data: seq<octet>, crc: Crc)
    requires error == Ok ==> GoodBefore(8, data, crc)
    requires error != Ok ==> error != File && FirstWrong(error, data, crc)
    ensures error ==
      if |data| != 96 then Size
      else if data[..8] != [0x42, 0x54, 0x50, 0x4B, 0x45, 0x59, 0x00, 0x00] then Magic
      else if data[8] != 2 then Format
      else if data[9] != 0 then Cipher
      else if data[10] != 1 then Kdf
      else if crc(data[..92]) != (data[92] as word) | ((data[93] as word) << 8) | ((data[94] as word) << 16) | ((data[95] as word) << 24)
      then Crc32
      else if data[64..72] != Hmac(data[32..48], [0x62, 0x61, 0x6C, 0x6C, 0x79, 0x2D, 0x63, 0x61, 0x6E, 0x61, 0x6C, 0x2D, 0x62])[..8]
      then VerifyE
      else if data[72..80] != Hmac(data[48..64], [0x62, 0x61, 0x6C, 0x6C, 0x79, 0x2D, 0x63, 0x61, 0x6E, 0x61, 0x6C, 0x2D, 0x63])[..8]
      then VerifyL
      else Ok
    ensures error == Ok ==>
      && Fields(data).iterations
         == (data[12] as word) | ((data[13] as word) << 8) | ((data[14] as word) << 16) | ((data[15] as word) << 24)
      && Fields(data).salt == data[16..32] && Fields(data).keyE == data[32..48] && Fields(data).keyL == data[48..64]
      && Fields(data).verifyE == data[64..72] && Fields(data).verifyL == data[72..80]
  {
    if error == Ok {
      AllGood(data, crc);
    } else {
      EarlierGood(error, data, crc);
    }
  }

  lemma EarlierGood(error: Error, data: seq<octet>, crc: Crc)
    requires FirstWrong(error, data, crc)
    ensures Rank(error) > 0 ==> Good(Size, data, crc)
    ensures Rank(error) > 1 ==> Good(Magic, data, crc)
    ensures Rank(error) > 2 ==> Good(Format, data, crc)
    ensures Rank(error) > 3 ==> Good(Cipher, data, crc)
    ensures Rank(error) > 4 ==> Good(Kdf, data, crc)
    ensures Rank(error) > 5 ==> Good(Crc32, data, crc)
    ensures Rank(error) > 6 ==> Good(VerifyE, data, crc)
  {
  }

  // ---------------------------------------------------------------------------
  // The object
  // ---------------------------------------------------------------------------

  const Wiped := Contents(0, Zeros(16), Zeros(16), Zeros(16), Zeros(8), Zeros(8))

  class KeyStore {
    var contents: Contents
    var loaded: bool
    var last_error: Error

    /** Without a loaded file no key material is left in the object. */
    ghost predicate Valid()
      reads this
    {
      !loaded ==> contents == Wiped
    }

    constructor ()
      ensures Valid() && !loaded && last_error == Ok
    {
      contents, loaded, last_error := Wiped, false, Ok;
    }

    method Unload()
      modifies this`contents, this`loaded
      ensures contents == Wiped && !loaded
    {
      contents := Wiped;
      loaded := false;
    }

    /** A failed load forgets the keys held before; a successful one holds exactly the file's. */
    method Load(data: seq<octet>, crc: Crc) returns (ok: bool)
      requires Valid()
      modifies this
      ensures Valid() && loaded == ok
      ensures ok <==> GoodBefore(8, data, crc)
      ensures ok ==> |data| == FILE_SIZE && contents == Fields(data)
      ensures !ok ==> contents == Wiped && FirstWrong(last_error, data, crc)
    {
      var error, parsed := Parse(data, crc);
      if error != Ok {
        Unload();
        last_error := error;
        return false;
      }
      contents := parsed.value;
      loaded := true;
      last_error := Ok;
      return true;
    }

    function KeyE(): Option<seq<octet>>
      reads this
    {
      if loaded then Some(contents.keyE) else None
    }

    /** load_from_card: `image` is what the card returned, at most one octet more than a key file
        has; None stands for a card that is not mounted or a file that cannot be read. */
    method LoadFromCard(image: Option<seq<octet>>, crc: Crc) returns (ok: bool)
      requires Valid()
      modifies this
      ensures Valid() && loaded == ok
      ensures ok <==> image.Some? && GoodBefore(8, TakeAtMost(image.value), crc)
      ensures ok ==> |image.value| == FILE_SIZE && KeyE() == Some(image.value[32..48])
      ensures !ok ==> KeyE() == None && (last_error == File <==> image.None?)
    {
      if image.None? {
        Unload();
        last_error := File;
        return false;
      }
      ok := Load(TakeAtMost(image.value), crc);
    }
  }

  /** The read buffer holds one octet more than the file format, so longer files fail on size. */
  function TakeAtMost(file: seq<octet>): seq<octet> {
    if |file| > FILE_SIZE + 1 then file[..FILE_SIZE + 1] else file
  }
}
