/** The encrypted form of an object: a header with nonce and tag, then metadata and content under
    one streaming cipher. The cipher itself is a parameter: a keystream masks each byte, masking
    twice gives it back, and a tag is computed from everything written. */
module Blobs {
  import opened Tables

  const MAGIC: Bytes := [0x49, 0x43, 0x43, 0x41, 0x53, 0x30, 0x33, 0]
  const NONCE_SIZE := 12
  const TAG_SIZE := 16
  const HEADER_SIZE := 36
  const LENGTH_SIZE := 4
  const MOST_METADATA := 1024 * 1024
  const IO_CHUNK_SIZE := 1024 * 1024

  /** A cipher in counter mode with a tag: what the keystream makes of a byte at a place, and the tag
      of a text under key, nonce and additional data. */
  datatype Cipher = Cipher(mask: (Bytes, Bytes, nat, byte) -> byte, mac: (Bytes, Bytes, Bytes, Bytes) -> Bytes)

  /** Masking twice gives the byte back, and tags have their size. */
  ghost predicate Sound(cipher: Cipher) {
    && (forall key, nonce, at, b :: cipher.mask(key, nonce, at, cipher.mask(key, nonce, at, b)) == b)
    && (forall key, nonce, aad, text :: |cipher.mac(key, nonce, aad, text)| == TAG_SIZE)
  }

  /** `data` masked with the keystream from place `at` on. */
  function Masked(cipher: Cipher, key: Bytes, nonce: Bytes, at: nat, data: Bytes): (r: Bytes)
    ensures |r| == |data|
  {
    seq(|data|, i requires 0 <= i < |data| => cipher.mask(key, nonce, at + i, data[i]))
  }

  lemma MaskedTwice(cipher: Cipher, key: Bytes, nonce: Bytes, at: nat, data: Bytes)
    requires Sound(cipher)
    ensures Masked(cipher, key, nonce, at, Masked(cipher, key, nonce, at, data)) == data
  {
  }

  lemma MaskedJoins(cipher: Cipher, key: Bytes, nonce: Bytes, at: nat, a: Bytes, b: Bytes)
    ensures Masked(cipher, key, nonce, at, a + b) ==
            Masked(cipher, key, nonce, at, a) + Masked(cipher, key, nonce, at + |a|, b)
  {
  }

  /** `struct.pack(">I", n)`. */
  function Packed(n: nat): (r: Bytes)
    requires n < 0x1_0000_0000
    ensures |r| == LENGTH_SIZE
  {
    [(n / 0x100_0000) as byte, (n / 0x1_0000 % 0x100) as byte, (n / 0x100 % 0x100) as byte, (n % 0x100) as byte]
  }

  function Unpacked(b: Bytes): (n: nat)
    requires |b| == LENGTH_SIZE
    ensures n < 0x1_0000_0000
  {
    b[0] as nat * 0x100_0000 + b[1] as nat * 0x1_0000 + b[2] as nat * 0x100 + b[3] as nat
  }

  lemma PackedBack(n: nat)
    requires n < 0x1_0000_0000
    ensures Unpacked(Packed(n)) == n
  {
    assert n / 0x1_0000 == n / 0x100_0000 * 0x100 + n / 0x1_0000 % 0x100;
    assert n / 0x100 == n / 0x1_0000 * 0x100 + n / 0x100 % 0x100;
  }

  lemma UnpackedBack(b: Bytes)
    requires |b| == LENGTH_SIZE
    ensures Packed(Unpacked(b)) == b
  {
    var w, x, y, z := b[0] as nat, b[1] as nat, b[2] as nat, b[3] as nat;
    var n := Unpacked(b);
    assert n / 0x100_0000 == w && n / 0x1_0000 == w * 0x100 + x && n / 0x100 == (w * 0x100 + x) * 0x100 + y;
    assert n % 0x100 == z && n / 0x100 % 0x100 == y && n / 0x1_0000 % 0x100 == x;
  }

  /** What the cipher sees: the length of the metadata, the metadata, the content. */
  function Plain(metadata: Bytes, content: Bytes): Bytes
    requires |metadata| < 0x1_0000_0000
  {
    Packed(|metadata|) + metadata + content
  }

  /** The file for some metadata and content. */
  function Encrypted(cipher: Cipher, key: Bytes, nonce: Bytes, metadata: Bytes, content: Bytes): Bytes
    requires |metadata| < 0x1_0000_0000
  {
    var text := Masked(cipher, key, nonce, 0, Plain(metadata, content));
    MAGIC + nonce + cipher.mac(key, nonce, MAGIC, text) + text
  }

  /** Byte for byte: the magic, the nonce, the tag, and under the mask the length of the metadata, most
      significant byte first, the metadata and the content. */
  lemma EncryptedBytes(cipher: Cipher, key: Bytes, nonce: Bytes, metadata: Bytes, content: Bytes)
    requires Sound(cipher) && |nonce| == 12 && |metadata| < 0x1_0000_0000
    ensures var file := Encrypted(cipher, key, nonce, metadata, content);
      && |file| == 40 + |metadata| + |content|
      && file[..8] == [0x49, 0x43, 0x43, 0x41, 0x53, 0x30, 0x33, 0] && file[8..20] == nonce
      && file[20..36] == cipher.mac(key, nonce, file[..8], file[36..])
      && var plain := Masked(cipher, key, nonce, 0, file[36..]);
      && plain[0] as nat * 0x100_0000 + plain[1] as nat * 0x1_0000 + plain[2] as nat * 0x100 + plain[3] as nat == |metadata|
      && plain[4..4 + |metadata|] == metadata && plain[4 + |metadata|..] == content
  {
    var plain := Plain(metadata, content);
    var text := Masked(cipher, key, nonce, 0, plain);
    var file := Encrypted(cipher, key, nonce, metadata, content);
    assert file == MAGIC + nonce + cipher.mac(key, nonce, MAGIC, text) + text;
    assert file[..8] == MAGIC && file[8..20] == nonce && file[36..] == text;
    MaskedTwice(cipher, key, nonce, 0, plain);
    PackedBack(|metadata|);
    assert plain[..4] == Packed(|metadata|);
  }

  /** What a file opens to: nothing unless its header is whole, its tag is right, and its metadata
      is neither too long nor cut off. */
  function Opened(cipher: Cipher, key: Bytes, file: Bytes): Option<(Bytes, Bytes)> {
    if |file| < HEADER_SIZE + LENGTH_SIZE || file[..8] != MAGIC then None
    else
      var nonce, tag, text := file[8..20], file[20..36], file[36..];
      var plain := Masked(cipher, key, nonce, 0, text);
      var size := Unpacked(plain[..4]);
      if size > MOST_METADATA || |plain| < 4 + size || cipher.mac(key, nonce, MAGIC, text) != tag then None
      else Some((plain[4..4 + size], plain[4 + size..]))
  }

  /** An encrypted file opens to what went into it, exactly when its metadata is at most 1 MiB. */
  lemma RoundTrip(cipher: Cipher, key: Bytes, nonce: Bytes, metadata: Bytes, content: Bytes)
    requires Sound(cipher) && |nonce| == NONCE_SIZE && |metadata| < 0x1_0000_0000
    ensures Opened(cipher, key, Encrypted(cipher, key, nonce, metadata, content)) ==
      if |metadata| <= 0x10_0000 then Some((metadata, content)) else None
  {
    var plain := Plain(metadata, content);
    var text := Masked(cipher, key, nonce, 0, plain);
    var tag := cipher.mac(key, nonce, MAGIC, text);
    assert |tag| == TAG_SIZE;
    var file := Encrypted(cipher, key, nonce, metadata, content);
    assert file == MAGIC + nonce + tag + text;
    assert file[..8] == MAGIC && file[8..20] == nonce && file[20..36] == tag && file[36..] == text;
    MaskedTwice(cipher, key, nonce, 0, plain);
    assert plain[..4] == Packed(|metadata|);
    PackedBack(|metadata|);
    if |metadata| <= MOST_METADATA {
      assert plain[4..4 + |metadata|] == metadata && plain[4 + |metadata|..] == content;
    }
  }

  /** And no other file opens to it: whatever opens is the encryption of what it opens to. */
  lemma OnlyEncryptedOpens(cipher: Cipher, key: Bytes, file: Bytes)
    requires Sound(cipher) && Opened(cipher, key, file).Some?
    ensures var (metadata, content) := Opened(cipher, key, file).value;
      |metadata| <= MOST_METADATA && file == Encrypted(cipher, key, file[8..20], metadata, content)
  {
    var nonce, tag, text := file[8..20], file[20..36], file[36..];
    var plain := Masked(cipher, key, nonce, 0, text);
    var (metadata, content) := Opened(cipher, key, file).value;
    UnpackedBack(plain[..4]);
    assert plain == Plain(metadata, content);
    MaskedTwice(cipher, key, nonce, 0, text);
    assert file == MAGIC + nonce + tag + text;
  }

  // ---- The streaming form ---------------------------------------------------------------

  /** A temporary file, with its position. */
  class SeekableFile {
    var data: Bytes
    var pos: nat

    constructor (data: Bytes)
      ensures this.data == data && pos == 0
    {
      this.data, pos := data, 0;
    }

    /** Writing over what is there, and beyond it. */
    method Write(piece: Bytes)
      requires pos <= |data|
      modifies this
      ensures data == old(data)[..old(pos)] + piece +
                      (if old(pos) + |piece| < |old(data)| then old(data)[old(pos) + |piece|..] else [])
      ensures pos == old(pos) + |piece| <= |data|
    {
      data := data[..pos] + piece + if pos + |piece| < |data| then data[pos + |piece|..] else [];
      pos := pos + |piece|;
    }

    method Seek(to: nat)
      modifies this`pos
      ensures pos == to
    {
      pos := to;
    }

    /** At most `size` bytes, fewer only at the end. */
    method Read(size: nat) returns (piece: Bytes)
      requires pos <= |data|
      modifies this`pos
      ensures pos == old(pos) + |piece| <= |data| && piece == data[old(pos)..pos]
      ensures |piece| == if |data| - old(pos) < size then |data| - old(pos) else size
    {
      var n := if |data| - pos < size then |data| - pos else size;
      piece := data[pos..pos + n];
      pos := pos + n;
    }
  }

  /** A cipher context: `update` may be called with pieces of any size. */
  class CipherContext {
    const cipher: Cipher
    const key: Bytes
    const nonce: Bytes
    const encrypting: bool
    /** The encrypted side of all that went through. */
    var text: Bytes
    /** And the other side. */
    ghost var plain: Bytes

    ghost predicate Valid()
      reads this
    {
      && Sound(cipher)
      && plain == Masked(cipher, key, nonce, 0, text) && text == Masked(cipher, key, nonce, 0, plain)
    }

    constructor (cipher: Cipher, key: Bytes, nonce: Bytes, encrypting: bool)
      requires Sound(cipher)
      ensures Valid() && text == [] && plain == []
      ensures this.cipher == cipher && this.key == key && this.nonce == nonce && this.encrypting == encrypting
    {
      this.cipher, this.key, this.nonce, this.encrypting, text, plain := cipher, key, nonce, encrypting, [], [];
    }

    method Update(piece: Bytes) returns (out: Bytes)
      requires Valid()
      modifies this
      ensures Valid()
      ensures text == old(text) + (if encrypting then out else piece)
      ensures plain == old(plain) + (if encrypting then piece else out)
      ensures out == Masked(cipher, key, nonce, |old(text)|, piece)
    {
      out := Masked(cipher, key, nonce, |text|, piece);
      MaskedTwice(cipher, key, nonce, |text|, piece);
      if encrypting {
        MaskedJoins(cipher, key, nonce, 0, text, out);
        MaskedJoins(cipher, key, nonce, 0, plain, piece);
        text, plain := text + out, plain + piece;
      } else {
        MaskedJoins(cipher, key, nonce, 0, text, piece);
        MaskedJoins(cipher, key, nonce, 0, plain, out);
        text, plain := text + piece, plain + out;
      }
    }

    method Tag() returns (tag: Bytes)
      ensures tag == cipher.mac(key, nonce, MAGIC, text)
    {
      tag := cipher.mac(key, nonce, MAGIC, text);
    }
  }

  /** `_encrypt_blob` on an empty file: the tag's place is filled in when everything else is
      written. It raises when the length does not fit its four bytes, after the header. */
  method EncryptBlob(cipher: Cipher, content: Bytes, metadata: Bytes, nonce: Bytes, output: SeekableFile, key: Bytes)
    returns (r: Outcome<()>)
    requires Sound(cipher) && |nonce| == NONCE_SIZE && output.data == [] && output.pos == 0
    modifies output
    ensures r.Done? <==> |metadata| < 0x1_0000_0000
    ensures r.Done? ==>
      output.data == Encrypted(cipher, key, nonce, metadata, content) && output.pos == |output.data|
  {
    hide Masked, Packed, Sound;
    var zeros: Bytes := seq(TAG_SIZE, _ => 0);
    output.Write(MAGIC + nonce + zeros);
    var encryptor := new CipherContext(cipher, key, nonce, true);
    if |metadata| >= 0x1_0000_0000 {
      return Raised(InvalidValue);
    }
    EncryptPieces(encryptor, Packed(|metadata|), metadata, content, output);
    var end := output.pos;
    output.Seek(HEADER_SIZE - 16);
    var tag := encryptor.Tag();
    TagSize(cipher, key, nonce, encryptor.text);
    BackPatched(MAGIC + nonce, zeros, tag, encryptor.text);
    output.Write(tag);
    output.Seek(end);
    r := Done(());
  }

  /** The three `update` calls, each written at the end of the file. */
  method EncryptPieces(encryptor: CipherContext, length: Bytes, metadata: Bytes, content: Bytes, output: SeekableFile)
    requires encryptor.Valid() && encryptor.encrypting && encryptor.text == [] && output.pos == |output.data|
    modifies encryptor, output
    ensures encryptor.Valid() && encryptor.plain == length + metadata + content
    ensures output.data == old(output.data) + encryptor.text && output.pos == |output.data|
  {
    hide Masked, Sound;
    var out := encryptor.Update(length);
    output.Write(out);
    out := encryptor.Update(metadata);
    output.Write(out);
    out := encryptor.Update(content);
    output.Write(out);
  }

  lemma TagSize(cipher: Cipher, key: Bytes, nonce: Bytes, text: Bytes)
    requires Sound(cipher)
    ensures |cipher.mac(key, nonce, MAGIC, text)| == TAG_SIZE
  {
  }

  lemma BackPatched(front: Bytes, zeros: Bytes, tag: Bytes, text: Bytes)
    requires |zeros| == |tag|
    ensures var before := front + zeros + text;
      before[..|front|] + tag + (if |front| + |tag| < |before| then before[|front| + |tag|..] else []) == front + tag + text
  {
    var before := front + zeros + text;
    assert before[..|front|] == front && before[|front| + |tag|..] == text;
  }

  lemma HeaderRefused(cipher: Cipher, key: Bytes, file: Bytes)
    requires |file| < HEADER_SIZE + LENGTH_SIZE || file[..8] != MAGIC
    ensures Opened(cipher, key, file) == None
  {
  }

  /** What a file with a good header opens to, from what its pieces decipher to. */
  lemma OpenedByPieces(cipher: Cipher, key: Bytes, file: Bytes, header: Bytes, text: Bytes, plain: Bytes, length: Bytes)
    requires |header| == HEADER_SIZE && header[..8] == MAGIC && file == header + text && |text| >= LENGTH_SIZE
    requires plain == Masked(cipher, key, header[8..20], 0, text) && |length| == LENGTH_SIZE && length <= plain
    ensures Opened(cipher, key, file) ==
      var size := Unpacked(length);
      if size > MOST_METADATA || |plain| < 4 + size || cipher.mac(key, header[8..20], MAGIC, text) != header[20..36] then None
      else Some((plain[4..4 + size], plain[4 + size..]))
  {
    hide Masked, Unpacked;
    assert file[..8] == header[..8] && file[8..20] == header[8..20] && file[20..36] == header[20..36];
    assert file[36..] == text;
    assert plain[..4] == length;
  }

  lemma PiecesApart(length: Bytes, metadata: Bytes, content: Bytes)
    requires |length| == LENGTH_SIZE
    ensures var plain := length + metadata + content;
      && length <= plain && plain[4..4 + |metadata|] == metadata && plain[4 + |metadata|..] == content
  {
  }

  /** The first part of a text deciphers to the first part of its plain text. */
  lemma MaskedPrefix(cipher: Cipher, key: Bytes, nonce: Bytes, first: Bytes, rest: Bytes)
    ensures Masked(cipher, key, nonce, 0, first) <= Masked(cipher, key, nonce, 0, first + rest)
  {
    MaskedJoins(cipher, key, nonce, 0, first, rest);
  }

  /** `_decrypt_blob`; it answers what `Opened` says of the file, and the tag is looked at last. */
  method DecryptBlob(cipher: Cipher, encrypted: SeekableFile, key: Bytes) returns (r: Outcome<(Bytes, Bytes)>)
    requires Sound(cipher) && encrypted.pos == 0
    modifies encrypted`pos
    ensures r == match Opened(cipher, key, encrypted.data)
                 case Some(blob) => Done(blob)
                 case None => Raised(InvalidValue)
  {
    hide Masked, Unpacked, Opened, Sound;
    ghost var file := encrypted.data;
    var header := encrypted.Read(HEADER_SIZE);
    if |header| != HEADER_SIZE {
      HeaderRefused(cipher, key, file);
      return Raised(InvalidValue);
    }
    ghost var text := file[36..];
    assert file == header + text;
    if header[..8] != MAGIC {
      assert file[..8] == header[..8];
      HeaderRefused(cipher, key, file);
      return Raised(InvalidValue);
    }
    var nonce, tag := header[8..20], header[20..36];
    var decryptor := new CipherContext(cipher, key, nonce, false);
    var lengthEncrypted := encrypted.Read(LENGTH_SIZE);
    if |lengthEncrypted| != LENGTH_SIZE {
      HeaderRefused(cipher, key, file);
      return Raised(InvalidValue);
    }
    var length := decryptor.Update(lengthEncrypted);
    assert text == lengthEncrypted + file[40..];
    MaskedPrefix(cipher, key, nonce, lengthEncrypted, file[40..]);
    OpenedByPieces(cipher, key, file, header, text, Masked(cipher, key, nonce, 0, text), length);
    var metadataSize := Unpacked(length);
    if metadataSize > MOST_METADATA {
      return Raised(InvalidValue);
    }
    r := DecryptBody(cipher, encrypted, key, decryptor, metadataSize, tag, text, length);
  }

  /** The rest of `_decrypt_blob`, once the length of the metadata is known. */
  method DecryptBody(cipher: Cipher, encrypted: SeekableFile, key: Bytes, decryptor: CipherContext, metadataSize: nat,
                     tag: Bytes, ghost text: Bytes, ghost length: Bytes) returns (r: Outcome<(Bytes, Bytes)>)
    requires decryptor.Valid() && !decryptor.encrypting && decryptor.cipher == cipher && decryptor.key == key
    requires encrypted.pos <= |encrypted.data| && text == decryptor.text + encrypted.data[encrypted.pos..]
    requires |length| == LENGTH_SIZE && decryptor.plain == length
    modifies encrypted`pos, decryptor
    ensures var plain := Masked(cipher, key, decryptor.nonce, 0, text);
      r == if |plain| < 4 + metadataSize || cipher.mac(key, decryptor.nonce, MAGIC, text) != tag
           then Raised(InvalidValue)
           else Done((plain[4..4 + metadataSize], plain[4 + metadataSize..]))
  {
    hide Masked, Sound;
    var metadataEncrypted := encrypted.Read(metadataSize);
    if |metadataEncrypted| != metadataSize {
      return Raised(InvalidValue);
    }
    var metadata := decryptor.Update(metadataEncrypted);
    var content := DecryptRest(encrypted, decryptor);
    assert decryptor.text == text;
    PiecesApart(length, metadata, content);
    var expected := decryptor.Tag();
    r := if expected == tag then Done((metadata, content)) else Raised(InvalidValue);
  }

  /** The content loop: the rest of the file, a megabyte at a time. */
  method DecryptRest(encrypted: SeekableFile, decryptor: CipherContext) returns (content: Bytes)
    requires decryptor.Valid() && !decryptor.encrypting && encrypted.pos <= |encrypted.data|
    modifies encrypted`pos, decryptor
    ensures decryptor.Valid() && decryptor.text == old(decryptor.text) + encrypted.data[old(encrypted.pos)..]
    ensures decryptor.plain == old(decryptor.plain) + content
    ensures |content| == |encrypted.data| - old(encrypted.pos)
  {
    hide Masked, Sound;
    ghost var file, start := encrypted.data, encrypted.pos;
    content := [];
    var chunk := encrypted.Read(IO_CHUNK_SIZE);
    while chunk != []
      invariant decryptor.Valid() && encrypted.data == file && start <= encrypted.pos <= |file|
      invariant decryptor.text + chunk == old(decryptor.text) + file[start..encrypted.pos]
      invariant decryptor.plain == old(decryptor.plain) + content
      invariant |content| + |chunk| == encrypted.pos - start
      invariant chunk == [] ==> encrypted.pos == |file|
      decreases |file| - encrypted.pos + |chunk|
    {
      var out := decryptor.Update(chunk);
      content := content + out;
      ghost var at := encrypted.pos;
      chunk := encrypted.Read(IO_CHUNK_SIZE);
      PiecesJoin(old(decryptor.text), file, start, at, encrypted.pos);
    }
    assert decryptor.text + [] == decryptor.text;
  }

  lemma PiecesJoin(before: Bytes, file: Bytes, a: nat, b: nat, c: nat)
    requires a <= b <= c <= |file|
    ensures before + file[a..b] + file[b..c] == before + file[a..c]
  {
  }

  // ---- The data a capsule is bound to ---------------------------------------------------

  const PREFIX: Bytes := [0x49, 0x43, 0x43, 0x41, 0x53, 0x2d, 0x4b, 0x45, 0x4d, 0x31, 0]

  /** `b"\0".join(parts)`. */
  function JoinNul(parts: seq<Bytes>): Bytes {
    if parts == [] then [] else if |parts| == 1 then parts[0] else parts[0] + [0] + JoinNul(parts[1..])
  }

  datatype Binding = Binding(id: Bytes, kem: Bytes, hybrid: bool, ciphertext: Bytes, ephemeral: Bytes)

  /** `_capsule_aad`. */
  function CapsuleAad(b: Binding): Bytes {
    PREFIX + JoinNul([b.id, b.kem, if b.hybrid then [0x31] else [0x30], b.ciphertext, b.ephemeral])
  }

  /** Names without a zero byte, and an X25519 key in hybrid mode alone. */
  predicate WellFormed(b: Binding) {
    0 !in b.id && 0 !in b.kem && |b.ephemeral| == if b.hybrid then 32 else 0
  }

  /** Two well-formed bindings with the same additional data are the same. */
  lemma AadInjective(a: Binding, b: Binding)
    requires WellFormed(a) && WellFormed(b) && CapsuleAad(a) == CapsuleAad(b)
    ensures a == b
  {
    var flagA, flagB: Bytes := if a.hybrid then [0x31] else [0x30], if b.hybrid then [0x31] else [0x30];
    var tailA, tailB := a.ciphertext + [0] + a.ephemeral, b.ciphertext + [0] + b.ephemeral;
    AadSpelled(a);
    AadSpelled(b);
    var restA, restB := a.kem + [0] + (flagA + [0] + tailA), b.kem + [0] + (flagB + [0] + tailB);
    assert CapsuleAad(a)[|PREFIX|..] == a.id + [0] + restA && CapsuleAad(b)[|PREFIX|..] == b.id + [0] + restB;
    NulSplits(a.id, restA, b.id, restB);
    NulSplits(a.kem, flagA + [0] + tailA, b.kem, flagB + [0] + tailB);
    NulSplits(flagA, tailA, flagB, tailB);
    assert a.hybrid == b.hybrid && |a.ephemeral| == |b.ephemeral|;
    assert tailA[..|a.ciphertext|] == a.ciphertext && tailB[..|b.ciphertext|] == b.ciphertext;
    assert tailA[|a.ciphertext| + 1..] == a.ephemeral && tailB[|b.ciphertext| + 1..] == b.ephemeral;
  }

  /** Byte for byte: the prefix with its zero byte, and the five parts with a zero byte between them. */
  lemma AadSpelled(b: Binding)
    ensures var flag: Bytes := if b.hybrid then [0x31] else [0x30];
      CapsuleAad(b) ==
      [0x49, 0x43, 0x43, 0x41, 0x53, 0x2d, 0x4b, 0x45, 0x4d, 0x31, 0] + (b.id + [0] + (b.kem + [0] + (flag + [0] + (b.ciphertext + [0] + b.ephemeral))))
  {
    var flag: Bytes := if b.hybrid then [0x31] else [0x30];
    var last := [b.ciphertext, b.ephemeral];
    JoinStep(b.ciphertext, [b.ephemeral]);
    JoinStep(flag, last);
    JoinStep(b.kem, [flag] + last);
    JoinStep(b.id, [b.kem] + ([flag] + last));
    assert [b.id, b.kem, flag, b.ciphertext, b.ephemeral] == [b.id] + ([b.kem] + ([flag] + last));
    assert last == [b.ciphertext] + [b.ephemeral];
  }

  lemma JoinStep(first: Bytes, rest: seq<Bytes>)
    requires rest != []
    ensures JoinNul([first] + rest) == first + [0] + JoinNul(rest)
  {
    assert ([first] + rest)[1..] == rest;
  }

  lemma NulSplits(a: Bytes, restA: Bytes, b: Bytes, restB: Bytes)
    requires 0 !in a && 0 !in b && a + [0] + restA == b + [0] + restB
    ensures a == b && restA == restB
  {
    var whole := a + [0] + restA;
    assert whole[|a|] == 0 && whole[|b|] == 0;
    assert forall i :: 0 <= i < |a| ==> whole[i] == a[i];
    assert forall i :: 0 <= i < |b| ==> whole[i] == b[i];
    assert whole[..|a|] == a && whole[..|b|] == b;
    assert whole[|a| + 1..] == restA && whole[|b| + 1..] == restB;
  }

  /** Without the rule for the length of the ephemeral key, a zero byte could belong to either of
      the last two parts. */
  lemma AadNeedsTheLength(id: Bytes, kem: Bytes)
    ensures CapsuleAad(Binding(id, kem, false, [0], [])) == CapsuleAad(Binding(id, kem, false, [], [0]))
  {
    AadSpelled(Binding(id, kem, false, [0], []));
    AadSpelled(Binding(id, kem, false, [], [0]));
    assert [0] + [0] + [] == [] + [0] + [0];
  }
}
