/** The tables of the gateway database and the files of the remote vault, as values.

    A transaction is one assignment of a new `Db` value, so every other operation sees it
    whole or not at all. Ids stand for `uuid4().hex`: each is drawn once. */
module Tables {
  newtype byte = n: int | 0 <= n < 0x100
  type Bytes = seq<byte>
  type Path = string
  type Id = nat
  type Time = int

  datatype Option<+T> = None | Some(value: T)

  /** Why an operation raised. */
  datatype Error =
    | RemoteFailure
    | NotFound
    | EndOfStream
    | BrokenBody
    | InvalidValue
    | IsDirectory
    | NotDirectory
    | AlreadyExists
    | NotEmpty
    | Forbidden
    | ConcurrentUpdate
    | IntegrityError

  /** The end of a call: a value, an exception, or the process stopping inside it. A handler
      for exceptions never sees `Stopped`. */
  datatype Outcome<+T> = Done(value: T) | Raised(error: Error) | Stopped {
    predicate IsFailure() {
      !Done?
    }

    function PropagateFailure<U>(): Outcome<U>
      requires IsFailure()
    {
      if Raised? then Outcome<U>.Raised(error) else Outcome<U>.Stopped
    }

    function Extract(): T
      requires Done?
    {
      value
    }
  }

  /** A digest stands for the bytes it was taken of: equal digests, equal bytes. */
  datatype Digest = Sha256(of: Bytes) | Sha512(of: Bytes)

  datatype FileRow = FileRow(manifest: Id, modified: Time, version: nat)

  datatype VersionKey = VersionKey(path: Path, version: nat)

  datatype VersionRow = VersionRow(manifest: Id, modified: Time, archived: Time)

  datatype ManifestRow =
    ManifestRow(size: nat, storedSize: nat, sha256: Digest, sha512: Digest, created: Time)

  /** Primary key of a chunk list entry: the manifest or upload it belongs to, and its place. */
  datatype Slot = Slot(owner: Id, position: nat)

  datatype ManifestChunkRow = ManifestChunkRow(chunk: Id, plainSize: nat)

  datatype ChunkRow =
    ChunkRow(size: nat, storedSize: nat, sha256: Digest, sha512: Digest, created: Time)

  datatype Status = PENDING | UPLOADING | VERIFYING | ACTIVE | FAILED {
    predicate InFlight() {
      PENDING? || UPLOADING? || VERIFYING?
    }
  }

  datatype UploadRow =
    UploadRow(path: Path, version: nat, status: Status, size: nat, manifest: Option<Id>)

  datatype MissingRow = MissingRow(firstSeen: Time, observations: nat, lastSeen: Time)

  datatype Db = Db(
    directories: set<Path>,
    files: map<Path, FileRow>,
    versions: map<VersionKey, VersionRow>,
    deleted: map<Path, Time>,
    manifests: map<Id, ManifestRow>,
    manifestChunks: map<Slot, ManifestChunkRow>,
    chunks: map<Id, ChunkRow>,
    uploads: map<Id, UploadRow>,
    uploadChunks: map<Slot, Id>,
    missing: map<Path, MissingRow>,
    lastGc: Time)

  const EMPTY_DB := Db({}, map[], map[], map[], map[], map[], map[], map[], map[], map[], 0)

  /** A file of the vault, by its directory (`objects`, `manifests`, `keys`) and object id. */
  datatype Part = Object(id: Id) | Manifest(id: Id) | Key(id: Id)

  /** The data key drawn when the object with this id was stored. */
  datatype Dek = DekOf(object: Id)

  /** A primary envelope: the key that wraps, the context it is bound to, the wrapped data key;
      `intact` is false when its bytes were damaged. */
  datatype Envelope = Envelope(keyId: Id, context: Id, dek: Dek, intact: bool)

  /** A key capsule: the primary envelopes and the recovery wrap, bound to one object. */
  datatype Capsule = Capsule(primary: seq<Envelope>, recoveryContext: Id, recoveryDek: Dek)

  /** What an encrypted object holds. */
  datatype Payload =
    | ChunkPayload(id: Id, content: Bytes)
    | ManifestPayload(id: Id, chunks: seq<Id>)

  /** What is in a file of the vault: an object sealed under its data key, so many bytes of it, or a
      key capsule. */
  datatype Content =
    | Sealed(dek: Dek, payload: Payload, length: nat)
    | KeyFile(capsule: Capsule)

  datatype Stored = Stored(content: Content, modified: Time)

  type Held = map<Part, Stored>

  /** Removing one key from a table. */
  function Without<K, V>(table: map<K, V>, key: K): (r: map<K, V>)
    ensures r.Keys == table.Keys - {key}
    ensures forall k :: k in r ==> r[k] == table[k]
  {
    map k | k in table && k != key :: table[k]
  }
}
