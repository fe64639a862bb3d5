/** Values shared by every part of the model: bytes, record data, content
    identifiers, and the ways an operation can be refused. */
module Data {

  newtype byte = x: int | 0 <= x < 256

  /** Keys are text in the program; the ones a tree accepts are ASCII, so they
      are bytes here and compare byte by byte. */
  type Key = seq<byte>

  datatype Option<+T> = None | Some(value: T) {
    function GetOr(default: T): T {
      if Some? then value else default
    }
  }

  datatype Result<+T> = Ok(value: T) | Err(error: Error)

  /** The errors the model tells apart. */
  datatype Error =
    | MissingBlock(cid: Cid)
    | Decode
    | InvalidKey(key: Key)
    | KeyExists(key: Key)
    | KeyMissing(key: Key)
    | MalformedNode(what: string)
    | NotRecordData(what: string)
    | NoRevisionAfter(rev: Key)
    | NotBlob(what: string)
    | SwapRecord(held: Option<Cid>)
    | Swap(root: Cid)
    | NoRepo
    | MalformedCar(what: string)
    | WrongCid(cid: Cid)

  /** The data model a record is written in. */
  datatype Ipld =
    | Null
    | Bool(held: bool)
    | Integer(int)
    | Float
    | Text(text: Key)
    | Bytes(bytes: seq<byte>)
    | List(items: seq<Ipld>)
    | Map(fields: map<Key, Ipld>)
    | Link(cid: Cid)

  /** The decoded form of a stored node. */
  datatype NodeData = NodeData(l: Option<Cid>, e: seq<TreeEntry>)

  /** One entry of it: `p` bytes of the key are shared with the entry before,
      `k` are its own, and `t` is whatever lies between it and the next. */
  datatype TreeEntry = TreeEntry(p: nat, k: Key, v: Cid, t: Option<Cid>)

  /** A signed tree root. The signature is a function of the other fields. */
  datatype Commit = Commit(did: Key, data: Cid, rev: Key)

  /** A content identifier, as a free term over what it is the hash of: two
      blocks share one exactly when they are the same block. */
  datatype Cid =
    | NodeCid(data: NodeData)
    | RecordCid(record: Ipld)
    | CommitCid(commit: Commit)
    | RawCid(raw: seq<byte>)

  /** A stored block, once its bytes are read. */
  datatype Block =
    | NodeBlock(data: NodeData)
    | RecordBlock(record: Ipld)
    | CommitBlock(commit: Commit)
    | RawBlock(raw: seq<byte>)
    | Garbage

  /** The identifier of a block's own bytes. */
  function BlockCid(b: Block): Option<Cid> {
    match b
    case NodeBlock(data) => Some(NodeCid(data))
    case RecordBlock(record) => Some(RecordCid(record))
    case CommitBlock(commit) => Some(CommitCid(commit))
    case RawBlock(raw) => Some(RawCid(raw))
    case Garbage => None
  }

  /** The block a CID is the hash of. */
  function BlockOf(c: Cid): (b: Block)
    ensures BlockCid(b) == Some(c)
  {
    match c
    case NodeCid(data) => NodeBlock(data)
    case RecordCid(record) => RecordBlock(record)
    case CommitCid(commit) => CommitBlock(commit)
    case RawCid(raw) => RawBlock(raw)
  }

  /** A partial map from CIDs to blocks, with no promise that a block is the
      one its CID names: that is `Honest`. */
  type Store = map<Cid, Block>

  ghost predicate Honest(store: Store) {
    forall c :: c in store ==> store[c] == BlockOf(c)
  }

  /** ASCII text as bytes. */
  function Ascii(text: string): (k: Key)
    ensures |k| == |text|
  {
    seq(|text|, i requires 0 <= i < |text| => if text[i] < 128 as char then text[i] as int as byte else 63)
  }
}
