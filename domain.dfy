/** The entities of the secret controller: its configuration, the DTOs it
    answers with, and the abstract world it works on (a Redis-like store and a
    file system). */
module Domain {

  type byte = x: nat | x < 0x100
  type u16 = x: nat | x < 0x1_0000
  type u32 = x: nat | x < 0x1_0000_0000

  /** C++ conversion to `uint32_t`: reduction modulo 2^32. */
  function U32(x: int): u32 {
    x % 0x1_0000_0000
  }

  /** The process-wide constants the controller is compiled with. */
  datatype Config = Config(
    serverName: string,  // SERVER_NAME: the `source` of generation jobs
    serverNode: nat,     // SERVER_NODE
    progress: nat,       // PROGRESS: chunks per secret
    eachNum: nat,        // EACH_NUM: units per chunk
    sLen: nat,           // S_LEN: bytes per unit
    threadNum: nat,      // RUNNING_THREAD_NUM: encryption workers per chunk
    secretASize: nat,    // secretASize_: bytes kept in the stored file
    validCode: nat)      // SECRET_STATUS::NODE_SECRET_VALID (NODE_SECRET_INVALID is 0)
  {
    /** At least one worker; VALID is a nonzero `uint16_t`; PROGRESS is a
        `uint32_t` and no chunk offset `progress * S_LEN * EACH_NUM` (nor a
        sequence number `progress * EACH_NUM + k`) overflows 32 bits, so the
        model computes offsets on `nat`. */
    predicate Valid() {
      && threadNum >= 1
      && 0 < validCode < 0x1_0000
      && progress < 0x1_0000_0000
      && progress * eachNum < 0x1_0000_0000
      && progress * eachNum * sLen < 0x1_0000_0000
    }
  }

  /** The key vector `generateSecretA` derives from the running file. */
  type SecretA = seq<int>

  /** The two parts `LWE::encrypt` returns for one unit. */
  datatype Cipher = Cipher(s: string, b: string)

  /** The LWE primitive, deterministic and otherwise unknown. */
  datatype Engine = Engine(
    deriveA: seq<byte> -> SecretA,
    encrypt: (seq<byte>, SecretA) -> Cipher)

  /** One encrypted unit and its absolute sequence number. */
  datatype SecretDto = SecretDto(secretS: string, secretB: string, progress: nat)

  /** The payload of a successful genSecret; `nodeId` is a `UInt8`. */
  datatype GenSecretDto = GenSecretDto(nodeId: nat, randomNum: u32, index: string)

  /** The three files of a secret's life. */
  datatype Path =
    | RunningFile(index: string)                                   // {running}/{index}/{index}.bin
    | WaitingFile(index: string)                                   // {waiting}/{index}/{index}_waited.bin
    | StoredFile(serverNode: nat, clientNode: nat, index: string)  // {secrets}/node_{s}_{c}/{index}.bin

  /** A member of the validity zset of one (server node, client node) pair. */
  datatype ValidityKey = ValidityKey(serverNode: nat, clientNode: nat, index: string)

  /** A generation job, as pushed onto the generation list. */
  datatype Job = Job(
    source: string, randomNum: u32, index: string,
    serverNodeId: nat, clientNodeId: nat, value: string)

  /** The Redis-like store. */
  datatype Store = Store(
    keys: map<string, string>,          // the plain key space
    created: map<string, int>,          // creation-time zset: index -> creation score
    counts: map<string, nat>,           // progress-count zset: index -> chunks served
    validity: map<ValidityKey, nat>,    // validity zsets: score 0 (INVALID) or VALID
    jobs: seq<Job>)                     // generation list, head first

  datatype World = World(store: Store, files: map<Path, seq<byte>>)

  /** A write to the store or the file system, in the order it is issued. */
  datatype Effect =
    | SetKey(key: string, value: string)
    | LPush(job: Job)
    | ZIncrBy(index: string)
    | ZAdd(member: ValidityKey, score: nat)
    | WriteFile(path: Path)
    | RemoveFile(path: Path)

  /** What an endpoint answers: a status, a description and a payload; or an
      exception escaped it (`.value()` on an absent score); or `LOG_ASSERT`
      aborted the process; or the random-string oracle ran out before a free
      string came up (the source keeps drawing forever). */
  datatype Reply<D> =
    | Reply(status: nat, description: string, data: D)
    | Threw
    | Aborted
    | Diverged

  /** The world after one endpoint call, its reply, and its writes in order. */
  datatype Step<R> = Step(world: World, reply: R, effects: seq<Effect>)
}
