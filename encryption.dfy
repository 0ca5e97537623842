/** Reading one chunk of the waiting file and encrypting it unit by unit:
    `encryptSecrets` for one worker's range, and the dispatch-and-join of all
    workers in `getData`. */
module Encryption {
  import opened Domain
  import opened Partition

  /** Byte offset of chunk `progress` in the waiting file. */
  function ChunkOffset(c: Config, progress: nat): nat {
    progress * c.sLen * c.eachNum
  }

  /** Bytes in one chunk, S_LEN * EACH_NUM. */
  function ChunkBytes(c: Config): nat {
    c.sLen * c.eachNum
  }

  function Zeros(n: nat): seq<byte> {
    seq(n, _ => 0)
  }

  /** Seek to `off`, then read `n` bytes into a zero-initialised buffer of
      size `n`: bytes past the end of the file stay zero. */
  function ReadAt(file: seq<byte>, off: nat, n: nat): (r: seq<byte>)
    ensures |r| == n
    ensures forall j :: 0 <= j < n ==> r[j] == if off + j < |file| then file[off + j] else 0
  {
    if off + n <= |file| then file[off..off + n]
    else if off < |file| then file[off..] + Zeros(off + n - |file|)
    else Zeros(n)
  }

  /** Unit `i` of a chunk buffer ends inside the buffer. */
  lemma UnitInChunk(c: Config, i: nat)
    requires i < c.eachNum
    ensures i * c.sLen + c.sLen <= ChunkBytes(c)
  {
    MulMono(c.sLen, i + 1, c.eachNum);
    assert c.sLen * (i + 1) == i * c.sLen + c.sLen;
  }

  /** The S_LEN bytes of unit `i` in a chunk buffer. */
  function UnitAt(c: Config, buf: seq<byte>, i: nat): seq<byte>
    requires |buf| == ChunkBytes(c) && i < c.eachNum
  {
    UnitInChunk(c, i);
    buf[i * c.sLen .. i * c.sLen + c.sLen]
  }

  /** The entry for unit `i` of a chunk buffer, numbered `seqNo`. */
  function EntryAt(c: Config, e: Engine, a: SecretA, buf: seq<byte>, i: nat, seqNo: nat): SecretDto
    requires |buf| == ChunkBytes(c) && i < c.eachNum
  {
    var cipher := e.encrypt(UnitAt(c, buf, i), a);
    SecretDto(cipher.s, cipher.b, seqNo)
  }

  /** The whole encrypted chunk: unit k numbered `base + k`. */
  function ChunkEntries(c: Config, e: Engine, a: SecretA, buf: seq<byte>, base: nat): seq<SecretDto>
    requires |buf| == ChunkBytes(c)
  {
    seq(c.eachNum, k requires 0 <= k < c.eachNum => EntryAt(c, e, a, buf, k, base + k))
  }

  /** Unit k of chunk `progress` starts at byte (progress * EACH_NUM + k) * S_LEN. */
  lemma UnitStart(c: Config, progress: nat, k: nat)
    ensures (progress * c.eachNum + k) * c.sLen == ChunkOffset(c, progress) + k * c.sLen
  {
    assert (progress * c.eachNum + k) * c.sLen == progress * c.eachNum * c.sLen + k * c.sLen;
  }

  /** A slice of a read is the read of the slice. */
  lemma {:induction false} ReadAtSlice(file: seq<byte>, off: nat, n: nat, i: nat, m: nat)
    requires i + m <= n
    ensures ReadAt(file, off, n)[i .. i + m] == ReadAt(file, off + i, m)
  {
    var whole := ReadAt(file, off, n);
    var part := ReadAt(file, off + i, m);
    forall j | 0 <= j < m
      ensures whole[i + j] == part[j]
    {
    }
  }

  /** Unit k of the chunk read at offset ChunkOffset(progress) is the unit
      `progress * EACH_NUM + k` of the waiting file (zero padded alike). */
  lemma {:induction false} UnitOfChunk(c: Config, file: seq<byte>, progress: nat, k: nat)
    requires k < c.eachNum
    ensures UnitAt(c, ReadAt(file, ChunkOffset(c, progress), ChunkBytes(c)), k)
         == ReadAt(file, (progress * c.eachNum + k) * c.sLen, c.sLen)
  {
    UnitStart(c, progress, k);
    UnitInChunk(c, k);
    ReadAtSlice(file, ChunkOffset(c, progress), ChunkBytes(c), k * c.sLen, c.sLen);
  }

  /** One worker (`encryptSecrets`): encrypt units `offset` up to its end
      bound, numbering them from `progress` upwards. */
  method EncryptSecrets(c: Config, e: Engine, data: seq<byte>, progress: nat, offset: nat, secretA: SecretA, tid: nat)
    returns (vec: seq<SecretDto>)
    requires c.Valid() && tid < c.threadNum
    requires |data| == ChunkBytes(c)
    requires offset <= CurrentNum(c, tid, offset) <= c.eachNum
    ensures |vec| == CurrentNum(c, tid, offset) - offset
    ensures forall k :: 0 <= k < |vec| ==> vec[k] == EntryAt(c, e, secretA, data, offset + k, progress + k)
  {
    var currentNum := if tid != c.threadNum - 1 then offset + c.eachNum / c.threadNum else c.eachNum;
    vec := [];
    var p := progress;
    var i := offset;
    while i < currentNum
      invariant offset <= i <= currentNum
      invariant p == progress + (i - offset)
      invariant |vec| == i - offset
      invariant forall k :: 0 <= k < |vec| ==> vec[k] == EntryAt(c, e, secretA, data, offset + k, progress + k)
    {
      var cipher := e.encrypt(UnitAt(c, data, i), secretA);
      vec := vec + [SecretDto(cipher.s, cipher.b, p)];
      p := p + 1;
      i := i + 1;
    }
  }

  /** Number of units the first `t` workers cover together. */
  function Joined(c: Config, t: nat): nat
    requires c.Valid() && t <= c.threadNum
  {
    if t == 0 then 0 else ThreadEnd(c, t - 1)
  }

  /** `x` is the entry of unit `i` of the chunk, numbered `base + i`. */
  ghost predicate Slot(c: Config, e: Engine, a: SecretA, buf: seq<byte>, base: nat, i: nat, x: SecretDto)
    requires |buf| == ChunkBytes(c)
  {
    i < c.eachNum && x == EntryAt(c, e, a, buf, i, base + i)
  }

  /** `s` holds the entries of units `from`, `from + 1`, ... of the chunk,
      numbered from `base + from`. */
  ghost predicate Numbered(c: Config, e: Engine, a: SecretA, buf: seq<byte>, base: nat, from: nat, s: seq<SecretDto>)
    requires |buf| == ChunkBytes(c)
  {
    forall k :: 0 <= k < |s| ==> Slot(c, e, a, buf, base, from + k, s[k])
  }

  lemma NumberedAppend(c: Config, e: Engine, a: SecretA, buf: seq<byte>, base: nat, s: seq<SecretDto>, t: seq<SecretDto>)
    requires |buf| == ChunkBytes(c)
    requires Numbered(c, e, a, buf, base, 0, s) && Numbered(c, e, a, buf, base, |s|, t)
    ensures Numbered(c, e, a, buf, base, 0, s + t)
  {
    var st := s + t;
    forall k | 0 <= k < |st|
      ensures Slot(c, e, a, buf, base, 0 + k, st[k])
    {
      if k < |s| {
        assert st[k] == s[k] && Slot(c, e, a, buf, base, 0 + k, s[k]);
      } else {
        var i := k - |s|;
        assert st[k] == t[i] && Slot(c, e, a, buf, base, |s| + i, t[i]);
      }
    }
  }

  lemma NumberedWhole(c: Config, e: Engine, a: SecretA, buf: seq<byte>, base: nat, s: seq<SecretDto>)
    requires |buf| == ChunkBytes(c)
    requires |s| == c.eachNum && Numbered(c, e, a, buf, base, 0, s)
    ensures s == ChunkEntries(c, e, a, buf, base)
  {
    var whole := ChunkEntries(c, e, a, buf, base);
    forall k | 0 <= k < c.eachNum
      ensures s[k] == whole[k]
    {
      assert Slot(c, e, a, buf, base, 0 + k, s[k]);
    }
  }

  /** The worker results `futures` hold, worker by worker, the slices of the chunk. */
  ghost predicate WorkersDone(c: Config, e: Engine, a: SecretA, buf: seq<byte>, base: nat, futures: seq<seq<SecretDto>>)
    requires c.Valid() && |buf| == ChunkBytes(c) && |futures| <= c.threadNum
  {
    forall j :: 0 <= j < |futures| ==>
      |futures[j]| == ThreadEnd(c, j) - RangeStart(c, j) && Numbered(c, e, a, buf, base, RangeStart(c, j), futures[j])
  }

  /** Appending worker `t`'s entries to those of workers 0 to t - 1 gives
      those of workers 0 to t. */
  lemma JoinStep(c: Config, e: Engine, a: SecretA, buf: seq<byte>, base: nat, futures: seq<seq<SecretDto>>,
                 data: seq<SecretDto>, t: nat)
    requires c.Valid() && |buf| == ChunkBytes(c) && t < |futures| <= c.threadNum
    requires WorkersDone(c, e, a, buf, base, futures)
    requires |data| == Joined(c, t) && Numbered(c, e, a, buf, base, 0, data)
    ensures |data + futures[t]| == Joined(c, t + 1) && Numbered(c, e, a, buf, base, 0, data + futures[t])
  {
    assert RangeStart(c, t) == Joined(c, t);
    NumberedAppend(c, e, a, buf, base, data, futures[t]);
  }

  /** Launch one worker per range, then join them in launch order,
      appending each worker's entries: the result is the whole chunk, units
      in order, numbered from `progress * EACH_NUM`. */
  method AssembleChunk(c: Config, e: Engine, buf: seq<byte>, secretA: SecretA, progress: nat)
    returns (data: seq<SecretDto>)
    requires c.Valid() && |buf| == ChunkBytes(c)
    ensures data == ChunkEntries(c, e, secretA, buf, progress * c.eachNum)
  {
    ghost var base := progress * c.eachNum;
    var futures: seq<seq<SecretDto>> := [];
    var tid := 0;
    while tid < c.threadNum
      invariant tid <= c.threadNum && |futures| == tid
      invariant WorkersDone(c, e, secretA, buf, base, futures)
    {
      var offset := c.eachNum / c.threadNum * tid;
      assert offset == RangeStart(c, tid);
      assert CurrentNum(c, tid, offset) == ThreadEnd(c, tid);
      var res := EncryptSecrets(c, e, buf, progress * c.eachNum + offset, offset, secretA, tid);
      futures := futures + [res];
      tid := tid + 1;
    }
    data := Join(c, e, secretA, buf, base, futures);
  }

  /** Wait for the workers in launch order, appending each one's entries. */
  method Join(c: Config, e: Engine, a: SecretA, buf: seq<byte>, ghost base: nat, futures: seq<seq<SecretDto>>)
    returns (data: seq<SecretDto>)
    requires c.Valid() && |buf| == ChunkBytes(c) && |futures| == c.threadNum
    requires WorkersDone(c, e, a, buf, base, futures)
    ensures data == ChunkEntries(c, e, a, buf, base)
  {
    data := [];
    var t := 0;
    while t < |futures|
      invariant t <= |futures|
      invariant |data| == Joined(c, t) && Numbered(c, e, a, buf, base, 0, data)
    {
      JoinStep(c, e, a, buf, base, futures, data, t);
      data := data + futures[t];
      t := t + 1;
    }
    NumberedWhole(c, e, a, buf, base, data);
  }
}
