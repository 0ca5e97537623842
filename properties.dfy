/** What the three endpoints promise, stated over the step functions of
    module Lifecycle (which the class in module Controller is proved to
    follow): the order of getData's checks, what one delivery answers and
    counts, the finalization guards, the verdicts of resultReport, the index
    allocation of genSecret, and a whole delivery session from a fresh
    counter to the stored file. */
module Properties {
  import opened Wrappers
  import opened Domain
  import opened Partition
  import opened Encryption
  import opened Lifecycle

  /** getData gets past its readiness checks: both assertions hold, the
      index was created, both files exist and the waiting file opens. */
  predicate Admitted(w: World, openOk: bool, nodeId: u16, index: string) {
    && nodeId != 0 && index != []
    && index in w.store.created
    && RunningFile(index) in w.files && WaitingFile(index) in w.files
    && openOk
  }

  /** The readiness checks of getData, in order: a failed assertion aborts,
      then the first failing check answers 500 with no entries, and nothing is
      written. */
  lemma GetDataReadinessOrder(c: Config, e: Engine, w: World, openOk: bool, nodeId: u16, index: string, progress: u32)
    ensures var o := GetDataStep(c, e, w, openOk, nodeId, index, progress);
      && (nodeId == 0 || index == [] ==> o == Step(w, Aborted, []))
      && (nodeId != 0 && index != [] ==>
            && (index !in w.store.created ==>
                  o == Step(w, Reply(500, "index error or not generated", []), []))
            && (index in w.store.created && RunningFile(index) !in w.files ==>
                  o == Step(w, Reply(500, "running secret not exist", []), []))
            && (index in w.store.created && RunningFile(index) in w.files && WaitingFile(index) !in w.files ==>
                  o == Step(w, Reply(500, "waiting secret not exist", []), []))
            && (index in w.store.created && RunningFile(index) in w.files && WaitingFile(index) in w.files && !openOk ==>
                  o == Step(w, Reply(500, "waiting secret open failed", []), [])))
  {
  }

  /** A stored count of 0 answers 2^32 - 1; otherwise one less than the count
      as a `uint32_t`. */
  lemma LastProgressWraps(count: nat)
    ensures U32(count) == 0 ==> LastProgress(count) == 0xFFFF_FFFF
    ensures U32(count) > 0 ==> LastProgress(count) == U32(count) - 1
  {
  }

  /** A progress at or beyond PROGRESS answers 201 with one empty entry whose
      progress is the last delivered chunk; nothing is counted or written. An
      index that was never counted makes `.value()` throw. */
  lemma OutOfRangeAnswer(c: Config, e: Engine, w: World, openOk: bool, nodeId: u16, index: string, progress: u32)
    requires Admitted(w, openOk, nodeId, index) && progress >= c.progress
    ensures var o := GetDataStep(c, e, w, openOk, nodeId, index, progress);
      && o.world == w && o.effects == []
      && (index !in w.store.counts ==> o.reply == Threw)
      && (index in w.store.counts ==>
            o.reply == Reply(201, "secret progress error", [SecretDto("", "", LastProgress(w.store.counts[index]))]))
  {
  }

  /** getData answers 200 only after its checks passed, for a progress below
      PROGRESS, and then with the chunk. */
  lemma SuccessIsChunk(c: Config, e: Engine, w: World, openOk: bool, nodeId: u16, index: string, progress: u32)
    requires GetDataStep(c, e, w, openOk, nodeId, index, progress).reply.Reply?
    requires GetDataStep(c, e, w, openOk, nodeId, index, progress).reply.status == 200
    ensures Admitted(w, openOk, nodeId, index) && progress < c.progress
    ensures GetDataStep(c, e, w, openOk, nodeId, index, progress).reply.data
         == Chunk(c, e, e.deriveA(w.files[RunningFile(index)]), w.files[WaitingFile(index)], progress)
  {
  }

  /** Unit u of the waiting file, encrypted with key `a` and numbered u. */
  function UnitEntry(c: Config, e: Engine, a: SecretA, waiting: seq<byte>, u: nat): SecretDto {
    var cipher := e.encrypt(ReadAt(waiting, u * c.sLen, c.sLen), a);
    SecretDto(cipher.s, cipher.b, u)
  }

  /** Entry k of chunk `p` is unit p * EACH_NUM + k of the waiting file. */
  lemma {:induction false} ChunkEntry(c: Config, e: Engine, a: SecretA, waiting: seq<byte>, p: nat, k: nat)
    requires k < c.eachNum
    ensures |Chunk(c, e, a, waiting, p)| == c.eachNum
    ensures Chunk(c, e, a, waiting, p)[k] == UnitEntry(c, e, a, waiting, p * c.eachNum + k)
  {
    var buf := ReadAt(waiting, ChunkOffset(c, p), ChunkBytes(c));
    assert Chunk(c, e, a, waiting, p)[k] == EntryAt(c, e, a, buf, k, p * c.eachNum + k);
    UnitOfChunk(c, waiting, p, k);
  }

  /** A successful delivery of chunk `progress` holds EACH_NUM entries;
      entry k is unit progress * EACH_NUM + k of the waiting file (the S_LEN
      bytes at (progress * EACH_NUM + k) * S_LEN, zero padded past its end),
      encrypted with the key derived from the running file and numbered
      progress * EACH_NUM + k. */
  lemma ChunkContents(c: Config, e: Engine, w: World, openOk: bool, nodeId: u16, index: string, progress: u32)
    requires GetDataStep(c, e, w, openOk, nodeId, index, progress).reply.Reply?
    requires GetDataStep(c, e, w, openOk, nodeId, index, progress).reply.status == 200
    ensures RunningFile(index) in w.files && WaitingFile(index) in w.files
    ensures var data := GetDataStep(c, e, w, openOk, nodeId, index, progress).reply.data;
      && |data| == c.eachNum
      && forall k :: 0 <= k < c.eachNum ==>
           data[k] == UnitEntry(c, e, e.deriveA(w.files[RunningFile(index)]), w.files[WaitingFile(index)],
                                progress * c.eachNum + k)
  {
    SuccessIsChunk(c, e, w, openOk, nodeId, index, progress);
    var a := e.deriveA(w.files[RunningFile(index)]);
    var waiting := w.files[WaitingFile(index)];
    forall k | 0 <= k < c.eachNum
      ensures Chunk(c, e, a, waiting, progress)[k] == UnitEntry(c, e, a, waiting, progress * c.eachNum + k)
    {
      ChunkEntry(c, e, a, waiting, progress, k);
    }
  }

  /** Every progress below PROGRESS is served whatever the counter says: the
      call counts exactly one delivery, first of its writes, and the count
      stays even when finalization then fails. Below PROGRESS nothing else
      changes and the chunk is answered with 200. */
  lemma DeliveryCountsOnce(c: Config, e: Engine, w: World, openOk: bool, nodeId: u16, index: string, progress: u32)
    requires Admitted(w, openOk, nodeId, index) && progress < c.progress
    ensures var o := GetDataStep(c, e, w, openOk, nodeId, index, progress);
      && o.world.store.counts == w.store.counts[index := Count(w.store, index) + 1]
      && o.world.store.keys == w.store.keys && o.world.store.created == w.store.created
      && o.world.store.jobs == w.store.jobs
      && |o.effects| >= 1 && o.effects[0] == ZIncrBy(index)
      && (o.reply.Reply? ==> o.reply.status != 201)
      && (U32(Count(w.store, index) + 1) < c.progress ==>
            o == Step(w.(store := w.store.(counts := w.store.counts[index := Count(w.store, index) + 1])),
                      Reply(200, "success",
                            Chunk(c, e, e.deriveA(w.files[RunningFile(index)]), w.files[WaitingFile(index)], progress)),
                      [ZIncrBy(index)]))
  {
  }

  /** Asking twice for the same chunk is answered twice with the same
      entries and counts two deliveries. */
  lemma RepeatedProgressCountsTwice(c: Config, e: Engine, w: World, nodeId: u16, index: string, progress: u32)
    requires Admitted(w, true, nodeId, index) && progress < c.progress
    requires Count(w.store, index) + 2 < c.progress
    ensures var o1 := GetDataStep(c, e, w, true, nodeId, index, progress);
            var o2 := GetDataStep(c, e, o1.world, true, nodeId, index, progress);
      && o1.reply.Reply? && o1.reply.status == 200 && o2.reply == o1.reply
      && o2.world.store.counts == w.store.counts[index := Count(w.store, index) + 2]
      && o2.world.files == w.files
  {
    var o1 := GetDataStep(c, e, w, true, nodeId, index, progress);
    DeliveryCountsOnce(c, e, w, true, nodeId, index, progress);
    assert Count(o1.world.store, index) == Count(w.store, index) + 1;
    DeliveryCountsOnce(c, e, o1.world, true, nodeId, index, progress);
  }

  /** The delivery that brings the counter to PROGRESS finalizes the secret.
      A validity entry that is missing throws; a nonzero one answers "current
      secret have been added"; an existing stored file answers "current
      secret exists"; in these cases no file is written or removed and no
      validity score changes. Otherwise
      the stored file receives the first secretASize_ bytes of the waiting
      file, the validity score is set to INVALID and the waiting file is
      removed, in this order, and the chunk is answered. */
  lemma FinalizationGuards(c: Config, e: Engine, w: World, nodeId: u16, index: string, progress: u32)
    requires Admitted(w, true, nodeId, index) && progress < c.progress
    requires U32(Count(w.store, index) + 1) >= c.progress
    ensures var o := GetDataStep(c, e, w, true, nodeId, index, progress);
            var vk := ValidityKey(c.serverNode, nodeId, index);
            var stored := StoredFile(c.serverNode, nodeId, index);
            var waiting := w.files[WaitingFile(index)];
      && (vk !in w.store.validity ==>
            && o.reply == Threw
            && o.world.files == w.files && o.world.store.validity == w.store.validity
            && o.effects == [ZIncrBy(index)])
      && (vk in w.store.validity && w.store.validity[vk] != INVALID ==>
            && o.reply == Reply(500, "current secret have been added", [])
            && o.world.files == w.files && o.world.store.validity == w.store.validity
            && o.effects == [ZIncrBy(index)])
      && (vk in w.store.validity && w.store.validity[vk] == INVALID && stored in w.files ==>
            && o.reply == Reply(500, "current secret exists", [])
            && o.world.files == w.files && o.world.store.validity == w.store.validity
            && o.effects == [ZIncrBy(index)])
      && (vk in w.store.validity && w.store.validity[vk] == INVALID && stored !in w.files ==>
            && o.reply == Reply(200, "success", Chunk(c, e, e.deriveA(w.files[RunningFile(index)]), waiting, progress))
            && o.world.files == w.files[stored := StoredBytes(c, waiting, ChunkOffset(c, progress))] - {WaitingFile(index)}
            && o.world.store.validity == w.store.validity[vk := INVALID]
            && o.effects == [ZIncrBy(index), WriteFile(stored), ZAdd(vk, INVALID), RemoveFile(WaitingFile(index))])
  {
  }

  /** A file in the stored area is never overwritten or deleted by any of
      the three endpoints. */
  lemma StoredFilesPreserved(c: Config, e: Engine, w: World, p: Path,
                             openOk: bool, nodeId: u16, index: string, progress: u32,
                             isValidArg: Option<u16>,
                             candidates: seq<string>, randomNum: u32, setOk: bool, pushOk: bool)
    requires p.StoredFile? && p in w.files
    ensures var o := GetDataStep(c, e, w, openOk, nodeId, index, progress);
      p in o.world.files && o.world.files[p] == w.files[p]
    ensures var o := ResultReportStep(c, w, nodeId, index, isValidArg);
      p in o.world.files && o.world.files[p] == w.files[p]
    ensures var o := GenSecretStep(c, w, nodeId, candidates, randomNum, setOk, pushOk);
      p in o.world.files && o.world.files[p] == w.files[p]
  {
  }

  /** A call to one of the three endpoints, with the outcomes of the
      oracles it consults. */
  datatype Call =
    | GenSecretCall(nodeId: u16, candidates: seq<string>, randomNum: u32, setOk: bool, pushOk: bool)
    | GetDataCall(openOk: bool, nodeId: u16, index: string, progress: u32)
    | ResultReportCall(nodeId: u16, index: string, isValidArg: Option<u16>)

  /** The world `call` leaves behind. */
  function After(c: Config, e: Engine, w: World, call: Call): World {
    match call
    case GenSecretCall(nodeId, candidates, randomNum, setOk, pushOk) =>
      GenSecretStep(c, w, nodeId, candidates, randomNum, setOk, pushOk).world
    case GetDataCall(openOk, nodeId, index, progress) =>
      GetDataStep(c, e, w, openOk, nodeId, index, progress).world
    case ResultReportCall(nodeId, index, isValidArg) =>
      ResultReportStep(c, w, nodeId, index, isValidArg).world
  }

  /** The world after `calls`, in order. */
  function AfterAll(c: Config, e: Engine, w: World, calls: seq<Call>): World
    decreases |calls|
  {
    if calls == [] then w else AfterAll(c, e, After(c, e, w, calls[0]), calls[1..])
  }

  /** `index` was created and keeps its running file, but its waiting file
      is gone. */
  predicate Drained(w: World, index: string) {
    index in w.store.created && RunningFile(index) in w.files && WaitingFile(index) !in w.files
  }

  lemma DrainedStays(c: Config, e: Engine, w: World, index: string, call: Call)
    requires Drained(w, index)
    ensures Drained(After(c, e, w, call), index)
  {
  }

  /** No sequence of calls brings a waiting file back, removes a creation
      entry or removes a running file. */
  lemma {:induction false} DrainedForever(c: Config, e: Engine, w: World, index: string, calls: seq<Call>)
    requires Drained(w, index)
    ensures Drained(AfterAll(c, e, w, calls), index)
    decreases |calls|
  {
    if calls != [] {
      DrainedStays(c, e, w, index, calls[0]);
      DrainedForever(c, e, After(c, e, w, calls[0]), index, calls[1..]);
    }
  }

  /** Once a secret has been moved to the stored area, asking for any chunk
      of it again, by any client and after any further calls, is refused:
      its waiting file is gone. */
  lemma NoDeliveryAfterFinalization(c: Config, e: Engine, w: World, nodeId: u16, index: string, progress: u32,
                                    calls: seq<Call>, other: u16, openOk: bool, again: u32)
    requires Admitted(w, true, nodeId, index) && progress < c.progress
    requires GetDataStep(c, e, w, true, nodeId, index, progress).effects
             == [ZIncrBy(index), WriteFile(StoredFile(c.serverNode, nodeId, index)),
                 ZAdd(ValidityKey(c.serverNode, nodeId, index), INVALID), RemoveFile(WaitingFile(index))]
    requires other != 0
    ensures var o := GetDataStep(c, e, w, true, nodeId, index, progress);
      GetDataStep(c, e, AfterAll(c, e, o.world, calls), openOk, other, index, again).reply
        == Reply(500, "waiting secret not exist", [])
  {
    var o := GetDataStep(c, e, w, true, nodeId, index, progress);
    assert Drained(o.world, index);
    DrainedForever(c, e, o.world, index, calls);
  }

  /** resultReport: an unknown index answers 500 and writes nothing; VALID
      is recorded and answered with "valid success"; any other verdict
      (including a missing one) records INVALID first and then answers 500
      when the stored file is missing and 200 when it exists. No file is
      touched in any case. VALID must differ from INVALID: otherwise a missing
      verdict would count as VALID. */
  lemma ResultReportOutcomes(c: Config, w: World, nodeId: u16, index: string, isValidArg: Option<u16>)
    requires c.validCode != INVALID && nodeId != 0 && index != []
    ensures var o := ResultReportStep(c, w, nodeId, index, isValidArg);
            var vk := ValidityKey(c.serverNode, nodeId, index);
            var stored := StoredFile(c.serverNode, nodeId, index);
      && o.world.files == w.files
      && (index !in w.store.created ==>
            o == Step(w, Reply(500, "index error or not generated", []), []))
      && (index in w.store.created && isValidArg.Some? && isValidArg.value == c.validCode ==>
            && o.reply == Reply(200, "valid success", [])
            && o.world.store == w.store.(validity := w.store.validity[vk := c.validCode])
            && o.effects == [ZAdd(vk, c.validCode)])
      && (index in w.store.created && !(isValidArg.Some? && isValidArg.value == c.validCode) ==>
            && o.world.store == w.store.(validity := w.store.validity[vk := INVALID])
            && o.effects == [ZAdd(vk, INVALID)]
            && o.reply == (if stored in w.files then Reply(200, "success", [])
                           else Reply(500, "current secret not exist", [])))
  {
  }

  /** genSecret settles on the first candidate that is neither a plain key
      nor a created index (when none is, the source draws forever). A failed
      SET then writes nothing; a failed LPUSH leaves the key marker and pushes
      nothing; on success the key is set to "1", exactly one job is put at the
      head of the generation list, and the index is answered. Files, creation
      times, counts and validity scores are untouched. */
  lemma GenSecretAllocates(c: Config, w: World, nodeId: u16, candidates: seq<string>, randomNum: u32,
                           setOk: bool, pushOk: bool, i: nat)
    requires nodeId != 0 && i < |candidates|
    requires Free(w.store, candidates[i]) && forall j :: 0 <= j < i ==> !Free(w.store, candidates[j])
    ensures var o := GenSecretStep(c, w, nodeId, candidates, randomNum, setOk, pushOk);
            var index := candidates[i];
            var job := GenJob(c, randomNum, index, nodeId);
      && o.world.files == w.files && o.world.store.created == w.store.created
      && o.world.store.counts == w.store.counts && o.world.store.validity == w.store.validity
      && (!setOk ==> o == Step(w, Reply(500, "randomStr set error", None), []))
      && (setOk && !pushOk ==>
            && o.reply == Reply(500, "json lpush error", None)
            && o.world.store.keys == w.store.keys[index := "1"] && o.world.store.jobs == w.store.jobs
            && o.effects == [SetKey(index, "1")])
      && (setOk && pushOk ==>
            && o.reply == Reply(200, "success", Some(GenSecretDto(c.serverNode % 0x100, randomNum, index)))
            && o.world.store.keys == w.store.keys[index := "1"]
            && o.world.store.jobs == [job] + w.store.jobs
            && o.effects == [SetKey(index, "1"), LPush(job)])
  {
    FirstFreeIsFirst(w.store, candidates, i);
  }

  /** The first free candidate is the one FirstFree finds. */
  lemma {:induction false} FirstFreeIsFirst(s: Store, candidates: seq<string>, i: nat)
    requires i < |candidates| && Free(s, candidates[i])
    requires forall j :: 0 <= j < i ==> !Free(s, candidates[j])
    ensures FirstFree(s, candidates) == Some(i)
  {
    if i > 0 {
      FirstFreeIsFirst(s, candidates[1..], i - 1);
    }
  }

  /** An index genSecret has just allocated is not yet created, so getData
      on it is refused until the generator has produced its files. */
  lemma FreshIndexNotReady(c: Config, e: Engine, w: World, nodeId: u16, candidates: seq<string>, randomNum: u32,
                           client: u16, progress: u32)
    requires client != 0 && forall j :: 0 <= j < |candidates| ==> candidates[j] != []
    requires GenSecretStep(c, w, nodeId, candidates, randomNum, true, true).reply.Reply?
    ensures var o := GenSecretStep(c, w, nodeId, candidates, randomNum, true, true);
            var index := o.reply.data.value.index;
      GetDataStep(c, e, o.world, true, client, index, progress).reply == Reply(500, "index error or not generated", [])
  {
    var i := FirstFree(w.store, candidates).value;
    assert FirstFree(w.store, candidates) == Some(i);
  }

  // ---------------------------------------------------------------------
  // A whole delivery session

  /** The whole secret as the client reassembles it: unit u of the waiting
      file, encrypted with key `a` and numbered u, for every unit of every
      chunk. */
  function SecretEntries(c: Config, e: Engine, a: SecretA, waiting: seq<byte>): (r: seq<SecretDto>)
    ensures |r| == c.progress * c.eachNum
  {
    seq(c.progress * c.eachNum, u requires 0 <= u => UnitEntry(c, e, a, waiting, u))
  }

  /** The entries of the whole secret from chunk `from` on. */
  function Rest(c: Config, e: Engine, a: SecretA, waiting: seq<byte>, from: nat): (r: seq<SecretDto>)
    requires from <= c.progress
  {
    MulMono(c.eachNum, from, c.progress);
    SecretEntries(c, e, a, waiting)[from * c.eachNum ..]
  }

  lemma ChunkFits(c: Config, p: nat)
    requires p < c.progress
    ensures p * c.eachNum + c.eachNum <= c.progress * c.eachNum
  {
    MulMono(c.eachNum, p + 1, c.progress);
    assert c.eachNum * (p + 1) == p * c.eachNum + c.eachNum;
  }

  /** Chunk `p` is the slice [p * EACH_NUM, (p + 1) * EACH_NUM) of the whole
      secret. */
  lemma {:induction false} ChunkSlice(c: Config, e: Engine, a: SecretA, waiting: seq<byte>, p: nat)
    requires p < c.progress
    ensures p * c.eachNum + c.eachNum <= c.progress * c.eachNum
    ensures Chunk(c, e, a, waiting, p) == SecretEntries(c, e, a, waiting)[p * c.eachNum .. p * c.eachNum + c.eachNum]
  {
    ChunkFits(c, p);
    var chunk := Chunk(c, e, a, waiting, p);
    var whole := SecretEntries(c, e, a, waiting);
    forall k | 0 <= k < c.eachNum
      ensures chunk[k] == whole[p * c.eachNum + k]
    {
      ChunkEntry(c, e, a, waiting, p, k);
    }
  }

  /** The secret from chunk `p` on is chunk `p` followed by the secret from
      chunk `p + 1` on; nothing is left after the last chunk. */
  lemma {:induction false} RestSplits(c: Config, e: Engine, a: SecretA, waiting: seq<byte>, p: nat)
    requires p < c.progress
    ensures Rest(c, e, a, waiting, p) == Chunk(c, e, a, waiting, p) + Rest(c, e, a, waiting, p + 1)
    ensures p + 1 == c.progress ==> Rest(c, e, a, waiting, p + 1) == []
  {
    var whole := SecretEntries(c, e, a, waiting);
    var lo := p * c.eachNum;
    ChunkSlice(c, e, a, waiting, p);
    assert (p + 1) * c.eachNum == lo + c.eachNum;
    assert whole[lo..] == whole[lo .. lo + c.eachNum] + whole[lo + c.eachNum ..];
  }

  /** The replies of a session and the world it leaves. */
  datatype Run = Run(world: World, replies: seq<Reply<seq<SecretDto>>>)

  /** The client asks for chunks `from`, `from + 1`, ..., PROGRESS - 1 in
      turn. */
  function Session(c: Config, e: Engine, w: World, nodeId: u16, index: string, from: nat): Run
    requires c.Valid()
    decreases c.progress - from
  {
    if from >= c.progress then Run(w, [])
    else
      var o := GetDataStep(c, e, w, true, nodeId, index, from);
      var rest := Session(c, e, o.world, nodeId, index, from + 1);
      Run(rest.world, [o.reply] + rest.replies)
  }

  /** The entries of the successful replies, in order. */
  function Payload(replies: seq<Reply<seq<SecretDto>>>): seq<SecretDto> {
    if replies == [] then []
    else (if replies[0].Reply? then replies[0].data else []) + Payload(replies[1..])
  }

  /** Every reply is a 200 "success". */
  predicate AllSucceeded(replies: seq<Reply<seq<SecretDto>>>) {
    forall i :: 0 <= i < |replies| ==>
      replies[i].Reply? && replies[i].status == 200 && replies[i].description == "success"
  }

  lemma SucceededCons(r: Reply<seq<SecretDto>>, rest: seq<Reply<seq<SecretDto>>>)
    requires r.Reply? && r.status == 200 && r.description == "success" && AllSucceeded(rest)
    ensures AllSucceeded([r] + rest)
  {
    forall i | 0 <= i < |[r] + rest|
      ensures ([r] + rest)[i].Reply? && ([r] + rest)[i].status == 200 && ([r] + rest)[i].description == "success"
    {
      if i > 0 {
        assert ([r] + rest)[i] == rest[i - 1];
      }
    }
  }

  lemma PayloadCons(r: Reply<seq<SecretDto>>, rest: seq<Reply<seq<SecretDto>>>)
    requires r.Reply?
    ensures Payload([r] + rest) == r.data + Payload(rest)
  {
    assert ([r] + rest)[1..] == rest;
  }

  /** Index `index` is generated for client `nodeId` and `from` chunks of it
      have been delivered: it is created, both files exist and the waiting
      file holds all PROGRESS chunks, its validity entry exists with score
      INVALID, and nothing is stored for it yet. */
  predicate ReadyFrom(c: Config, w: World, nodeId: u16, index: string, from: nat) {
    && Admitted(w, true, nodeId, index)
    && Count(w.store, index) == from
    && ValidityKey(c.serverNode, nodeId, index) in w.store.validity
    && w.store.validity[ValidityKey(c.serverNode, nodeId, index)] == INVALID
    && StoredFile(c.serverNode, nodeId, index) !in w.files
    && |w.files[WaitingFile(index)]| >= c.progress * ChunkBytes(c)
  }

  lemma LastChunkFits(c: Config, p: nat)
    requires p + 1 == c.progress
    ensures ChunkOffset(c, p) + ChunkBytes(c) == c.progress * ChunkBytes(c)
  {
    assert (p + 1) * (c.sLen * c.eachNum) == p * (c.sLen * c.eachNum) + c.sLen * c.eachNum;
  }

  /** The world a complete session leaves: the counter at PROGRESS, the
      first secretASize_ bytes of the waiting file stored, the waiting file
      gone. */
  function Delivered(c: Config, w: World, nodeId: u16, index: string): World
    requires WaitingFile(index) in w.files
  {
    World(w.store.(counts := w.store.counts[index := c.progress]),
          w.files[StoredFile(c.serverNode, nodeId, index) := ReadAt(w.files[WaitingFile(index)], 0, c.secretASize)]
                 - {WaitingFile(index)})
  }

  /** A delivery that does not reach PROGRESS answers its chunk and leaves
      the index ready for the next one. */
  lemma SessionStepBelow(c: Config, e: Engine, w: World, nodeId: u16, index: string, from: nat)
    requires c.Valid() && from + 1 < c.progress
    requires ReadyFrom(c, w, nodeId, index, from)
    ensures var o := GetDataStep(c, e, w, true, nodeId, index, from);
      && o.reply == Reply(200, "success",
                          Chunk(c, e, e.deriveA(w.files[RunningFile(index)]), w.files[WaitingFile(index)], from))
      && o.world == w.(store := w.store.(counts := w.store.counts[index := from + 1]))
      && ReadyFrom(c, o.world, nodeId, index, from + 1)
      && Delivered(c, o.world, nodeId, index) == Delivered(c, w, nodeId, index)
  {
    DeliveryCountsOnce(c, e, w, true, nodeId, index, from);
    var w1 := w.(store := w.store.(counts := w.store.counts[index := from + 1]));
    assert w1.store.counts[index := c.progress] == w.store.counts[index := c.progress];
  }

  /** The delivery of the last chunk answers it and moves the secret to the
      stored area. */
  lemma SessionStepLast(c: Config, e: Engine, w: World, nodeId: u16, index: string, from: nat)
    requires c.Valid() && from + 1 == c.progress
    requires ReadyFrom(c, w, nodeId, index, from)
    ensures var o := GetDataStep(c, e, w, true, nodeId, index, from);
      && o.reply == Reply(200, "success",
                          Chunk(c, e, e.deriveA(w.files[RunningFile(index)]), w.files[WaitingFile(index)], from))
      && o.world == Delivered(c, w, nodeId, index)
  {
    DeliveryCountsOnce(c, e, w, true, nodeId, index, from);
    FinalizationGuards(c, e, w, nodeId, index, from);
    LastChunkFits(c, from);
    var vk := ValidityKey(c.serverNode, nodeId, index);
    assert w.store.validity[vk := INVALID] == w.store.validity;
  }

  /** A client that asks for every remaining chunk once, in order, gets each
      answered with 200, receives exactly the rest of the whole secret, and
      leaves the counter at PROGRESS, the first secretASize_ bytes of the
      waiting file in the stored file, and the waiting file removed. */
  lemma {:induction false} FullDelivery(c: Config, e: Engine, w: World, nodeId: u16, index: string, from: nat)
    requires c.Valid() && from < c.progress
    requires ReadyFrom(c, w, nodeId, index, from)
    ensures var r := Session(c, e, w, nodeId, index, from);
      && |r.replies| == c.progress - from
      && AllSucceeded(r.replies)
      && Payload(r.replies) == Rest(c, e, e.deriveA(w.files[RunningFile(index)]), w.files[WaitingFile(index)], from)
      && r.world == Delivered(c, w, nodeId, index)
    decreases c.progress - from
  {
    var a := e.deriveA(w.files[RunningFile(index)]);
    var waiting := w.files[WaitingFile(index)];
    var o := GetDataStep(c, e, w, true, nodeId, index, from);
    var rest := Session(c, e, o.world, nodeId, index, from + 1);
    assert Session(c, e, w, nodeId, index, from) == Run(rest.world, [o.reply] + rest.replies);
    RestSplits(c, e, a, waiting, from);
    if from + 1 == c.progress {
      SessionStepLast(c, e, w, nodeId, index, from);
      assert rest == Run(o.world, []);
      PayloadCons(o.reply, []);
      SucceededCons(o.reply, []);
    } else {
      SessionStepBelow(c, e, w, nodeId, index, from);
      FullDelivery(c, e, o.world, nodeId, index, from + 1);
      PayloadCons(o.reply, rest.replies);
      SucceededCons(o.reply, rest.replies);
    }
  }
}
