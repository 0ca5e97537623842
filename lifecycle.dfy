/** The three endpoints of the secret controller as pure functions of the
    world: what each one answers, the world it leaves behind, and the writes it
    issues, in order. The class in module Controller performs them step by
    step and is proved to match. */
module Lifecycle {
  import opened Wrappers
  import opened Domain
  import opened Encryption

  /** SECRET_STATUS::NODE_SECRET_INVALID. */
  const INVALID: nat := 0

  /** A candidate index is free when it is neither a plain key nor a member
      of the creation-time zset. */
  predicate Free(s: Store, candidate: string) {
    candidate !in s.keys && candidate !in s.created
  }

  /** Position of the first free string the random-string oracle produces:
      the index the allocation loop settles on. */
  function FirstFree(s: Store, candidates: seq<string>): (r: Option<nat>)
    ensures r.Some? ==> r.value < |candidates| && Free(s, candidates[r.value])
    ensures r.Some? ==> forall j :: 0 <= j < r.value ==> !Free(s, candidates[j])
    ensures r.None? ==> forall j :: 0 <= j < |candidates| ==> !Free(s, candidates[j])
  {
    if candidates == [] then None
    else if Free(s, candidates[0]) then Some(0)
    else match FirstFree(s, candidates[1..])
      case None => None
      case Some(i) => Some(i + 1)
  }

  /** The generation job genSecret pushes for `index`. */
  function GenJob(c: Config, randomNum: u32, index: string, nodeId: u16): Job {
    Job(c.serverName, randomNum, index, c.serverNode, nodeId, "")
  }

  /** POST /gen_secret/: allocate a fresh index and queue its generation. */
  function GenSecretStep(c: Config, w: World, nodeId: u16, candidates: seq<string>, randomNum: u32,
                         setOk: bool, pushOk: bool): Step<Reply<Option<GenSecretDto>>>
  {
    if nodeId == 0 then Step(w, Aborted, [])
    else match FirstFree(w.store, candidates)
      case None => Step(w, Diverged, [])
      case Some(i) =>
        var index := candidates[i];
        if !setOk then Step(w, Reply(500, "randomStr set error", None), [])
        else
          var marked := w.(store := w.store.(keys := w.store.keys[index := "1"]));
          var job := GenJob(c, randomNum, index, nodeId);
          if !pushOk then Step(marked, Reply(500, "json lpush error", None), [SetKey(index, "1")])
          else
            Step(marked.(store := marked.store.(jobs := [job] + w.store.jobs)),
                 Reply(200, "success", Some(GenSecretDto(c.serverNode % 0x100, randomNum, index))),
                 [SetKey(index, "1"), LPush(job)])
  }

  /** The score of `index` in the progress-count zset; ZINCRBY treats an
      absent member as 0. */
  function Count(s: Store, index: string): nat {
    if index in s.counts then s.counts[index] else 0
  }

  /** The `progress` of the out-of-range entry: the stored count as a
      `uint32_t`, minus one, wrapping to 2^32 - 1 at zero. */
  function LastProgress(count: nat): u32 {
    U32(U32(count) as int - 1)
  }

  /** The bytes finalization writes to the stored file: the first
      secretASize_ bytes of the waiting file, zero padded. When the chunk read
      ran past the end of the file it left the stream failed; the rewind only
      clears end-of-file, so the second read does nothing and the buffer is
      written as it was initialised. */
  function StoredBytes(c: Config, waiting: seq<byte>, offset: nat): seq<byte> {
    if offset + ChunkBytes(c) <= |waiting| then ReadAt(waiting, 0, c.secretASize)
    else Zeros(c.secretASize)
  }

  /** Chunk `progress` of the waiting bytes, encrypted with key `a`. */
  function Chunk(c: Config, e: Engine, a: SecretA, waiting: seq<byte>, progress: nat): seq<SecretDto> {
    ChunkEntries(c, e, a, ReadAt(waiting, ChunkOffset(c, progress), ChunkBytes(c)), progress * c.eachNum)
  }

  /** POST /get_data/: deliver chunk `progress` of `index` to client
      `nodeId`, and finalize the secret once the counter reaches PROGRESS.
      `openOk` says whether the waiting file opens. */
  function GetDataStep(c: Config, e: Engine, w: World, openOk: bool, nodeId: u16, index: string, progress: u32)
    : Step<Reply<seq<SecretDto>>>
  {
    if nodeId == 0 || index == [] then Step(w, Aborted, [])
    else if index !in w.store.created then Step(w, Reply(500, "index error or not generated", []), [])
    else if RunningFile(index) !in w.files then Step(w, Reply(500, "running secret not exist", []), [])
    else if WaitingFile(index) !in w.files then Step(w, Reply(500, "waiting secret not exist", []), [])
    else if !openOk then Step(w, Reply(500, "waiting secret open failed", []), [])
    else if progress >= c.progress then
      if index !in w.store.counts then Step(w, Threw, [])
      else Step(w, Reply(201, "secret progress error", [SecretDto("", "", LastProgress(w.store.counts[index]))]), [])
    else DeliverStep(c, e, w, nodeId, index, progress)
  }

  /** The delivery part of getData, once its checks passed and `progress`
      is below PROGRESS: encrypt the chunk, count the delivery, and finalize
      when the counter reaches PROGRESS. */
  function DeliverStep(c: Config, e: Engine, w: World, nodeId: u16, index: string, progress: nat)
    : Step<Reply<seq<SecretDto>>>
    requires RunningFile(index) in w.files && WaitingFile(index) in w.files
  {
    var chunk := Chunk(c, e, e.deriveA(w.files[RunningFile(index)]), w.files[WaitingFile(index)], progress);
    var count := Count(w.store, index) + 1;
    var bumped := w.(store := w.store.(counts := w.store.counts[index := count]));
    if U32(count) < c.progress then Step(bumped, Reply(200, "success", chunk), [ZIncrBy(index)])
    else
      var o := FinalizeStep(c, bumped, nodeId, index, ChunkOffset(c, progress), chunk);
      Step(o.world, o.reply, [ZIncrBy(index)] + o.effects)
  }

  /** The waiting -> stored transition once the counter of `index` has
      reached PROGRESS; the chunk was read at `offset` and is answered with
      `chunk` on success. */
  function FinalizeStep(c: Config, w: World, nodeId: u16, index: string, offset: nat, chunk: seq<SecretDto>)
    : Step<Reply<seq<SecretDto>>>
    requires WaitingFile(index) in w.files
  {
    var vk := ValidityKey(c.serverNode, nodeId, index);
    var stored := StoredFile(c.serverNode, nodeId, index);
    if vk !in w.store.validity then Step(w, Threw, [])
    else if w.store.validity[vk] != INVALID then Step(w, Reply(500, "current secret have been added", []), [])
    else if stored in w.files then Step(w, Reply(500, "current secret exists", []), [])
    else
      var files := w.files[stored := StoredBytes(c, w.files[WaitingFile(index)], offset)] - {WaitingFile(index)};
      var store := w.store.(validity := w.store.validity[vk := INVALID]);
      Step(World(store, files), Reply(200, "success", chunk),
           [WriteFile(stored), ZAdd(vk, INVALID), RemoveFile(WaitingFile(index))])
  }

  /** POST /result_report/: record client `nodeId`'s verdict on `index`;
      an absent verdict means INVALID. */
  function ResultReportStep(c: Config, w: World, nodeId: u16, index: string, isValidArg: Option<u16>)
    : Step<Reply<seq<string>>>
  {
    var isValid := isValidArg.GetOr(INVALID);
    if nodeId == 0 || index == [] then Step(w, Aborted, [])
    else if index !in w.store.created then Step(w, Reply(500, "index error or not generated", []), [])
    else
      var vk := ValidityKey(c.serverNode, nodeId, index);
      if isValid == c.validCode then
        Step(w.(store := w.store.(validity := w.store.validity[vk := c.validCode])),
             Reply(200, "valid success", []), [ZAdd(vk, c.validCode)])
      else
        var marked := w.(store := w.store.(validity := w.store.validity[vk := INVALID]));
        if StoredFile(c.serverNode, nodeId, index) !in w.files then
          Step(marked, Reply(500, "current secret not exist", []), [ZAdd(vk, INVALID)])
        else
          Step(marked, Reply(200, "success", []), [ZAdd(vk, INVALID)])
  }
}
