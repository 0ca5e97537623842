/** The secret controller as a state machine. The Redis store and the file
    system its endpoints open on every call are held as fields and updated
    call by call; `trace` records every write in the order it is issued. Each
    endpoint is proved to leave the world, the reply and the writes that the
    matching function of module Lifecycle describes. */
module Controller {
  import opened Wrappers
  import opened Domain
  import opened Encryption
  import opened Lifecycle

  class SecretController {
    const cfg: Config
    const engine: Engine

    var keys: map<string, string>
    var created: map<string, int>
    var counts: map<string, nat>
    var validity: map<ValidityKey, nat>
    var jobs: seq<Job>
    var files: map<Path, seq<byte>>

    ghost var trace: seq<Effect>

    /** The world as the endpoints see it. */
    function Current(): World
      reads this
    {
      World(Store(keys, created, counts, validity, jobs), files)
    }

    constructor (cfg: Config, engine: Engine, w: World)
      requires cfg.Valid()
      ensures this.cfg == cfg && this.engine == engine
      ensures Current() == w && trace == []
    {
      this.cfg := cfg;
      this.engine := engine;
      keys := w.store.keys;
      created := w.store.created;
      counts := w.store.counts;
      validity := w.store.validity;
      jobs := w.store.jobs;
      files := w.files;
      trace := [];
    }

    /** POST /gen_secret/. `candidates` are the strings genRandomStr returns
        in turn, `randomNum` what genRandomNum returns, `setOk` and `pushOk`
        whether SET and LPUSH succeed. */
    method GenSecret(nodeId: u16, candidates: seq<string>, randomNum: u32, setOk: bool, pushOk: bool)
      returns (reply: Reply<Option<GenSecretDto>>)
      modifies this
      ensures var o := GenSecretStep(cfg, old(Current()), nodeId, candidates, randomNum, setOk, pushOk);
              Current() == o.world && reply == o.reply && trace == old(trace) + o.effects
    {
      if nodeId == 0 {
        return Aborted;
      }
      // draw strings until one is neither a plain key nor a created index
      var i := 0;
      while i < |candidates| && (candidates[i] in keys || candidates[i] in created)
        invariant i <= |candidates|
        invariant forall j :: 0 <= j < i ==> !Free(Current().store, candidates[j])
      {
        i := i + 1;
      }
      if i == |candidates| {
        return Diverged;
      }
      var randomStr := candidates[i];
      if !setOk {
        return Reply(500, "randomStr set error", None);
      }
      keys := keys[randomStr := "1"];
      trace := trace + [SetKey(randomStr, "1")];
      var job := Job(cfg.serverName, randomNum, randomStr, cfg.serverNode, nodeId, "");
      if !pushOk {
        return Reply(500, "json lpush error", None);
      }
      jobs := [job] + jobs;
      trace := trace + [LPush(job)];
      reply := Reply(200, "success", Some(GenSecretDto(cfg.serverNode % 0x100, randomNum, randomStr)));
    }

    /** POST /get_data/. `openOk` says whether the waiting file opens. */
    method GetData(nodeId: u16, index: string, progress: u32, openOk: bool)
      returns (reply: Reply<seq<SecretDto>>)
      requires cfg.Valid()
      modifies this
      ensures var o := GetDataStep(cfg, engine, old(Current()), openOk, nodeId, index, progress);
              Current() == o.world && reply == o.reply && trace == old(trace) + o.effects
    {
      if nodeId == 0 || index == [] {
        return Aborted;
      }
      // readiness checks, in this order
      if index !in created {
        return Reply(500, "index error or not generated", []);
      }
      if RunningFile(index) !in files {
        return Reply(500, "running secret not exist", []);
      }
      if WaitingFile(index) !in files {
        return Reply(500, "waiting secret not exist", []);
      }
      if !openOk {
        return Reply(500, "waiting secret open failed", []);
      }
      if progress >= cfg.progress {
        if index !in counts {
          return Threw;
        }
        var redisProgress := U32(counts[index]);
        return Reply(201, "secret progress error", [SecretDto("", "", U32(redisProgress as int - 1))]);
      }
      reply := Deliver(nodeId, index, progress);
    }

    /** Read chunk `progress` of the waiting file, encrypt it, count the
        delivery, and finalize once the counter reaches PROGRESS. */
    method Deliver(nodeId: u16, index: string, progress: nat) returns (reply: Reply<seq<SecretDto>>)
      requires cfg.Valid() && RunningFile(index) in files && WaitingFile(index) in files
      modifies this
      ensures var o := DeliverStep(cfg, engine, old(Current()), nodeId, index, progress);
              Current() == o.world && reply == o.reply && trace == old(trace) + o.effects
    {
      ghost var w0 := Current();
      // read the chunk and encrypt it
      var waiting := files[WaitingFile(index)];
      var offset := ChunkOffset(cfg, progress);
      var bufferVec := ReadAt(waiting, offset, ChunkBytes(cfg));
      var secretA := engine.deriveA(files[RunningFile(index)]);
      var data := AssembleChunk(cfg, engine, bufferVec, secretA, progress);
      assert data == Chunk(cfg, engine, secretA, waiting, progress);
      // count the delivery
      var count := (if index in counts then counts[index] else 0) + 1;
      counts := counts[index := count];
      trace := trace + [ZIncrBy(index)];
      assert count == Count(w0.store, index) + 1;
      assert Current() == w0.(store := w0.store.(counts := w0.store.counts[index := count]));
      var redisProgress := U32(count);
      if redisProgress >= cfg.progress {
        reply := Finalize(nodeId, index, offset, data);
      } else {
        reply := Reply(200, "success", data);
      }
    }

    /** The waiting -> stored move at the end of getData, once the counter
        has reached PROGRESS: the chunk was read at `offset`. */
    method Finalize(nodeId: u16, index: string, offset: nat, data: seq<SecretDto>)
      returns (reply: Reply<seq<SecretDto>>)
      requires WaitingFile(index) in files
      modifies this
      ensures var o := FinalizeStep(cfg, old(Current()), nodeId, index, offset, data);
              Current() == o.world && reply == o.reply && trace == old(trace) + o.effects
    {
      var vk := ValidityKey(cfg.serverNode, nodeId, index);
      if vk !in validity {
        return Threw;
      }
      // is the secret already in the node pair's validity zset?
      if validity[vk] != INVALID {
        return Reply(500, "current secret have been added", []);
      }
      var stored := StoredFile(cfg.serverNode, nodeId, index);
      if stored in files {
        return Reply(500, "current secret exists", []);
      }
      // write the stored file, mark it INVALID, remove the waiting file
      var waiting := files[WaitingFile(index)];
      var moveBufferVec := if offset + ChunkBytes(cfg) <= |waiting| then ReadAt(waiting, 0, cfg.secretASize)
                           else Zeros(cfg.secretASize);
      files := files[stored := moveBufferVec];
      trace := trace + [WriteFile(stored)];
      validity := validity[vk := INVALID];
      trace := trace + [ZAdd(vk, INVALID)];
      files := files - {WaitingFile(index)};
      trace := trace + [RemoveFile(WaitingFile(index))];
      reply := Reply(200, "success", data);
    }

    /** POST /result_report/. An absent `isValidArg` means INVALID. */
    method ResultReport(nodeId: u16, index: string, isValidArg: Option<u16>)
      returns (reply: Reply<seq<string>>)
      modifies this
      ensures var o := ResultReportStep(cfg, old(Current()), nodeId, index, isValidArg);
              Current() == o.world && reply == o.reply && trace == old(trace) + o.effects
    {
      var isValid := isValidArg.GetOr(INVALID);
      if nodeId == 0 || index == [] {
        return Aborted;
      }
      if index !in created {
        return Reply(500, "index error or not generated", []);
      }
      var vk := ValidityKey(cfg.serverNode, nodeId, index);
      if isValid == cfg.validCode {
        validity := validity[vk := cfg.validCode];
        trace := trace + [ZAdd(vk, cfg.validCode)];
        return Reply(200, "valid success", []);
      }
      validity := validity[vk := INVALID];
      trace := trace + [ZAdd(vk, INVALID)];
      if StoredFile(cfg.serverNode, nodeId, index) !in files {
        return Reply(500, "current secret not exist", []);
      }
      // the stored file is kept: its removal is disabled in the source
      reply := Reply(200, "success", []);
    }
  }
}
