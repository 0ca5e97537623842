# ShannonNet secret controller, modelled in Dafny

ShannonNet's server hands out one-time secrets to client nodes. The secret
controller (`src/controller/SecretController.hpp`) provides three HTTP
endpoints:

- **`/gen_secret/`** allocates a fresh random index for a client. It marks the
  index as taken in Redis and queues a generation job. An external generator
  later writes a *running* file (the key material) and a *waiting* file (the
  secret bytes), and records the index's creation time.
- **`/get_data/`** delivers one chunk of the waiting file. A chunk is
  `EACH_NUM` units of `S_LEN` bytes. Each unit is encrypted with LWE under a key
  derived from the running file. The units are split among
  `RUNNING_THREAD_NUM` workers, and the workers' results are joined in launch
  order. Each delivery increments a per-index counter in Redis. The delivery
  that brings the counter to `PROGRESS` finalizes the secret: the first
  `secretASize_` bytes of the waiting file go to a *stored* file for the
  (server, client) pair, the pair's validity score is set to INVALID, and the
  waiting file is removed.
- **`/result_report/`** records the client's verdict, VALID or INVALID, in the
  pair's validity zset.

## How the model is organised

- `wrappers.dfy` (`Wrappers`): `Option`.
- `domain.dfy` (`Domain`): the compile-time constants as a `Config` value, the
  DTOs, file paths as constructors, and the world the endpoints act on. The
  world is a Redis-like `Store` (plain keys, creation-time zset,
  progress-count zset, validity zsets, generation list) plus a file map. An
  endpoint answers with a `Reply`, or with one of three abnormal outcomes:
  `Threw` (`.value()` on a missing score), `Aborted` (`LOG_ASSERT` failed) or
  `Diverged` (the random-string supply ran out; the source would keep drawing).
- `partition.dfy` (`Partition`): the per-worker unit ranges (lines 22-23 and
  228 of the source).
- `encryption.dfy` (`Encryption`): the zero-padded chunk read, the
  `encryptSecrets` worker loop, and the dispatch-and-join of `getData`, as
  methods proved against the function `ChunkEntries`.
- `lifecycle.dfy` (`Lifecycle`): each endpoint as a pure step function. A step
  function gives the new world, the reply, and the writes in issue order.
- `controller.dfy` (`Controller`): the class `SecretController`. Its fields
  hold the store and the file system, and its methods update them step by
  step. A ghost `trace` records every write. Each method is proved to produce
  exactly the world, reply and trace of its step function.
- `properties.dfy` (`Properties`): what the endpoints promise, proved over the
  step functions. This includes a whole delivery session, by induction.

External behaviour enters as parameters:
- `Engine` holds the LWE key derivation and encryption as uninterpreted,
  deterministic functions.
- `candidates` is the sequence of strings `genRandomStr` returns.
- `randomNum` is what `genRandomNum` returns.
- `setOk`, `pushOk` and `openOk` say whether `SET`, `LPUSH` and opening the
  waiting file succeed.

Some behaviours of the code worth stating:
- Finalization needs the pair's validity entry to exist with score 0
  (line 247). Modelled as with redis-plus-plus built on `std::optional`: a
  missing entry makes `.value()` throw. Only a nonzero score is
  answered with "current secret have been added".
- A short read is not an error (lines 220-221 and 275-276). The buffer is
  zero-initialised, so missing bytes read as 0. If the chunk read ran past the
  end of the file, the stream stays failed. The rewind clears only
  end-of-file, so the second read does nothing and the stored file is all
  zeros (`Lifecycle.StoredBytes`).
- resultReport never deletes the stored file, because that code is commented
  out (lines 367-375).
- Asking again for a chunk of a finalized secret is refused with "waiting
  secret not exist", because that check comes first (lines 174-186). It is
  not answered with "current secret have been added".
- The generation job carries a `value` field set to `""` (line 91).

## Model

| member | source | states |
|---|---|---|
| `Partition.ThreadEnd` | src/controller/SecretController.hpp:22-23 | Worker t's end bound lies in [t*q, EACH_NUM], where q = EACH_NUM / RUNNING_THREAD_NUM. For t < N-1 it is the next worker's start (t+1)*q. For the last worker it is EACH_NUM. |
| `Partition.RangesPartition` | src/controller/SecretController.hpp:227-228 | For every unit u < EACH_NUM and every worker t: u lies in t's range exactly when t is `Owner(u)`. So the ranges cover [0, EACH_NUM) with no gap and no overlap, whatever the remainder. |
| `Encryption.ReadAt` | src/controller/SecretController.hpp:219-221 | The seek-and-read buffer has exactly n bytes. Byte j is file byte off+j if that byte exists, and 0 (the buffer's initial value) otherwise. |
| `Encryption.UnitOfChunk` | src/controller/SecretController.hpp:26-27 | Unit k of the buffer read at progress*S_LEN*EACH_NUM equals the S_LEN file bytes at (progress*EACH_NUM+k)*S_LEN, zero padded in the same way. |
| `Encryption.EncryptSecrets` | src/controller/SecretController.hpp:19-35 | A worker returns currentNum-offset entries. Entry k encrypts unit offset+k of the buffer and has sequence number progress+k. |
| `Encryption.AssembleChunk` | src/controller/SecretController.hpp:224-238 | Launching one worker per range and joining them gives exactly the whole chunk: EACH_NUM entries, where entry k encrypts unit k and is numbered progress*EACH_NUM+k. |
| `Encryption.Join` | src/controller/SecretController.hpp:233-238 | Appending the workers' results in launch order gives all the units of the chunk in unit order, with no duplicates and no omissions. |
| `Lifecycle.FirstFree` | src/controller/SecretController.hpp:63-71 | The allocation loop settles on the first candidate that is neither a plain key nor a created index. Every earlier candidate is taken. The result is None only if no candidate is free. |
| `Controller.SecretController.GenSecret` | src/controller/SecretController.hpp:50-117 | The new store, file map, reply and write trace are those of `GenSecretStep`. The search loop skips only candidates that are taken. |
| `Controller.SecretController.GetData` | src/controller/SecretController.hpp:124-217 | The new world, reply and write trace are those of `GetDataStep`: the assertions, the four readiness checks in order, and the out-of-range answer, followed by the delivery. |
| `Controller.SecretController.Deliver` | src/controller/SecretController.hpp:219-242 | Reads the chunk, encrypts it through the workers, and issues ZINCRBY. The result is `DeliverStep`: the chunk, the count plus one, and finalization when the count reaches PROGRESS. |
| `Controller.SecretController.Finalize` | src/controller/SecretController.hpp:243-292 | The new world, reply and trace are those of `FinalizeStep`: the two guards, then the write of the stored file, the ZADD of INVALID and the removal of the waiting file, in that order. |
| `Controller.SecretController.ResultReport` | src/controller/SecretController.hpp:308-384 | The new world, reply and trace are those of `ResultReportStep`. |
| `Properties.GetDataReadinessOrder` | src/controller/SecretController.hpp:129-198 | A zero node id or an empty index aborts. Otherwise the first failing check answers 500 with its own message and no entries. The checks are: creation score, running file, waiting file, open. A failed check changes nothing and writes nothing. |
| `Properties.LastProgressWraps` | src/controller/SecretController.hpp:204-208 | The progress of the out-of-range entry is the stored count as a uint32 minus one. For a count of 0 it wraps to 2^32-1. |
| `Properties.OutOfRangeAnswer` | src/controller/SecretController.hpp:203-217 | A progress >= PROGRESS answers 201 "secret progress error" with one entry that has empty secretS and secretB and progress = count-1. A missing count throws. The counter, the store and the files are unchanged, and nothing is written. |
| `Properties.ChunkContents` | src/controller/SecretController.hpp:219-238 | Every 200 answer of getData holds exactly EACH_NUM entries. Entry k encrypts, under the key derived from the running file, the S_LEN waiting-file bytes at (progress*EACH_NUM+k)*S_LEN, and is numbered progress*EACH_NUM+k. |
| `Properties.DeliveryCountsOnce` | src/controller/SecretController.hpp:240-243 | Every admitted progress below PROGRESS is served whatever the counter holds. The call adds exactly 1 to the index's count, and ZINCRBY is its first write. The increment stays even if finalization then fails or throws. Below PROGRESS the call answers 200 with the chunk and changes nothing else. |
| `Properties.RepeatedProgressCountsTwice` | src/controller/SecretController.hpp:200-241 | Asking twice for the same progress, when neither call reaches PROGRESS, gets the same 200 answer both times (the same entries because `Engine` is deterministic by assumption), counts two deliveries, and leaves the files unchanged. |
| `Properties.FinalizationGuards` | src/controller/SecretController.hpp:243-292 | When the new count reaches PROGRESS, the outcome depends on the validity entry and the stored file. A missing entry throws. A nonzero score answers 500 "current secret have been added". An existing stored file answers 500 "current secret exists". In these three cases no file is written or removed and no validity score changes. Otherwise the stored file gets the first secretASize_ bytes of the waiting file (all zeros if the last chunk read ran past the end of the file; see `Lifecycle.StoredBytes`), the validity score is set to INVALID, and the waiting file is removed, in that order. |
| `Properties.StoredFilesPreserved` | src/controller/SecretController.hpp:264-282 | No endpoint overwrites or deletes an existing stored file. This includes resultReport, whose removal is commented out. |
| `Properties.NoDeliveryAfterFinalization` | src/controller/SecretController.hpp:174-186 | After a finalizing delivery, followed by any sequence of calls to the three endpoints, getData for the index by any client with a nonzero id, at any progress and whether or not the file would open, answers 500 "waiting secret not exist". |
| `Properties.DrainedForever` | src/controller/SecretController.hpp:264-292 | The only file changes of the three endpoints are finalization's write of the stored file and removal of the waiting file. So over any sequence of calls, an index that has a creation entry and a running file but no waiting file keeps all three facts. |
| `Properties.ResultReportOutcomes` | src/controller/SecretController.hpp:324-383 | An unknown index answers 500 and writes nothing. VALID sets the score to VALID and answers "valid success". Any other verdict, including a missing one, first writes INVALID and then answers 500 if the stored file is missing, 200 otherwise. No file is touched. This needs VALID to differ from INVALID (0), as the status codes do. |
| `Properties.GenSecretAllocates` | src/controller/SecretController.hpp:63-116 | The allocated index is the first free candidate. A failed SET writes nothing. A failed LPUSH leaves the "1" marker and pushes nothing. A success sets the key to "1" and puts exactly one job {source, randomNum, index, serverNodeId, clientNodeId, ""} at the head of the list. Files, creation times, counts and validity scores are untouched. |
| `Properties.FirstFreeIsFirst` | src/controller/SecretController.hpp:63-71 | If candidate i is free and every earlier candidate is taken, the loop settles on candidate i. |
| `Properties.FreshIndexNotReady` | src/controller/SecretController.hpp:148-158 | An index that genSecret has just allocated has no creation score yet, so getData on it answers 500 "index error or not generated". |
| `Properties.ChunkSlice` | src/controller/SecretController.hpp:219-230 | Chunk p is the slice [p*EACH_NUM, (p+1)*EACH_NUM) of the whole encrypted secret. |
| `Properties.FullDelivery` | src/controller/SecretController.hpp:124-301 | Take an index that is created and has both files, whose waiting file holds at least PROGRESS*EACH_NUM*S_LEN bytes, whose validity entry for (SERVER_NODE, nodeId) already exists with score 0 (none of the three endpoints creates it; without it the last delivery throws), for which no stored file exists, and whose count is `from`. A client that asks once for each chunk from `from` to PROGRESS-1, in order, gets a 200 "success" for every call. Together the answers hold exactly the rest of the whole secret in order. Afterwards the counter is PROGRESS, the stored file holds the first secretASize_ bytes of the waiting file, the waiting file is gone, and nothing else has changed. |

## Left out

- oatpp endpoint machinery, JSON mapping, logging and the timing code (lines 128 and 298-299) are left out. Apart from the log at line 67 (below), they do not change what the endpoints answer or write.
- `.value()` on a missing score is modelled as throwing, as with `std::optional`. The library's own pre-C++17 `Optional` returns 0 instead: the 201 answer would then carry 2^32-1, and finalization would proceed without a validity entry. Under `std::optional`, the log at line 67 dereferences both empty optionals whenever a free string is found; this undefined behaviour is not modelled.
- The Redis connection is replaced by the maps of `Store`. Scores are natural numbers. The creation time is read only for presence.
- LWE key derivation and encryption are foreign code. `Engine` treats them as deterministic uninterpreted functions. Key derivation takes the running file's bytes instead of its path.
- `genRandomStr` becomes the finite `candidates` sequence, and running out is `Diverged`. This bounds a loop that has no termination argument. `genRandomNum` becomes the `randomNum` parameter.
- `std::async` threads become a sequential dispatch loop followed by an in-order join. Races between concurrent calls for the same index are not modelled.
- Failures the source ignores or only logs are assumed not to happen: ZINCRBY (241), the stored-file write (278-281), the three ZADDs (284, 339, 350) and the removal of the waiting file (287).
- Store calls, key derivation, encryption and thread launch are assumed not to throw; the source catches none of these exceptions. The redis-plus-plus calls (get and zscore at 65-66, 149, 204, 247 and 325, set at 74, lpush at 94, zincrby at 241, zadd at 284, 339 and 350), `generateSecretA` (225), `LWE::encrypt` (27) and `std::async`/`future::get` (229, 234) all throw on error. The only `Threw` outcome modelled is `.value()` on a missing score, so, for example, `Lifecycle.DeliverStep` always counts the delivery.
- The cast of the validity score to `uint16_t` (line 247) is not modelled. Any nonzero score counts as "added". These endpoints only write 0 or VALID.
- `Controller.SecretController.GetData` requires `Config.Valid()`. The constants must keep `PROGRESS*EACH_NUM*S_LEN` below 2^32, so no 32-bit wrap-around of seek offsets or sequence numbers is modelled.
- `Properties.FreshIndexNotReady` assumes the random strings are non-empty, as `genRandomStr`'s are. An empty index would hit `LOG_ASSERT` instead.
- `src/dto/DTOs.hpp` contributes only the shape of `SecretDto` (lines 36-41) and the INVALID default of `isValidArg` (line 54). `LWE.hpp` and `common.h` are not part of this model.
