# Verification model of the LoRaWAN sensor node

The node is a Zephyr application with its own message framework, a hashed settings store, a CRC-checked
temperature sensor and three tasks (control, sensor, event) that measure a water flow and report it over
LoRaWAN. This project models these parts in Dafny and proves what they keep over whole runs. To check it:
`dafny verify dfyconfig.toml`.

## How the model is built

| files | what they model |
|---|---|
| Gf2, Crc8, Shtc3 | polynomials over GF(2), the bitwise CRC-8 checker, the sensor read that depends on it |
| ConfigHash, Settings | the 16-bit key hash; the settings store as a map from ids to bytes, against a map from keys |
| Decimal, DevNonce | numbers in C strings; the persistent DevNonce counter with reboots and failed writes anywhere |
| BufferPool | the pool and its statistics, whose updates and heap operations interleave in any way |
| Messages, Calls | messages, receivers and registry; every framework call as a program of single accesses |
| Ownership, Mailboxes | who owns a buffer, and why pointer queues over one heap behave as mailboxes of values |
| Threads, Runs | any number of threads and interrupts that make these calls, receive and dispatch, access by access |
| Passing | what a handler that passes its message on may rely on |
| Outcomes, Effects | what each call does when nothing comes between its steps, and the same told by the fields of messages, slots and queues alone |
| Broadcasts | what the result of a broadcast says about its receivers |
| Interleaved | what the calls do to queues and buffers while others run between their steps |
| Accounting | the pool beneath the threads: what its statistics say about the live messages |
| Framework | sys_core.c and sys_msg.c as methods on the heap, the queues and the registry array |
| AppMessages, ControlTask, SensorTask, EventTask | the handlers and timer callbacks as methods on the state of their task |
| Application, Books, Uplinks, EventIds, Embedding | the three tasks and their timers as one closed system, what its runs keep, and how its posts sit on the framework |

The same code is described three times where that buys something: as methods that update state in place
(Framework, ControlTask and so on), as functions that the methods are proved equal to (Outcomes, which Effects
spells out field by field), and as
machines whose steps interleave (Threads, BufferPool, DevNonce, Application). `Runs.AloneIsFinish` and the
lemmas after it, and `Embedding.DeliverRefines`, connect the machines to what the methods are proved against.

Contracts assumed of Zephyr: `k_msgq` is a bounded FIFO whose put and get are atomic and whose put without
waiting fails on a full queue; `k_heap` hands out free addresses whose sizes, with headers, fit the pool; a
`k_timer` with period 0 fires once; NVS is an atomic map from ids to bytes in which an empty write deletes.
What these and the radio, bus and flash answer (which allocation is granted, the results of `i2c_read`,
`lorawan_join`, `lorawan_send`, `nvs_write`) is a parameter, so every statement holds for all answers.

## What the model shows about the code

- `SYSCORE_ASSERT` is modelled as nothing, which is what it compiles to: include/framework/sys_core.h:37
  tests `CONFIG_SYS_ASSERT_ENABLED`, while lib/framework/Kconfig:14 and app/prj.conf:53 spell it
  `SYS_ASSRET_ENABLED`. All error paths therefore run on.
- The comment on `msg_broadcast` (lib/framework/sys_core.c:170) says that the original is freed only when all
  messages were routed. The code reports the answer for the last receiver it tried. For a broadcast that nothing
  interrupts, `Broadcasts.CommentHoldsIff` says for exactly which inputs success means that all were routed, and
  `Broadcasts.FailureMeansNoneIff` for which failure means that nobody was. Both fail in states that any thread
  can bring about by filling one queue of 32 (`Broadcasts.PartialBroadcast`). With others in between, the answer
  is still that of the last queue asked (`Interleaved.BroadcastInterleaved`).
- `msg_receiver` reads the options of a message after its handler returned (lib/framework/sys_core.c:255),
  also when the handler has passed it on. The message may have been freed by then, and its address granted to
  somebody else (`Passing.RegrantedIsStale`). `Passing.StaleIff` is the exact rule: the read is safe in every
  continuation if and only if the handler holds its message when it returns, or nobody else runs and it was
  not freed. `sysmsg_reply` with `DISPATCH_DO_NOT_FREE`, the use that include/framework/sys_msg.h:116 suggests,
  never meets the rule where a second thread runs (`Passing.ReplyRace`).
- `msg_unicast` and `msg_broadcast` look at the stored receiver only, `msg_send` also at `in_use`;
  `Messages.FirstRegistrationWins` shows that the two agree after any registrations.
- The join loop assigns `ret = -ETIMEDOUT` where it means to compare (app/src/control_task.c:366). This does
  not change when it stops (`ControlTask.ControlTask.JoinLorawanMsgHandler`).
- `shtc3_GetTempAndHumidity` reports no error after a CRC failure; an output whose CRC fails keeps its old
  value (`Shtc3.GetTempAndHumidity`). The file is not built by app/CMakeLists.txt.
- The power timer's `SMC_READ_POWER` has no handler in the sensor task; it is received and freed.
- Two positions that are a multiple of 127 apart hide each other from the CRC
  (`Crc8.TwoBitsUndetectedIff`), which is why few-bit detection ends at 15 bytes.

## Model

| member | source | states |
|---|---|---|
| Crc8.CrcIsRemainder | app/src/shtc3.c:85-95 | the shift and xor loops compute the unique remainder of D(x) x^8 + 0xFF x^(8n) modulo x^8 + x^5 + x^4 + 1, for data of any length |
| Crc8.TruncationIsLossless | app/src/shtc3.c:89-93 | cutting the shifted int to uint8_t never drops a set bit |
| Crc8.CheckCrc | app/src/shtc3.c:80-103 | the nested loops accept exactly if the checksum is the remainder, equivalently exactly the codewords; the only results are 0 and 0xFF |
| Crc8.AcceptsIffZero | app/src/shtc3.c:80-103 | a word is accepted exactly if running on over its checksum ends at 0 |
| Crc8.AcceptsIffMultiple | app/src/shtc3.c:80-103 | a word is accepted exactly if its polynomial, with the preset in front, is a multiple of P |
| Crc8.UndetectedIffMultiple | app/src/shtc3.c:80-103 | an error pattern on an accepted word goes undetected exactly if it is a multiple of P |
| Crc8.BurstDetected | app/src/shtc3.c:86-98 | two different words whose differing bits lie within 8 consecutive positions are never both accepted, at any length |
| Crc8.OddDetected | app/src/shtc3.c:86-98 | an odd number of flipped bits is rejected at any length |
| Crc8.OrderOfX | app/src/shtc3.c:88-94 | d turns of the inner loop lead from 1 back to 1 exactly if 127 divides d |
| Crc8.TwoBitsUndetectedIff | app/src/shtc3.c:86-98 | two flipped bits go undetected exactly if 127 divides their distance |
| Crc8.UpToThreeBitsDetected | app/src/shtc3.c:86-98 | one to three flipped bits in up to 14 data bytes and the checksum are rejected |
| Crc8.SampleChecksums | app/src/shtc3.c:85-95 | the checksums of no byte, of 0x00 and of 0xBE 0xEF are 0xFF, 0xAC and 0x92 |
| Shtc3.GetTempAndHumidity | app/src/shtc3.c:47-78 | at most 100 reads and none after a success; an I2C error exactly if all 100 failed, outputs then untouched; else each output changes exactly if its own CRC matches, to the big-endian value of its bytes |
| Shtc3.SwappedLoadIsBigEndian | app/src/shtc3.c:67-74 | the byte-swapped load is the big-endian value |
| Shtc3.DecodedIs | app/src/shtc3.c:63-75 | an output becomes the big-endian value of its two bytes exactly if the third is their CRC, and otherwise keeps its value |
| Shtc3.DamagedWordIsIgnored | app/src/shtc3.c:63-75 | a word damaged by one to three bit flips, or by a burst of up to 8 bits, never reaches an output |
| ConfigHash.ProductFitsInt | lib/framework/sys_cfg.c:14 | the product of the promoted operands never overflows an int |
| ConfigHash.HashIsBijective | lib/framework/sys_cfg.c:11-18 | for every key the map from seed to id is a bijection of the 16-bit values, with an explicit inverse on both sides |
| ConfigHash.SuffixKeepsCollisions | lib/framework/sys_cfg.c:11-18 | two keys collide exactly if they collide before a common ending |
| ConfigHash.OneCharacterApart | lib/framework/sys_cfg.c:11-18 | keys of equal length that differ in exactly one character never share an id, for every seed |
| ConfigHash.MurmurOATT16 | lib/framework/sys_cfg.c:11-18 | the loop over a NUL-terminated buffer computes the hash of the characters before the NUL |
| Settings.RunsAgree | lib/framework/sys_cfg.c:57-110 | on keys with distinct ids every run of gets, sets, unsets and blob forms, with failing writes, gives the replies of a plain map from keys to bytes |
| Settings.IsMapIffCollisionFree | lib/framework/sys_cfg.c:57-110 | on a set of keys all runs agree with the plain map exactly if their ids are distinct |
| Settings.GetReturnsLastWrite | lib/framework/sys_cfg.c:57-110 | a get delivers the value last written under its own key, and fails exactly if there is none or it was deleted or emptied; other keys never matter |
| Settings.AtAfterPut | lib/framework/sys_cfg.c:57-79 | a stored value is found under its own id and no other, and a missing record reads as an empty one |
| Settings.SettingsStore.KeyId | lib/framework/sys_cfg.c:20-22 | the id is the hash of the key from the seed 0x1234 |
| Settings.SettingsStore.SyscfgGet | lib/framework/sys_cfg.c:57-67 | return code and buffer of a get, of text and of blobs alike: -1 and an untouched buffer exactly if there is no record, else 0 and the record |
| Settings.SettingsStore.SyscfgSet | lib/framework/sys_cfg.c:69-79 | a successful set returns 0 and stores the text without its NUL under the id of the key alone; a failed write changes nothing and returns -1 |
| Settings.SettingsStore.SyscfgUnset | lib/framework/sys_cfg.c:81-86 | a successful unset removes the record of the key alone; the driver's error is passed on |
| Settings.SettingsStore.SyscfgSetBlob | lib/framework/sys_cfg.c:100-110 | a successful blob write returns 0 and stores the bytes under the id of the key alone; a failed one changes nothing and returns -1 |
| Decimal.AtoiOfDigits | app/src/control_task.c:214-224 | atoi reads back every number that %hu or %u wrote |
| Decimal.AtoiOfInt | app/src/control_task.c:403 | the decimal text that %d writes determines its number, negative ones included |
| Decimal.CStringOfSnprintf | app/src/control_task.c:403 | a text that fits is the C string that snprintf leaves, whatever the buffer held before |
| Decimal.SnprintfCuts | app/src/control_task.c:403 | a text that does not fit is cut to the size of the buffer less one |
| Decimal.DigitsAt | app/src/control_task.c:223 | the text has, from the right, the digits of the number as characters from 0x30, and no leading zero |
| Decimal.AtoiOfText | app/src/control_task.c:214 | atoi skips blanks, takes one sign, reads the digits and ignores what follows them |
| DevNonce.LoadOfSave | app/src/control_task.c:205-228 | get_dev_nonce after a successful inc_dev_nonce(n) yields n + 1 modulo 65536, also when 65535 wraps to a shorter record |
| DevNonce.LoadsRecord | app/src/control_task.c:205-216 | without a record the nonce is 0; a record that holds a number is read as that number |
| DevNonce.SavedText | app/src/control_task.c:218-228 | a successful save leaves the decimal text of n + 1 modulo 65536, without a NUL |
| DevNonce.NonceFormula | app/src/control_task.c:361-382 | after every run with reboots and failed writes anywhere the next attempt uses first + attempts - lost modulo 65536, and the record lags by the unsaved attempts |
| DevNonce.LostIsWindowReboots | app/src/control_task.c:361-382 | with working writes exactly the reboots between an attempt and its save lose an attempt each |
| DevNonce.NoncesCountUp | app/src/control_task.c:361-382 | without losses the k-th attempt of all boots together uses first + k modulo 65536 |
| DevNonce.NoncesFromRecord | app/src/control_task.c:205-216 | in every run without losses, the k-th attempt of all boots uses k modulo 65536 if there was no record, and n + k if the record held n |
| DevNonce.NoNonceTwice | app/src/control_task.c:361-382 | with working writes and no reboot between an attempt and its save no nonce repeats within 65536 consecutive attempts |
| DevNonce.RepeatsAtMostLost | app/src/control_task.c:361-382 | in runs of at most 65536 attempts, with reboots and failed writes anywhere, no more nonces repeat than attempts were lost |
| DevNonce.RepeatsAreWindowReboots | app/src/control_task.c:361-382 | with working writes the repeated nonces are as many as the reboots between an attempt and its save, or one fewer |
| DevNonce.WaterFlowIsAnotherKey | app/src/bsp.c:174-175 | "water_flow" and "dev_nonce" have different ids, whether char is signed or not |
| BufferPool.AlwaysAccounted | lib/framework/buffer_pool.c:57-189 | under every interleaving of heap and statistics steps the free space is the pool size less the counted blocks, cur_allocs their number, and 0 <= min_space_available <= space_available <= pool size |
| BufferPool.TakeFailKeepsMark | lib/framework/buffer_pool.c:156-165 | the unsigned comparison lowers the mark exactly for a refused request that would have fitted |
| BufferPool.StatisticsTellHistory | lib/framework/buffer_pool.c:139-151 | max_allocs is the peak of cur_allocs over the run, min_size and max_size the extremes of the sizes taken, and slot k + 1 behind windex holds the k-th most recent size |
| BufferPool.RefusalsAreCounted | lib/framework/buffer_pool.c:156-165 | over every run take_failures is the number of refused requests, and last_fail_size the size of the latest one cut to an int, 0 before the first |
| BufferPool.LowWaterMark | lib/framework/buffer_pool.c:139-189 | min_space_available is the least free space of the whole run, refused requests that would have fitted counted as granted |
| BufferPool.TakeThenFree | lib/framework/buffer_pool.c:57-111 | freeing what was just taken restores the heap, the free space and the count |
| Accounting.StatisticsCountMessages | lib/framework/buffer_pool.c:57-189 | over every run of the threads, with the pool's critical sections in between in any way, cur_allocs is the number of live messages, which are exactly the blocks that are counted and not yet given back |
| Accounting.AlwaysMatched | lib/framework/buffer_pool.c:57-189 | the same invariant, with the accounting, from every matching state of pool and messages |
| BufferPool.BufferPool.constructor | lib/framework/buffer_pool.c:46-55 | the statistics start with all space available |
| BufferPool.BufferPool.TryToTake | lib/framework/buffer_pool.c:57-80 | a granted request is an allocation followed by its statistics, a refused one a failure statistic, and the accounting stays right |
| BufferPool.BufferPool.Free | lib/framework/buffer_pool.c:96-111 | NULL is ignored; else the statistics are given back first, then the block, and the accounting stays right |
| BufferPool.BufferPool.TakeStatHandler | lib/framework/buffer_pool.c:131-154 | the block is counted with its size in the header, and the books stay right |
| BufferPool.BufferPool.TakeFailStatHandler | lib/framework/buffer_pool.c:156-165 | only the failure fields and the mark change, and the books stay right |
| BufferPool.BufferPool.GiveStatHandler | lib/framework/buffer_pool.c:167-189 | space and count are given back by the size in the header, and the books stay right |
| BufferPool.BufferPool.RememberSize | lib/framework/buffer_pool.c:146-151 | the slot at windex gets the size as 16 bits, and windex moves on around the ring |
| Messages.FirstRegistrationWins | lib/framework/sys_core.c:28-50 | after any registrations, invalid and repeated ones included, a slot holds the first receiver that asked for it, in_use says whether there is one, and its id is its slot |
| Calls.CallStepLegal | lib/framework/sys_core.c:61-220 | every single access of every call, on all error paths, touches only buffers that the call holds, and the call accounts for what it holds |
| Ownership.OwnsMeans | lib/framework/sys_core.c:61-306 | what ownership says of a buffer: live exactly if in some hand or queue, never in two, never twice in one queue |
| Ownership.ActOwns | lib/framework/sys_core.c:61-306 | an access that follows the rule of ownership keeps it: nothing leaks, is freed twice or has two owners |
| Mailboxes.ActMail | lib/framework/sys_core.c:61-238 | an access by any thread changes a mailbox only by appending or taking a value; later writes never reach a queued message |
| Mailboxes.DeliveredAsSent | lib/framework/sys_core.c:181-238 | over every run each queue delivers exactly the accepted messages, in order, with the contents of the time of sending |
| Mailboxes.AllBounded | lib/framework/sys_core.c:181-220 | no queue ever exceeds its depth |
| Threads.StepGood | lib/framework/sys_core.c:61-306 | each step of a thread or interrupt is one access by the rule and never touches a dead buffer |
| Threads.RunGood | lib/framework/sys_core.c:61-306 | the same for every schedule of any number of threads and interrupts |
| Threads.OwnershipHolds | lib/framework/sys_core.c:61-306 | over every run from power-up the live buffers are exactly the disjoint union of those queued and those in hand, and the framework never touches a dead one |
| Threads.DeliveryHolds | lib/framework/sys_core.c:181-270 | over every run from power-up each queue is a bounded FIFO of the message values accepted for it |
| Passing.StaleIff | lib/framework/sys_core.c:254-255 | in every run from power-up: what is read after the handler has returned is the message it received, in every continuation, exactly if the handler holds it when it returns, or if no other thread exists and it was not freed |
| Passing.SafeExactlyIfHeld | lib/framework/sys_core.c:254-268 | the same rule for every sound state and every dispatch result |
| Passing.FreedInTime | lib/framework/sys_core.c:240-306 | whatever waits in the queues and whatever the others are doing, a message that was passed on can be freed before its options are read, if there is another thread |
| Passing.RegrantedIsStale | lib/framework/sys_core.c:255 | a freed message's address may be granted again, and the read is of that other buffer then |
| Passing.NotGrantedAgain | lib/framework/sys_core.c:240-270 | the address of a message in msg_receiver that was not freed is granted to nobody |
| Passing.NeverStale | lib/framework/sys_core.c:254-268 | if every handler that returns holds its message, no run reads the options of a message that was freed |
| Passing.ReplyRace | lib/framework/sys_msg.c:112-125 | a handler that has replied with its own message, or sent or freed it, whatever others did meanwhile, and returns DISPATCH_DO_NOT_FREE is never safe where a second thread runs |
| Runs.AloneIsFinish | lib/framework/sys_core.c:61-306 | the steps of a call that nothing interrupts have the outcome that the methods are proved against |
| Runs.SendsAreMethods | lib/framework/sys_msg.c:15-45 | an uninterrupted send or unicast of a thread leads to the state that the method is proved to produce |
| Runs.ForwardsAreMethods | lib/framework/sys_msg.c:112-174 | the same for broadcast, targeted send and reply: the header as rewritten before sending is given field by field |
| Runs.CreatesAreMethods | lib/framework/sys_msg.c:47-149 | the same for the create functions and the timer interrupt |
| Runs.FlushIsMethod | lib/framework/sys_core.c:284-306 | the same for a flush |
| Runs.OwnBuffers | lib/framework/buffer_pool.c:57-111 | a thread in its own code gets a zeroed buffer at a free address, may rewrite a message it holds, or give it back; nothing else changes |
| Runs.OwnReceiver | lib/framework/sys_core.c:28-50 | and registers a receiver: its slot is taken exactly if it is below 32 and unused |
| Runs.PassIsHandled | lib/framework/sys_core.c:240-270 | a pass of a thread through the receive loop, with any steps of its handler and of others in between, leads to the state that the method msg_receiver is proved to produce |
| Outcomes.SendOutcome | lib/framework/sys_core.c:61-82 | a send reaches the queue of the registered receiver with rx_id set, or fails without queueing anything |
| Outcomes.PuttingOutcome | lib/framework/sys_core.c:181-220 | a put succeeds exactly if the queue exists and has room and the code is valid; otherwise the message is freed or handed back |
| Outcomes.UnicastOutcome | lib/framework/sys_core.c:84-111 | a unicast is a send to the smallest id from 1 whose dispatcher has a handler, and fails exactly if there is none; only that queue can change |
| Outcomes.FlushOutcome | lib/framework/sys_core.c:284-306 | a flush frees exactly the messages of its queue, counts them, and changes nothing else |
| Outcomes.BroadcastOutcome | lib/framework/sys_core.c:113-179 | a broadcast reports the answer to its last attempt and frees the original exactly if that was a success |
| Outcomes.AttemptsInOrder | lib/framework/sys_core.c:133-168 | every receiver from id 1 is tried at most once, in order, and only if it has a handler and accepts the message |
| Outcomes.BroadcastMail | lib/framework/sys_core.c:133-168 | each successful attempt appends one copy, equal to the original except for rx_id; ineligible queues are untouched and every other copy is freed: live buffers grow by the copies delivered |
| Outcomes.BroadcastExactly | lib/framework/sys_core.c:133-168 | with separate queues a receiver is tried exactly if it is eligible and its copy was granted, and served exactly if its own queue had room, whatever happened to the others |
| Outcomes.BroadcastStatus | lib/framework/sys_core.c:133-178 | the result is the answer for the tried receiver of the greatest id |
| Broadcasts.ServedIffReady | lib/framework/sys_core.c:133-168 | a receiver gets its copy exactly if it wants the message, its copy was granted and its own queue had room when the broadcast began |
| Broadcasts.SuccessIff | lib/framework/sys_core.c:133-178 | a broadcast succeeds exactly if the receiver that is tried last is ready |
| Broadcasts.AllRoutedIff | lib/framework/sys_core.c:133-176 | all that want the message are served exactly if all of them were ready when the broadcast began |
| Broadcasts.NoneRoutedIff | lib/framework/sys_core.c:133-176 | nobody is served exactly if nobody was ready |
| Broadcasts.CommentHoldsIff | lib/framework/sys_core.c:170-176 | success means that all messages were routed for exactly those inputs in which all are ready as soon as the one tried last is |
| Broadcasts.FailureMeansNoneIff | lib/framework/sys_core.c:170-176 | failure means that nobody was served for exactly those inputs in which nobody is ready unless the one tried last is |
| Broadcasts.PartialBroadcast | lib/framework/sys_core.c:170-176 | from power-up any thread can fill a queue of depth 32 with live messages, after which a broadcast succeeds though a receiver is missed, or fails though one is served |
| Broadcasts.ServersStart | lib/framework/sys_core.c:28-50 | two registrations lead to such a power-up state |
| Interleaved.SendInterleaved | lib/framework/sys_msg.c:15-174 | with any steps of others in between, a send, unicast, reply, targeted send or create-and-send answers what the queue answered: on success it has put its message, with the contents of the call and the receiver's id, into that one queue and freed nothing; otherwise it has queued nothing, and the sysmsg forms have freed the message once, the others not |
| Interleaved.BroadcastInterleaved | lib/framework/sys_core.c:113-179 | with any steps of others in between, registrations included, a broadcast puts at most one copy per slot, in order, for the receiver registered there, equal to the original of the call except for rx_id; its answer is that of the last queue asked, every copy is queued or freed, and the original is freed once on success or by the sysmsg forms, and else never |
| Outcomes.WrappedBroadcast | lib/framework/sys_msg.c:96-110 | the wrapped broadcast frees the original exactly once whatever the last answer was |
| Outcomes.CreateAndBroadcast | lib/framework/sys_msg.c:96-110 | live buffers grow by exactly the number delivered, for any pattern of full queues and failed allocations |
| Outcomes.CreateAndSendMail | lib/framework/sys_msg.c:47-61 | a create-and-send appends the message to one mailbox and keeps one buffer, or changes no mailbox and leaves no buffer behind |
| Outcomes.WrappedOutcome | lib/framework/sys_msg.c:15-45 | the sys_msg.c forms do what the sys_core.c call does and free the message exactly when that handed it back, which is exactly when it failed |
| Effects.SendEffect | lib/framework/sys_core.c:61-82 | field by field: the message gets rx as its rx_id and its address is appended to the queue in slot rx, exactly if rx is below 32 and registered, the queue exists and has room and the code is not 0; otherwise no queue changes, the status is Full exactly for a full queue, and the message is freed or handed back |
| Effects.CreateEffect | lib/framework/sys_msg.c:47-61 | field by field: a message made and sent to rx waits there with its code, tx_id, options and body and rx as its rx_id, exactly if a buffer was granted and the send succeeds; otherwise nothing has changed |
| Effects.UnicastEffect | lib/framework/sys_core.c:84-111 | a unicast is a send to the smallest id from 1 to 31 whose dispatcher handles the code, and an error if there is none |
| Effects.CreateUnicastEffect | lib/framework/sys_msg.c:80-94 | the same for a message that is made first; without a receiver no buffer is left behind |
| Effects.FlushEffect | lib/framework/sys_core.c:284-306 | a flush of a registered id empties its queue, frees exactly the messages that waited there and counts them; any other flush changes nothing |
| Effects.BroadcastEffect | lib/framework/sys_core.c:113-179 | with a queue for each receiver: the receiver in slot id from 1 gets one copy with its own id as rx_id and all other fields as in the original, exactly if it handles the code, its filter accepts, its copy was granted and its queue has room; the original is gone |
| Effects.BroadcastElsewhere | lib/framework/sys_core.c:133-168 | queues that no receiver from slot 1 has are left alone |
| Effects.CreateBroadcastEffect | lib/framework/sys_msg.c:96-110 | the same for sysmsg_create_and_broadcast, whose copies have the code, the sender, no options and an empty body |
| Framework.MessageFramework.MsgRegisterReceiver | lib/framework/sys_core.c:28-50 | a slot below 32 that is unused is taken, in place; anything else is ignored |
| Framework.MessageFramework.MsgQueue | lib/framework/sys_core.c:181-220 | the message is appended; or nothing changes, and the status is Full exactly for a queue without room and Error for a missing queue or the code 0 |
| Framework.MessageFramework.MsgSend | lib/framework/sys_core.c:61-82 | result and new state are the outcome of a send; NULL is an error that changes nothing |
| Framework.MessageFramework.MsgUnicast | lib/framework/sys_core.c:84-111 | result and new state are the outcome of a unicast, and the message is kept exactly on failure |
| Framework.MessageFramework.MsgBroadcast | lib/framework/sys_core.c:113-179 | result and new state are the outcome of a broadcast |
| Framework.MessageFramework.BroadcastTo | lib/framework/sys_core.c:134-167 | one turn of the loop leaves the copy in the queue or changes nothing |
| Framework.MessageFramework.MsgFlush | lib/framework/sys_core.c:284-306 | the draining loop empties the queue of a registered id, frees its messages and counts them; nothing else changes |
| Framework.MessageFramework.MsgRecv | lib/framework/sys_core.c:222-238 | the head of the queue is taken, or nothing changes |
| Framework.MessageFramework.MsgReceiver | lib/framework/sys_core.c:240-270 | one message is taken from the head of the queue and dispatched, and freed unless its handler returned DISPATCH_DO_NOT_FREE; without a handler it is freed; an empty queue changes nothing |
| Framework.MessageFramework.PeriodicTimerCallbackIsr | lib/framework/sys_core.c:358-378 | on success one message with code 1, the task as sender and receiver, no options and no body is appended to the task's queue; on failure nothing changes |
| Framework.MessageFramework.DeallocateOnError | lib/framework/sys_msg.c:179-183 | the message is freed exactly on failure |
| Framework.MessageFramework.SysmsgSend | lib/framework/sys_msg.c:15-28 | outcome of the freeing send to the message's own rx_id |
| Framework.MessageFramework.SysmsgSendto | lib/framework/sys_msg.c:30-37 | outcome of the freeing send after rx_id was overwritten |
| Framework.MessageFramework.SysmsgUnicast | lib/framework/sys_msg.c:39-45 | outcome of the freeing unicast |
| Framework.MessageFramework.CreateAndRoute | lib/framework/sys_msg.c:47-149 | outcome of allocating, filling in and routing a message; without a buffer nothing changes and the result is an error |
| Framework.MessageFramework.SysmsgCreateAndSend | lib/framework/sys_msg.c:47-61 | on success one message with the code, txId as sender, rxId as receiver, options 0 and no body is appended to the queue of rxId, in a buffer that was free; on failure nothing changes |
| Framework.MessageFramework.SysmsgCreateAndSendtoSelf | lib/framework/sys_msg.c:63-78 | on success one message with the code, id as sender and receiver, options 0 and no body is appended to the queue of id; on failure nothing changes |
| Framework.MessageFramework.SysmsgUnicastCreateAndSend | lib/framework/sys_msg.c:80-94 | outcome of creating a message with the code, the sender, options 0 and no body and unicasting it |
| Framework.MessageFramework.SysmsgCreateAndBroadcast | lib/framework/sys_msg.c:96-110 | outcome of creating a message with the code, the sender, options 0 and no body and broadcasting it |
| Framework.MessageFramework.SysmsgCbCreateAndSend | lib/framework/sys_msg.c:127-149 | outcome of creating a message with options 1 and the callback as its body, unicast exactly if rxId is 0 and else sent to rxId |
| Framework.MessageFramework.SysmsgReply | lib/framework/sys_msg.c:112-125 | the message goes back to its sender with the ids swapped and the new code, and is freed if that fails |
| Framework.MessageFramework.SysmsgFilteredTargetedSend | lib/framework/sys_msg.c:151-174 | with a target a freeing send to it, without one a freeing broadcast |
| AppMessages.DecodeOfEncode | app/src/event_task.c:98-101 | the receiver of an event message reads the fields that its sender wrote |
| AppMessages.EncodeLayout | include/framework/sys_msg_types.h:11-17 | the body of an event is type, data, id and time stamp as words of four bytes, the lowest first |
| ControlTask.FlowTextTellsReading | app/src/control_task.c:402-403 | the payload is "flow: " and a text that atoi reads as the reading, as a signed number from 2^31 |
| ControlTask.FlowTextsDiffer | app/src/control_task.c:402-403 | equal payloads come from equal readings |
| ControlTask.FlowTextFits | app/src/control_task.c:402-403 | the text of every reading fits tx_data, so none is cut |
| ControlTask.ControlTask.GetDevNonce | app/src/control_task.c:205-216 | 0 without a record, and the number in the record if it holds one |
| ControlTask.ControlTask.IncDevNonce | app/src/control_task.c:218-228 | the successor modulo 65536 is returned, and its decimal text is in the record unless the write failed |
| ControlTask.ControlTask.LorawanInit | app/src/control_task.c:230-253 | exactly if the stack starts, the nonce is read and a message with code 9 posted from and to the control task |
| ControlTask.ControlTask.HeartBeatMsgHandler | app/src/control_task.c:312-327 | one message with code 12 is sent from task 1 to task 2 and the timer runs again |
| ControlTask.ControlTask.JoinLorawanMsgHandler | app/src/control_task.c:343-393 | the loop stops exactly at the first answer 0, uses consecutive nonces modulo 65536, is a run of attempts and saves of the DevNonce device, and asks for a measurement exactly once joined |
| ControlTask.ControlTask.SensorEventMsgHandler | app/src/control_task.c:395-412 | an event of type 10 puts "flow: " and the signed text of its data into tx_data and turns the flag, any other changes neither; a message with code 10 is posted exactly if the flag is then set |
| ControlTask.ControlTask.SendDataLorawanMsgHandler | app/src/control_task.c:414-447 | every answer before the last is negative; the loop stops at the first answer that is not, or at exactly the seventh negative one other than -11, never before; if fewer than seven of these come before the first success it stops exactly there; it sends tx_data as it was, and clears it when it stops |
| ControlTask.HardFailuresCount | app/src/control_task.c:430-437 | the retry counter is the number of negative answers other than -11 |
| ControlTask.FirstSuccessEnds | app/src/control_task.c:425-440 | with fewer than seven such answers before it, the first success ends the sending |
| SensorTask.ReadingOfMeter | app/src/sensor_task.c:189-197 | the record that the meter's interrupt leaves is its count in decimal, and the reading is that count |
| SensorTask.ReadingWithoutRecord | app/src/sensor_task.c:189-197 | without a record the reading is 0 |
| SensorTask.FiresOnTime | app/src/sensor_task.c:222-232 | a running read timer with r seconds left has r - t left after t of them and fires at exactly the r-th, however many measures are handled meanwhile |
| SensorTask.IdleUntilMeasure | app/src/sensor_task.c:222-232 | a read timer that does not run never fires until a measure is handled, and then first after exactly 60 seconds |
| SensorTask.SensorTask.SensorMeasureMsgHandler | app/src/sensor_task.c:184-203 | one trigger for task 3 with type 10 and the reading of the record is sent; a read timer with seconds left keeps them, one that does not run gets 60 |
| SensorTask.SensorTask.SendSensorEvent | app/src/sensor_task.c:234-246 | the buffer filled in field by field and sent is a create-and-send of a message with code 14 from task 2 to task 3 and the event as its body |
| SensorTask.SensorTask.InitIntervalTimers | app/src/sensor_task.c:205-220 | the power timer runs; the read timer keeps its remaining time, or gets 60 seconds if it did not run |
| SensorTask.SensorTask.StartSensorInterval | app/src/sensor_task.c:222-232 | a read timer that does not run is started with 60 seconds, a running one keeps its remaining time |
| SensorTask.SensorTask.SensorReadTimerCallback | app/src/sensor_task.c:257-261 | the timer has stopped and one SMC_SENSOR_MEASURE was sent to the sensor task |
| SensorTask.SensorTask.PowerTimerCallback | app/src/sensor_task.c:251-255 | the timer has stopped and one SMC_READ_POWER was sent to the sensor task |
| EventTask.EventTask.EventMsgHandler | app/src/event_task.c:94-107 | the trigger's type and data go on from task 2 to task 1 under code 13 with the next event id |
| EventTask.EventTask.SendEventMsgLorawan | app/src/event_task.c:109-122 | the event id moves on, modulo 2^32, exactly if a buffer was granted, even if the send then fails |
| Books.HeartbeatToken | app/src/control_task.c:267-327 | in every state of every run the running timer, a handler about to start it, the waiting heartbeat and the lost ones make exactly one together |
| Books.MeasurementPotential | app/src/sensor_task.c:184-261 | measurements waiting, in hand and timed, plus those lost or merged, are 1 plus those the control task asked for, which are the heartbeats and joins handled |
| Books.ChainOfEvents | app/src/event_task.c:94-122 | triggers posted are measures handled, events posted are triggers handled, uplinks posted are ceil(n / 2) for n events handled, each up to what a running handler has yet to post, and each post is received, waiting or lost |
| Books.WaitingMessages | app/src/control_task.c:230-447 | in every state of every run each waiting message is addressed to the task in whose queue it waits, with a code and a sender that belong there, has options 0, and no body unless it is an event |
| Books.PowerTimerFiresOnce | app/src/sensor_task.c:205-255 | in every run the power timer is started once and sends one SMC_READ_POWER, and no more |
| EventIds.WaitingIdsRise | app/src/event_task.c:109-122 | in every run of fewer than 2^32 steps the ids of the events that wait for the control task rise strictly from first to last and stay below the next id |
| EventIds.PerformEvent | app/src/event_task.c:109-122 | an event that gets a buffer uses up its id, whether it is then queued or not |
| Uplinks.ReadingsInOrder | app/src/sensor_task.c:234-246 | the control task hears the measured readings in order, none twice, none invented; if none was lost or is under way, all of them |
| Uplinks.UplinkContent | app/src/control_task.c:395-447 | every uplink is "flow: " and a text that atoi reads as the newest reading heard since the uplink before, as a signed number; it is empty exactly if there is none, and reports only what was measured |
| Uplinks.ReadingsAreRecords | app/src/sensor_task.c:184-197 | every measured reading is that of a record that was stored at power-up or by the meter in the run |
| Uplinks.UplinkReportsCount | app/src/bsp.c:167-176 | over every run whose meter stores its counts in decimal, the number in an uplink is a count that was stored, or 0 for a store without a record |
| Uplinks.EveryCountGetsThrough | app/src/sensor_task.c:184-261 | for every stored count there is a run from power-up, through the timer, the three tasks and their messages, whose uplink reports that count |
| Uplinks.UplinksPerReading | app/src/control_task.c:404-409 | uplinks are at most half of the readings heard, rounded up |
| Embedding.DeliverRefines | lib/framework/sys_msg.c:47-61 | every post of the application's model is matched by the framework's create-and-send, in success and in every failure |

## Left out

- GPIO, LED, relay, ADC, Modbus and soil sensor code: driver calls without an invariant across operations.
- Zephyr itself (heap, queues, timers, NVS layout, LoRaMAC): only the contracts named above.
- Time and priorities: in the closed system a running timer may fire at any moment (`SensorTask.FiresOnTime` counts the seconds of the read timer alone), threads interleave freely, sleeps are nothing. `k_timer_remaining_get` is taken to be 0 exactly if the timer does not run.
- Shell commands, logging, downlinks, keys, boot and device tree: I/O and configuration.
- Float conversions of the sensor and battery values: single formulas.
- The call of a message's callback: only the read of its options is modelled; its effect would be one more piece of handler code.
- The `CONFIG_FILTER` branch and the double-free check of the pool: the filter's id is defined nowhere, and the check only logs.
- `msg_queue_is_empty`, `msg_stop_timer`, `msg_change_timer_period`, `SMC_FACTORY_RESET`, `SMC_SW_RESET`: the application does not use them, or they only log.
- BufferPool.BufferPool.TryToTake: does not model requests so large that size plus header wraps around; the counters allocs, cur_allocs, max_allocs and take_failures are unbounded.
- Framework.MessageFramework.MsgReceiver: takes the handler as a function of the system and does not model handlers that register receivers or a receiver without a dispatcher (a call of NULL in the source); in the thread machine a handler may do anything, registration included, and a receiver without a dispatcher handles nothing.
- Framework.MessageFramework.MsgBroadcast: does not model msg_size as a parameter of its own: copies have the size of the original, which is what the callers in the repository pass; another size would read past the message or cut it.
- Framework.MessageFramework.BroadcastTo: the same, for one copy.
- Framework.MessageFramework.SysmsgFilteredTargetedSend: the same, for the broadcast without a target.
- Outcomes.BroadcastMail: the same, for the copies of all receivers.
- Framework.MessageFramework.MsgFlush: answers 0 for a receiver without a queue, where the source hands NULL to k_msgq_get.
- Framework.MessageFramework.MsgRecv: does not wait on an empty queue; in the thread machine a waiting thread simply does nothing.
- Embedding.DeliverRefines: matches one post that nothing interrupts. `Interleaved.SendInterleaved` covers interleaved posts one by one; that whole runs of the thread machine with the three handlers simulate runs of Application, whose posts are single steps, is not proved.
- Framework.MessageFramework.MsgSend: the message is a value in a map from addresses, so a header field is written by replacing the value; aliasing is through the addresses.
- Decimal.AtoiOfDigits: atoi is modelled without the limits of int, beyond which C leaves it undefined, and on the characters in front of a NUL; a record as long as its buffer would be read past its end by the source.
- ControlTask.ControlTask.JoinLorawanMsgHandler: works on a finite list of answers, because the device may lose power at any attempt; that the list runs out stands for that.
- ControlTask.ControlTask.SendDataLorawanMsgHandler: works on a finite list of answers, because -EAGAIN may be answered for ever.
- AppMessages.DecodeOfEncode: fixes the layout of an event message to four bytes for its enum and a little-endian processor.
- Books.HeartbeatToken: the join loop is one step, taken when it ends; while it lasts the control task does nothing else, as in the source.
