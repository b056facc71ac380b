# GORN: a verified model of the key store

GORN is a small Chord-style store of keys. Clients send store and find messages to any node of a ring. Each
node forwards the keys that belong to other nodes, in batches, along links whose widths are powers of two, and
collects its own keys in files. A sorter merges these files into one sorted file, a find message is answered by
a streaming pass over that file, and a filter keeps keys that are already known out of the crawl queue.

The project models the loops and state machines that do this, and proves what they guarantee. Where the code
does less than its names suggest (a "search for new" that misses keys, a merge that drops the end of a file, a
batch loop that sends some keys twice), the model does what the code does, and the exact condition under which
the expected property holds is proved as an if-and-only-if.

## Structure

| module | what it models |
|---|---|
| `Machine`, `Keys`, `Text`, `Sums`, `Directories` | 64-bit words and signed characters; string order, sorting and flattening; number and string streams; sums over finite sets; listings of directories |
| `Ring` | the generated links, the greedy choice of a link, routes |
| `Messages`, `Status` | store and find messages; the nested status message |
| `Batching` | the batches of a redirection thread |
| `Nodes` | one node: its queues and the loop bodies of its threads, as a class |
| `Cluster`, `Weights`, `Delivery`, `Rounds` | all nodes under every interleaving, and what every run guarantees |
| `Runs`, `Losses` | runs that show where the guarantees end |
| `Outputs`, `Arrivals` | what nodes write, and the order in which messages and keys leave their queues |
| `Semaphores`, `BoundedQueue`, `Handover` | the hand-written semaphore, the producer/consumer queue under every interleaving, and what it hands over |
| `Streaming`, `Merging` | the passes over a sorted file and vectors in memory; `operator +` and its fold |
| `Searches` | what the search for new keys gives out, and what it misses |
| `QueueFiles`, `DirectoryQueue` | the lines of a queue file; the rename lock and the queue in a directory, for any number of processes |
| `Frontier` | repairing duplicates, and the filter in front of the crawl queue |
| `Packets` | numbering and reassembling what a session reads |
| `Sorter` | rounds of the sorter, overtaken by new batches at any point |
| `Formats` | the texts character by character, and what is refused |

## Main results

- On a ring of any size that divides 32, a link is always found, it clears exactly the top bit of the distance,
  and a key reaches its owner in as many hops as the distance has one bits (`Ring`). The added 32 and the
  64-bit wrap are harmless exactly when the size divides 32, and the two ways of computing a position agree
  exactly when the port root is a multiple of 20.
- Over every interleaving of all threads of all nodes, the keys held anywhere are exactly the keys that the
  messages of clients carried, each time that a key is sent gives at least one and at most `2^bits` copies
  (`Delivery`), and on a ring of a size that divides 32 a single message is safe in this sense exactly when it has
  no empty key or goes to node 0 (`Losses`); the runs that show this take short keys and messages that sessions
  deliver as they are. Whatever clients send, only a node's own keys get into its output, those whose first
  character is congruent to its port, they are written in sorted batches (`Outputs`), messages and queues are first
  in, first out (`Arrivals`), and every run has a number of steps bounded by its injections.
- When nothing can move any more, every key is with its owner or in a forwarding vector of at most 1000 keys, and
  its owner has a copy for each time that it was sent, but for at most 1000 on each other node (`Rounds`). A
  vector of find keys exceeds 1000 exactly if its thread missed the lock last, and that can be the end (`Losses`).
- The bounded queue accounts for every place and every item in every reachable state, hands items out in order,
  never returns null, and can deadlock exactly when its capacity, cut to 32 bits, is zero (`BoundedQueue`). The
  items are those that `put` was called with: the `k`-th pop returns the item of the `k`-th push (`Handover`).
- The rename lock excludes, and no queue entry is lost or popped twice, even with stale listings
  (`DirectoryQueue`); a push under the name of a file loses entries exactly when that file has any.
- `search_new` gives out exactly what `Streaming.Emitted` says: each key as often as it is searched for, or once
  less, with the exact condition for that. So it gives out a known key exactly if that is searched for twice, and it
  finds all new keys exactly under the condition of `FindsAllNewIff`; it is the set difference exactly under both
  (`Searches`).
- `sort_write_file` gives out exactly what `Streaming.Kept` says, which is the full merge exactly under the condition
  of `FullMergeIff`.
- Messages, queue files, status reports and sessions are read back as they were written, with the exact
  conditions (`Messages`, `QueueFiles`, `Status`, `Packets`).
- No key ever batched is lost by the sorter, and its file depends only on the set of keys batched. The names of
  batches are safe for this, whatever the batches hold and however the rounds fall, exactly when none is used twice
  (`Sorter`).
- Known keys never come back into the crawl queue; the repair of duplicates holds back unknown candidates
  exactly when the known keys had a duplicate (`Frontier`).

Some findings about the code are worth repeating. A message that announces more keys than it has is accepted, and
if one of its empty keys is forwarded its check sum turns up as a key (`EmptiesBecomeSum`, `ConservedIffClean`).
The thread that writes find keys tries the lock only after it has collected a key, so that a full vector waits
for the next find key, however long that takes (`FindWriterStuck`). A known key that is searched for twice comes back
as new (`KnownComesBackIff`), and the keys at the indices 99, 198, ... of a forwarded vector are searched for twice
even if they were sent once (`ForwardedKeyComesBack`). A repaired duplicate is a number that nobody may ever have
seen, and from then on it counts as known (`RoundLosesNothingIff`). And a message whose length is a multiple of 4096
does not end, as far as the receiver is concerned, and is joined with the next one (`MessagesComeBackIff`).

## Where the code differs from its documentation

The code is followed in each case.

- `README.md` says that only links which do not exist in the hash map are parsed. The search that this rests on
  gives out known keys that are searched for twice (`FindsOnlyNewIff`, `RepeatedKeys`), and misses new ones
  (`FindsAllNewIff`, `MissedKey`).
- `README.md` describes a hashing function and bins that are split when they grow. The code routes by the first
  character of a key and does not split anything.
- `utils/data/distributed_mutex.h` calls unlocking a mutex that is not locked an error. It prints a line and
  tries again without end.
- The check sum of a message is compared, but a mismatch is only printed (`CheckSumIsNotEnforced`).

## Model

| member | source | states |
|---|---|---|
| `Keys.TotalOrder` | utils/data/data.h:33-37 | The comparison of strings by which everything is sorted is a strict total order. |
| `Keys.LessMeans` | utils/data/data.h:33-37 | It is the lexicographic one: behind a common beginning the smaller string ends, or has the smaller character. |
| `Keys.SortSorts` | utils/data/data.h:33-37 | Sorting yields a sorted permutation. |
| `Keys.StrictlySortedUnique` | DataSorterDaemon/DataSorterDaemon.cpp:30-42 | A strictly sorted sequence is determined by its set of keys. |
| `Ring.GenerateLinks` | ConfigGenerator/GenerateClusterConfigs.cpp:58-66 | Node `k` gets one link for each power of two below the ring size, narrowest first, and none is missing. |
| `Ring.FindChordConnection` | HashTableDaemon/HashTableDaemon.cpp:58-75 | Returns the first link whose doubled width exceeds the distance, in wrapped 64-bit arithmetic, or -1 if there is none. |
| `Ring.WrapIsNeutral` | HashTableDaemon/HashTableDaemon.cpp:66-67 | The added 32 and the 64-bit wrap give the true ring distance for all ports exactly when the ring size divides 32; otherwise the distance from any port to the next is already wrong. |
| `Ring.ChordPicksTopBit` | HashTableDaemon/HashTableDaemon.cpp:58-75 | On a generated ring the routine never returns -1 for another node, and its link has the width of the top bit of the distance. |
| `Ring.ChordLinkLeadsOn` | HashTableDaemon/HashTableDaemon.cpp:58-75 | The link so picked exists and is that of the next node of the route. |
| `Ring.HopClearsTopBit` | HashTableDaemon/HashTableDaemon.cpp:58-75 | One hop takes exactly the top bit off the remaining distance. |
| `Ring.HopLosesOneBit` | HashTableDaemon/HashTableDaemon.cpp:58-75 | One hop takes exactly one of the one bits away. |
| `Ring.RouteReachesOwner` | HashTableDaemon/HashTableDaemon.cpp:58-75 | A key reaches its owner in as many hops as the distance has one bits, and in no more hops than a node has links. |
| `Ring.NodeIndexAgrees` | HashTableDaemon/HashTableDaemon.cpp:674 | `port % 10` and `port % 4` agree on all four nodes exactly when the port root is a multiple of 20. |
| `Ring.ShippedClusterRoutes` | HashTableDaemon/HashTableDaemon.cpp:58-75 | The shipped four-node cluster: the routine returns a link to the next node of the route. |
| `Text.DigitsValue` | utils/serializers/store_message_serialize.h:39-41 | A number printed in decimal denotes itself. |
| `Text.ReadBackToken` | utils/serializers/store_message_serialize.h:82-83 | A token followed by a blank is read back as it is, and the stream stands behind it. |
| `Text.ReadBackNumber` | utils/serializers/store_message_serialize.h:66-67 | The same for a word printed in decimal. |
| `Formats.NumbersRead` | utils/serializers/store_message_serialize.h:66-75 | Reading numbers in general: with and without a sign; negative ones modulo `2^64`, too large ones as the largest word, and nothing where no number stands. |
| `Formats.SpaceCodes` | utils/serializers/store_message_serialize.h:82 | White space is the blank and the characters with the codes 9 to 13. |
| `Messages.ComputeCheckSum` | utils/serializers/store_message_serialize.h:49-56 | The loop adds up every signed character plus one, modulo `2^64`. |
| `Formats.CheckSumIsSum` | utils/serializers/store_message_serialize.h:49-57 | The check sum is the sum of all codes plus one each, codes from 128 on less 256, as a 64-bit word. |
| `Formats.WordSizes` | utils/multithreading/semaphore.h:13 | A `std::size_t` has 64 bits and an `unsigned int` 32. |
| `Messages.ListMessage.SetData` | utils/serializers/store_message_serialize.h:24-34 | The field becomes the given list, whatever it held. |
| `Messages.ListMessage.Serialize` | utils/serializers/store_message_serialize.h:36-59 | Builds the tag, the announced count (the addition wraps at 64 bits), the values from the offset on, and the check sum of that text. |
| `Messages.ListMessage.ReadData` | utils/serializers/store_message_serialize.h:76-86 | Reads the announced number of values and copies exactly them to the text for the check sum. |
| `Messages.ListMessage.Deserialize` | utils/serializers/find_message_serialize.h:59-108 | Status, list and reported mismatch are those of `Decode`; on a wrong tag the list is left alone. |
| `Messages.RoundTrip` | utils/serializers/store_message_serialize.h:36-110 | For every list of tokens, reading what was written gives status 0, the list, the text that was summed byte for byte, equal sums, no residual, and the tag by which the consumer branches. |
| `Messages.RoundTripIffTokens` | utils/serializers/store_message_serialize.h:42-48 | Exactly the lists of non-empty strings without white space survive. |
| `Messages.CheckSumIsNotEnforced` | utils/serializers/store_message_serialize.h:97-100 | A message with any other check sum is accepted with the same values. |
| `Messages.OffsetBreaksCount` | utils/serializers/store_message_serialize.h:40-48 | The values written are the values read exactly when the offset is zero, there is no data, or the 64-bit sum of offset and count wraps to zero. |
| `Messages.EmptiesBecomeSum` | utils/serializers/store_message_serialize.h:73-109 | What a list with empty values turns into: it is accepted, all but one of its empty values come last, and its own check sum has become a value. |
| `Formats.OffsetText` | utils/serializers/store_message_serialize.h:36-59 | The text for any offset within the list: tag, end index, the values from the offset to the end index, and the check sum. |
| `Formats.DigitsOfTags` | utils/serializers/serialize.h:6-10 | The types are printed as 1234589, 4389728 and 3892051. |
| `Formats.StoreMessageText` | utils/serializers/store_message_serialize.h:39-48 | The text of a store message of `ab` and `c`, up to its check sum. |
| `Formats.RestIsRefusedIff` | utils/serializers/store_message_serialize.h:101-108 | A message that something follows is refused exactly if that is not all white space; its values are read all the same. |
| `Formats.OtherTypeIsRefused` | utils/serializers/store_message_serialize.h:69-72 | A message of another type is refused. |
| `Batching.SendBatch` | HashTableDaemon/HashTableDaemon.cpp:291-293 | Sends the message of one batch after those sent before. |
| `Batching.Redirect` | HashTableDaemon/HashTableDaemon.cpp:275-305 | The loop ends and sends exactly the messages of `Batches`, in order. |
| `Batching.BatchShape` | HashTableDaemon/HashTableDaemon.cpp:282-304 | Batch `b` is the stretch of at most 100 keys from index `99 b` on; there are `(n - 1) / 99` full ones and one more. |
| `Batching.SentOnceOrTwice` | HashTableDaemon/HashTableDaemon.cpp:284-298 | The indices 99, 198, ... are sent twice, in neighbouring batches, and every other index exactly once. |
| `Batching.BatchesHoldQueue` | HashTableDaemon/HashTableDaemon.cpp:275-305 | The batches hold exactly the keys of the vector. |
| `Nodes.CarriedRoundTrip` | HashTableDaemon/HashTableDaemon.cpp:83-93 | A message of tokens makes the consumer take the branch of its kind, with its list. |
| `Formats.CarriedByType` | HashTableDaemon/HashTableDaemon.cpp:79-93 | Messages of type 1234589 carry keys to store and those of type 4389728 keys to find; from one of another type, or one that something follows, nothing is taken. |
| `Nodes.CarriedAreValues` | HashTableDaemon/HashTableDaemon.cpp:83-93 | Whatever text comes in, the keys it yields hold no white space, and if one of them is empty so is the last one. |
| `Nodes.CarriedWithEmpties` | HashTableDaemon/HashTableDaemon.cpp:83-93 | A forwarded list with an empty key yields its other keys, its check sum in the place of one empty key, and the remaining empty ones. |
| `Nodes.Daemon.constructor` | ConfigGenerator/GenerateClusterConfigs.cpp:50-68 | A configured node starts empty, with the generated links. |
| `Nodes.Daemon.ChooseQueue` | HashTableDaemon/HashTableDaemon.cpp:99-111 | With `d` the code of the key's first character (0 for an empty key) minus the node's port, modulo the ring size, the answer is the output queue of the kind if `d` is zero, and otherwise the queue of the link `k` with `2^k <= d < 2^(k+1)`. |
| `Nodes.OwnsByCode` | HashTableDaemon/HashTableDaemon.cpp:99-101 | On a ring of a size that divides 32 a node owns exactly the keys whose first character has a code congruent to its position, for codes above 127 as well, which the code takes as negative and wraps. |
| `Nodes.EveryNodeOwns` | HashTableDaemon/HashTableDaemon.cpp:99-101 | Every node of such a ring owns some key of one character. |
| `Nodes.SameFirstSameWay` | HashTableDaemon/HashTableDaemon.cpp:99-111 | Keys with the same first character go to the same queue. |
| `Nodes.Daemon.ConsumeKeys` | HashTableDaemon/HashTableDaemon.cpp:94-112 | All keys of the message are routed, one after the other, as `RouteAll` says. |
| `Runs.RouteAllAt` | HashTableDaemon/HashTableDaemon.cpp:94-112 | What that means for each queue: it keeps what it has, followed by the keys of the message that are routed to it, in order. |
| `Nodes.Daemon.Consume` | HashTableDaemon/HashTableDaemon.cpp:79-144 | One round of the consumer takes one message and routes the keys it carries; none if it cannot be read. |
| `Nodes.Daemon.ForwardOne` | HashTableDaemon/HashTableDaemon.cpp:371-390 | One round of a forwarding thread collects one key, and hands over its vector when that exceeds 1000 keys. |
| `Nodes.Daemon.WriteOne` | HashTableDaemon/HashTableDaemon.cpp:191-248 | One round of a writing thread collects one key. When its vector exceeds 1000 keys it writes them as one sorted batch; the find thread only if it gets the lock, and without it goes back to wait for a key. |
| `Nodes.WriteAddsBatch` | HashTableDaemon/HashTableDaemon.cpp:206-221 | A write adds one sorted sequence with the keys of the vector, each as often, and empties the vector. |
| `Cluster.StepKeepsInv` | HashTableDaemon/HashTableDaemon.cpp:79-390 | Every step of every thread, whatever clients send, keeps each key in a place where it may be, and keeps the find thread's full vectors for the moments when it tries the lock or has missed it. |
| `Cluster.RunKeepsInv` | HashTableDaemon/HashTableDaemon.cpp:79-390 | So does every run. |
| `Cluster.StepKeepsTidy` | HashTableDaemon/HashTableDaemon.cpp:94-144 | If no message brings an empty key to a node other than 0, no empty key is ever on its way between nodes. |
| `Weights.StepWeight` | HashTableDaemon/HashTableDaemon.cpp:79-390 | For any weights on places, messages and attempts at the lock, exactly what each step adds to and takes from the total. |
| `Delivery.CopiesMeanHeld` | HashTableDaemon/HashTableDaemon.cpp:79-390 | A key has a copy exactly when it is in some queue, vector, message or file. |
| `Delivery.StepKeepsCopies` | HashTableDaemon/HashTableDaemon.cpp:79-390 | No step makes the copies of any key fewer while no empty key is on its way. |
| `Delivery.StepDissipates` | HashTableDaemon/HashTableDaemon.cpp:79-390 | Under weights that fall along the stages, every step but an injection makes the total smaller. |
| `Delivery.KeysConserved` | HashTableDaemon/HashTableDaemon.cpp:79-390 | In every reachable state of any ring, the keys held anywhere are exactly those that the clients' messages carried, if only node 0 is sent empty keys. |
| `Losses.ConservedIffClean` | HashTableDaemon/HashTableDaemon.cpp:79-390 | On a ring of a size that divides 32 a message, whatever its text, is safe to send in all otherwise clean runs exactly when it has no empty key or goes to node 0. It makes no difference whether the other messages are any or only such as sessions deliver as they are. |
| `Losses.DirtyMessageLoses` | HashTableDaemon/HashTableDaemon.cpp:79-390 | A message that brings an empty key elsewhere leads to a state with a key that nobody has sent, in a run whose other messages, those between nodes included, have no NUL and no length divisible by 4096, and whose other keys are longer than the number of its keys by at most 4096. |
| `Delivery.OwnersOnly` | HashTableDaemon/HashTableDaemon.cpp:99-111 | In every reachable state a node's output queue, writing vector and files hold its own keys only, and its forwarding queues none of them. |
| `Outputs.WrittenInBatches` | HashTableDaemon/HashTableDaemon.cpp:191-248 | In every reachable state, whatever clients send, what a node has written are sorted batches of more than 1000 keys, one after the other, and on a ring of a size that divides 32 all keys in them have a first character whose code is congruent to the node's position. |
| `Delivery.CopiesBounded` | HashTableDaemon/HashTableDaemon.cpp:275-305 | In these runs there are at least as many copies of a key as it was sent, and at most `2^bits` for each time it was sent. |
| `Delivery.RunsEnd` | HashTableDaemon/HashTableDaemon.cpp:191-306 | Every run, whatever clients send, has at most one further step for each message, and `9 * 2^bits - 5` for each key in it, times `9 * 2^n` for an empty key. |
| `Rounds.RedirectionIsSends` | HashTableDaemon/HashTableDaemon.cpp:267-306 | A redirection thread that runs to its end is one step for each batch, and delivers what `Redirect` sends. |
| `Rounds.SessionDeliversIff` | HashTableDaemon/HashTableDaemon.cpp:267-306 | What a redirection thread sends over its session arrives as the steps have it exactly when no message has a length divisible by 4096 or holds a NUL. |
| `Rounds.ConsumeIsSteps` | HashTableDaemon/HashTableDaemon.cpp:250-264 | A round of the consumer is one receive step and one routing step for each key. |
| `Arrivals.InboxIsFifo` | HashTableDaemon/HashTableDaemon.cpp:250-264 | In every run a node consumes the messages in the order in which they came in. |
| `Arrivals.ConsumesFirst` | HashTableDaemon/HashTableDaemon.cpp:250-264 | What it routes next are the keys of the message it took. |
| `Arrivals.QueueIsFifo` | HashTableDaemon/HashTableDaemon.cpp:94-144 | In every run the threads take the keys of a forwarding or output queue in the order in which the consumer put them there. |
| `Arrivals.TakenGoesLast` | HashTableDaemon/HashTableDaemon.cpp:191-390 | A key that a thread takes goes to the end of its vector. |
| `Arrivals.VectorArrives` | HashTableDaemon/HashTableDaemon.cpp:267-390 | A full vector that is handed over arrives whole at the node `2^link` places on, as the messages of its batches, in order and behind what waits there. |
| `Rounds.QuiescentShape` | HashTableDaemon/HashTableDaemon.cpp:191-390 | When nothing can move, all queues are empty and no vector exceeds 1000 keys, except that of a find thread, which does exactly if its last attempt missed the lock. |
| `Losses.FindWriterStuck` | HashTableDaemon/HashTableDaemon.cpp:204-208 | Such a state is reached on every ring of a size that divides 32, with messages that sessions deliver as they are: the cluster rests with more than 1000 find keys in a vector of their owner. |
| `Rounds.QuiescentKeys` | HashTableDaemon/HashTableDaemon.cpp:224-390 | Then every key that was sent is with its owner, or in a forwarding vector of at most 1000 keys. |
| `Rounds.QuiescentDelivered` | HashTableDaemon/HashTableDaemon.cpp:191-390 | Then the owner of a key has a copy of it for each time that it was sent, but for at most 1000 on each other node, and no more than `2^bits` for each time. |
| `Semaphores.NeverLost` | utils/multithreading/semaphore.h:38-59 | No wakeup is lost in any run, with barging and spurious wakeups. |
| `Semaphores.Semaphore.SignalOne` | utils/multithreading/semaphore.h:38-49 | The critical section of `signal` is the step `Signal`. |
| `Semaphores.Semaphore.LookOnce` | utils/multithreading/semaphore.h:51-59 | One look of `wait` is the step `Look`. |
| `BoundedQueue.StepKeepsInv` | utils/multithreading/producer_consumer_queue.h:19-47 | Every critical section of `put` and `get` keeps both balances, the order of items and the wakeups. |
| `BoundedQueue.QueueIsSafe` | utils/multithreading/producer_consumer_queue.h:19-54 | In every reachable state: both balances hold, the buffer is within capacity, counts fit into 32 bits and never wrap, items leave in order, and no consumer gets null. |
| `Handover.ItemsAreHandedOver` | utils/multithreading/producer_consumer_queue.h:20-46 | Told from the calls alone, in every run: the items are those that the threads called `put` with, in the order of their critical sections; the `k`-th pop yields the `k`-th of them, and its thread returns it; and each copy put is still to be handed in, in the buffer, about to be returned, or returned. |
| `Handover.HoldsUpToCapacity` | utils/multithreading/producer_consumer_queue.h:49-54 | The buffer can come to hold a sequence of items exactly if it is no longer than the buffer size modulo `2^32`. |
| `BoundedQueue.SleepersHaveReason` | utils/multithreading/producer_consumer_queue.h:19-47 | When nobody can run, producers sleep only at a full buffer and consumers only at an empty one. |
| `BoundedQueue.DeadlockIffNoCapacity` | utils/multithreading/producer_consumer_queue.h:49-54 | A state with a sleeping producer, a sleeping consumer and nobody to wake them is reachable exactly when the capacity is zero. |
| `BoundedQueue.ProducerConsumerQueue.constructor` | utils/multithreading/producer_consumer_queue.h:49-54 | The object starts in the initial state, with the buffer size cut to 32 bits. |
| `BoundedQueue.ProducerConsumerQueue.CallPutStep` | utils/multithreading/producer_consumer_queue.h:19 | A thread that calls `put` is at its first point, and the invariant is kept. |
| `BoundedQueue.ProducerConsumerQueue.CallGetStep` | utils/multithreading/producer_consumer_queue.h:29 | The same for `get`. |
| `BoundedQueue.ProducerConsumerQueue.AcquireEmptyStep` | utils/multithreading/producer_consumer_queue.h:21 | The first critical section of `put` is its step, and keeps the invariant. |
| `BoundedQueue.ProducerConsumerQueue.PushStep` | utils/multithreading/producer_consumer_queue.h:22-25 | So is the second. |
| `BoundedQueue.ProducerConsumerQueue.SignalFillStep` | utils/multithreading/producer_consumer_queue.h:26 | So is the third, for some choice of a thread to wake. |
| `BoundedQueue.ProducerConsumerQueue.AcquireFillStep` | utils/multithreading/producer_consumer_queue.h:32 | The first critical section of `get` is its step. |
| `BoundedQueue.ProducerConsumerQueue.PopStep` | utils/multithreading/producer_consumer_queue.h:33-40 | So is the second, and it yields the item at the front, never null. |
| `BoundedQueue.ProducerConsumerQueue.SignalEmptyStep` | utils/multithreading/producer_consumer_queue.h:41 | So is the third. |
| `Streaming.SearchNew` | utils/data/data.h:62-190 | The loop ends and gives out exactly the keys that are above the whole map, or whose successor comes no later than the first key of the map at or above them; all but the first if the map is empty. |
| `Streaming.LastTokenSeenIff` | utils/data/data.h:80-86 | The last token of a file is seen exactly if a delimiter follows it. |
| `Searches.EmittedTimes` | utils/data/data.h:62-190 | Of sorted data each key is given out as often as the data have it, or once less, namely if the map has a key from it on and the data have none above it up to the map's next; an empty map takes the first key once. |
| `Searches.EmittedInOrder` | utils/data/data.h:62-190 | The keys given out are sorted; with their numbers this determines the output. |
| `Searches.KnownComesBackIff` | utils/data/data.h:151-166 | A key of the map is given out once less than it is searched for, so exactly if it is searched for twice. |
| `Searches.FindsOnlyNewIff` | utils/data/data.h:62-190 | For all sorted data, no key of the map is given out exactly when none is searched for twice. |
| `Searches.EmittedAreNew` | utils/data/data.h:62-190 | In particular, of strictly increasing data no key is given out that the map has. |
| `Searches.FindsAllNewIff` | utils/data/data.h:62-190 | For all sorted data, all new keys are given out exactly when, for each new key below the largest of the map, the map's next key is searched for too, or the largest searched key below it is searched for twice; with an empty map, if there is nothing to find or the first key is searched for twice. |
| `Searches.StrictFindsAllNewIff` | utils/data/data.h:62-190 | For strictly increasing data this means that the map's next keys are searched for too; with an empty map, that there is nothing to find. |
| `Searches.IsDifferenceIff` | utils/data/data.h:62-190 | For all sorted data, the keys given out are the set difference of data and map exactly under both conditions. |
| `Searches.MissedKey` | utils/data/data.h:151-166 | Searching 1 and 5 in a map of 3 gives out 5 only. |
| `Searches.RepeatedKeys` | utils/data/data.h:151-166 | Searching 3 twice in a map of 3 gives out 3; searching 1 twice finds it, searching it once does not. |
| `Searches.BatchesTimes` | HashTableDaemon/HashTableDaemon.cpp:284-298 | The batches of a vector have every key as often as the vector, and those at the indices 99, 198, ... once more. |
| `Searches.SearchCollected` | HashTableDaemon/HashTableDaemon.cpp:206-217 | The find thread sorts what it has collected, so that the search may be called; the output is sorted and holds collected keys only. |
| `Searches.CollectedComesBackIff` | HashTableDaemon/HashTableDaemon.cpp:199-217 | A known key in the vector that a find thread has collected, in any order, is given out exactly if it was collected twice. |
| `Searches.ForwardedKeyComesBack` | HashTableDaemon/HashTableDaemon.cpp:199-306 | A known key at such an index of a forwarded vector is given out as new once its owner has collected the copies. |
| `Streaming.ChooseHead` | utils/data/data.h:219-248 | Picks the least of the vectors' heads, the first one if there are several. |
| `Streaming.SortWriteFile` | utils/data/data.h:192-290 | The loop ends; the output is sorted and consists of all vector keys and exactly the file's tokens below the largest of them. |
| `Streaming.KeptTimes` | utils/data/data.h:249-275 | A token of the file is kept, as often as the file has it, exactly if some key of the vectors is larger. |
| `Streaming.FullMergeIff` | utils/data/data.h:249-275 | The merge is a full one exactly when the file is empty or some key of the vectors is larger than its last token. |
| `Streaming.SortFiles` | utils/data/data.h:373-405 | The same for the files of a directory, each sorted first, and removed if asked for; nothing is written for an empty directory. |
| `Merging.Plus` | utils/data/sorting.h:7-43 | Fills every cell of the output array with the merge of the two inputs. |
| `Merging.MergeSorted` | utils/data/sorting.h:15-41 | The merge of sorted inputs is sorted. |
| `Merging.MergeKeeps` | utils/data/sorting.h:15-41 | It is a permutation of both inputs. |
| `Merging.MergeStable` | utils/data/sorting.h:19-28 | It is stable: for every key, first the elements of the first input, then those of the second, in order. |
| `Merging.StableUnique` | utils/data/sorting.h:15-41 | Sorted and stable leaves only one result. |
| `Merging.SortDirectory` | utils/data/data.h:342-367 | Folding it over a directory yields a sorted permutation of all tokens of all files. |
| `QueueFiles.WriteEntries` | utils/data/queue_file.h:119-126 | The loop prints one line per entry. |
| `QueueFiles.ReadEntries` | utils/data/queue_file.h:149-154 | The loop appends one entry per line to what the caller has. |
| `QueueFiles.ReadBackLine` | utils/data/queue_entry.h:29-35 | A printed line is read back as its entry. |
| `QueueFiles.RoundTripIff` | utils/data/queue_file.h:109-164 | Entries are read back as they were written exactly when no value holds white space. |
| `Formats.QueueFileText` | utils/data/queue_file.h:116-126 | The text of a file of two entries, one with an empty value. |
| `DirectoryQueue.StepKeepsLock` | utils/data/distributed_mutex.h:19-69 | Every step of every process keeps exactly one token file and at most one holder. |
| `DirectoryQueue.StepKeepsInv` | utils/data/queue_file.h:109-197 | Every step also keeps every entry in a file or among the popped. |
| `DirectoryQueue.MutualExclusion` | utils/data/distributed_mutex.h:19-42 | In every reachable state exactly one token file exists, at most one process holds the lock even if several passed the test, and it is held exactly while the locked file exists. |
| `DirectoryQueue.UnlockSucceeds` | utils/data/distributed_mutex.h:44-81 | A holder's unlock succeeds at its first attempt. |
| `DirectoryQueue.PushKeepsTrying` | utils/data/queue_file.h:37-58 | A push never gives up: in every run it goes on with the same entries and name until it writes its file. |
| `DirectoryQueue.FreeLockIsLeft` | utils/data/distributed_mutex.h:44-60 | A process that gives the lock back and finds it free tests again and changes nothing. |
| `DirectoryQueue.HeldLockIsLeft` | utils/data/queue_file.h:115-173 | With the lock held, a push tests again and a pop or a peek returns, and nothing else changes. |
| `DirectoryQueue.EntriesConserved` | utils/data/queue_file.h:37-164 | As often as an entry was pushed, it has been popped or is in a file that no pop has read, whatever listings were stale. |
| `DirectoryQueue.OverwriteIff` | utils/data/queue_file.h:116-126 | A push onto an existing name keeps all entries exactly when that file held none. |
| `DirectoryQueue.PushOver` | utils/data/queue_file.h:109-135 | Wherever the lock is free, a push from start to end gives it back, leaves exactly its entries under its name, and keeps all entries exactly when the name's file held none. |
| `DirectoryQueue.ReusedNameLoses` | utils/data/queue_file.h:109-135 | From the start, two pushes under one name lose entries exactly when the first had any. |
| `DirectoryQueue.DistributedMutex.Lock` | utils/data/distributed_mutex.h:19-42 | Succeeds exactly when there is no locked and there is an unlocked file, and renames it; otherwise changes nothing. |
| `DirectoryQueue.DistributedMutex.TryUnlock` | utils/data/distributed_mutex.h:44-69 | The converse. |
| `DirectoryQueue.QueueFile.Push` | utils/data/queue_file.h:109-135 | With the lock free, writes the entries and frees the lock; otherwise changes nothing and returns 1. |
| `DirectoryQueue.QueueFile.Pop` | utils/data/queue_file.h:137-164 | With the lock free, appends the entries of the file, removes it and frees the lock; a missing file yields nothing. |
| `DirectoryQueue.QueueFile.Peek` | utils/data/queue_file.h:166-194 | The same without removing the file. |
| `Frontier.VerifyUniqueness` | DistributedQueue/DistributedQueue.cpp:18-48 | Returns true exactly when no key occurs twice, in the same row or in different ones. |
| `Frontier.FirstFree` | DistributedQueue/DistributedQueue.cpp:63-77 | The inner loop ends; a taken key becomes the first number above its value that is free. |
| `Frontier.NextMeans` | DistributedQueue/DistributedQueue.cpp:63-77 | The number that is tried first is one more than the key's: 1 for a key without a number, and a negative one is taken modulo `2^64`. |
| `Frontier.EnforceUniqueness` | DistributedQueue/DistributedQueue.cpp:50-80 | Keeps the shape, and repairs each key with respect to the repaired keys before it. |
| `Frontier.RepairedAreDistinct` | DistributedQueue/DistributedQueue.cpp:50-80 | After the repair all keys are different, and every original key still occurs. |
| `Frontier.RepairsUnique` | DistributedQueue/DistributedQueue.cpp:50-80 | The result of the repair is determined by the input. |
| `Frontier.RepairIsIdentityIff` | DistributedQueue/DistributedQueue.cpp:50-80 | The repair changes nothing exactly when the keys are different. |
| `Frontier.CollectKnown` | DistributedQueue/DistributedQueue.cpp:88-113 | The error is found exactly when a known key occurs twice. |
| `Frontier.RemoveNonUnique` | DistributedQueue/DistributedQueue.cpp:82-144 | On that error the output stays as it was; otherwise it is the first occurrences of unknown candidates, in chunks of exactly `n_numbers` and one that is smaller. With `n_numbers` zero the chunks have one key each, and the last one none. |
| `Frontier.FirstNewElements` | DistributedQueue/DistributedQueue.cpp:126-130 | These are exactly the candidates that are not known, each once. |
| `Frontier.FirstNewOrder` | DistributedQueue/DistributedQueue.cpp:116-141 | They are in the order in which they first occur. |
| `Frontier.ChunkCount` | DistributedQueue/DistributedQueue.cpp:130-142 | There are as many full chunks as fit, and one more. |
| `Frontier.KnownKeysKept` | DistributedQueue/DistributedQueue.cpp:168-188 | Collecting and repairing twice leaves all known keys known, and all different. |
| `Frontier.Round` | DistributedQueue/DistributedQueue.cpp:190-261 | A round never takes the error return, its output has a last chunk, and it holds only candidates that are not known, each once, in chunks of exactly the file size and one that is smaller. |
| `Frontier.NothingLostIff` | DistributedQueue/DistributedQueue.cpp:70-76 | After one repair every new candidate passes, whatever the candidates are, exactly when the known keys had no duplicate. |
| `Frontier.RoundLosesNothingIff` | DistributedQueue/DistributedQueue.cpp:168-261 | After both repairs of a round every new candidate passes, whatever the candidates are, exactly when no key was twice in the files, those that came between the repairs included. |
| `Packets.Session.Run` | utils/asio/server.h:112-183 | The reads of a session are queued in order under the indices 2, 4, 6, ..., each cut at its first NUL. |
| `Packets.NumberedIncreases` | utils/asio/server.h:130-177 | These indices increase strictly. |
| `Packets.CollectPackets` | utils/asio/server.h:43-78 | The collecting loops make exactly the chunks of `Chunks` and keep the packets that wait for a short one. |
| `Packets.SortPacketsSorts` | utils/asio/server.h:38-41 | Sorting by index yields a permutation in order of index. |
| `Packets.ChunkNext` | utils/asio/server.h:59-72 | A chunk ends at its first short packet, and the next one starts after it. |
| `Packets.StreamIsReassembled` | utils/asio/server.h:52-74 | With increasing indices the chunks, and then what waits, are the stream; nothing short is left waiting. |
| `Packets.ReorderingIsHarmless` | utils/asio/server.h:61 | Full packets may come in any order ahead of their short one. |
| `Packets.ReceivedIsPrefix` | utils/asio/server.h:43-78 | Whatever the lengths of messages without NUL, the text received is a prefix of the text sent. |
| `Packets.MessagesComeBackIff` | utils/asio/server.h:59-72 | Messages cut into full reads and a last one come back as they were sent exactly when none of them has a length divisible by 4096 or holds a NUL. |
| `Sorter.UniqueSorts` | DataSorterDaemon/DataSorterDaemon.cpp:30-42 | The keys of a set in order: strictly sorted, and the same keys. |
| `Sorter.Iterate` | DataSorterDaemon/DataSorterDaemon.cpp:37-42 | So does the loop over the set. |
| `Sorter.Store.AddBatch` | HashTableDaemon/HashTableDaemon.cpp:239-241 | A new batch adds its keys and changes nothing else. |
| `Sorter.Store.CollectBatches` | DataSorterDaemon/DataSorterDaemon.cpp:21-29 | Empties the directory and has all keys of the old file and of all batches. |
| `Sorter.Store.SortFilesMap` | DataSorterDaemon/DataSorterDaemon.cpp:9-47 | Returns whether there were batches; if so the temporary file is strictly sorted and has exactly the old keys and those of the batches. |
| `Sorter.Store.Round` | DataSorterDaemon/DataSorterDaemon.cpp:62-73 | After a round no batch is left, and the file is strictly sorted with exactly these keys. |
| `Sorter.StepKeepsInv` | DataSorterDaemon/DataSorterDaemon.cpp:9-73 | Every file operation of a round, and every new batch in between, keeps every key that was batched, and makes none up. |
| `Sorter.StoreAccumulates` | DataSorterDaemon/DataSorterDaemon.cpp:9-73 | In every reachable state the file is strictly sorted, and the keys in it, in pending batches and in the sorter's hands are exactly those ever batched. |
| `Sorter.RoundIsSteps` | DataSorterDaemon/DataSorterDaemon.cpp:62-73 | A round whose steps follow each other ends with what `Store.Round` promises, which leaves one file only. |
| `Sorter.FileIsDetermined` | DataSorterDaemon/DataSorterDaemon.cpp:30-43 | When all batches are taken in, the file depends on the set of keys batched only: not on duplicates, batches or rounds. |
| `Sorter.OverwriteIff` | HashTableDaemon/HashTableDaemon.cpp:240-243 | A batch that takes the name of a pending one keeps all keys exactly when those of the old one are held elsewhere. |
| `Sorter.SafeIffNoneTwice` | HashTableDaemon/HashTableDaemon.cpp:225-243 | A sequence of names for batches keeps every key, under all contents and all schedules of the sorter, exactly when no name occurs twice. |
| `Status.SerializeList` | utils/serializers/system_status_serialize.h:9-22 | The loop writes a list as its length and its items. |
| `Status.DeserializeList` | utils/serializers/system_status_serialize.h:24-46 | The loop reads as many items as announced, and copies what it reads for the check sum. |
| `Status.StatusMessage.Serialize` | utils/serializers/system_status_serialize.h:218-241 | Builds the tag, the numbers of the package and the check sum. |
| `Status.StatusMessage.Deserialize` | utils/serializers/system_status_serialize.h:243-278 | Status, package and reported mismatch are those of `DecodeStatus`. |
| `Status.ListReadsBack` | utils/serializers/system_status_serialize.h:9-46 | A list of anything that is read back where it is written is itself read back, and exactly its numbers are consumed. |
| `Status.InfoReadsBack` | utils/serializers/system_status_serialize.h:130-193 | So is the whole nested package. |
| `Status.StatusRoundTrip` | utils/serializers/system_status_serialize.h:218-278 | If all numbers and lengths are below a million, the message is read with status 0, gives an equal package, rebuilds the text that was summed, and leaves nothing over. |
| `Formats.StatusNumbers` | utils/serializers/system_status_serialize.h:42-166 | The numbers of a package, in their order, each list behind its length. |
| `Formats.StatusMessageText` | utils/serializers/system_status_serialize.h:218-228 | The text of a type and two numbers. |
| `Formats.StatusRestIsRefusedIff` | utils/serializers/system_status_serialize.h:270-277 | A status message that something follows is refused exactly if that is not all white space. |
| `Formats.NoStatusIsRefused` | utils/serializers/system_status_serialize.h:250-253 | A message of another type is refused, and the package stays as it was. |

## Left out

- Sockets, Boost.Asio callbacks, DNS and thread creation: delivering a message to a running node is one reliable step, and packets are given.
- A process that stops between two file operations, and nodes that come and go.
- Races on files: batches are written without the lock that the sorter holds, and `comprehensive.out` is searched under another lock than it is replaced under.
- Files as bytes and the order of a directory: files are token sequences or text, a directory is a map, its listing is any permutation, and each file operation is atomic. Files that exist can be opened.
- The mutexes inside the semaphore and the queue: each critical section is one step.
- Objects without aliasing: the input streams of `Streaming` and the vectors of vectors of `Frontier` are values that the methods replace, not objects that their callers share.
- `Cluster.StepKeepsInv`: queues never block a producer, since 2^32 - 1 items would have to be waiting; the blocking queue is modelled by itself in `BoundedQueue`.
- `Losses.ConservedIffClean`: for rings of a size that divides 32, which the daemon's own arithmetic needs, as `Ring.WrapIsNeutral` says; the clean half, `Delivery.KeysConserved`, is for every size. The text in question is the one that arrives.
- `Rounds.QuiescentKeys`: does not say that forwarding and writing vectors are ever flushed, because the code keeps up to 1000 keys in them without limit of time.
- `Streaming.SearchNew`: the inner loop over the check vectors is written for the single vector that the source puts there.
- `Streaming.SortWriteFile`: the inner loop that picks a head is the method `ChooseHead`.
- `Messages.ListMessage.Deserialize`: a variable that a read at the end of the text leaves indeterminate is zero. This is so for a text that ends before the count, and for the check sum behind empty values, which only decides whether a mismatch is printed.
- `Nodes.Daemon.WriteOne`: whether the lock is free is a parameter, and the keys that are written or searched for end up in one place each; the file and the search are modelled in `Sorter` and `Streaming`.
- `Frontier.FirstFree`: `atoi` reads numbers of any size; the overflow of `int`, which the language leaves undefined, is not modelled.
- `Frontier.EnforceUniqueness`: `atoi` reads numbers of any size, so overflow of `int` is not modelled; the nested loops are methods for a row and a key.
- `DirectoryQueue.UnlockSucceeds`: covers the callers that hold the lock; the retry of `Unlock` by a process that does not hold it goes on for ever in the source and is not part of this model.
- `DirectoryQueue.EntriesConserved`: for files with names of their own and values without white space, as `ReusedNameLoses` and `QueueFiles.RoundTripIff` explain.
- `Sorter.StoreAccumulates`: for batches with names of their own; a restarted daemon counts its batches from zero again, and `SafeIffNoneTwice` and `OverwriteIff` say what that costs.
- `Packets.MessagesComeBackIff`: for reads that fill the buffer whenever the message goes on; a network that splits a message elsewhere ends chunks there, as `StreamIsReassembled` covers.
- `Status.SerializeList`: whole numbers stand for the `float`s that lists are turned into.
- `Status.DeserializeList`: whole numbers are read where the code reads `double`s.
- `Status.StatusMessage.Serialize`: every number is printed in full, as the code does below a million.
- `Status.StatusMessage.Deserialize`: fractions and exponents in a text from elsewhere are not read.
- `Status.StatusRoundTrip`: numbers of a million or more, which are printed with an exponent and rounded to six digits, and fractions.
- The status branches of the consumer, since they change no queue.
- `Crawler`, `StatusViewer`, `ClientInterface`, `DataGenerator`, `HashGenerator`, `MergeSort/main.cpp` and the reading of configurations: user interfaces, network and `/proc` access, or copies of loops that are modelled.
